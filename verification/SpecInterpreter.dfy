/** The interpreter object, its per-strategy loops, and the windows on which its two paths part. */
module SpecInterpreters {
  import opened Domain
  import opened GridEngine
  import opened RuleSyntax
  import opened RuleEvaluator
  import opened RuleSemantics
  import opened RuleLocality
  import opened Interpreters

  class SpecInterpreter {
    const spec: Spec
    const rules: Rules

    constructor (spec: Spec, rules: Rules)
      ensures this.spec == spec && this.rules == rules
    {
      this.spec, this.rules := spec, rules;
    }

    /** `signals`: the vectorized path. */
    method Signals(p: Prepared) returns (r: Result<seq<BarSignal>>)
      requires |p.times| == p.frame.rows
      ensures r == Interpreters.Signals(spec, rules, p)
    {
      match spec.kind {
        case Grid(g) =>
          var out := GridSignals(g, p);
          return Ok(out);
        case Dca(d) =>
          var out := DcaSignals(d, p);
          return Ok(out);
        case Rule =>
          if p.frame.rows == 0 { return Ok([]); }
          r := RuleSignals(p.frame);
      }
    }

    /** Each rule is evaluated once over the columns, then zipped into per-bar signals. */
    method RuleSignals(f: Frame) returns (r: Result<seq<BarSignal>>)
      ensures r == Interpreters.RuleSignals(rules, f)
    {
      var el, es := EvalSeries(rules.enterLong, f), EvalSeries(rules.enterShort, f);
      var xl, xs := EvalSeries(rules.exitLong, f), EvalSeries(rules.exitShort, f);
      if el.Err? { return Err(el.error); }
      if es.Err? { return Err(es.error); }
      if xl.Err? { return Err(xl.error); }
      if xs.Err? { return Err(xs.error); }
      if |el.value| != f.rows || |es.value| != f.rows || |xl.value| != f.rows || |xs.value| != f.rows {
        return Err(TypeClash);
      }
      var out: seq<BarSignal> := [];
      var i := 0;
      while i < f.rows
        invariant i <= f.rows && |out| == i
        invariant forall j | 0 <= j < i ::
          out[j] == BarSignal(el.value[j], es.value[j], xl.value[j], xs.value[j], [], false)
      {
        out := out + [BarSignal(el.value[i], es.value[i], xl.value[i], xs.value[i], [], false)];
        i := i + 1;
      }
      r := Ok(out);
      hide EvalSeries;
      assert Interpreters.RuleSignals(rules, f).Ok?;
      assert Interpreters.RuleSignals(rules, f).value == out;
    }

    method GridSignals(g: GridConfig, p: Prepared) returns (out: seq<BarSignal>)
      requires spec.kind == Grid(g) && |p.times| == p.frame.rows
      ensures Ok(out) == Interpreters.Signals(spec, rules, p)
    {
      hide Triggered;
      out := [];
      var prevLow: Option<Float> := None;
      var i := 0;
      while i < p.frame.rows
        invariant i <= p.frame.rows && |out| == i
        invariant prevLow == if i == 0 then None else Some(p.frame.Cell("low", i - 1))
        invariant forall j: nat | j < i :: out[j] == GridSignalAt(g, p.frame, j)
      {
        var low := p.frame.Cell("low", i);
        out := out + [NO_SIGNAL.(gridBuyLevels := Triggered(GridLevels(g), low, prevLow))];
        prevLow := Some(low);
        i := i + 1;
      }
      assert out == Interpreters.Signals(spec, rules, p).value;
    }

    method DcaSignals(d: DCAConfig, p: Prepared) returns (out: seq<BarSignal>)
      requires spec.kind == Dca(d) && |p.times| == p.frame.rows
      ensures Ok(out) == Interpreters.Signals(spec, rules, p)
    {
      TimeframePositive(spec);
      var tfMs := TIMEFRAME_MS[spec.timeframe];
      out := [];
      var i := 0;
      while i < |p.times|
        invariant i <= |p.times| && |out| == i
        invariant forall j: nat | j < i :: out[j] == DcaSignalAt(spec, d, p, j)
      {
        out := out + [NO_SIGNAL.(dcaBuy := DcaFires(d, tfMs, p.times[i]))];
        i := i + 1;
      }
      assert out == Interpreters.Signals(spec, rules, p).value;
    }

    /** `signal_at`: the vectorized path over the window, and its last element. */
    method SignalAt(window: Prepared) returns (r: Result<BarSignal>)
      requires |window.times| == window.frame.rows
      ensures r == Interpreters.SignalAt(spec, rules, window)
    {
      if window.frame.rows == 0 { return Ok(NO_SIGNAL); }
      var all := Signals(window);
      hide Interpreters.Signals;
      if all.Err? { return Err(all.error); }
      if all.value == [] { return Err(Unsupported); }
      r := Ok(all.value[|all.value| - 1]);
    }
  }

  // ---- windows of a grid ----

  lemma {:induction false} TriggeredIff(levels: seq<real>, low: Float, prev: Option<Float>, lvl: real)
    ensures lvl in Triggered(levels, low, prev) <==>
      lvl in levels && Compares(LtE, low, Fin(lvl)) && (prev.None? || Compares(Lt, Fin(lvl), prev.value))
  {
    if levels != [] {
      TriggeredIff(levels[..|levels| - 1], low, prev, lvl);
      assert levels == levels[..|levels| - 1] + [levels[|levels| - 1]];
    }
  }

  /**
   A grid level fires on a bar exactly when the bar's low reaches it and the previous low, if any, was above it. A
   one-row window has no previous low, so it agrees with the full run exactly when no reached level was reached before.
   */
  lemma OneRowGridWindow(g: GridConfig, f: Frame, t: nat, lvl: real)
    requires 2 <= g.levels && f.Valid() && 0 < t < f.rows && "low" in f.columns && lvl in GridLevels(g)
    ensures var full, window := GridSignalAt(g, f, t), GridSignalAt(g, Rows(f, t, t + 1), 0);
      var low, prev := f.Cell("low", t), f.Cell("low", t - 1);
      && (lvl in full.gridBuyLevels <==> Compares(LtE, low, Fin(lvl)) && Compares(Lt, Fin(lvl), prev))
      && (lvl in window.gridBuyLevels <==> Compares(LtE, low, Fin(lvl)))
      && ((lvl in full.gridBuyLevels) == (lvl in window.gridBuyLevels) <==>
            (Compares(LtE, low, Fin(lvl)) ==> Compares(Lt, Fin(lvl), prev)))
  {
    var w := Rows(f, t, t + 1);
    assert w.Cell("low", 0) == f.Cell("low", t);
    TriggeredIff(GridLevels(g), f.Cell("low", t), Some(f.Cell("low", t - 1)), lvl);
    TriggeredIff(GridLevels(g), f.Cell("low", t), None, lvl);
    hide Triggered, GridLevels, Rows, Compares;
  }

  /** Whatever window it is asked about, a grid interpreter only ever asks to buy at positive levels of its own grid. */
  lemma GridSignalsOnGrid(g: GridConfig, f: Frame, t: nat)
    requires 2 <= g.levels && 0.0 < g.lower < g.upper
    ensures var buys := GridSignalAt(g, f, t).gridBuyLevels;
      forall i | 0 <= i < |buys| :: buys[i] in GridLevels(g) && 0.0 < buys[i]
  {
    var buys := GridSignalAt(g, f, t).gridBuyLevels;
    forall i | 0 <= i < |buys|
      ensures buys[i] in GridLevels(g) && 0.0 < buys[i]
    {
      LevelPositive(g, buys[i]);
    }
  }

  lemma LevelPositive(g: GridConfig, lvl: real)
    requires 2 <= g.levels && 0.0 < g.lower < g.upper && lvl in GridLevels(g)
    ensures 0.0 < lvl
  {
    var i :| 0 <= i < g.levels && GridLevels(g)[i] == lvl;
    assert lvl == g.lower + Step(g) * i as real;
    StepPositive(g);
    ScaledNonneg(Step(g), i);
  }

  lemma StepPositive(g: GridConfig)
    requires 2 <= g.levels && g.lower < g.upper
    ensures 0.0 < Step(g)
  {
  }

  lemma ScaledNonneg(s: real, i: nat)
    requires 0.0 < s
    ensures 0.0 <= s * i as real
  {
  }
}

/** The one signal core: vectorized over a whole frame for a backtest, over a trailing window for a live session. */
module Interpreters {
  import opened Domain
  import opened GridEngine
  import opened RuleSyntax
  import opened RuleEvaluator
  import opened RuleSemantics
  import opened RuleLocality

  /** The entry and exit rules of a spec; a missing rule never fires. */
  datatype Rules = Rules(enterLong: Option<Node>, enterShort: Option<Node>, exitLong: Option<Node>,
    exitShort: Option<Node>)

  /** An indicator-augmented frame with its index of epoch milliseconds. */
  datatype Prepared = Prepared(frame: Frame, times: seq<int>) {
    ghost predicate Valid() {
      frame.Valid() && |times| == frame.rows
    }
  }

  // ---- column preparation ----

  /** The output columns that a spec's indicators compute over a frame of bars. */
  type Indicators = seq<OHLCVBar> -> map<string, seq<Float>>

  const OHLCV_COLUMNS: set<string> := {"open", "high", "low", "close", "volume"}

  function OhlcvColumns(bars: seq<OHLCVBar>): map<string, seq<Float>> {
    map["open" := seq(|bars|, i requires 0 <= i < |bars| => Fin(bars[i].open)),
        "high" := seq(|bars|, i requires 0 <= i < |bars| => Fin(bars[i].high)),
        "low" := seq(|bars|, i requires 0 <= i < |bars| => Fin(bars[i].low)),
        "close" := seq(|bars|, i requires 0 <= i < |bars| => Fin(bars[i].close)),
        "volume" := seq(|bars|, i requires 0 <= i < |bars| => Fin(bars[i].volume))]
  }

  function Times(bars: seq<OHLCVBar>): seq<int> {
    seq(|bars|, i requires 0 <= i < |bars| => bars[i].time)
  }

  /** The indicator outputs are assigned over the bar columns, so an output named like one of them replaces it. */
  function Prepare(ind: Indicators, bars: seq<OHLCVBar>): Prepared {
    Prepared(Frame(|bars|, OhlcvColumns(bars) + ind(bars)), Times(bars))
  }

  /** Indicators that compute, over any prefix of the bars, the prefix of what they compute over all of them. */
  ghost predicate Causal(ind: Indicators) {
    && (forall bars, id | id in ind(bars) :: |ind(bars)[id]| == |bars|)
    && (forall bars: seq<OHLCVBar>, k: nat | k <= |bars| :: ind(bars[..k]).Keys == ind(bars).Keys)
    && (forall bars: seq<OHLCVBar>, k: nat, id | k <= |bars| && id in ind(bars[..k]) && id in ind(bars) ::
          ind(bars[..k])[id] == ind(bars)[id][..k])
  }

  function RowsOf(p: Prepared, lo: nat, hi: nat): Prepared
    requires p.Valid() && lo <= hi <= p.frame.rows
  {
    Prepared(Rows(p.frame, lo, hi), p.times[lo..hi])
  }

  lemma PrepareValid(ind: Indicators, bars: seq<OHLCVBar>)
    requires Causal(ind)
    ensures Prepare(ind, bars).Valid()
  {
  }

  lemma OhlcvSlice(bars: seq<OHLCVBar>, lo: nat, hi: nat, id: string)
    requires lo <= hi <= |bars| && id in OHLCV_COLUMNS
    ensures |OhlcvColumns(bars)[id]| == |bars| && OhlcvColumns(bars[lo..hi])[id] == OhlcvColumns(bars)[id][lo..hi]
  {
  }

  /** Preparing a prefix of the bars gives the prefix of the prepared frame. */
  lemma PrepareCausal(ind: Indicators, bars: seq<OHLCVBar>, k: nat)
    requires Causal(ind) && k <= |bars|
    ensures Prepare(ind, bars).Valid()
    ensures Prepare(ind, bars[..k]) == RowsOf(Prepare(ind, bars), 0, k)
  {
    PrepareValid(ind, bars);
    var a, b := Prepare(ind, bars[..k]).frame.columns, Rows(Prepare(ind, bars).frame, 0, k).columns;
    assert OhlcvColumns(bars).Keys == OhlcvColumns(bars[..k]).Keys == OHLCV_COLUMNS;
    assert a.Keys == b.Keys;
    hide OhlcvColumns, Rows, OHLCV_COLUMNS;
    forall id | id in a
      ensures a[id] == b[id]
    {
      PrefixColumn(ind, bars, k, id);
    }
    assert a == b;
    assert Times(bars[..k]) == Times(bars)[0..k];
  }

  lemma PrefixColumn(ind: Indicators, bars: seq<OHLCVBar>, k: nat, id: string)
    requires Causal(ind) && k <= |bars| && Prepare(ind, bars).Valid()
    requires id in Prepare(ind, bars[..k]).frame.columns && id in Prepare(ind, bars).frame.columns
    ensures Prepare(ind, bars[..k]).frame.columns[id] == Rows(Prepare(ind, bars).frame, 0, k).columns[id]
  {
    assert OhlcvColumns(bars).Keys == OhlcvColumns(bars[..k]).Keys == OHLCV_COLUMNS;
    assert bars[0..k] == bars[..k];
    hide OhlcvColumns;
    if id in ind(bars) {
      assert ind(bars[..k])[id] == ind(bars)[id][..k];
    } else {
      OhlcvSlice(bars, 0, k, id);
    }
  }

  ghost predicate KeepsPrices(ind: Indicators, bars: seq<OHLCVBar>) {
    forall i | 0 <= i < |bars| ::
      var f := Prepare(ind, bars).frame;
      && f.Cell("open", i) == Fin(bars[i].open) && f.Cell("high", i) == Fin(bars[i].high)
      && f.Cell("low", i) == Fin(bars[i].low) && f.Cell("close", i) == Fin(bars[i].close)
  }

  /**
   The batch broker reads its prices from the prepared frame: they are the bars' prices if no output takes a bar
   column's name.
   */
  lemma DisjointKeepsPrices(ind: Indicators, bars: seq<OHLCVBar>)
    requires ind(bars).Keys !! OHLCV_COLUMNS
    ensures KeepsPrices(ind, bars)
  {
  }

  // ---- rule flags ----

  /** A column cell as a signal: an undefined value is none. */
  predicate CellFires(a: Atom) {
    match a
    case Num(x) => x.Fin? && x.v != 0.0
    case Bool(b) => b
    case NoneAtom => false
  }

  /** `bool(x)` of a scalar result: NaN is true. */
  predicate ScalarFires(a: Atom) {
    match a
    case Num(x) => x.NaN? || x.v != 0.0
    case Bool(b) => b
    case NoneAtom => false
  }

  /** One optional rule over a frame, as a flag for every bar. */
  function EvalSeries(rule: Option<Node>, f: Frame): Result<seq<bool>> {
    if rule.None? then Ok(seq(f.rows, _ => false)) else
      var r := Evaluate(rule.value, Columns(f));
      if r.Err? then Err(r.error)
      else if r.value.Column? then
        Ok(seq(|r.value.cells|, i requires 0 <= i < |r.value.cells| => CellFires(r.value.cells[i])))
      else Ok(seq(f.rows, _ => ScalarFires(r.value.atom)))
  }

  ghost predicate RuleTyped(rule: Option<Node>, names: set<string>) {
    rule.Some? ==> Typed(rule.value, names)
  }

  ghost predicate RulesTyped(rules: Rules, names: set<string>) {
    && RuleTyped(rules.enterLong, names) && RuleTyped(rules.enterShort, names)
    && RuleTyped(rules.exitLong, names) && RuleTyped(rules.exitShort, names)
  }

  /** Whether a rule fires at row `t`, by its meaning there. */
  predicate Fires(rule: Option<Node>, f: Frame, t: nat) {
    rule.Some? && if Columnar(rule.value) then CellFires(Meaning(rule.value, f, t))
      else ScalarFires(Meaning(rule.value, f, t))
  }

  /** A well-typed rule evaluates to its meaning, bar for bar. */
  lemma EvalSeriesIs(rule: Option<Node>, f: Frame)
    requires Usable(f) && RuleTyped(rule, f.columns.Keys)
    ensures var r := EvalSeries(rule, f);
      r.Ok? && |r.value| == f.rows && forall t: nat | t < f.rows :: r.value[t] == Fires(rule, f, t)
  {
    if rule.Some? {
      var n := rule.value;
      ColumnsMean(n, f);
      assert Columns(f).Keys == f.columns.Keys;
      hide Meaning, EvalNode, Validate, KindOf, Columnar;
      forall t: nat | t < f.rows
        ensures Meanings(n, f)[t] == Meaning(n, f, t)
      {
      }
    }
  }

  function RuleLookback(rule: Option<Node>): nat {
    if rule.Some? then Depth(rule.value) else 0
  }

  function RuleSignals(rules: Rules, f: Frame): (r: Result<seq<BarSignal>>) {
    var el, es := EvalSeries(rules.enterLong, f), EvalSeries(rules.enterShort, f);
    var xl, xs := EvalSeries(rules.exitLong, f), EvalSeries(rules.exitShort, f);
    if el.Err? then Err(el.error) else if es.Err? then Err(es.error)
    else if xl.Err? then Err(xl.error) else if xs.Err? then Err(xs.error)
    else if |el.value| != f.rows || |es.value| != f.rows || |xl.value| != f.rows || |xs.value| != f.rows then
      Err(TypeClash)
    else Ok(seq(f.rows,
      i requires 0 <= i < f.rows => BarSignal(el.value[i], es.value[i], xl.value[i], xs.value[i], [], false)))
  }

  function RuleSignalAt(rules: Rules, f: Frame, t: nat): BarSignal {
    BarSignal(Fires(rules.enterLong, f, t), Fires(rules.enterShort, f, t),
              Fires(rules.exitLong, f, t), Fires(rules.exitShort, f, t), [], false)
  }

  lemma RuleSignalsAre(rules: Rules, f: Frame)
    requires Usable(f) && RulesTyped(rules, f.columns.Keys)
    ensures var r := RuleSignals(rules, f);
      r.Ok? && |r.value| == f.rows && forall t: nat | t < f.rows :: r.value[t] == RuleSignalAt(rules, f, t)
  {
    EvalSeriesIs(rules.enterLong, f);
    EvalSeriesIs(rules.enterShort, f);
    EvalSeriesIs(rules.exitLong, f);
    EvalSeriesIs(rules.exitShort, f);
    hide EvalSeries, Fires, RuleTyped;
  }

  // ---- grid ----

  /** The levels that a bar trades down to from the previous low; no previous low stands for infinity. */
  function Triggered(levels: seq<real>, low: Float, prev: Option<Float>): (r: seq<real>)
    ensures forall i | 0 <= i < |r| :: r[i] in levels
  {
    if levels == [] then [] else
      var rest := Triggered(levels[..|levels| - 1], low, prev);
      var lvl := levels[|levels| - 1];
      if Compares(LtE, low, Fin(lvl)) && (prev.None? || Compares(Lt, Fin(lvl), prev.value)) then rest + [lvl] else rest
  }

  function GridSignalAt(g: GridConfig, f: Frame, t: nat): BarSignal
    requires 2 <= g.levels
  {
    NO_SIGNAL.(gridBuyLevels :=
      Triggered(GridLevels(g), f.Cell("low", t), if t == 0 then None else Some(f.Cell("low", t - 1))))
  }

  // ---- dca ----

  /** A buy on every `intervalBars`-th bucket of the timeframe since the epoch. */
  predicate DcaFires(d: DCAConfig, tfMs: int, time: int)
    requires 0 < tfMs && 0 < d.intervalBars
  {
    (time / tfMs) % d.intervalBars == 0
  }

  function DcaSignalAt(spec: Spec, d: DCAConfig, p: Prepared, t: nat): BarSignal
    requires spec.kind == Dca(d) && t < |p.times|
  {
    TimeframePositive(spec);
    NO_SIGNAL.(dcaBuy := DcaFires(d, TIMEFRAME_MS[spec.timeframe], p.times[t]))
  }

  lemma TimeframePositive(spec: Spec)
    ensures 0 < TIMEFRAME_MS[spec.timeframe]
  {
  }

  // ---- both paths ----

  /** `signals`: one decision per bar of the frame. */
  function Signals(spec: Spec, rules: Rules, p: Prepared): Result<seq<BarSignal>>
    requires |p.times| == p.frame.rows
  {
    var n := p.frame.rows;
    match spec.kind
    case Grid(g) => Ok(seq(n, i requires 0 <= i < n => GridSignalAt(g, p.frame, i)))
    case Dca(d) => Ok(seq(n, i requires 0 <= i < n => DcaSignalAt(spec, d, p, i)))
    case Rule => if n == 0 then Ok([]) else RuleSignals(rules, p.frame)
  }

  /** `signal_at`: the decision for the last bar of a window. */
  function SignalAt(spec: Spec, rules: Rules, window: Prepared): Result<BarSignal>
    requires |window.times| == window.frame.rows
  {
    if window.frame.rows == 0 then Ok(NO_SIGNAL) else
      var r := Signals(spec, rules, window);
      if r.Err? then Err(r.error)
      else if r.value == [] then Err(Unsupported)
      else Ok(r.value[|r.value| - 1])
  }

  /** How many rows before the last a window must hold. */
  function Lookback(spec: Spec, rules: Rules): nat {
    match spec.kind
    case Grid(_) => 1
    case Dca(_) => 0
    case Rule => Max(Max(RuleLookback(rules.enterLong), RuleLookback(rules.enterShort)),
                     Max(RuleLookback(rules.exitLong), RuleLookback(rules.exitShort)))
  }

  ghost predicate Ready(spec: Spec, rules: Rules, p: Prepared) {
    p.Valid() && (spec.kind.Rule? ==> RulesTyped(rules, p.frame.columns.Keys))
  }

  /** What the spec wants at row `t`. */
  function Wanted(spec: Spec, rules: Rules, p: Prepared, t: nat): BarSignal
    requires t < |p.times|
  {
    match spec.kind
    case Grid(g) => GridSignalAt(g, p.frame, t)
    case Dca(d) => DcaSignalAt(spec, d, p, t)
    case Rule => RuleSignalAt(rules, p.frame, t)
  }

  lemma SignalsAreWanted(spec: Spec, rules: Rules, p: Prepared)
    requires Ready(spec, rules, p)
    ensures var r := Signals(spec, rules, p);
      r.Ok? && |r.value| == p.frame.rows && forall t: nat | t < p.frame.rows :: r.value[t] == Wanted(spec, rules, p, t)
  {
    if spec.kind.Rule? && p.frame.rows > 0 {
      RuleSignalsAre(rules, p.frame);
    }
    hide RuleSignals, RuleSignalAt, RulesTyped, GridSignalAt, DcaSignalAt;
  }

  lemma FiresTail(rule: Option<Node>, f: Frame, t: nat, g: Frame, u: nat, d: nat)
    requires SameTail(f, t, g, u, d) && RuleLookback(rule) <= d
    ensures Fires(rule, f, t) == Fires(rule, g, u)
  {
    if rule.Some? {
      ShorterTail(f, t, g, u, d, Depth(rule.value));
      MeaningLocal(rule.value, f, t, g, u);
    }
    hide SameTail, Meaning, Columnar;
  }

  /** What the spec wants depends on the last rows only. */
  lemma WantedTail(spec: Spec, rules: Rules, p: Prepared, t: nat, q: Prepared, u: nat)
    requires t < |p.times| && u < |q.times| && p.times[t] == q.times[u]
    requires SameTail(p.frame, t, q.frame, u, Lookback(spec, rules))
    ensures Wanted(spec, rules, p, t) == Wanted(spec, rules, q, u)
  {
    var d := Lookback(spec, rules);
    match spec.kind {
      case Rule =>
        hide Fires, SameTail, RuleLookback;
        FiresTail(rules.enterLong, p.frame, t, q.frame, u, d);
        FiresTail(rules.enterShort, p.frame, t, q.frame, u, d);
        FiresTail(rules.exitLong, p.frame, t, q.frame, u, d);
        FiresTail(rules.exitShort, p.frame, t, q.frame, u, d);
      case Grid(g) =>
        assert p.frame.Cell("low", t) == q.frame.Cell("low", t + u - t);
        if t > 0 { assert p.frame.Cell("low", t - 1) == q.frame.Cell("low", t - 1 + u - t); }
        hide Triggered, GridLevels;
      case Dca(_) =>
        hide DcaFires;
    }
  }

  lemma WantedLocal(spec: Spec, rules: Rules, p: Prepared, lo: nat, t: nat)
    requires p.Valid() && lo <= t < p.frame.rows && (lo == 0 || Lookback(spec, rules) <= t - lo)
    ensures Wanted(spec, rules, RowsOf(p, lo, t + 1), t - lo) == Wanted(spec, rules, p, t)
  {
    var q := RowsOf(p, lo, t + 1);
    assert q.times[t - lo] == p.times[t];
    RowsSameTail(p.frame, lo, t, Lookback(spec, rules));
    hide SameTail, Rows, Lookback, Wanted;
    WantedTail(spec, rules, p, t, q, t - lo);
  }

  /**
   One engine, two paths: over a trailing window long enough for the spec, or over the whole prefix, the live path
   decides what the vectorized path decides for that bar of the full run.
   */
  lemma SignalAtMatchesSignals(spec: Spec, rules: Rules, p: Prepared, lo: nat, t: nat)
    requires Ready(spec, rules, p)
    requires lo <= t < p.frame.rows && (lo == 0 || Lookback(spec, rules) <= t - lo)
    ensures var r := Signals(spec, rules, p);
      r.Ok? && |r.value| == p.frame.rows && SignalAt(spec, rules, RowsOf(p, lo, t + 1)) == Ok(r.value[t])
  {
    var w := RowsOf(p, lo, t + 1);
    ReadyWindow(spec, rules, p, lo, t + 1);
    hide Signals, SignalAt, Wanted, Ready, RowsOf, Lookback;
    SignalsAreWanted(spec, rules, p);
    SignalsAreWanted(spec, rules, w);
    WantedLocal(spec, rules, p, lo, t);
    SignalAtIsLast(spec, rules, w);
  }

  lemma SignalAtIsLast(spec: Spec, rules: Rules, w: Prepared)
    requires |w.times| == w.frame.rows > 0
    requires var r := Signals(spec, rules, w); r.Ok? && |r.value| == w.frame.rows
    ensures SignalAt(spec, rules, w) == Ok(Signals(spec, rules, w).value[w.frame.rows - 1])
  {
    hide Signals;
  }

  lemma ReadyWindow(spec: Spec, rules: Rules, p: Prepared, lo: nat, hi: nat)
    requires Ready(spec, rules, p) && lo <= hi <= p.frame.rows
    ensures var w := RowsOf(p, lo, hi); Ready(spec, rules, w) && w.frame.rows == |w.times| == hi - lo
  {
    assert RowsOf(p, lo, hi).frame.columns.Keys == p.frame.columns.Keys;
    hide RulesTyped;
  }

  /** No look-ahead: with causal indicators, deciding on the bars so far is deciding on the full run at that bar. */
  lemma PrefixDecides(spec: Spec, rules: Rules, ind: Indicators, bars: seq<OHLCVBar>, i: nat)
    requires Causal(ind) && i < |bars|
    requires Ready(spec, rules, Prepare(ind, bars))
    ensures Prepare(ind, bars[..i + 1]).Valid()
    ensures var r := Signals(spec, rules, Prepare(ind, bars));
      r.Ok? && |r.value| == |bars| && SignalAt(spec, rules, Prepare(ind, bars[..i + 1])) == Ok(r.value[i])
  {
    PrepareCausal(ind, bars, i + 1);
    SignalAtMatchesSignals(spec, rules, Prepare(ind, bars), 0, i);
    hide SignalAt, Signals, Rows, Ready, Causal;
  }
}

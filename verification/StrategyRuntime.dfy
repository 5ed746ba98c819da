/** The runtime: fills the pending intents of the last close, then decides and submits this bar's. */
module StrategyRuntimes {
  import opened Domain
  import opened GridEngine
  import opened DcaEngine
  import opened PaperModel
  import opened PaperBrokers
  import opened LiveSession

  /** The one signal core, asked for the decision at the close of a window's last bar. */
  type Interpreter = f: seq<OHLCVBar> -> BarSignal | forall w :: PositiveLevels(f(w).gridBuyLevels)
    witness ((w: seq<OHLCVBar>) => NO_SIGNAL)

  // ---- the warm-up gate ----

  const LOOKBACK_KEYS: seq<string> := ["length", "slow", "fast", "period", "window"]

  /** `int(x)`: truncation toward zero. */
  function Truncated(x: real): int {
    if x >= 0.0 then x.Floor else -((-x).Floor)
  }

  /** The longest of the lookbacks that `params` declares under `keys`, at least 0. */
  function LongestUnder(params: map<string, real>, keys: seq<string>): nat {
    if keys == [] then 0 else
      var rest := LongestUnder(params, keys[..|keys| - 1]);
      var key := keys[|keys| - 1];
      if key in params then Max(rest, Truncated(params[key])) else rest
  }

  function Slowest(indicators: seq<map<string, real>>): nat {
    if indicators == [] then 0
    else Max(Slowest(indicators[..|indicators| - 1]), LongestUnder(indicators[|indicators| - 1], LOOKBACK_KEYS))
  }

  /** How many buffered bars the runtime waits for before it asks for a decision. */
  function MinSignalBars(spec: Spec): int {
    if Slowest(spec.indicatorParams) == 0 then 1 else Slowest(spec.indicatorParams) + 1
  }

  lemma {:induction false} LongestUnderBounds(params: map<string, real>, keys: seq<string>, i: nat)
    requires i < |keys|
    ensures keys[i] in params ==> Truncated(params[keys[i]]) <= LongestUnder(params, keys)
  {
    if i < |keys| - 1 {
      LongestUnderBounds(params, keys[..|keys| - 1], i);
    }
  }

  /** The gate never lets an indicator see fewer bars than one more than its longest lookback. */
  lemma {:induction false} SlowestBounds(indicators: seq<map<string, real>>, i: nat, k: nat)
    requires i < |indicators| && k < |LOOKBACK_KEYS|
    ensures LOOKBACK_KEYS[k] in indicators[i] ==> Truncated(indicators[i][LOOKBACK_KEYS[k]]) <= Slowest(indicators)
  {
    if i < |indicators| - 1 {
      SlowestBounds(indicators[..|indicators| - 1], i, k);
    } else {
      LongestUnderBounds(indicators[i], LOOKBACK_KEYS, k);
    }
  }

  /** `len` is the whole part of `x`, its fraction dropped. */
  ghost predicate WholePart(x: real, len: int) {
    if 0.0 <= x then len as real <= x < len as real + 1.0 else len as real - 1.0 < x <= len as real
  }

  /** Some indicator declares a lookback of `len` bars. */
  ghost predicate Declares(indicators: seq<map<string, real>>, len: int) {
    exists i, key :: 0 <= i < |indicators| && key in {"length", "slow", "fast", "period", "window"}
      && key in indicators[i] && WholePart(indicators[i][key], len)
  }

  lemma WholePartIs(x: real, len: int)
    ensures WholePart(x, len) <==> len == Truncated(x)
  {
  }

  lemma {:induction false} LongestDeclared(params: map<string, real>, keys: seq<string>) returns (i: nat)
    ensures 0 < LongestUnder(params, keys) ==>
      i < |keys| && keys[i] in params && Truncated(params[keys[i]]) == LongestUnder(params, keys)
  {
    i := 0;
    if keys != [] {
      var n := |keys| - 1;
      i := LongestDeclared(params, keys[..n]);
      if keys[n] in params && LongestUnder(params, keys[..n]) < Truncated(params[keys[n]]) { i := n; }
    }
  }

  lemma {:induction false} SlowestDeclared(indicators: seq<map<string, real>>)
    ensures 0 < Slowest(indicators) ==> Declares(indicators, Slowest(indicators))
  {
    hide LongestUnder, Truncated, WholePart;
    if indicators != [] {
      var n := |indicators| - 1;
      SlowestDeclared(indicators[..n]);
      var k := LongestDeclared(indicators[n], LOOKBACK_KEYS);
      if Slowest(indicators[..n]) < Slowest(indicators) {
        var key := LOOKBACK_KEYS[k];
        WholePartIs(indicators[n][key], Slowest(indicators));
        assert key in {"length", "slow", "fast", "period", "window"};
        assert Declares(indicators, Slowest(indicators));
      } else if 0 < Slowest(indicators) {
        var i, key :| 0 <= i < n && key in {"length", "slow", "fast", "period", "window"}
          && key in indicators[i] && WholePart(indicators[i][key], Slowest(indicators));
        assert Declares(indicators, Slowest(indicators));
      }
    }
  }

  lemma DeclaredBounded(indicators: seq<map<string, real>>, len: int)
    requires Declares(indicators, len)
    ensures len <= Slowest(indicators)
  {
    var i, key :| 0 <= i < |indicators| && key in {"length", "slow", "fast", "period", "window"}
      && key in indicators[i] && WholePart(indicators[i][key], len);
    WholePartIs(indicators[i][key], len);
    var k := if key == "length" then 0 else if key == "slow" then 1 else if key == "fast" then 2
      else if key == "period" then 3 else 4;
    assert LOOKBACK_KEYS[k] == key;
    SlowestBounds(indicators, i, k);
  }

  /** The runtime waits for one bar more than the longest lookback that an indicator declares, or for one bar. */
  lemma GateIs(spec: Spec)
    ensures var longest := MinSignalBars(spec) - 1;
      && 0 <= longest && (0 < longest ==> Declares(spec.indicatorParams, longest))
      && forall len | Declares(spec.indicatorParams, len) :: len <= longest
  {
    SlowestDeclared(spec.indicatorParams);
    hide Slowest, Declares;
    forall len | Declares(spec.indicatorParams, len)
      ensures len <= MinSignalBars(spec) - 1
    {
      DeclaredBounded(spec.indicatorParams, len);
    }
  }

  // ---- the rolling buffer ----

  /** The last `size` bars; no size, and a size of zero, keep them all. */
  function Window(bars: seq<OHLCVBar>, size: Option<nat>): seq<OHLCVBar> {
    if size.Some? && 0 < size.value < |bars| then bars[|bars| - size.value..] else bars
  }

  lemma WindowGrows(bars: seq<OHLCVBar>, size: Option<nat>, i: nat)
    requires i < |bars|
    ensures Window(Window(bars[..i], size) + [bars[i]], size) == Window(bars[..i + 1], size)
  {
    assert bars[..i + 1] == bars[..i] + [bars[i]];
  }

  /** The decision submitted at the close of the bar that completes window `w`. */
  function Gated(spec: Spec, decide: Interpreter, w: seq<OHLCVBar>): (s: BarSignal)
    ensures PositiveLevels(s.gridBuyLevels)
  {
    if |w| < MinSignalBars(spec) then NO_SIGNAL else decide(w)
  }

  function DecisionOn(spec: Spec, decide: Interpreter, size: Option<nat>, bars: seq<OHLCVBar>, i: nat): (s: BarSignal)
    requires i < |bars|
    ensures PositiveLevels(s.gridBuyLevels)
  {
    Gated(spec, decide, Window(bars[..i + 1], size))
  }

  /** The runtime's decision at the close of each bar. */
  function Decisions(spec: Spec, decide: Interpreter, size: Option<nat>, bars: seq<OHLCVBar>): (live: seq<BarSignal>)
    ensures |live| == |bars| && PositiveBuys(live)
  {
    seq(|bars|, i requires 0 <= i < |bars| => DecisionOn(spec, decide, size, bars, i))
  }

  /** `curve` holds the portfolio equities after a session's first `i` bars. */
  ghost predicate LiveMarks(env: Env, bars: seq<OHLCVBar>, live: seq<BarSignal>, curve: seq<real>, i: nat)
    requires Feed(env, bars, live) && i <= |bars|
  {
    && |curve| == i
    && forall j: nat | j < i :: curve[j] == PaperEquity(env, LiveRun(env, bars, live, j + 1).state, bars[j].close)
  }

  lemma LiveMarksNext(env: Env, bars: seq<OHLCVBar>, live: seq<BarSignal>, curve: seq<real>, i: nat, equity: real)
    requires Feed(env, bars, live) && i < |bars|
    requires LiveMarks(env, bars, live, curve, i)
    requires equity == PaperEquity(env, LiveRun(env, bars, live, i + 1).state, bars[i].close)
    ensures LiveMarks(env, bars, live, curve + [equity], i + 1)
  {
    hide LiveRun, PaperEquity, Feed;
  }

  lemma LiveMarksDone(env: Env, bars: seq<OHLCVBar>, live: seq<BarSignal>, curve: seq<real>, equity: real)
    requires Feed(env, bars, live) && bars != []
    requires LiveMarks(env, bars, live, curve, |bars|)
    requires equity == PaperEquity(env, LiveFinal(env, bars, live).state, bars[|bars| - 1].close)
    ensures |curve| == |bars| && curve[|bars| - 1 := equity] == LiveCurve(env, bars, live)
  {
    hide LiveRun, PaperEquity, LiveFinal;
  }

  /** A session that has raised does not go on. */
  lemma {:induction false} RaisedStays(env: Env, bars: seq<OHLCVBar>, live: seq<BarSignal>, i: nat, n: nat)
    requires Feed(env, bars, live) && i <= n <= |bars|
    requires LiveRun(env, bars, live, i).Raised?
    ensures LiveRun(env, bars, live, n) == LiveRun(env, bars, live, i)
    decreases n
  {
    hide PaperBar, SubmitAll, IntentsFor;
    if i < n {
      RaisedStays(env, bars, live, i, n - 1);
    }
  }

  lemma LiveRunStep(env: Env, bars: seq<OHLCVBar>, live: seq<BarSignal>, i: nat)
    requires Feed(env, bars, live) && i < |bars|
    requires LiveRun(env, bars, live, i).Done?
    ensures var done := PaperBar(env, LiveRun(env, bars, live, i).state, bars[i]);
      LiveRun(env, bars, live, i + 1) == if done.Raised? then done
        else Done(SubmitAll(done.state, IntentsFor(env.spec, live[i])))
  {
    hide PaperBar, SubmitAll, IntentsFor;
  }

  class StrategyRuntime {
    const spec: Spec
    const broker: PaperBroker
    const decide: Interpreter
    const bufferSize: Option<nat>
    var buffer: seq<OHLCVBar>
    var barsProcessed: nat

    constructor (spec: Spec, broker: PaperBroker, decide: Interpreter, bufferSize: Option<nat>)
      ensures this.spec == spec && this.broker == broker && this.decide == decide && this.bufferSize == bufferSize
      ensures buffer == [] && barsProcessed == 0
    {
      this.spec, this.broker, this.decide, this.bufferSize := spec, broker, decide, bufferSize;
      buffer, barsProcessed := [], 0;
    }

    /** The longest declared indicator lookback, 0 without indicators. */
    method SlowestIndicatorLen() returns (maxLen: int)
      ensures maxLen == Slowest(spec.indicatorParams)
    {
      maxLen := 0;
      var inds := spec.indicatorParams;
      for i := 0 to |inds|
        invariant maxLen == Slowest(inds[..i])
      {
        assert inds[..i + 1][..i] == inds[..i];
        ghost var before := maxLen;
        for k := 0 to |LOOKBACK_KEYS|
          invariant maxLen == Max(before, LongestUnder(inds[i], LOOKBACK_KEYS[..k]))
        {
          assert LOOKBACK_KEYS[..k + 1][..k] == LOOKBACK_KEYS[..k];
          var key := LOOKBACK_KEYS[k];
          if key in inds[i] {
            maxLen := Max(maxLen, Truncated(inds[i][key]));
          }
        }
        assert LOOKBACK_KEYS[..|LOOKBACK_KEYS|] == LOOKBACK_KEYS;
      }
      assert inds[..|inds|] == inds;
    }

    /** Advances one bar: the broker first, then the decision on the window this bar completes. */
    method OnBar(bar: OHLCVBar) returns (ok: bool, signal: BarSignal)
      requires broker.env.spec == spec && broker.Valid()
      requires spec.kind.Dca? ==> 0.0 < bar.open
      modifies this, broker, broker.pos
      ensures broker.pos == null || broker.pos == old(broker.pos) || fresh(broker.pos)
      ensures var done := PaperBar(broker.env, old(broker.State()), bar);
        && ok == done.Done?
        && (!ok ==> broker.State() == done.state && buffer == old(buffer))
        && (ok ==>
          && buffer == Window(old(buffer) + [bar], bufferSize)
          && signal == Gated(spec, decide, buffer)
          && broker.State() == SubmitAll(done.state, IntentsFor(spec, signal)))
      ensures barsProcessed == old(barsProcessed) + if ok then 1 else 0
    {
      hide PaperBar, Slowest;
      signal := NO_SIGNAL;
      ok := broker.OnBar(bar);
      if !ok {
        return;
      }
      buffer := Window(buffer + [bar], bufferSize);
      barsProcessed := barsProcessed + 1;
      var slowest := SlowestIndicatorLen();
      NothingForNoSignal(spec, broker.State());
      if |buffer| < if slowest == 0 then 1 else slowest + 1 {
        return;
      }
      signal := decide(buffer);
      SubmitIntents(IntentsFor(spec, signal));
    }

    method SubmitIntents(intents: seq<OrderIntent>)
      modifies broker
      ensures broker.State() == SubmitAll(old(broker.State()), intents)
      ensures broker.pos == old(broker.pos)
    {
      hide Submitted;
      var rest := intents;
      while rest != []
        invariant SubmitAll(broker.State(), rest) == SubmitAll(old(broker.State()), intents)
        invariant broker.pos == old(broker.pos)
        decreases |rest|
      {
        var _ := broker.Submit(rest[0]);
        rest := rest[1..];
      }
    }

    static lemma NothingForNoSignal(spec: Spec, st: PaperState)
      ensures SubmitAll(st, IntentsFor(spec, NO_SIGNAL)) == st
    {
    }

    /** Consumes a feed bar by bar on a fresh broker. `curve` is the portfolio's equity after each bar. */
    method Consume(bars: seq<OHLCVBar>) returns (ok: bool, curve: seq<real>)
      requires broker.env.spec == spec && broker.State() == NewPaper(broker.env) && broker.pos == null
      requires buffer == []
      requires spec.kind.Dca? ==> OpensPositive(bars)
      modifies this, broker
      ensures var live := Decisions(spec, decide, bufferSize, bars);
        && Feed(broker.env, bars, live)
        && LiveRun(broker.env, bars, live, |bars|) == (if ok then Done(broker.State()) else Raised(broker.State()))
        && (ok ==> LiveMarks(broker.env, bars, live, curve, |bars|))
    {
      hide PaperBar, SubmitAll, IntentsFor, Gated, PaperEquity, LiveRun, LiveMarks, Feed, OpensPositive, Decisions;
      ghost var env, live := broker.env, Decisions(spec, decide, bufferSize, bars);
      SessionStarts(env, bars, live);
      curve := [];
      for i := 0 to |bars|
        invariant broker.pos == null || fresh(broker.pos)
        invariant LiveRun(env, bars, live, i) == Done(broker.State())
        invariant buffer == Window(bars[..i], bufferSize)
        invariant LiveMarks(env, bars, live, curve, i)
      {
        OpenPositive(env, bars, i);
        LiveRunStep(env, bars, live, i);
        DecisionAtBar(spec, decide, bufferSize, bars, i);
        var signal;
        ok, signal := OnBar(bars[i]);
        if !ok {
          RaisedStays(env, bars, live, i + 1, |bars|);
          return;
        }
        LiveRunPending(env, bars, live, i + 1);
        var equity := broker.PortfolioEquity();
        LiveMarksNext(env, bars, live, curve, i, equity);
        curve := curve + [equity];
      }
      ok := true;
    }

    /**
     A whole session: every bar of the feed, then the force-close, after which the last point of the curve is taken
     again. `!ok` is a session that raised.
     */
    method Session(bars: seq<OHLCVBar>) returns (ok: bool, curve: seq<real>)
      requires broker.env.spec == spec && broker.State() == NewPaper(broker.env) && broker.pos == null
      requires buffer == []
      requires spec.kind.Dca? ==> OpensPositive(bars)
      modifies this, broker
      ensures var o := LiveFinal(broker.env, bars, Decisions(spec, decide, bufferSize, bars));
        && ok == o.Done?
        && broker.State() == o.state
      ensures ok ==> curve == LiveCurve(broker.env, bars, Decisions(spec, decide, bufferSize, bars))
    {
      hide ForceClosed, PaperEquity, LiveRun, LiveMarks, Feed, LiveCurve, Decisions;
      ghost var env, live := broker.env, Decisions(spec, decide, bufferSize, bars);
      SessionStarts(env, bars, live);
      ok, curve := Consume(bars);
      if !ok {
        return;
      }
      LiveRunPending(env, bars, live, |bars|);
      ghost var before := broker.State();
      ok := broker.ForceClose();
      if ok && |bars| > 0 {
        ForceCloseKeepsMark(env, before);
        var equity := broker.PortfolioEquity();
        LiveMarksDone(env, bars, live, curve, equity);
        curve := curve[|bars| - 1 := equity];
      }
    }

    static lemma DecisionAtBar(spec: Spec, decide: Interpreter, size: Option<nat>, bars: seq<OHLCVBar>, i: nat)
      requires i < |bars|
      ensures Window(Window(bars[..i], size) + [bars[i]], size) == Window(bars[..i + 1], size)
      ensures Decisions(spec, decide, size, bars)[i] == Gated(spec, decide, Window(bars[..i + 1], size))
    {
      WindowGrows(bars, size, i);
    }

    static lemma SessionStarts(env: Env, bars: seq<OHLCVBar>, live: seq<BarSignal>)
      requires |live| == |bars| && PositiveBuys(live)
      requires env.spec.kind.Dca? ==> OpensPositive(bars)
      ensures Feed(env, bars, live)
      ensures LiveRun(env, bars, live, 0) == Done(NewPaper(env)) && LiveMarks(env, bars, live, [], 0)
      ensures bars == [] ==> LiveCurve(env, bars, live) == []
      ensures bars == [] ==> forall curve | LiveMarks(env, bars, live, curve, 0) :: curve == []
    {
    }

    static lemma OpenPositive(env: Env, bars: seq<OHLCVBar>, i: nat)
      requires i < |bars| && (env.spec.kind.Dca? ==> OpensPositive(bars))
      ensures env.spec.kind.Dca? ==> 0.0 < bars[i].open
    {
    }

    static lemma ForceCloseKeepsMark(env: Env, st: PaperState)
      requires st.Valid()
      ensures ForceClosed(env, st).state.mark == st.mark
    {
    }
  }
}

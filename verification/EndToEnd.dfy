/** From rules and bars to trades: the session driven by the interpreter against the backtest of the same spec. */
module EndToEnd {
  import opened Domain
  import opened RuleEngine
  import opened GridEngine
  import opened DcaEngine
  import opened PaperModel
  import opened LiveSession
  import opened RuleParity
  import opened ParityConditions
  import opened GridDcaParity
  import opened GridLedger
  import opened Solvency
  import opened Fillability
  import opened FramePrices
  import opened PriceParity
  import opened StrategyRuntimes
  import opened RuleSyntax
  import opened RuleEvaluator
  import opened Interpreters
  import opened SpecInterpreters

  // ---- the interpreter as the runtime's decision core ----

  lemma WantedPositive(spec: Spec, rules: Rules, p: Prepared, t: nat)
    requires t < |p.times|
    ensures PositiveLevels(Wanted(spec, rules, p, t).gridBuyLevels)
  {
    if spec.kind.Grid? {
      GridSignalsOnGrid(spec.kind.grid, p.frame, t);
    }
    hide GridSignalAt, DcaSignalAt;
  }

  /** The decision for window `w`; a rule whose operands clash raises, which no well-typed rule does. */
  function Decide(spec: Spec, rules: Rules, ind: Indicators, w: seq<OHLCVBar>): (s: BarSignal)
    ensures PositiveLevels(s.gridBuyLevels)
  {
    var r := SignalAt(spec, rules, Prepare(ind, w));
    if r.Ok? && PositiveLevels(r.value.gridBuyLevels) then r.value else NO_SIGNAL
  }

  function Deciding(spec: Spec, rules: Rules, ind: Indicators): Interpreter {
    (w: seq<OHLCVBar>) => Decide(spec, rules, ind, w)
  }

  /** The backtest's signals: the vectorized path over all the bars. */
  function BatchSignals(spec: Spec, rules: Rules, ind: Indicators, bars: seq<OHLCVBar>): seq<BarSignal> {
    var r := Signals(spec, rules, Prepare(ind, bars));
    if r.Ok? then r.value else []
  }

  /** The session's signals: the live path over each buffer, behind the warm-up gate. */
  function LiveSignals(spec: Spec, rules: Rules, ind: Indicators, size: Option<nat>,
                       bars: seq<OHLCVBar>): seq<BarSignal> {
    Decisions(spec, Deciding(spec, rules, ind), size, bars)
  }

  /** Causal indicators, none where the spec declares none, and for a rule spec rules well typed over the columns. */
  ghost predicate Sound(spec: Spec, rules: Rules, ind: Indicators, bars: seq<OHLCVBar>) {
    && Causal(ind) && Ready(spec, rules, Prepare(ind, bars))
    && (spec.indicatorParams == [] ==> ind(bars) == map[])
  }

  lemma BatchSignalsAre(spec: Spec, rules: Rules, ind: Indicators, bars: seq<OHLCVBar>)
    requires Sound(spec, rules, ind, bars)
    ensures var signals := BatchSignals(spec, rules, ind, bars);
      && |signals| == |bars| && PositiveBuys(signals)
      && forall i: nat | i < |bars| :: signals[i] == Wanted(spec, rules, Prepare(ind, bars), i)
  {
    var p := Prepare(ind, bars);
    SignalsAreWanted(spec, rules, p);
    forall i: nat | i < |bars|
      ensures PositiveLevels(Wanted(spec, rules, p, i).gridBuyLevels)
    {
      WantedPositive(spec, rules, p, i);
    }
    hide Signals, Wanted, Ready, Causal, PositiveLevels;
  }

  lemma DecideIsBatch(spec: Spec, rules: Rules, ind: Indicators, bars: seq<OHLCVBar>, i: nat)
    requires Sound(spec, rules, ind, bars) && i < |bars|
    ensures |BatchSignals(spec, rules, ind, bars)| == |bars|
    ensures Decide(spec, rules, ind, bars[..i + 1]) == BatchSignals(spec, rules, ind, bars)[i]
  {
    PrefixDecides(spec, rules, ind, bars, i);
    BatchSignalsAre(spec, rules, ind, bars);
    hide Signals, SignalAt, Wanted, Causal, Ready, PositiveLevels;
    assert PositiveLevels(BatchSignals(spec, rules, ind, bars)[i].gridBuyLevels);
  }

  /** The first `warmup` decisions are gated away. */
  function Gate(signals: seq<BarSignal>, warmup: nat): seq<BarSignal> {
    seq(|signals|, i requires 0 <= i < |signals| => if i < warmup then NO_SIGNAL else signals[i])
  }

  /** How many bars the warm-up gate suppresses: as many as the longest declared lookback. */
  function Warmup(spec: Spec): nat {
    Slowest(spec.indicatorParams)
  }

  lemma LiveSignalAt(spec: Spec, rules: Rules, ind: Indicators, size: Option<nat>, bars: seq<OHLCVBar>, i: nat)
    requires i < |bars|
    ensures |LiveSignals(spec, rules, ind, size, bars)| == |bars|
    ensures var w := Window(bars[..i + 1], size);
      LiveSignals(spec, rules, ind, size, bars)[i] == if |w| < MinSignalBars(spec) then NO_SIGNAL
        else Decide(spec, rules, ind, w)
  {
    hide Decide, Window, MinSignalBars;
  }

  lemma GateOpens(spec: Spec, i: nat)
    ensures i + 1 < MinSignalBars(spec) <==> i < Warmup(spec)
  {
  }

  /** Deciding bar by bar over the growing buffer gives the backtest's signals, except on the gated first bars. */
  lemma LiveSignalsAreGated(spec: Spec, rules: Rules, ind: Indicators, bars: seq<OHLCVBar>)
    requires Sound(spec, rules, ind, bars)
    ensures |BatchSignals(spec, rules, ind, bars)| == |bars|
    ensures LiveSignals(spec, rules, ind, None, bars) == Gate(BatchSignals(spec, rules, ind, bars), Warmup(spec))
  {
    BatchSignalsAre(spec, rules, ind, bars);
    var live, signals := LiveSignals(spec, rules, ind, None, bars), BatchSignals(spec, rules, ind, bars);
    assert |live| == |bars|;
    hide LiveSignals, Decide, BatchSignals, Sound, MinSignalBars, Warmup;
    forall i: nat | i < |bars|
      ensures live[i] == if i < Warmup(spec) then NO_SIGNAL else signals[i]
    {
      LiveSignalAt(spec, rules, ind, None, bars, i);
      GateOpens(spec, i);
      DecideIsBatch(spec, rules, ind, bars, i);
    }
  }

  /** A buffer shorter than the gate demands never decides anything. */
  lemma SmallBufferNeverDecides(spec: Spec, rules: Rules, ind: Indicators, size: nat, bars: seq<OHLCVBar>, i: nat)
    requires 0 < size < MinSignalBars(spec) && i < |bars|
    ensures LiveSignals(spec, rules, ind, Some(size), bars)[i] == NO_SIGNAL
  {
    hide Decide, Slowest;
  }

  // ---- whole specs ----

  const NO_INDICATORS: Indicators := (bars: seq<OHLCVBar>) => map[]

  ghost predicate LongOnly(rules: Rules) {
    rules.enterShort.None? && rules.exitShort.None?
  }

  ghost predicate ShortOnly(rules: Rules) {
    rules.enterLong.None? && rules.exitLong.None?
  }

  lemma OneSidedRules(spec: Spec, rules: Rules, ind: Indicators, bars: seq<OHLCVBar>)
    requires spec.kind.Rule? && Sound(spec, rules, ind, bars)
    ensures LongOnly(rules) ==> OneSided(Long, BatchSignals(spec, rules, ind, bars))
    ensures ShortOnly(rules) ==> OneSided(Short, BatchSignals(spec, rules, ind, bars))
  {
    BatchSignalsAre(spec, rules, ind, bars);
    hide Sound, BatchSignals, Prepare;
  }

  /**
   Any rule spec whose frame keeps the prices a run can tell apart: the session books exactly the trades of the backtest
   over the prepared frame if and only if folding and gating the signals never mattered to the position held, and every
   backtest trade is fillable.
   */
  lemma RuleSpecParity(env: Env, rules: Rules, ind: Indicators, bars: seq<OHLCVBar>)
    requires env.spec.kind.Rule? && Ascending(bars) && Sound(env.spec, rules, ind, bars) && FrameAgrees(env, ind, bars)
    ensures var signals, live := BatchSignals(env.spec, rules, ind, bars),
        LiveSignals(env.spec, rules, ind, None, bars);
      && |signals| == |live| == |bars| && PositiveBuys(live)
      && var batch := Final(env, PreparedBars(ind, bars), Driver(Backtest, signals));
         var session := LiveFinal(env, bars, live);
      && (session.Done? && session.state.trades == batch.trades <==>
            Harmless(env, bars, signals, live) && AllFillable(batch.trades))
  {
    hide BatchSignals, LiveSignals, Sound, Warmup, Final, LiveFinal, Harmless, AllFillable, PreparedBars;
    hide PricesDefined, SamePrices;
    BatchSignalsAre(env.spec, rules, ind, bars);
    LiveSignalsAreGated(env.spec, rules, ind, bars);
    SameFinal(env, bars, PreparedBars(ind, bars), Driver(Backtest, BatchSignals(env.spec, rules, ind, bars)));
    SessionMatchesBacktest(env, bars, BatchSignals(env.spec, rules, ind, bars),
      LiveSignals(env.spec, rules, ind, None, bars));
  }

  /** What is common to every one-sided spec: whole lists, one side, and a gate on exactly the first `Warmup` bars. */
  lemma OneSidedSpec(spec: Spec, rules: Rules, ind: Indicators, bars: seq<OHLCVBar>)
    requires spec.kind.Rule? && Sound(spec, rules, ind, bars)
    requires LongOnly(rules) || ShortOnly(rules)
    ensures var signals, live := BatchSignals(spec, rules, ind, bars), LiveSignals(spec, rules, ind, None, bars);
      && |signals| == |live| == |bars| && PositiveBuys(live)
      && OneSided(if LongOnly(rules) then Long else Short, signals) && GatedFirst(signals, live, Warmup(spec))
  {
    BatchSignalsAre(spec, rules, ind, bars);
    LiveSignalsAreGated(spec, rules, ind, bars);
    OneSidedRules(spec, rules, ind, bars);
    hide BatchSignals, LiveSignals, Sound, Warmup, LongOnly, ShortOnly, OneSided;
  }

  /**
   A long-only or short-only rule spec, its side conditions derived rather than assumed: the session driven by the
   interpreter books exactly the backtest's trades if and only if every backtest trade is fillable and no entry fires on
   a bar that the warm-up gate suppresses and that has a bar after it; equity and cash then agree too.
   */
  lemma OneSidedSpecParity(env: Env, rules: Rules, ind: Indicators, bars: seq<OHLCVBar>)
    requires env.spec.kind.Rule? && Ascending(bars) && Sound(env.spec, rules, ind, bars) && FrameAgrees(env, ind, bars)
    requires LongOnly(rules) || ShortOnly(rules)
    ensures var signals, live := BatchSignals(env.spec, rules, ind, bars),
        LiveSignals(env.spec, rules, ind, None, bars);
      && |signals| == |live| == |bars| && PositiveBuys(live)
      && var seen := PreparedBars(ind, bars);
         var batch, session := Final(env, seen, Driver(Backtest, signals)), LiveFinal(env, bars, live);
      && (session.Done? && session.state.trades == batch.trades <==>
            AllFillable(batch.trades) && NoLostEntry(signals, Warmup(env.spec)))
      && (AllFillable(batch.trades) && NoLostEntry(signals, Warmup(env.spec)) ==>
            && session.state.Acct() == batch
            && LiveCurve(env, bars, live) == Curve(env, seen, Driver(Backtest, signals)))
  {
    OneSidedSpec(env.spec, rules, ind, bars);
    hide BatchSignals, LiveSignals, Sound, Warmup, Final, LiveFinal, LiveCurve, Curve, AllFillable, PreparedBars;
    hide PricesDefined, SamePrices, NoLostEntry, LongOnly, ShortOnly;
    var signals, live := BatchSignals(env.spec, rules, ind, bars), LiveSignals(env.spec, rules, ind, None, bars);
    SameFinal(env, bars, PreparedBars(ind, bars), Driver(Backtest, signals));
    SameCurve(env, bars, PreparedBars(ind, bars), Driver(Backtest, signals));
    OneSidedParity(env, bars, signals, live, if LongOnly(rules) then Long else Short, Warmup(env.spec));
  }

  /**
   The session of a spec never raises; it reports the trades of the backtest over the prepared frame, and then its whole
   account and curve, if and only if no entry is lost to the gate.
   */
  ghost predicate UnconditionalSpecParity(env: Env, rules: Rules, ind: Indicators, bars: seq<OHLCVBar>)
    requires env.spec.kind.Rule?
  {
    var signals, live := BatchSignals(env.spec, rules, ind, bars), LiveSignals(env.spec, rules, ind, None, bars);
    && PricesDefined(ind, bars) && |signals| == |bars|
    && UnconditionalParity(env, bars, PreparedBars(ind, bars), signals, live, Warmup(env.spec))
  }

  /**
   A long-only spec without funding that never outspends its cash: no condition on the run, whatever the price path.
   */
  lemma SolventSpecParity(env: Env, rules: Rules, ind: Indicators, bars: seq<OHLCVBar>)
    requires env.spec.kind.Rule? && UnfundedPercent(env) && Thrifty(env) && env.config.slippagePct < 100.0
    requires Ascending(bars) && AllPositive(bars) && Sound(env.spec, rules, ind, bars) && FrameAgrees(env, ind, bars)
    requires LongOnly(rules)
    ensures UnconditionalSpecParity(env, rules, ind, bars)
  {
    OneSidedSpec(env.spec, rules, ind, bars);
    hide BatchSignals, LiveSignals, Sound, Warmup, Thrifty, Final, LiveFinal, LiveCurve, Curve, PreparedBars;
    hide AllPositive, Ascending, UnfundedPercent, PricesDefined, SamePrices, NoLostEntry;
    SameFinal(env, bars, PreparedBars(ind, bars), Driver(Backtest, BatchSignals(env.spec, rules, ind, bars)));
    SameCurve(env, bars, PreparedBars(ind, bars), Driver(Backtest, BatchSignals(env.spec, rules, ind, bars)));
    SolventParity(env, bars, BatchSignals(env.spec, rules, ind, bars), LiveSignals(env.spec, rules, ind, None, bars),
                  Warmup(env.spec));
  }

  /**
   Any spec that trades a fixed quote or base amount, whatever its rules: its session never raises, and it books the
   trades of the backtest over the prepared frame if and only if folding and gating never mattered.
   */
  lemma FixedSizeSpecMatches(env: Env, rules: Rules, ind: Indicators, bars: seq<OHLCVBar>)
    requires env.spec.kind.Rule? && !env.spec.sizingMode.PercentEquity? && env.config.slippagePct < 100.0
    requires Ascending(bars) && AllPositive(bars) && Sound(env.spec, rules, ind, bars) && FrameAgrees(env, ind, bars)
    ensures var signals, live := BatchSignals(env.spec, rules, ind, bars),
        LiveSignals(env.spec, rules, ind, None, bars);
      && |signals| == |live| == |bars| && PositiveBuys(live)
      && var batch, session := Final(env, PreparedBars(ind, bars), Driver(Backtest, signals)),
             LiveFinal(env, bars, live);
         session.Done? && (session.state.trades == batch.trades <==> Harmless(env, bars, signals, live))
  {
    hide BatchSignals, LiveSignals, Sound, Warmup, Final, LiveFinal, Harmless, AllFillable, PreparedBars, AllPositive;
    hide PricesDefined, SamePrices;
    BatchSignalsAre(env.spec, rules, ind, bars);
    LiveSignalsAreGated(env.spec, rules, ind, bars);
    SameFinal(env, bars, PreparedBars(ind, bars), Driver(Backtest, BatchSignals(env.spec, rules, ind, bars)));
    FixedSizeMatches(env, bars, BatchSignals(env.spec, rules, ind, bars),
      LiveSignals(env.spec, rules, ind, None, bars));
  }

  /** A one-sided spec that trades a fixed quote or base amount, spot or swap: no condition on the run either. */
  lemma FixedSizeSpecParity(env: Env, rules: Rules, ind: Indicators, bars: seq<OHLCVBar>)
    requires env.spec.kind.Rule? && !env.spec.sizingMode.PercentEquity? && env.config.slippagePct < 100.0
    requires Ascending(bars) && AllPositive(bars) && Sound(env.spec, rules, ind, bars) && FrameAgrees(env, ind, bars)
    requires LongOnly(rules) || ShortOnly(rules)
    ensures UnconditionalSpecParity(env, rules, ind, bars)
  {
    OneSidedSpec(env.spec, rules, ind, bars);
    hide BatchSignals, LiveSignals, Sound, Warmup, Final, LiveFinal, LiveCurve, Curve, PreparedBars;
    hide AllPositive, Ascending, PricesDefined, SamePrices, NoLostEntry, LongOnly, ShortOnly;
    SameFinal(env, bars, PreparedBars(ind, bars), Driver(Backtest, BatchSignals(env.spec, rules, ind, bars)));
    SameCurve(env, bars, PreparedBars(ind, bars), Driver(Backtest, BatchSignals(env.spec, rules, ind, bars)));
    FixedSizeParity(env, bars, BatchSignals(env.spec, rules, ind, bars), LiveSignals(env.spec, rules, ind, None, bars),
                    if LongOnly(rules) then Long else Short, Warmup(env.spec));
  }

  lemma UngatedLive(spec: Spec, rules: Rules, ind: Indicators, bars: seq<OHLCVBar>)
    requires spec.indicatorParams == [] && Sound(spec, rules, ind, bars)
    ensures LiveSignals(spec, rules, ind, None, bars) == BatchSignals(spec, rules, ind, bars)
    ensures |BatchSignals(spec, rules, ind, bars)| == |bars| && PositiveBuys(BatchSignals(spec, rules, ind, bars))
    ensures PricesDefined(ind, bars) && PreparedBars(ind, bars) == bars
  {
    DisjointKeepsPrices(ind, bars);
    KeptPricesDefined(ind, bars);
    BatchSignalsAre(spec, rules, ind, bars);
    LiveSignalsAreGated(spec, rules, ind, bars);
    assert Warmup(spec) == 0;
    hide PreparedBars, PricesDefined, KeepsPrices;
    hide BatchSignals, LiveSignals, Sound;
    assert Gate(BatchSignals(spec, rules, ind, bars), 0) == BatchSignals(spec, rules, ind, bars);
  }

  /** Every grid spec without indicators: lots, trades, equity and cash of the session are the backtest's. */
  lemma GridSpecParity(env: Env, g: GridConfig, rules: Rules, ind: Indicators, bars: seq<OHLCVBar>)
    requires env.spec.kind == Grid(g) && env.spec.indicatorParams == [] && Sound(env.spec, rules, ind, bars)
    ensures PricesDefined(ind, bars) && PreparedBars(ind, bars) == bars
    ensures var signals, live := BatchSignals(env.spec, rules, ind, bars),
        LiveSignals(env.spec, rules, ind, None, bars);
      && live == signals && |signals| == |bars| && PositiveBuys(signals)
      && var session := LiveFinal(env, bars, live);
      && session.Done?
      && session.state.GridAcct() == GridFinal(env, g, PreparedBars(ind, bars), signals)
      && LiveCurve(env, bars, live) == GridCurve(env, g, PreparedBars(ind, bars), signals)
  {
    UngatedLive(env.spec, rules, ind, bars);
    hide BatchSignals, LiveSignals, Sound;
    GridSessionMatchesBacktest(env, g, bars, BatchSignals(env.spec, rules, ind, bars));
    hide LiveFinal, LiveCurve, GridFinal, GridCurve;
  }

  /** Every DCA spec without indicators, over bars with positive opens. */
  lemma DcaSpecParity(env: Env, d: DCAConfig, rules: Rules, ind: Indicators, bars: seq<OHLCVBar>)
    requires env.spec.kind == Dca(d) && env.spec.indicatorParams == [] && Sound(env.spec, rules, ind, bars)
    requires OpensPositive(bars)
    ensures PricesDefined(ind, bars) && PreparedBars(ind, bars) == bars
    ensures var signals, live := BatchSignals(env.spec, rules, ind, bars),
        LiveSignals(env.spec, rules, ind, None, bars);
      && live == signals && |signals| == |bars| && PositiveBuys(signals)
      && var session := LiveFinal(env, bars, live);
      && session.Done?
      && session.state.DcaAcct() == DcaFinal(env, d, PreparedBars(ind, bars), signals)
      && LiveCurve(env, bars, live) == DcaCurve(env, d, PreparedBars(ind, bars), signals)
  {
    UngatedLive(env.spec, rules, ind, bars);
    hide BatchSignals, LiveSignals, Sound;
    DcaSessionMatchesBacktest(env, d, bars, BatchSignals(env.spec, rules, ind, bars));
    hide LiveFinal, LiveCurve, DcaFinal, DcaCurve;
  }

  /**
   What the interpreter of a grid spec asks for, traded on whatever the frame holds, keeps the inventory bound and
   conserves cash.
   */
  lemma GridSpecBooks(env: Env, g: GridConfig, rules: Rules, ind: Indicators, bars: seq<OHLCVBar>, n: nat)
    requires env.spec.kind == Grid(g) && Sound(env.spec, rules, ind, bars) && PricesDefined(ind, bars) && n <= |bars|
    ensures var signals, seen := BatchSignals(env.spec, rules, ind, bars), PreparedBars(ind, bars);
      && |signals| == |bars| && PositiveBuys(signals)
      && Total(Costs(GridRun(env, g, seen, signals, n))) <= Allocation(env, g)
      && (forall l | l in GridRun(env, g, seen, signals, n).filled :: IsLevel(g, l))
      && GridFinal(env, g, seen, signals).cash == env.config.initialCash
        + SumPnl(GridFinal(env, g, seen, signals).trades)
  {
    var signals, seen := BatchSignals(env.spec, rules, ind, bars), PreparedBars(ind, bars);
    BatchSignalsAre(env.spec, rules, ind, bars);
    var f := Prepare(ind, bars).frame;
    forall i: nat | i < |bars|
      ensures AllOnGrid(g, signals[i].gridBuyLevels)
    {
      GridSignalsOnGrid(g, f, i);
      assert signals[i] == GridSignalAt(g, f, i);
      hide GridSignalAt, GridLevels;
    }
    hide BatchSignals, PreparedBars, Sound, GridRun, GridFinal, AllOnGrid, IsLevel;
    assert SignalsOnGrid(g, signals);
    GridInventoryBound(env, g, seen, signals, n);
    GridConservation(env, g, seen, signals);
  }
}

/** Where a session and its backtest part although the spec is accepted: from the spec, its indicators and the bars. */
module SpecFailures {
  import opened Domain
  import opened FillModel
  import opened RuleEngine
  import opened DecisionTrace
  import opened GridEngine
  import opened LiveSession
  import opened RuleParity
  import opened ParityConditions
  import opened RiskInvariants
  import opened ParityFailures
  import opened FramePrices
  import opened PriceParity
  import opened StrategyRuntimes
  import opened RuleSyntax
  import opened RuleEvaluator
  import opened RuleSemantics
  import opened Interpreters
  import opened UndefinedRules
  import opened EndToEnd
  import opened FiniteBuffers

  /** The session of a spec reports the trades of its backtest over the prepared frame. */
  ghost predicate SpecMatches(env: Env, rules: Rules, ind: Indicators, bars: seq<OHLCVBar>)
    requires env.spec.kind.Rule? && PricesDefined(ind, bars) && |BatchSignals(env.spec, rules, ind, bars)| == |bars|
  {
    var signals, live := BatchSignals(env.spec, rules, ind, bars), LiveSignals(env.spec, rules, ind, None, bars);
    var session := LiveFinal(env, bars, live);
    session.Done? && session.state.trades == Final(env, PreparedBars(ind, bars), Driver(Backtest, signals)).trades
  }

  /** `id op 0` as a rule. */
  function AgainstZero(id: string, op: Comparison): Node {
    Compare(Name(id), Then(op, Constant(Number(0.0)), NoMore))
  }

  function AboveZero(id: string): Node {
    AgainstZero(id, Gt)
  }

  /** Enter long whenever the rule holds, and never exit. */
  function BuyWhen(n: Node): Rules {
    Rules(Some(n), None, None, None)
  }

  function BuyAboveZero(id: string): Rules {
    BuyWhen(AboveZero(id))
  }

  lemma AgainstZeroTyped(id: string, op: Comparison, names: set<string>)
    requires id in names && !IsDunder(id) && !op.OtherComparison?
    ensures Typed(AgainstZero(id, op), names) && Columnar(AgainstZero(id, op))
  {
    var zero := Constant(Number(0.0));
    assert Validate(zero, names).None? && KindOf(zero).Some?;
    assert ValidateLinks(NoMore, names).None?;
    assert ValidateLinks(Then(op, zero, NoMore), names).None? && OperatorsAllowed(Then(op, zero, NoMore));
    assert LinksTyped(NoMore) && LinksTyped(Then(op, zero, NoMore));
    assert Columnar(Name(id));
  }

  lemma AboveZeroFires(id: string, f: Frame, t: nat)
    ensures Fires(Some(AboveZero(id)), f, t) <==> f.Cell(id, t).Fin? && 0.0 < f.Cell(id, t).v
  {
    var zero := Constant(Number(0.0));
    assert Meaning(Name(id), f, t) == Num(f.Cell(id, t)) && Meaning(zero, f, t) == Num(Fin(0.0));
    assert NumberOf(Name(id), f, t) == f.Cell(id, t) && NumberOf(zero, f, t) == Fin(0.0);
    var x := f.Cell(id, t);
    hide NumberOf;
    assert ChainHolds(Fin(0.0), NoMore, f, t);
    assert ChainHolds(x, Then(Gt, zero, NoMore), f, t) <==> Compares(Gt, x, Fin(0.0));
    assert Columnar(Name(id));
  }

  lemma BuysAboveZero(spec: Spec, id: string, ind: Indicators, bars: seq<OHLCVBar>)
    requires spec.kind.Rule? && Sound(spec, BuyAboveZero(id), ind, bars)
    ensures var signals := BatchSignals(spec, BuyAboveZero(id), ind, bars);
      && |signals| == |bars|
      && forall i: nat | i < |bars| ::
           var x := Prepare(ind, bars).frame.Cell(id, i);
           signals[i] == NO_SIGNAL.(enterLong := x.Fin? && 0.0 < x.v)
  {
    BatchSignalsAre(spec, BuyAboveZero(id), ind, bars);
    forall i: nat | i < |bars|
      ensures var x := Prepare(ind, bars).frame.Cell(id, i);
        Fires(Some(AboveZero(id)), Prepare(ind, bars).frame, i) <==> x.Fin? && 0.0 < x.v
    {
      AboveZeroFires(id, Prepare(ind, bars).frame, i);
    }
    hide BatchSignals, Fires, Prepare, Sound, AboveZero;
  }

  // ---- the gate ----

  /**
   An indicator of declared length L is defined from bar L - 1, and the gate suppresses the decision of that bar too: an
   entry that fires there is lost, whatever the indicator, the length and the bars.
   */
  lemma GatedSpecDiverges(env: Env, id: string, length: nat, ind: Indicators, bars: seq<OHLCVBar>)
    requires env.spec.kind.Rule? && env.spec.indicatorParams == [map["length" := length as real]]
    requires Ascending(bars) && 1 <= length < |bars|
    requires Sound(env.spec, BuyAboveZero(id), ind, bars) && FrameAgrees(env, ind, bars)
    requires var x := Prepare(ind, bars).frame.Cell(id, length - 1); x.Fin? && 0.0 < x.v
    ensures |BatchSignals(env.spec, BuyAboveZero(id), ind, bars)| == |bars|
    ensures !SpecMatches(env, BuyAboveZero(id), ind, bars)
  {
    var rules := BuyAboveZero(id);
    OneSidedSpecParity(env, rules, ind, bars);
    BuysAboveZero(env.spec, id, ind, bars);
    WarmupOf(env.spec, length);
    var signals := BatchSignals(env.spec, rules, ind, bars);
    assert Enters(signals[length - 1]);
    assert !NoLostEntry(signals, Warmup(env.spec));
    hide BatchSignals, LiveSignals, Sound, Warmup, Final, LiveFinal, LiveCurve, Curve, PreparedBars, PricesDefined;
  }

  lemma WarmupOf(spec: Spec, length: nat)
    requires spec.indicatorParams == [map["length" := length as real]]
    ensures length <= Warmup(spec)
  {
    assert LOOKBACK_KEYS[0] == "length";
    SlowestBounds(spec.indicatorParams, 0, 0);
  }

  lemma SingleCausal(id: string, column: seq<OHLCVBar> -> seq<Float>)
    requires forall bars :: |column(bars)| == |bars|
    requires forall bars: seq<OHLCVBar>, k: nat | k <= |bars| :: column(bars[..k]) == column(bars)[..k]
    ensures Causal(Single(id, column))
  {
    var ind := Single(id, column);
    forall bars: seq<OHLCVBar>, k: nat, name | k <= |bars| && name in ind(bars[..k]) && name in ind(bars)
      ensures ind(bars[..k])[name] == ind(bars)[name][..k]
    {
      assert column(bars[..k]) == column(bars)[..k];
    }
  }

  lemma SingleSound(spec: Spec, rules: Rules, id: string, column: seq<OHLCVBar> -> seq<Float>, bars: seq<OHLCVBar>)
    requires spec.kind.Rule? && spec.indicatorParams != [] && RulesTyped(rules, OHLCV_COLUMNS + {id})
    requires Causal(Single(id, column))
    ensures Sound(spec, rules, Single(id, column), bars)
  {
    var p := Prepare(Single(id, column), bars);
    PrepareValid(Single(id, column), bars);
    assert p.frame.columns.Keys == OHLCV_COLUMNS + {id};
    hide RulesTyped, Causal, Prepare;
  }

  lemma AveragesCausal()
    ensures Causal(Single("ma", Averages))
  {
    forall bars: seq<OHLCVBar>, k: nat | k <= |bars|
      ensures Averages(bars[..k]) == Averages(bars)[..k]
    {
    }
    SingleCausal("ma", Averages);
  }

  /** So a two-bar average above zero, on any three or more bars of positive prices, trades live as no backtest does. */
  lemma AverageDiverges(env: Env, bars: seq<OHLCVBar>)
    requires env.spec.kind.Rule? && env.spec.indicatorParams == [map["length" := 2.0]]
    requires Ascending(bars) && AllPositive(bars) && 3 <= |bars|
    ensures PricesDefined(Single("ma", Averages), bars)
    ensures |BatchSignals(env.spec, BuyAboveZero("ma"), Single("ma", Averages), bars)| == |bars|
    ensures !SpecMatches(env, BuyAboveZero("ma"), Single("ma", Averages), bars)
  {
    var ind := Single("ma", Averages);
    AveragesCausal();
    hide Causal, Sound, BatchSignals, SpecMatches, PricesDefined, Typed, AgainstZero;
    assert "ma"[0] == 'm' && "__"[0] == '_';
    AgainstZeroTyped("ma", Gt, OHLCV_COLUMNS + {"ma"});
    SingleSound(env.spec, BuyAboveZero("ma"), "ma", Averages, bars);
    DisjointKeepsPrices(ind, bars);
    KeptPricesAgree(env, ind, bars);
    assert PositivePrices(bars[0]) && PositivePrices(bars[1]);
    assert Prepare(ind, bars).frame.Cell("ma", 1) == Fin((bars[0].close + bars[1].close) / 2.0);
    assert 2 as real == 2.0;
    hide Prepare, KeepsPrices, Averages, SamePrices;
    GatedSpecDiverges(env, "ma", 2, ind, bars);
  }

  // ---- operands undefined during warm-up ----

  /** What an entry rule signals at a row where nothing it asks for is defined. */
  lemma UndefinedEntry(spec: Spec, rules: Rules, n: Node, ind: Indicators, bars: seq<OHLCVBar>, i: nat)
    requires spec.kind.Rule? && Sound(spec, rules, ind, bars) && rules.enterLong == Some(n)
    requires i < |bars| && Undefined(n, Prepare(ind, bars).frame, i)
    ensures var signals := BatchSignals(spec, rules, ind, bars);
      |signals| == |bars| && (signals[i].enterLong <==> FiresUndefined(n))
  {
    BatchSignalsAre(spec, rules, ind, bars);
    hide Prepare, BatchSignals, Fires, Undefined, FiresUndefined, Typed;
    UndefinedFiresIff(n, Prepare(ind, bars).frame, i);
  }

  /** An entry of an undefined rule on a gated bar is lost: the backtest takes it, the session does not. */
  lemma UndefinedEntryDiverges(env: Env, rules: Rules, n: Node, ind: Indicators, bars: seq<OHLCVBar>, i: nat)
    requires env.spec.kind.Rule? && Ascending(bars) && Sound(env.spec, rules, ind, bars) && FrameAgrees(env, ind, bars)
    requires LongOnly(rules) && rules.enterLong == Some(n)
    requires i < Warmup(env.spec) && i + 1 < |bars|
    requires Undefined(n, Prepare(ind, bars).frame, i) && FiresUndefined(n)
    ensures |BatchSignals(env.spec, rules, ind, bars)| == |bars|
    ensures !SpecMatches(env, rules, ind, bars)
  {
    UndefinedEntry(env.spec, rules, n, ind, bars, i);
    hide BatchSignals, LiveSignals, Sound, Warmup, Final, LiveFinal, LiveCurve, Curve, PreparedBars, PricesDefined;
    hide SamePrices, Undefined, FiresUndefined, Prepare;
    OneSidedSpecParity(env, rules, ind, bars);
    assert Enters(BatchSignals(env.spec, rules, ind, bars)[i]);
  }

  /**
   The gate is documented to skip only what the backtest scores as no signal. For a long-only spec whose entry is
   undefined on every gated bar that is so exactly when its syntax alone does not make it a signal: then, and only
   then, the session matches the backtest, its trades being fillable.
   */
  lemma WarmupParityIff(env: Env, rules: Rules, n: Node, ind: Indicators, bars: seq<OHLCVBar>)
    requires env.spec.kind.Rule? && Ascending(bars) && Sound(env.spec, rules, ind, bars) && FrameAgrees(env, ind, bars)
    requires LongOnly(rules) && rules.enterLong == Some(n) && 1 <= Warmup(env.spec) && 2 <= |bars|
    requires forall i: nat | i < Warmup(env.spec) && i + 1 < |bars| :: Undefined(n, Prepare(ind, bars).frame, i)
    ensures var signals := BatchSignals(env.spec, rules, ind, bars);
      && |signals| == |bars|
      && (SpecMatches(env, rules, ind, bars) <==>
            AllFillable(Final(env, PreparedBars(ind, bars), Driver(Backtest, signals)).trades) && !FiresUndefined(n))
  {
    var signals, live := BatchSignals(env.spec, rules, ind, bars), LiveSignals(env.spec, rules, ind, None, bars);
    hide BatchSignals, LiveSignals, Sound, Warmup, Final, LiveFinal, LiveCurve, Curve, PreparedBars, PricesDefined;
    hide SamePrices, Undefined, FiresUndefined, Prepare;
    OneSidedSpecParity(env, rules, ind, bars);
    OneSidedSpec(env.spec, rules, ind, bars);
    forall i: nat | i < Warmup(env.spec) && i + 1 < |bars|
      ensures Enters(signals[i]) <==> FiresUndefined(n)
    {
      UndefinedEntry(env.spec, rules, n, ind, bars, i);
      assert !signals[i].enterShort;
    }
    if FiresUndefined(n) {
      assert Enters(signals[0]) && 0 < Warmup(env.spec);
    }
  }

  /**
   So `ma != 0` over a two-bar average enters on the first bar, undefined as it is there, and only in the backtest.
   */
  lemma AverageNotZeroDiverges(env: Env, bars: seq<OHLCVBar>)
    requires env.spec.kind.Rule? && env.spec.indicatorParams == [map["length" := 2.0]]
    requires Ascending(bars) && 2 <= |bars|
    ensures PricesDefined(Single("ma", Averages), bars)
    ensures var rules := BuyWhen(AgainstZero("ma", NotEq));
      && |BatchSignals(env.spec, rules, Single("ma", Averages), bars)| == |bars|
      && !SpecMatches(env, rules, Single("ma", Averages), bars)
  {
    var ind, n := Single("ma", Averages), AgainstZero("ma", NotEq);
    AveragesCausal();
    hide Causal, Sound, BatchSignals, SpecMatches, PricesDefined, Typed;
    assert "ma"[0] == 'm' && "__"[0] == '_';
    AgainstZeroTyped("ma", NotEq, OHLCV_COLUMNS + {"ma"});
    SingleSound(env.spec, BuyWhen(n), "ma", Averages, bars);
    DisjointKeepsPrices(ind, bars);
    KeptPricesAgree(env, ind, bars);
    var f := Prepare(ind, bars).frame;
    assert f.Cell("ma", 0) == NaN;
    hide Prepare, KeepsPrices, Averages, SamePrices;
    UndefinedAtZero(f, 0);
    assert 2 as real == 2.0;
    WarmupOf(env.spec, 2);
    UndefinedEntryDiverges(env, BuyWhen(n), n, ind, bars, 0);
  }

  lemma UndefinedAtZero(f: Frame, t: nat)
    requires f.Cell("ma", t) == NaN
    ensures var n := AgainstZero("ma", NotEq); Undefined(n, f, t) && FiresUndefined(n)
  {
    var n, links := AgainstZero("ma", NotEq), Then(NotEq, Constant(Number(0.0)), NoMore);
    assert Meaning(Name("ma"), f, t) == Num(NaN);
    assert NumberOf(Name("ma"), f, t) == NaN;
    assert ChainUndefined(NaN, links, f, t) && AllNotEqual(links);
    assert KindOf(n) == Some(Truth) && NothingDefined(n, f, t) && UndefinedTruth(n);
  }

  // ---- signals the two brokers read differently ----

  lemma NoIndicatorsSound(spec: Spec, rules: Rules, bars: seq<OHLCVBar>)
    requires spec.kind.Rule? && RulesTyped(rules, OHLCV_COLUMNS)
    ensures Sound(spec, rules, NO_INDICATORS, bars)
  {
    var p := Prepare(NO_INDICATORS, bars);
    PrepareValid(NO_INDICATORS, bars);
    assert p.frame.columns.Keys == OHLCV_COLUMNS;
    hide RulesTyped, Prepare;
  }

  predicate AboveZeroIfAny(rule: Option<Node>) {
    rule.Some? ==> rule.value == AboveZero("close")
  }

  /** On positive bars, rules that are all `close > 0` or missing fire on every bar if present. */
  lemma AlwaysFiring(spec: Spec, rules: Rules, bars: seq<OHLCVBar>, i: nat)
    requires spec.kind.Rule? && AllPositive(bars) && i < |bars| && Sound(spec, rules, NO_INDICATORS, bars)
    requires AboveZeroIfAny(rules.enterLong) && AboveZeroIfAny(rules.enterShort)
    requires AboveZeroIfAny(rules.exitLong) && AboveZeroIfAny(rules.exitShort)
    ensures var signals := BatchSignals(spec, rules, NO_INDICATORS, bars);
      && |signals| == |bars|
      && signals[i] == BarSignal(rules.enterLong.Some?, rules.enterShort.Some?, rules.exitLong.Some?,
                                 rules.exitShort.Some?, [], false)
  {
    var f := Prepare(NO_INDICATORS, bars).frame;
    BatchSignalsAre(spec, rules, NO_INDICATORS, bars);
    assert PositivePrices(bars[i]);
    assert f.Cell("close", i) == Fin(bars[i].close);
    AboveZeroFires("close", f, i);
    hide BatchSignals, AboveZero, Prepare, Sound;
    assert Fires(None, f, i) == false && Fires(Some(AboveZero("close")), f, i);
    hide Fires;
  }

  /**
   Without indicators the session's decisions are the backtest's and so are the prices: only the brokers may differ.
   */
  lemma BareSpecMatches(env: Env, rules: Rules, bars: seq<OHLCVBar>)
    requires env.spec.kind.Rule? && env.spec.indicatorParams == [] && Sound(env.spec, rules, NO_INDICATORS, bars)
    ensures PricesDefined(NO_INDICATORS, bars)
    ensures var signals := BatchSignals(env.spec, rules, NO_INDICATORS, bars);
      && |signals| == |bars| && Feed(env, bars, signals)
      && (SpecMatches(env, rules, NO_INDICATORS, bars) <==> SessionMatches(env, bars, signals, signals))
  {
    UngatedLive(env.spec, rules, NO_INDICATORS, bars);
    hide BatchSignals, LiveSignals, Sound, LiveFinal, Final, PreparedBars, PricesDefined;
  }

  /** `close > 0` as long entry and as short exit: the session closes its long on the exit, the backtest does not. */
  lemma OppositeExitSpecDiverges(env: Env, bars: seq<OHLCVBar>)
    requires env.spec.kind.Rule? && env.spec.indicatorParams == [] && NoLevels(env)
    requires Ascending(bars) && AllPositive(bars) && 3 <= |bars|
    ensures var rules := Rules(Some(AboveZero("close")), None, None, Some(AboveZero("close")));
      && PricesDefined(NO_INDICATORS, bars) && |BatchSignals(env.spec, rules, NO_INDICATORS, bars)| == |bars|
      && !SpecMatches(env, rules, NO_INDICATORS, bars)
  {
    var rules := Rules(Some(AboveZero("close")), None, None, Some(AboveZero("close")));
    ClosePositiveTyped();
    NoIndicatorsSound(env.spec, rules, bars);
    hide BatchSignals, Sound, AboveZero, SpecMatches, SessionMatches, PricesDefined;
    AlwaysFiring(env.spec, rules, bars, 0);
    AlwaysFiring(env.spec, rules, bars, 1);
    BareSpecMatches(env, rules, bars);
    LoneOppositeExitDiverges(env, bars, BatchSignals(env.spec, rules, NO_INDICATORS, bars));
  }

  /** `close > 0` as both entries: the backtest reverses, the session keeps its long. */
  lemma BothEntriesSpecDiverges(env: Env, bars: seq<OHLCVBar>)
    requires env.spec.kind.Rule? && env.spec.indicatorParams == [] && NoLevels(env)
    requires Ascending(bars) && AllPositive(bars) && 3 <= |bars|
    ensures var rules := Rules(Some(AboveZero("close")), Some(AboveZero("close")), None, None);
      && PricesDefined(NO_INDICATORS, bars) && |BatchSignals(env.spec, rules, NO_INDICATORS, bars)| == |bars|
      && !SpecMatches(env, rules, NO_INDICATORS, bars)
  {
    var rules := Rules(Some(AboveZero("close")), Some(AboveZero("close")), None, None);
    ClosePositiveTyped();
    NoIndicatorsSound(env.spec, rules, bars);
    hide BatchSignals, Sound, AboveZero, SpecMatches, SessionMatches, PricesDefined;
    AlwaysFiring(env.spec, rules, bars, 0);
    AlwaysFiring(env.spec, rules, bars, 1);
    BareSpecMatches(env, rules, bars);
    BothEntriesDiverge(env, bars, BatchSignals(env.spec, rules, NO_INDICATORS, bars));
  }

  lemma ClosePositiveTyped()
    ensures Typed(AboveZero("close"), OHLCV_COLUMNS)
  {
    assert "close"[0] == 'c' && "__"[0] == '_';
    AgainstZeroTyped("close", Gt, OHLCV_COLUMNS);
  }

  // ---- the frame's closes ----

  ghost predicate OnlyBuys(signals: seq<BarSignal>) {
    forall i | 0 <= i < |signals| :: !signals[i].enterShort && !signals[i].exitLong && !signals[i].exitShort
  }

  lemma BuyingStreams(spec: Spec, id: string, ind: Indicators, bars: seq<OHLCVBar>)
    requires spec.kind.Rule? && Sound(spec, BuyAboveZero(id), ind, bars)
    ensures var rules := BuyAboveZero(id);
      var signals, live := BatchSignals(spec, rules, ind, bars), LiveSignals(spec, rules, ind, None, bars);
      && |signals| == |live| == |bars| && PositiveBuys(live) && OnlyBuys(signals) && OnlyBuys(live)
      && (bars != [] ==>
            var x := Prepare(ind, bars).frame.Cell(id, 0);
            signals[0].enterLong <==> x.Fin? && 0.0 < x.v)
  {
    var rules := BuyAboveZero(id);
    assert PositiveBuys(LiveSignals(spec, rules, ind, None, bars));
    hide BatchSignals, LiveSignals, Sound, Warmup, Prepare, BuyAboveZero, Gate, OnlyBuys;
    BuysAboveZero(spec, id, ind, bars);
    LiveSignalsAreGated(spec, rules, ind, bars);
    GatedOnlyBuys(BatchSignals(spec, rules, ind, bars), Warmup(spec));
  }

  lemma GatedOnlyBuys(signals: seq<BarSignal>, warmup: nat)
    requires forall i: nat | i < |signals| :: signals[i] == NO_SIGNAL.(enterLong := signals[i].enterLong)
    ensures OnlyBuys(signals) && OnlyBuys(Gate(signals, warmup))
  {
  }

  /** A spec that only buys, with no stop and no target, holds what it buys. */
  lemma {:induction false} NeverSells(env: Env, bars: seq<OHLCVBar>, drv: Driver, n: nat)
    requires NoLevels(env) && n <= |bars| == |drv.signals| && OnlyBuys(drv.signals)
    ensures var a := Run(env, bars, drv, n);
      && a.trades == [] && (a.pos.Some? ==> a.pos.value.side == Long)
      && (2 <= n && drv.signals[0].enterLong ==> a.pos.Some?)
  {
    if n > 0 {
      NeverSells(env, bars, drv, n - 1);
      RunKnown(env, bars, drv, n - 1);
      var a, d, bar := Run(env, bars, drv, n - 1), DecisionAt(env, bars, drv, n - 1), bars[n - 1];
      DecisionFromEntry(env, a, d, bar);
      var b := AfterDecision(env, a, d, bar);
      NoRiskExit(env, b, bar);
      HoldKeepsIdentity(env, b, bar);
      hide AfterRisk, AfterHold, FromEntry, Opened, CloseAt, AllKnown;
    }
  }

  lemma SoldAtTheEnd(env: Env, bars: seq<OHLCVBar>, drv: Driver)
    requires NoLevels(env) && 2 <= |bars| == |drv.signals| && OnlyBuys(drv.signals)
    ensures var ts := Final(env, bars, drv).trades;
      && (drv.signals[0].enterLong ==> ts != [])
      && (ts != [] ==> ts[0].exitPrice == bars[|bars| - 1].close)
  {
    NeverSells(env, bars, drv, |bars|);
    hide Run;
  }

  /**
   An output that takes the name `close` changes what the backtest trades at and nothing that the session does: they
   part as soon as the replaced column ends on another price.
   */
  lemma ReplacedCloseDiverges(env: Env, ind: Indicators, bars: seq<OHLCVBar>)
    requires env.spec.kind.Rule? && NoLevels(env) && 2 <= |bars| && PricesDefined(ind, bars)
    requires Sound(env.spec, BuyAboveZero("close"), ind, bars)
    requires var seen := PreparedBars(ind, bars);
      0.0 < seen[0].close && seen[|bars| - 1].close != bars[|bars| - 1].close
    ensures |BatchSignals(env.spec, BuyAboveZero("close"), ind, bars)| == |bars|
    ensures !SpecMatches(env, BuyAboveZero("close"), ind, bars)
  {
    var rules := BuyAboveZero("close");
    hide BatchSignals, LiveSignals, Sound, Warmup, Final, LiveFinal, Prepare, BuyAboveZero, OnlyBuys;
    BuyingStreams(env.spec, "close", ind, bars);
    var signals, live := BatchSignals(env.spec, rules, ind, bars), LiveSignals(env.spec, rules, ind, None, bars);
    assert signals[0].enterLong;
    hide PricesDefined, PreparedBars;
    SoldAtTheEnd(env, PreparedBars(ind, bars), Driver(Backtest, signals));
    SoldAtTheEnd(env, bars, LiveDriver(live));
    FinalFollows(env, bars, live);
  }

  /** The middle of each bar's range. */
  function Middles(bars: seq<OHLCVBar>): seq<Float> {
    seq(|bars|, i requires 0 <= i < |bars| => Fin((bars[i].high + bars[i].low) / 2.0))
  }

  lemma MiddlesCausal()
    ensures Causal(Single("close", Middles))
  {
    forall bars: seq<OHLCVBar>, k: nat | k <= |bars|
      ensures Middles(bars[..k]) == Middles(bars)[..k]
    {
    }
    SingleCausal("close", Middles);
  }

  lemma MiddlesReplace(bars: seq<OHLCVBar>)
    ensures PricesDefined(Single("close", Middles), bars)
    ensures forall i | 0 <= i < |bars| ::
      PreparedBars(Single("close", Middles), bars)[i].close == (bars[i].high + bars[i].low) / 2.0
  {
    var f := Prepare(Single("close", Middles), bars).frame;
    forall i | 0 <= i < |bars|
      ensures f.Cell("open", i) == Fin(bars[i].open) && f.Cell("high", i) == Fin(bars[i].high)
      ensures f.Cell("low", i) == Fin(bars[i].low) && f.Cell("close", i) == Fin((bars[i].high + bars[i].low) / 2.0)
    {
    }
    hide Prepare;
  }

  /** So with the middle of each bar under the name `close`, they part unless the last bar closes in its middle. */
  lemma MiddleDiverges(env: Env, bars: seq<OHLCVBar>)
    requires env.spec.kind.Rule? && NoLevels(env) && env.spec.indicatorParams != []
    requires AllPositive(bars) && 2 <= |bars|
    requires var last := bars[|bars| - 1]; last.close != (last.high + last.low) / 2.0
    ensures PricesDefined(Single("close", Middles), bars)
    ensures |BatchSignals(env.spec, BuyAboveZero("close"), Single("close", Middles), bars)| == |bars|
    ensures !SpecMatches(env, BuyAboveZero("close"), Single("close", Middles), bars)
  {
    MiddlesCausal();
    MiddlesReplace(bars);
    hide Causal, Sound, BatchSignals, SpecMatches, PricesDefined, PreparedBars, Typed, AgainstZero;
    assert "close"[0] == 'c' && "__"[0] == '_';
    AgainstZeroTyped("close", Gt, OHLCV_COLUMNS + {"close"});
    SingleSound(env.spec, BuyAboveZero("close"), "close", Middles, bars);
    assert PositivePrices(bars[0]);
    ReplacedCloseDiverges(env, Single("close", Middles), bars);
  }
}

/** The session reads the bars and the backtest reads the prepared frame: exactly when a difference in price shows. */
module PriceParity {
  import opened Domain
  import opened RealArithmetic
  import opened FillModel
  import opened RuleEngine
  import opened DecisionTrace
  import opened GridEngine
  import opened PaperModel
  import opened LiveSession
  import opened RuleParity
  import opened ParityConditions
  import opened RiskInvariants
  import opened Funding
  import opened Fillability
  import opened Interpreters
  import opened FramePrices

  /** The session over `bars` reports the trades and the equity curve of the backtest over `seen`. */
  ghost predicate Reports(env: Env, bars: seq<OHLCVBar>, live: seq<BarSignal>, seen: seq<OHLCVBar>,
                          signals: seq<BarSignal>)
    requires |signals| == |seen| && Feed(env, bars, live)
  {
    var session := LiveFinal(env, bars, live);
    && session.Done?
    && session.state.trades == Final(env, seen, Driver(Backtest, signals)).trades
    && LiveCurve(env, bars, live) == Curve(env, seen, Driver(Backtest, signals))
  }

  // ---- the prices that matter ----

  /** The first position of a run that enters at bar `i`. */
  function EntryAt(env: Env, bars: seq<OHLCVBar>, i: nat, side: Side): Position
    requires i < |bars|
  {
    Opened(env, side, env.config.initialCash, bars[i].open, bars[i].time)
  }

  /** What bar `m` does to the stop and the target of an entry at bar `i`, whatever its size. */
  function ExitAt(env: Env, bars: seq<OHLCVBar>, i: nat, side: Side, m: nat): Option<RiskFill>
    requires i < |bars| && m < |bars|
  {
    RiskExit(EntryAt(env, bars, i, side), bars[m].high, bars[m].low)
  }

  /** An entry at bar `i` is not stopped out and hits no target before bar `m`. */
  ghost predicate StillOpen(env: Env, bars: seq<OHLCVBar>, i: nat, side: Side, m: nat)
    requires i < |bars| && m <= |bars|
  {
    forall j: nat | i <= j < m :: ExitAt(env, bars, i, side, j).None?
  }

  /** At bar `m` both lists of bars exit that entry alike, and mark it alike if they do not. */
  ghost predicate SeesAlike(env: Env, bars: seq<OHLCVBar>, seen: seq<OHLCVBar>, i: nat, side: Side, m: nat)
    requires i <= m < |bars| == |seen|
  {
    && ExitAt(env, seen, i, side, m) == ExitAt(env, bars, i, side, m)
    && (ExitAt(env, bars, i, side, m).None? ==> seen[m].close == bars[m].close)
  }

  /**
   The prices that a rule run can tell apart: every open from the second bar on, and of every entry that could be open
   at a bar, on either side, whether the bar's range exits it and, if not, the bar's close.
   */
  ghost predicate SamePrices(env: Env, bars: seq<OHLCVBar>, seen: seq<OHLCVBar>)
    requires |seen| == |bars|
  {
    && (forall i | 1 <= i < |bars| :: seen[i].open == bars[i].open)
    && (forall i: nat, side: Side, m: nat | 1 <= i <= m < |bars| && StillOpen(env, bars, i, side, m) ::
          SeesAlike(env, bars, seen, i, side, m))
  }

  /** Without a stop and a target these are the opens and the closes from the second bar on. */
  lemma SamePricesWithoutLevels(env: Env, bars: seq<OHLCVBar>, seen: seq<OHLCVBar>)
    requires NoLevels(env) && SameTimes(bars, seen)
    ensures SamePrices(env, bars, seen) <==>
      forall i | 1 <= i < |bars| :: seen[i].open == bars[i].open && seen[i].close == bars[i].close
  {
    if SamePrices(env, bars, seen) {
      forall i: nat | 1 <= i < |bars|
        ensures seen[i].close == bars[i].close
      {
        assert StillOpen(env, bars, i, Long, i);
        assert SeesAlike(env, bars, seen, i, Long, i);
      }
    }
  }

  // ---- same prices, same run ----

  /** `p` has the side and the levels of an entry `p.barsHeld` bars before bar `n`, none of which exited it. */
  ghost predicate EnteredAt(env: Env, bars: seq<OHLCVBar>, p: Position, n: nat)
    requires n <= |bars|
  {
    && 0 <= p.barsHeld < n && (p.barsHeld == 0 ==> n < |bars|)
    && var i := n - p.barsHeld;
    && var e := EntryAt(env, bars, i, p.side);
    && p.stopPrice == e.stopPrice && p.takePrice == e.takePrice && StillOpen(env, bars, i, p.side, n)
  }

  lemma LevelsIgnoreEquity(env: Env, side: Side, a: real, b: real, open: real, now: int)
    ensures var p, q := Opened(env, side, a, open, now), Opened(env, side, b, open, now);
      p.stopPrice == q.stopPrice && p.takePrice == q.takePrice && p.side == q.side && p.barsHeld == 0
  {
    hide Slip, TargetSize, StopPrice, TakePrice;
  }

  lemma DecisionEntered(env: Env, bars: seq<OHLCVBar>, a: Account, d: Decision, n: nat)
    requires 1 <= n < |bars| && Applicable(d, SideOf(a.pos)) && (a.pos.Some? ==> EnteredAt(env, bars, a.pos.value, n))
    ensures var b := AfterDecision(env, a, d, bars[n]); b.pos.Some? ==> EnteredAt(env, bars, b.pos.value, n)
  {
    if d.open.Some? {
      LevelsIgnoreEquity(env, d.open.value, AfterClose(env, a, d, bars[n]).cash, env.config.initialCash,
                         bars[n].open, bars[n].time);
    }
    hide Opened, CloseAt, RiskExit;
  }

  lemma ExitOf(env: Env, bars: seq<OHLCVBar>, p: Position, n: nat)
    requires n < |bars| && EnteredAt(env, bars, p, n)
    ensures RiskExit(p, bars[n].high, bars[n].low) == ExitAt(env, bars, n - p.barsHeld, p.side, n)
    ensures RiskExit(p, bars[n].high, bars[n].low).None? ==>
      StillOpen(env, bars, n - p.barsHeld, p.side, n + 1)
  {
    hide Slip, TargetSize, StopPrice, TakePrice;
  }

  lemma HeldLonger(env: Env, bars: seq<OHLCVBar>, p: Position, q: Position, n: nat)
    requires n < |bars| && EnteredAt(env, bars, p, n) && RiskExit(p, bars[n].high, bars[n].low).None?
    requires q == p.(barsHeld := p.barsHeld + 1, fundingPaid := q.fundingPaid, hoursSinceFunding := q.hoursSinceFunding)
    ensures EnteredAt(env, bars, q, n + 1)
  {
    ExitOf(env, bars, p, n);
    hide Opened, StillOpen, RiskExit;
  }

  lemma BarEntered(env: Env, bars: seq<OHLCVBar>, a: Account, d: Decision, n: nat)
    requires 1 <= n < |bars| && Applicable(d, SideOf(a.pos)) && (a.pos.Some? ==> EnteredAt(env, bars, a.pos.value, n))
    ensures var b := AfterBar(env, a, d, bars[n]);
      b.pos.Some? ==> EnteredAt(env, bars, b.pos.value, n + 1) && 0 < b.pos.value.barsHeld
  {
    DecisionEntered(env, bars, a, d, n);
    var b := AfterDecision(env, a, d, bars[n]);
    hide AfterDecision;
    var c := AfterRisk(env, b, bars[n]);
    HoldKeepsIdentity(env, c, bars[n]);
    if c.pos.Some? {
      assert c == b && RiskExit(b.pos.value, bars[n].high, bars[n].low).None?;
      HeldLonger(env, bars, b.pos.value, AfterHold(env, c, bars[n]).pos.value, n);
      assert 0 <= b.pos.value.barsHeld;
    }
    hide EnteredAt, RiskExit, Held, CloseAt;
  }

  lemma FirstBarIdle(env: Env, bars: seq<OHLCVBar>, drv: Driver)
    requires 1 <= |bars| == |drv.signals|
    ensures Run(env, bars, drv, 1) == NewAccount(env)
  {
    assert Run(env, bars, drv, 0) == NewAccount(env);
    assert DecisionAt(env, bars, drv, 0) == IDLE;
  }

  lemma {:induction false} RunEntered(env: Env, bars: seq<OHLCVBar>, drv: Driver, n: nat)
    requires 1 <= n <= |bars| == |drv.signals|
    ensures var a := Run(env, bars, drv, n);
      a.pos.Some? ==> EnteredAt(env, bars, a.pos.value, n) && 0 < a.pos.value.barsHeld
  {
    hide AfterBar, EnteredAt;
    if n == 1 {
      FirstBarIdle(env, bars, drv);
    } else {
      RunEntered(env, bars, drv, n - 1);
      BarEntered(env, bars, Run(env, bars, drv, n - 1), DecisionAt(env, bars, drv, n - 1), n - 1);
    }
  }

  lemma SameExit(env: Env, bars: seq<OHLCVBar>, seen: seq<OHLCVBar>, p: Position, n: nat)
    requires 1 <= n < |bars| && SameTimes(bars, seen) && SamePrices(env, bars, seen) && EnteredAt(env, bars, p, n)
    ensures RiskExit(p, seen[n].high, seen[n].low) == RiskExit(p, bars[n].high, bars[n].low)
    ensures RiskExit(p, bars[n].high, bars[n].low).None? ==> seen[n].close == bars[n].close
  {
    var i := n - p.barsHeld;
    assert SeesAlike(env, bars, seen, i, p.side, n);
    assert seen[i].open == bars[i].open;
    hide StillOpen, Slip, TargetSize, StopPrice, TakePrice;
  }

  lemma SameBar(env: Env, bars: seq<OHLCVBar>, seen: seq<OHLCVBar>, a: Account, d: Decision, n: nat)
    requires 1 <= n < |bars| && SameTimes(bars, seen) && SamePrices(env, bars, seen)
    requires Applicable(d, SideOf(a.pos)) && (a.pos.Some? ==> EnteredAt(env, bars, a.pos.value, n))
    ensures AfterBar(env, a, d, seen[n]) == AfterBar(env, a, d, bars[n])
  {
    assert AfterDecision(env, a, d, seen[n]) == AfterDecision(env, a, d, bars[n]) by {
      assert seen[n].open == bars[n].open && seen[n].time == bars[n].time;
      hide CloseAt, OpenAt;
    }
    DecisionEntered(env, bars, a, d, n);
    var b := AfterDecision(env, a, d, bars[n]);
    hide AfterDecision, EnteredAt, SamePrices;
    if b.pos.Some? { SameExit(env, bars, seen, b.pos.value, n); }
    hide RiskExit, Held, CloseAt;
  }

  lemma {:induction false} SameRun(env: Env, bars: seq<OHLCVBar>, seen: seq<OHLCVBar>, drv: Driver, n: nat)
    requires SameTimes(bars, seen) && SamePrices(env, bars, seen) && n <= |bars| == |drv.signals|
    ensures Run(env, seen, drv, n) == Run(env, bars, drv, n)
  {
    hide AfterBar, EnteredAt, SamePrices;
    if n == 1 {
      FirstBarIdle(env, bars, drv);
      FirstBarIdle(env, seen, drv);
    } else if n > 1 {
      SameRun(env, bars, seen, drv, n - 1);
      RunEntered(env, bars, drv, n - 1);
      SameBar(env, bars, seen, Run(env, bars, drv, n - 1), DecisionAt(env, bars, drv, n - 1), n - 1);
    }
  }

  /** The close of a bar that a position outlives is the same. */
  lemma SameClose(env: Env, bars: seq<OHLCVBar>, seen: seq<OHLCVBar>, drv: Driver, n: nat)
    requires SameTimes(bars, seen) && SamePrices(env, bars, seen) && 1 <= n <= |bars| == |drv.signals|
    requires Run(env, bars, drv, n).pos.Some?
    ensures seen[n - 1].close == bars[n - 1].close
  {
    RunEntered(env, bars, drv, n);
    var p := Run(env, bars, drv, n).pos.value;
    hide Run;
    var i: nat := n - p.barsHeld;
    assert i <= n - 1 && StillOpen(env, bars, i, p.side, n);
    assert ExitAt(env, bars, i, p.side, n - 1).None? && StillOpen(env, bars, i, p.side, n - 1);
    assert SeesAlike(env, bars, seen, i, p.side, n - 1);
  }

  lemma SameFinal(env: Env, bars: seq<OHLCVBar>, seen: seq<OHLCVBar>, drv: Driver)
    requires SameTimes(bars, seen) && SamePrices(env, bars, seen) && |bars| == |drv.signals|
    ensures Final(env, seen, drv) == Final(env, bars, drv)
  {
    hide Run, CloseAt, SamePrices;
    SameRun(env, bars, seen, drv, |bars|);
    if bars != [] && Run(env, bars, drv, |bars|).pos.Some? { SameClose(env, bars, seen, drv, |bars|); }
  }

  lemma SameCurve(env: Env, bars: seq<OHLCVBar>, seen: seq<OHLCVBar>, drv: Driver)
    requires SameTimes(bars, seen) && SamePrices(env, bars, seen) && |bars| == |drv.signals|
    ensures Curve(env, seen, drv) == Curve(env, bars, drv)
  {
    SameFinal(env, bars, seen, drv);
    hide Run, Final, SamePrices, Gross;
    forall i: nat | i < |bars|
      ensures CurvePoint(env, seen, drv, i) == CurvePoint(env, bars, drv, i)
    {
      SameRun(env, bars, seen, drv, i + 1);
      if Run(env, bars, drv, i + 1).pos.Some? { SameClose(env, bars, seen, drv, i + 1); }
    }
    hide CurvePoint;
  }

  /** The prepared frame holds numbers for prices, and a rule run cannot tell them from the bars'. */
  ghost predicate FrameAgrees(env: Env, ind: Indicators, bars: seq<OHLCVBar>) {
    PricesDefined(ind, bars) && SamePrices(env, bars, PreparedBars(ind, bars))
  }

  /** It does when no output changed a price. */
  lemma KeptPricesAgree(env: Env, ind: Indicators, bars: seq<OHLCVBar>)
    requires KeepsPrices(ind, bars)
    ensures FrameAgrees(env, ind, bars)
  {
    KeptPricesDefined(ind, bars);
    hide PreparedBars, PricesDefined, KeepsPrices;
  }

  // ---- an entry that shows every price after it ----

  /** One entry, decided at bar `i - 1` and held until an exit or the end. */
  function EnterAt(n: nat, i: nat, side: Side): seq<BarSignal> {
    seq(n, j => NO_SIGNAL.(enterLong := side.Long? && j + 1 == i, enterShort := side.Short? && j + 1 == i))
  }

  function Entering(n: nat, i: nat, side: Side): Driver {
    Driver(Backtest, EnterAt(n, i, side))
  }

  lemma {:induction false} FlatBefore(env: Env, bars: seq<OHLCVBar>, i: nat, side: Side, m: nat)
    requires 1 <= i < |bars| && m <= i
    ensures Run(env, bars, Entering(|bars|, i, side), m) == NewAccount(env)
  {
    if m > 0 {
      FlatBefore(env, bars, i, side, m - 1);
      assert DecisionAt(env, bars, Entering(|bars|, i, side), m - 1) == IDLE;
    }
  }

  /** The account of that run after `m` bars, as long as nothing exits the position. */
  function Holding(env: Env, bars: seq<OHLCVBar>, i: nat, side: Side, m: nat): Account
    requires i <= m <= |bars| && i < |bars|
  {
    var p := EntryAt(env, bars, i, side);
    NewAccount(env).(pos := Some(HeldOver(env, p, Marks(bars, i, m))), feesPaid := 0.0 + p.entryFee)
  }

  lemma HeldOverKeeps(env: Env, p: Position, marks: seq<real>)
    requires p.barsHeld == 0 && p.fundingPaid == 0.0 && p.hoursSinceFunding == 0.0
    ensures var q := HeldOver(env, p, marks);
      && q == p.(barsHeld := q.barsHeld, fundingPaid := q.fundingPaid, hoursSinceFunding := q.hoursSinceFunding)
      && q.fundingPaid == Funded(env, p, marks)
  {
    HeldOverIs(env, p, marks);
    hide HeldOver, FundingDue;
  }

  lemma ExitIgnoresAge(p: Position, held: int, funding: real, hours: real, high: real, low: real)
    ensures RiskExit(p.(barsHeld := held, fundingPaid := funding, hoursSinceFunding := hours), high, low)
         == RiskExit(p, high, low)
  {
  }

  /** What the held position's levels do at bar `m`. */
  lemma HoldingExit(env: Env, bars: seq<OHLCVBar>, i: nat, side: Side, m: nat)
    requires i <= m < |bars|
    ensures var p := Holding(env, bars, i, side, m).pos.value;
      RiskExit(p, bars[m].high, bars[m].low) == ExitAt(env, bars, i, side, m)
  {
    var e, q := EntryAt(env, bars, i, side), Holding(env, bars, i, side, m).pos.value;
    HeldOverKeeps(env, e, Marks(bars, i, m));
    hide Opened, HeldOver, Funded, RiskExit;
    ExitIgnoresAge(e, q.barsHeld, q.fundingPaid, q.hoursSinceFunding, bars[m].high, bars[m].low);
  }

  lemma HoldingOneMore(env: Env, bars: seq<OHLCVBar>, i: nat, side: Side, m: nat)
    requires i <= m < |bars|
    ensures AfterHold(env, Holding(env, bars, i, side, m), bars[m]) == Holding(env, bars, i, side, m + 1)
  {
    var marks := Marks(bars, i, m + 1);
    assert marks[..m - i] == Marks(bars, i, m) && marks[m - i] == bars[m].close;
    hide Opened, Held;
  }

  /** The account right after the decision at bar `m`: newly entered, or held until then. */
  lemma EnteredOrHeld(env: Env, bars: seq<OHLCVBar>, i: nat, side: Side, m: nat)
    requires 1 <= i <= m < |bars|
    requires m > i ==> Run(env, bars, Entering(|bars|, i, side), m) == Holding(env, bars, i, side, m)
    ensures var drv := Entering(|bars|, i, side);
      AfterDecision(env, Run(env, bars, drv, m), DecisionAt(env, bars, drv, m), bars[m])
      == Holding(env, bars, i, side, m)
  {
    var drv := Entering(|bars|, i, side);
    hide Opened;
    if m == i {
      FlatBefore(env, bars, i, side, i);
      assert Marks(bars, i, i) == [];
      assert DecisionAt(env, bars, drv, i) == Decision(false, Some(side));
    } else {
      assert Run(env, bars, drv, m).pos.Some?;
      hide Run, HeldOver;
      assert DecisionAt(env, bars, drv, m) == IDLE;
    }
  }

  lemma HoldingOpen(env: Env, bars: seq<OHLCVBar>, i: nat, side: Side, m: nat)
    requires i <= m <= |bars| && i < |bars|
    ensures Holding(env, bars, i, side, m).pos.Some?
  {
  }

  lemma HoldingBar(env: Env, bars: seq<OHLCVBar>, i: nat, side: Side, m: nat)
    requires i <= m < |bars| && ExitAt(env, bars, i, side, m).None?
    ensures AfterHold(env, AfterRisk(env, Holding(env, bars, i, side, m), bars[m]), bars[m])
         == Holding(env, bars, i, side, m + 1)
  {
    hide Holding, RiskExit, ExitAt, AfterHold, CloseAt;
    HoldingExit(env, bars, i, side, m);
    HoldingOneMore(env, bars, i, side, m);
    HoldingOpen(env, bars, i, side, m);
  }

  lemma {:induction false} EntryRun(env: Env, bars: seq<OHLCVBar>, i: nat, side: Side, m: nat)
    requires 1 <= i < m <= |bars| && StillOpen(env, bars, i, side, m)
    ensures Run(env, bars, Entering(|bars|, i, side), m) == Holding(env, bars, i, side, m)
  {
    assert StillOpen(env, bars, i, side, m - 1) && ExitAt(env, bars, i, side, m - 1).None?;
    hide Run, AfterDecision, AfterRisk, AfterHold, Holding, StillOpen, ExitAt;
    if i < m - 1 { EntryRun(env, bars, i, side, m - 1); }
    EnteredOrHeld(env, bars, i, side, m - 1);
    HoldingBar(env, bars, i, side, m - 1);
    RunStep(env, bars, Entering(|bars|, i, side), m - 1);
  }

  /** The first bar that exits the entry, or the number of bars if none does. */
  function ExitBar(env: Env, bars: seq<OHLCVBar>, i: nat, side: Side, m: nat): (x: nat)
    requires i < |bars| && i <= m <= |bars|
    ensures m <= x <= |bars|
    decreases |bars| - m
  {
    if m == |bars| || ExitAt(env, bars, i, side, m).Some? then m else ExitBar(env, bars, i, side, m + 1)
  }

  lemma {:induction false} ExitBarIs(env: Env, bars: seq<OHLCVBar>, i: nat, side: Side, m: nat)
    requires i < |bars| && i <= m <= |bars| && StillOpen(env, bars, i, side, m)
    ensures var x := ExitBar(env, bars, i, side, m);
      StillOpen(env, bars, i, side, x) && (x < |bars| ==> ExitAt(env, bars, i, side, x).Some?)
    decreases |bars| - m
  {
    hide ExitAt;
    if m < |bars| && ExitAt(env, bars, i, side, m).None? {
      assert StillOpen(env, bars, i, side, m + 1);
      ExitBarIs(env, bars, i, side, m + 1);
    }
  }

  /** The trade of that run, if bar `x` is the first to exit it, or none is. */
  function EntryTrade(env: Env, bars: seq<OHLCVBar>, i: nat, side: Side, x: nat): Trade
    requires i < |bars| && i <= x <= |bars|
  {
    var q := HeldOver(env, EntryAt(env, bars, i, side), Marks(bars, i, x));
    if x == |bars| then Closed(env, q, bars[x - 1].close, bars[x - 1].time, EndOfData)
    else
      var fill := ExitAt(env, bars, i, side, x);
      if fill.None? then Closed(env, q, bars[x].close, bars[x].time, Signal)
      else Closed(env, q, fill.value.price, bars[x].time, fill.value.reason)
  }

  lemma {:induction false} FlatAfter(env: Env, bars: seq<OHLCVBar>, i: nat, side: Side, m: nat, n: nat)
    requires 1 <= i < m <= n <= |bars| && Run(env, bars, Entering(|bars|, i, side), m).pos.None?
    ensures Run(env, bars, Entering(|bars|, i, side), n) == Run(env, bars, Entering(|bars|, i, side), m)
    decreases n
  {
    if m < n {
      FlatAfter(env, bars, i, side, m, n - 1);
      assert DecisionAt(env, bars, Entering(|bars|, i, side), n - 1) == IDLE;
    }
  }

  /** The bar that exits the entry closes it with that trade. */
  lemma ExitingBar(env: Env, bars: seq<OHLCVBar>, i: nat, side: Side, x: nat)
    requires 1 <= i <= x < |bars| && StillOpen(env, bars, i, side, x) && ExitAt(env, bars, i, side, x).Some?
    ensures var a := Run(env, bars, Entering(|bars|, i, side), x + 1);
      a.pos.None? && a.trades == [EntryTrade(env, bars, i, side, x)]
  {
    if i < x { EntryRun(env, bars, i, side, x); }
    EnteredOrHeld(env, bars, i, side, x);
    HoldingExit(env, bars, i, side, x);
    RunStep(env, bars, Entering(|bars|, i, side), x);
    hide Run, AfterDecision, StillOpen, RiskExit, Opened, HeldOver, Closed;
  }

  lemma EntryEnds(env: Env, bars: seq<OHLCVBar>, i: nat, side: Side)
    requires 1 <= i < |bars|
    ensures var x := ExitBar(env, bars, i, side, i);
      && StillOpen(env, bars, i, side, x) && (x < |bars| ==> ExitAt(env, bars, i, side, x).Some?)
      && Final(env, bars, Entering(|bars|, i, side)).trades == [EntryTrade(env, bars, i, side, x)]
  {
    var n, x := |bars|, ExitBar(env, bars, i, side, i);
    assert StillOpen(env, bars, i, side, i);
    ExitBarIs(env, bars, i, side, i);
    hide ExitBar, StillOpen, ExitAt;
    if x == n {
      EntryRun(env, bars, i, side, n);
    } else {
      ExitingBar(env, bars, i, side, x);
      FlatAfter(env, bars, i, side, x + 1, n);
    }
    hide Run, HeldOver, Opened, Closed;
  }

  /** The funding a position has paid after these marks. */
  function Funded(env: Env, p: Position, marks: seq<real>): real {
    if PaysFunding(env) then FundingDue(env, p, marks) else 0.0
  }

  /** The equity of the entry held at `mark` after paying `funding`. */
  function MarkedAt(env: Env, p: Position, mark: real, funding: real): real {
    Equity(env.config.initialCash, Some(p.(fundingPaid := funding)), mark)
  }

  lemma EquityIgnoresAge(cash: real, p: Position, held: int, funding: real, hours: real, mark: real)
    ensures Equity(cash, Some(p.(barsHeld := held, fundingPaid := funding, hoursSinceFunding := hours)), mark)
         == Equity(cash, Some(p.(fundingPaid := funding)), mark)
  {
    hide Gross;
  }

  /** What the curve shows while the entry is held. */
  lemma EntryCurve(env: Env, bars: seq<OHLCVBar>, i: nat, side: Side, m: nat)
    requires 1 <= i <= m < |bars| - 1 && StillOpen(env, bars, i, side, m + 1)
    ensures var p := EntryAt(env, bars, i, side);
      Curve(env, bars, Entering(|bars|, i, side))[m]
        == MarkedAt(env, p, bars[m].close, Funded(env, p, Marks(bars, i, m + 1)))
  {
    var p := EntryAt(env, bars, i, side);
    var q := HeldOver(env, p, Marks(bars, i, m + 1));
    EntryRun(env, bars, i, side, m + 1);
    HeldOverKeeps(env, p, Marks(bars, i, m + 1));
    hide Run, HeldOver, Funded, Opened, Final, Entering, Marks, Equity, StillOpen;
    EquityIgnoresAge(env.config.initialCash, p, q.barsHeld, q.fundingPaid, q.hoursSinceFunding, bars[m].close);
  }

  // ---- prices read back from what it shows ----

  lemma SameFactor(x: real, y: real, size: real)
    requires x * size == y * size && 0.0 < size
    ensures x == y
  {
    if x < y { MulStrict(x, y, size); }
    if y < x { MulStrict(y, x, size); }
  }

  lemma MarkRead(env: Env, p: Position, x: real, y: real, funding: real)
    requires MarkedAt(env, p, x, funding) == MarkedAt(env, p, y, funding) && 0.0 < p.size
    ensures x == y
  {
    if p.side.Long? {
      SameFactor(x - p.entryPrice, y - p.entryPrice, p.size);
    } else {
      SameFactor(p.entryPrice - x, p.entryPrice - y, p.size);
    }
  }

  /** The equity at each mark, or the mark itself, and the funding paid in the end determine every mark. */
  lemma {:induction false} MarksRead(env: Env, p: Position, xs: seq<real>, ys: seq<real>, n: nat)
    requires 0.0 < p.size && n <= |xs| == |ys| && Funded(env, p, xs) == Funded(env, p, ys)
    requires forall j: nat | j < |xs| ::
      || xs[j] == ys[j]
      || MarkedAt(env, p, xs[j], Funded(env, p, xs[..j + 1])) == MarkedAt(env, p, ys[j], Funded(env, p, ys[..j + 1]))
    ensures xs[n..] == ys[n..] && Funded(env, p, xs[..n]) == Funded(env, p, ys[..n])
    decreases |xs| - n
  {
    hide DueIn, MarkedAt;
    if n == |xs| {
      assert xs[..n] == xs && ys[..n] == ys;
    } else {
      MarksRead(env, p, xs, ys, n + 1);
      if xs[n] != ys[n] {
        MarkRead(env, p, xs[n], ys[n], Funded(env, p, xs[..n + 1]));
      }
      assert xs[..n + 1][..n] == xs[..n] && ys[..n + 1][..n] == ys[..n];
      assert xs[n..] == [xs[n]] + xs[n + 1..] && ys[n..] == [ys[n]] + ys[n + 1..];
    }
  }

  predicate Sells(env: Env, side: Side) {
    side.Long? || env.config.slippagePct < 100.0
  }

  lemma EntrySized(env: Env, bar: OHLCVBar, side: Side)
    requires PositivePrices(bar) && Sells(env, side)
    ensures var p := Opened(env, side, env.config.initialCash, bar.open, bar.time);
      0.0 < p.size && 0.0 < p.entryPrice && FromEntry(env, p)
  {
    SlippedPrice(env, bar.open, side.Short?);
    TargetSizePositive(env.spec, env.config.initialCash, Slip(env.config, bar.open, side.Short?));
    hide Slip, TargetSize, StopPrice, TakePrice;
  }

  /** A slipped price is the price times this. */
  function SlipFactor(env: Env, side: Side): real {
    if side.Short? then 1.0 - env.config.slippagePct / 100.0 else 1.0 + env.config.slippagePct / 100.0
  }

  lemma SlipIs(env: Env, side: Side, x: real)
    ensures Slip(env.config, x, side.Short?) == Product(x, SlipFactor(env, side))
  {
  }

  lemma OpenRead(env: Env, side: Side, x: real, y: real)
    requires Sells(env, side) && Slip(env.config, x, side.Short?) == Slip(env.config, y, side.Short?)
    ensures x == y
  {
    assert 0.0 < SlipFactor(env, side);
    hide Slip, SlipFactor, Product;
    SlipIs(env, side, x);
    SlipIs(env, side, y);
    if x < y { ProductGrows(x, y, SlipFactor(env, side)); }
    if y < x { ProductGrows(y, x, SlipFactor(env, side)); }
  }

  lemma EntryTradeFillable(env: Env, bars: seq<OHLCVBar>, i: nat, side: Side, x: nat)
    requires 1 <= i < |bars| && i <= x <= |bars| && AllPositive(bars) && Sells(env, side)
    ensures Fillable(EntryTrade(env, bars, i, side, x))
  {
    var p := EntryAt(env, bars, i, side);
    assert PositivePrices(bars[i]) && PositivePrices(bars[|bars| - 1]);
    EntrySized(env, bars[i], side);
    HeldOverKeeps(env, p, Marks(bars, i, x));
    if x < |bars| {
      assert PositivePrices(bars[x]);
      if ExitAt(env, bars, i, side, x).Some? { RiskFillPositive(env, p, bars[x]); }
    }
    hide Opened, HeldOver, Funded, RiskExit, FromEntry, Gross, PnlPct;
  }

  /** The session matches the backtest over its own bars on such an entry. */
  lemma EntryReports(env: Env, bars: seq<OHLCVBar>, i: nat, side: Side)
    requires env.spec.kind.Rule? && 1 <= i < |bars| && Ascending(bars) && AllPositive(bars) && Sells(env, side)
    ensures var signals := EnterAt(|bars|, i, side);
      Feed(env, bars, signals) && Reports(env, bars, signals, bars, signals)
  {
    var signals := EnterAt(|bars|, i, side);
    EntryEnds(env, bars, i, side);
    EntryTradeFillable(env, bars, i, side, ExitBar(env, bars, i, side, i));
    assert OneSided(side, signals) && GatedFirst(signals, signals, 0) && NoLostEntry(signals, 0);
    hide Final, LiveFinal, Curve, LiveCurve, EntryTrade, ExitBar, StillOpen, ExitAt, Fillable;
    OneSidedParity(env, bars, signals, signals, side, 0);
  }

  lemma MarksPrefix(bars: seq<OHLCVBar>, i: nat, n: nat, j: nat)
    requires i + j < n <= |bars|
    ensures Marks(bars, i, n)[..j + 1] == Marks(bars, i, i + j + 1) && Marks(bars, i, n)[j] == bars[i + j].close
  {
  }

  /** What an entry's trade tells: its open, the bar that ended it and how, and the funding paid. */
  lemma TradeShows(env: Env, bars: seq<OHLCVBar>, i: nat, side: Side, x: nat)
    requires i < |bars| && i <= x <= |bars| && 1 <= |bars|
    requires x < |bars| ==> ExitAt(env, bars, i, side, x).Some?
    ensures var t, p := EntryTrade(env, bars, i, side, x), EntryAt(env, bars, i, side);
      && t.entryPrice == p.entryPrice && t.fundingPaid == Funded(env, p, Marks(bars, i, x))
      && (t.exitReason == EndOfData <==> x == |bars|)
      && (x == |bars| ==> t.exitPrice == bars[x - 1].close)
      && (x < |bars| ==>
            t.exitTime == bars[x].time && ExitAt(env, bars, i, side, x) == Some(RiskFill(t.exitPrice, t.exitReason)))
  {
    HeldOverKeeps(env, EntryAt(env, bars, i, side), Marks(bars, i, x));
    hide Opened, HeldOver, Funded, Gross, PnlPct;
  }

  /** Two lists of bars on which the entry ends in the same trade exit it at the same bar and in the same way. */
  lemma SameEnd(env: Env, bars: seq<OHLCVBar>, seen: seq<OHLCVBar>, i: nat, side: Side, x: nat, y: nat)
    requires 1 <= i < |bars| && i <= x <= |bars| && i <= y <= |bars| && Ascending(bars) && SameTimes(bars, seen)
    requires x < |bars| ==> ExitAt(env, bars, i, side, x).Some?
    requires y < |bars| ==> ExitAt(env, seen, i, side, y).Some?
    requires EntryTrade(env, seen, i, side, y) == EntryTrade(env, bars, i, side, x)
    requires Sells(env, side)
    ensures seen[i].open == bars[i].open && EntryAt(env, seen, i, side) == EntryAt(env, bars, i, side)
    ensures x == y && (x < |bars| ==> ExitAt(env, seen, i, side, x) == ExitAt(env, bars, i, side, x))
    ensures x == |bars| ==> seen[x - 1].close == bars[x - 1].close
    ensures var p := EntryAt(env, bars, i, side); Funded(env, p, Marks(seen, i, x)) == Funded(env, p, Marks(bars, i, x))
  {
    TradeShows(env, bars, i, side, x);
    TradeShows(env, seen, i, side, y);
    OpenRead(env, side, seen[i].open, bars[i].open);
    hide EntryTrade, ExitAt, Slip, Funded, Marks;
    assert x < |bars| && y < |bars| ==> bars[x].time == bars[y].time;
  }

  lemma OpenUntil(env: Env, bars: seq<OHLCVBar>, i: nat, side: Side, x: nat, m: nat)
    requires i < |bars| && i <= x < |bars| && m <= |bars|
    requires StillOpen(env, bars, i, side, m) && ExitAt(env, bars, i, side, x).Some?
    ensures m <= x
  {
  }

  /** So a curve that agrees with the frame's backtest has read the same closes while the entry was held. */
  lemma ClosesRead(env: Env, bars: seq<OHLCVBar>, seen: seq<OHLCVBar>, i: nat, side: Side, x: nat)
    requires 1 <= i < |bars| && i <= x <= |bars| && |seen| == |bars| && AllPositive(bars) && Sells(env, side)
    requires StillOpen(env, bars, i, side, x) && StillOpen(env, seen, i, side, x)
    requires EntryAt(env, seen, i, side) == EntryAt(env, bars, i, side)
    requires var p := EntryAt(env, bars, i, side);
      Funded(env, p, Marks(seen, i, x)) == Funded(env, p, Marks(bars, i, x))
    requires x == |bars| ==> seen[x - 1].close == bars[x - 1].close
    requires Curve(env, seen, Entering(|bars|, i, side)) == Curve(env, bars, Entering(|bars|, i, side))
    ensures forall m: nat | i <= m < x :: seen[m].close == bars[m].close
  {
    var p, xs, ys := EntryAt(env, bars, i, side), Marks(seen, i, x), Marks(bars, i, x);
    assert PositivePrices(bars[i]);
    EntrySized(env, bars[i], side);
    assert 0.0 < p.size && |xs| == |ys| == x - i;
    hide EntryAt, Curve, Funded, MarkedAt, Entering, FromEntry;
    forall j: nat | j < |xs|
      ensures xs[j] == ys[j]
        || MarkedAt(env, p, xs[j], Funded(env, p, xs[..j + 1])) == MarkedAt(env, p, ys[j], Funded(env, p, ys[..j + 1]))
    {
      MarksPrefix(seen, i, x, j);
      MarksPrefix(bars, i, x, j);
      if i + j < |bars| - 1 {
        assert StillOpen(env, seen, i, side, i + j + 1) && StillOpen(env, bars, i, side, i + j + 1);
        hide StillOpen, Marks;
        EntryCurve(env, seen, i, side, i + j);
        EntryCurve(env, bars, i, side, i + j);
      }
    }
    MarksRead(env, p, xs, ys, 0);
    assert xs == xs[0..] == ys[0..] == ys;
    forall m: nat | i <= m < x
      ensures seen[m].close == bars[m].close
    {
      assert xs[m - i] == ys[m - i];
    }
  }

  /** A report that agrees with the frame's backtest on an entry has seen all that the entry could see. */
  lemma PricesRead(env: Env, bars: seq<OHLCVBar>, seen: seq<OHLCVBar>, i: nat, side: Side)
    requires 1 <= i < |bars| && Ascending(bars) && AllPositive(bars) && SameTimes(bars, seen) && Sells(env, side)
    requires var drv := Entering(|bars|, i, side);
      Final(env, seen, drv).trades == Final(env, bars, drv).trades && Curve(env, seen, drv) == Curve(env, bars, drv)
    ensures seen[i].open == bars[i].open
    ensures forall m: nat | i <= m < |bars| && StillOpen(env, bars, i, side, m) ::
      SeesAlike(env, bars, seen, i, side, m)
  {
    var x, y := ExitBar(env, bars, i, side, i), ExitBar(env, seen, i, side, i);
    EntryEnds(env, bars, i, side);
    EntryEnds(env, seen, i, side);
    assert EntryTrade(env, bars, i, side, x) == [EntryTrade(env, bars, i, side, x)][0];
    hide Final, Curve, ExitBar, EntryTrade, AllPositive, ExitAt;
    SameEnd(env, bars, seen, i, side, x, y);
    ClosesRead(env, bars, seen, i, side, x);
    forall m: nat | i <= m < |bars| && StillOpen(env, bars, i, side, m)
      ensures SeesAlike(env, bars, seen, i, side, m)
    {
      if x < |bars| { OpenUntil(env, bars, i, side, x, m); }
    }
  }

  // ---- the condition ----

  /** Whatever the session reports that its own bars' backtest reports too, the frame's backtest reports. */
  ghost predicate AlwaysReports(env: Env, bars: seq<OHLCVBar>, seen: seq<OHLCVBar>)
    requires |seen| == |bars|
  {
    forall signals | |signals| == |bars| && Feed(env, bars, signals) ::
      Reports(env, bars, signals, bars, signals) ==> Reports(env, bars, signals, seen, signals)
  }

  lemma SamePricesReport(env: Env, bars: seq<OHLCVBar>, seen: seq<OHLCVBar>)
    requires SameTimes(bars, seen) && SamePrices(env, bars, seen)
    ensures AlwaysReports(env, bars, seen)
  {
    hide Final, LiveFinal, Curve, LiveCurve, SamePrices;
    forall signals | |signals| == |bars| && Feed(env, bars, signals) && Reports(env, bars, signals, bars, signals)
      ensures Reports(env, bars, signals, seen, signals)
    {
      SameFinal(env, bars, seen, Driver(Backtest, signals));
      SameCurve(env, bars, seen, Driver(Backtest, signals));
    }
  }

  lemma ReportsSeen(env: Env, bars: seq<OHLCVBar>, seen: seq<OHLCVBar>, i: nat, side: Side)
    requires env.spec.kind.Rule? && 1 <= i < |bars| && Ascending(bars) && AllPositive(bars) && SameTimes(bars, seen)
    requires AlwaysReports(env, bars, seen) && Sells(env, side)
    ensures seen[i].open == bars[i].open
    ensures forall m: nat | i <= m < |bars| && StillOpen(env, bars, i, side, m) ::
      SeesAlike(env, bars, seen, i, side, m)
  {
    hide Final, LiveFinal, Curve, LiveCurve, StillOpen, SeesAlike;
    EntryReports(env, bars, i, side);
    assert Reports(env, bars, EnterAt(|bars|, i, side), seen, EnterAt(|bars|, i, side));
    PricesRead(env, bars, seen, i, side);
  }

  /** Without levels a short entry sees what a long one sees. */
  lemma EitherSideSees(env: Env, bars: seq<OHLCVBar>, seen: seq<OHLCVBar>, i: nat, side: Side, m: nat)
    requires NoLevels(env) && i <= m < |bars| == |seen| && SeesAlike(env, bars, seen, i, Long, m)
    ensures SeesAlike(env, bars, seen, i, side, m) && StillOpen(env, bars, i, Long, m)
  {
  }

  /**
   What the two brokers must agree on, exactly: on every signal stream on which the session reports the backtest over
   its own bars it reports the backtest over the prepared frame if and only if the frame keeps the prices that a run
   can tell apart. (At 100 percent slippage a short sells at zero, and the spec must have no levels.)
   */
  lemma PricesMatterExactly(env: Env, ind: Indicators, bars: seq<OHLCVBar>)
    requires env.spec.kind.Rule? && (env.config.slippagePct < 100.0 || NoLevels(env))
    requires Ascending(bars) && AllPositive(bars) && PricesDefined(ind, bars)
    ensures AlwaysReports(env, bars, PreparedBars(ind, bars)) <==> SamePrices(env, bars, PreparedBars(ind, bars))
  {
    var seen := PreparedBars(ind, bars);
    hide AlwaysReports, StillOpen, SeesAlike, PreparedBars, AllPositive;
    if SamePrices(env, bars, seen) {
      SamePricesReport(env, bars, seen);
    }
    if AlwaysReports(env, bars, seen) {
      forall i | 1 <= i < |bars|
        ensures seen[i].open == bars[i].open
      {
        ReportsSeen(env, bars, seen, i, Long);
      }
      forall i: nat, side: Side, m: nat | 1 <= i <= m < |bars| && StillOpen(env, bars, i, side, m)
        ensures SeesAlike(env, bars, seen, i, side, m)
      {
        if Sells(env, side) {
          ReportsSeen(env, bars, seen, i, side);
        } else {
          ReportsSeen(env, bars, seen, i, Long);
          NeverExits(env, bars, i, Long, m);
          EitherSideSees(env, bars, seen, i, side, m);
        }
      }
    }
  }

  lemma NeverExits(env: Env, bars: seq<OHLCVBar>, i: nat, side: Side, m: nat)
    requires NoLevels(env) && i < |bars| && m <= |bars|
    ensures StillOpen(env, bars, i, side, m)
  {
  }
}

/**
 Stops and targets: an open position has never been touched by either, and a triggered one exits at a known loss or
 gain.
 */
module RiskInvariants {
  import opened Domain
  import opened FillModel
  import opened RuleEngine
  import opened DecisionTrace
  import opened PaperModel
  import opened LiveSession
  import opened RuleParity

  /** The risk levels and the entry fee are those of the position's own entry. */
  ghost predicate FromEntry(env: Env, p: Position) {
    && p.stopPrice == StopPrice(env.spec, p.side, p.entryPrice)
    && p.takePrice == TakePrice(env.spec, p.side, p.entryPrice)
    && p.entryFee == p.entryPrice * p.size * env.spec.taker
  }

  /** A price strictly between the position's stop and its target. */
  predicate Inside(p: Position, px: real) {
    && (p.stopPrice.Some? ==> if p.side.Long? then p.stopPrice.value < px else px < p.stopPrice.value)
    && (p.takePrice.Some? ==> if p.side.Long? then px < p.takePrice.value else p.takePrice.value < px)
  }

  ghost predicate RangeInside(p: Position, bar: OHLCVBar) {
    forall px | bar.low <= px <= bar.high :: Inside(p, px)
  }

  /** No bar since the position's entry, among the first `n`, reached its stop or its target. */
  ghost predicate Untouched(p: Position, bars: seq<OHLCVBar>, n: nat)
    requires n <= |bars|
  {
    forall i | 0 <= i < n && p.entryTime <= bars[i].time :: RangeInside(p, bars[i])
  }

  /** The intrabar check fires exactly when the bar's range is not strictly inside the levels. */
  lemma RiskExitIff(p: Position, bar: OHLCVBar)
    requires bar.low <= bar.high
    ensures RiskExit(p, bar.high, bar.low).None? <==> RangeInside(p, bar)
  {
    if RangeInside(p, bar) {
      assert Inside(p, bar.low) && Inside(p, bar.high);
    }
  }

  lemma UntouchedNext(p: Position, bars: seq<OHLCVBar>, n: nat)
    requires n < |bars| && Untouched(p, bars, n) && RangeInside(p, bars[n])
    ensures Untouched(p, bars, n + 1)
  {
  }

  lemma UntouchedBefore(p: Position, bars: seq<OHLCVBar>, n: nat)
    requires Ascending(bars) && n < |bars| && p.entryTime == bars[n].time
    ensures Untouched(p, bars, n)
  {
    assert forall i | 0 <= i < n :: bars[i].time < bars[n].time;
  }

  ghost predicate SameLevels(p: Position, q: Position) {
    && p.side == q.side && p.entryTime == q.entryTime && p.entryPrice == q.entryPrice && p.size == q.size
    && p.entryFee == q.entryFee && p.stopPrice == q.stopPrice && p.takePrice == q.takePrice
  }

  lemma SameLevelsUntouched(p: Position, q: Position, bars: seq<OHLCVBar>, n: nat)
    requires n <= |bars| && SameLevels(p, q) && Untouched(p, bars, n)
    ensures Untouched(q, bars, n)
  {
    forall i | 0 <= i < n && q.entryTime <= bars[i].time
      ensures RangeInside(q, bars[i])
    {
      assert RangeInside(p, bars[i]);
      assert forall px :: Inside(p, px) ==> Inside(q, px);
    }
  }

  /** What survives a bar: a held or newly opened position whose levels the bar's range did not reach. */
  lemma BarSurvivor(env: Env, a: Account, d: Decision, bar: OHLCVBar)
    requires Applicable(d, SideOf(a.pos))
    requires a.pos.Some? ==> FromEntry(env, a.pos.value)
    ensures var b := AfterBar(env, a, d, bar);
      b.pos.Some? ==>
        && FromEntry(env, b.pos.value)
        && RiskExit(b.pos.value, bar.high, bar.low).None?
        && (if d.open.Some? then b.pos.value.entryTime == bar.time
          else a.pos.Some? && SameLevels(a.pos.value, b.pos.value))
  {
    var b := AfterDecision(env, a, d, bar);
    RiskShows(env, b, bar);
    HoldKeepsIdentity(env, AfterRisk(env, b, bar), bar);
    hide CloseAt, Held, TargetSize, Slip, StopPrice, TakePrice;
  }

  /** Every position open in a run has had neither its stop nor its target touched on any bar since its entry. */
  lemma {:induction false} OpenPositionUntouched(env: Env, bars: seq<OHLCVBar>, drv: Driver, n: nat)
    requires Ascending(bars) && AllPositive(bars)
    requires n <= |bars| == |drv.signals|
    ensures var pos := Run(env, bars, drv, n).pos;
      pos.Some? ==> FromEntry(env, pos.value) && Untouched(pos.value, bars, n)
  {
    if n > 0 {
      OpenPositionUntouched(env, bars, drv, n - 1);
      var a, d, bar := Run(env, bars, drv, n - 1), DecisionAt(env, bars, drv, n - 1), bars[n - 1];
      BarSurvivor(env, a, d, bar);
      var pos := Run(env, bars, drv, n).pos;
      if pos.Some? {
        hide FromEntry, AfterBar, Untouched, RangeInside, RiskExit, DecisionAt;
        assert PositivePrices(bar);
        RiskExitIff(pos.value, bar);
        if d.open.Some? {
          UntouchedBefore(pos.value, bars, n - 1);
        } else {
          SameLevelsUntouched(a.pos.value, pos.value, bars, n - 1);
        }
        UntouchedNext(pos.value, bars, n - 1);
      }
    }
  }

  /** So every mark since entry lies strictly between the stop and the target. */
  lemma MarksInside(env: Env, bars: seq<OHLCVBar>, drv: Driver, n: nat, i: nat)
    requires Ascending(bars) && AllPositive(bars)
    requires i < n <= |bars| == |drv.signals|
    requires Run(env, bars, drv, n).pos.Some? && Run(env, bars, drv, n).pos.value.entryTime <= bars[i].time
    ensures Inside(Run(env, bars, drv, n).pos.value, bars[i].close)
  {
    OpenPositionUntouched(env, bars, drv, n);
    hide Run;
    assert PositivePrices(bars[i]);
  }

  /** The same of a live session, which holds what the engine deciding on its intents holds. */
  lemma SessionPositionUntouched(env: Env, bars: seq<OHLCVBar>, live: seq<BarSignal>, n: nat)
    requires env.spec.kind.Rule? && Feed(env, bars, live) && n <= |bars|
    requires Ascending(bars) && AllPositive(bars)
    requires LiveRun(env, bars, live, n).Done?
    ensures var pos := LiveRun(env, bars, live, n).state.pos;
      pos.Some? ==> FromEntry(env, pos.value) && Untouched(pos.value, bars, n)
  {
    RunFollows(env, bars, live, n);
    OpenPositionUntouched(env, bars, LiveDriver(live), n);
    hide LiveRun, Run;
  }

  // ---- what a triggered exit books ----

  /**
   The pnl of a round trip whose price moved by the fraction `move` of its entry, in the trade's favour when positive.
   */
  function RoundTrip(notional: real, gain: real, move: real, taker: real, funding: real): real {
    notional * gain - notional * taker - notional * (1.0 + move) * taker - funding
  }

  lemma NetOfRoundTrip(side: Side, e: real, f: real, s: real, k: real, px: real, funding: real)
    requires px == e + e * f
    ensures Gross(side, e, s, px) - e * s * k - px * s * k - funding
         == RoundTrip(e * s, if side.Long? then f else -f, f, k, funding)
  {
    var n := e * s;
    assert e * f * s == n * f;
    assert px * s == n + n * f;
    assert n * (1.0 + f) == n + n * f;
  }

  /** Price move, as a fraction of the entry, at which a stop or target of `pct` percent on `side` fills. */
  function MoveOf(side: Side, reason: ExitReason, pct: real): real {
    if side.Long? == reason.StopLoss? then -(pct / 100.0) else pct / 100.0
  }

  /** A trade that exited at `pct` percent from its entry, fees and funding included. */
  ghost predicate ExitedAt(env: Env, t: Trade, pct: real) {
    var move := MoveOf(t.side, t.exitReason, pct);
    && t.exitPrice == t.entryPrice + t.entryPrice * move
    && t.pnl == RoundTrip(t.entryPrice * t.size, if t.side.Long? then move else -move, move,
                          env.spec.taker, t.fundingPaid)
  }

  ghost predicate KnownExit(env: Env, t: Trade) {
    && (t.exitReason.StopLoss? ==> env.spec.stopLossPct.Some? && ExitedAt(env, t, env.spec.stopLossPct.value))
    && (t.exitReason.TakeProfit? ==> env.spec.takeProfitPct.Some? && ExitedAt(env, t, env.spec.takeProfitPct.value))
  }

  /** Closing at a move away from the entry books that move of the notional, less fees and funding. */
  lemma ClosedAtMove(env: Env, p: Position, px: real, pct: real, now: int, reason: ExitReason)
    requires p.entryFee == p.entryPrice * p.size * env.spec.taker
    requires px == p.entryPrice + p.entryPrice * MoveOf(p.side, reason, pct)
    ensures var t := Closed(env, p, px, now, reason);
      t.exitReason == reason && ExitedAt(env, t, pct)
  {
    var move := MoveOf(p.side, reason, pct);
    NetOfRoundTrip(p.side, p.entryPrice, move, p.size, env.spec.taker, px, p.fundingPaid);
    hide PnlPct, MoveOf, RoundTrip, Gross;
  }

  lemma NegatedProduct(e: real, f: real)
    ensures e - e * f == e + e * (-f)
  {
  }

  lemma LevelIs(env: Env, p: Position, bar: OHLCVBar, pct: real)
    requires FromEntry(env, p) && RiskExit(p, bar.high, bar.low).Some?
    requires var reason := RiskExit(p, bar.high, bar.low).value.reason;
      Some(pct) == if reason.StopLoss? then env.spec.stopLossPct else env.spec.takeProfitPct
    ensures var fill := RiskExit(p, bar.high, bar.low).value;
      fill.price == p.entryPrice + p.entryPrice * MoveOf(p.side, fill.reason, pct)
  {
    NegatedProduct(p.entryPrice, pct / 100.0);
  }

  lemma RiskExitReason(env: Env, p: Position, bar: OHLCVBar)
    requires FromEntry(env, p) && RiskExit(p, bar.high, bar.low).Some?
    ensures var reason := RiskExit(p, bar.high, bar.low).value.reason;
      (reason.StopLoss? && env.spec.stopLossPct.Some?) || (reason.TakeProfit? && env.spec.takeProfitPct.Some?)
  {
  }

  lemma RiskExitKnown(env: Env, p: Position, bar: OHLCVBar)
    requires FromEntry(env, p) && RiskExit(p, bar.high, bar.low).Some?
    ensures var fill := RiskExit(p, bar.high, bar.low).value;
      KnownExit(env, Closed(env, p, fill.price, bar.time, fill.reason))
  {
    RiskExitReason(env, p, bar);
    hide RiskExit, StopPrice, TakePrice, MoveOf, RoundTrip;
    var fill := RiskExit(p, bar.high, bar.low).value;
    var pct := if fill.reason.StopLoss? then env.spec.stopLossPct.value else env.spec.takeProfitPct.value;
    LevelIs(env, p, bar, pct);
    ClosedAtMove(env, p, fill.price, pct, bar.time, fill.reason);
    hide FromEntry, Closed, ExitedAt;
  }

  ghost predicate AllKnown(env: Env, ts: seq<Trade>) {
    forall i | 0 <= i < |ts| :: KnownExit(env, ts[i])
  }

  lemma DecisionKnown(env: Env, a: Account, d: Decision, bar: OHLCVBar)
    requires Applicable(d, SideOf(a.pos)) && AllKnown(env, a.trades)
    requires a.pos.Some? ==> FromEntry(env, a.pos.value)
    ensures var b := AfterDecision(env, a, d, bar);
      AllKnown(env, b.trades) && (b.pos.Some? ==> FromEntry(env, b.pos.value))
  {
    hide TargetSize, Slip, StopPrice, TakePrice, PnlPct;
    var b := AfterClose(env, a, d, bar);
    assert AllKnown(env, b.trades);
  }

  lemma BarKnown(env: Env, a: Account, d: Decision, bar: OHLCVBar)
    requires Applicable(d, SideOf(a.pos)) && AllKnown(env, a.trades)
    requires a.pos.Some? ==> FromEntry(env, a.pos.value)
    ensures var b := AfterBar(env, a, d, bar);
      AllKnown(env, b.trades) && (b.pos.Some? ==> FromEntry(env, b.pos.value))
  {
    BarSurvivor(env, a, d, bar);
    DecisionKnown(env, a, d, bar);
    var b := AfterDecision(env, a, d, bar);
    HoldKeepsIdentity(env, AfterRisk(env, b, bar), bar);
    if b.pos.Some? && RiskExit(b.pos.value, bar.high, bar.low).Some? {
      RiskExitKnown(env, b.pos.value, bar);
    }
    hide KnownExit, FromEntry, RiskExit, AfterDecision, AfterHold;
  }

  lemma {:induction false} RunKnown(env: Env, bars: seq<OHLCVBar>, drv: Driver, n: nat)
    requires n <= |bars| == |drv.signals|
    ensures var a := Run(env, bars, drv, n);
      AllKnown(env, a.trades) && (a.pos.Some? ==> FromEntry(env, a.pos.value))
  {
    if n > 0 {
      RunKnown(env, bars, drv, n - 1);
      BarKnown(env, Run(env, bars, drv, n - 1), DecisionAt(env, bars, drv, n - 1), bars[n - 1]);
      hide AllKnown, FromEntry, AfterBar;
    }
  }

  /**
   Every stop-loss trade of a run exits exactly the stop percentage from its entry, every take-profit trade exactly
   the target percentage, and their pnl is that fraction of the notional less both fees and the funding paid.
   */
  lemma TriggeredExitsKnown(env: Env, bars: seq<OHLCVBar>, drv: Driver)
    requires |bars| == |drv.signals|
    ensures AllKnown(env, Final(env, bars, drv).trades)
  {
    RunKnown(env, bars, drv, |bars|);
    hide Run, KnownExit, FromEntry;
  }

  /** And every triggered exit of a live session. */
  lemma SessionExitsKnown(env: Env, bars: seq<OHLCVBar>, live: seq<BarSignal>)
    requires env.spec.kind.Rule? && Feed(env, bars, live) && LiveFinal(env, bars, live).Done?
    ensures AllKnown(env, LiveFinal(env, bars, live).state.trades)
  {
    FinalFollows(env, bars, live);
    TriggeredExitsKnown(env, bars, LiveDriver(live));
    hide LiveFinal, Final;
  }
}

/** The recorded trades of a rule run determine every decision it took. */
module DecisionTrace {
  import opened Domain
  import opened FillModel
  import opened RuleEngine

  /** The trade that position `p` ends in. */
  predicate EndsIn(t: Trade, p: Position) {
    t.entryTime == p.entryTime && t.side == p.side
  }

  /** `t` was recorded by a signal exit at time `now`. */
  predicate SignalExitAt(t: Trade, now: int) {
    t.exitTime == now && t.exitReason == Signal
  }

  /**
   What lies between account `a` and a later account `b` reached at or after time `now`, by bars or by the
   force-close.
   */
  ghost predicate Later(a: Account, b: Account, now: int) {
    && a.trades <= b.trades
    && (|b.trades| == |a.trades| && b.pos.Some? ==>
      if a.pos.Some? then b.pos.value.entryTime == a.pos.value.entryTime && b.pos.value.side == a.pos.value.side
      else now <= b.pos.value.entryTime)
    && (a.pos.Some? && |b.trades| == |a.trades| ==> b.pos.Some?)
    && (|a.trades| < |b.trades| ==>
      var t := b.trades[|a.trades|];
      if a.pos.Some? then EndsIn(t, a.pos.value) && (now <= t.exitTime || t.exitReason != Signal)
      else now <= t.entryTime)
  }

  lemma BarIsLater(env: Env, a: Account, d: Decision, bar: OHLCVBar)
    requires Applicable(d, SideOf(a.pos))
    ensures Later(a, AfterBar(env, a, d, bar), bar.time)
  {
    var b := AfterDecision(env, a, d, bar);
    var c := AfterRisk(env, b, bar);
    assert AfterHold(env, c, bar).trades == c.trades;
    HoldKeepsIdentity(env, c, bar);
  }

  lemma {:induction false} ChargedKeepsIdentity(env: Env, p: Position, mark: real)
    ensures var q := Charged(env, p, mark);
      q == p.(fundingPaid := q.fundingPaid, hoursSinceFunding := q.hoursSinceFunding)
    decreases Intervals(env, p.hoursSinceFunding)
  {
    if p.hoursSinceFunding >= env.config.fundingIntervalHours {
      IntervalsStep(env, p.hoursSinceFunding);
      ChargedKeepsIdentity(env, p.(hoursSinceFunding := p.hoursSinceFunding - env.config.fundingIntervalHours,
                                   fundingPaid := p.fundingPaid + Charge(env, p, mark)), mark);
    }
  }

  /** Holding a position for a bar touches only its bar count and its funding. */
  lemma HoldKeepsIdentity(env: Env, a: Account, bar: OHLCVBar)
    ensures var b := AfterHold(env, a, bar);
      && b == a.(pos := b.pos)
      && (a.pos.None? ==> b.pos.None?)
      && (a.pos.Some? ==> b.pos.Some? && var q := b.pos.value;
        q == a.pos.value.(barsHeld := a.pos.value.barsHeld + 1, fundingPaid := q.fundingPaid,
                          hoursSinceFunding := q.hoursSinceFunding))
  {
    if a.pos.Some? && PaysFunding(env) {
      var p := a.pos.value;
      ChargedKeepsIdentity(env,
        p.(barsHeld := p.barsHeld + 1, hoursSinceFunding := p.hoursSinceFunding + env.BarHours()), bar.close);
    }
  }

  lemma LaterTransitive(a: Account, b: Account, c: Account, now: int, later: int)
    requires Later(a, b, now) && Later(b, c, later) && now <= later
    ensures Later(a, c, now)
  {
  }

  lemma {:induction false} RunIsLater(env: Env, bars: seq<OHLCVBar>, drv: Driver, k: nat, m: nat)
    requires Ascending(bars)
    requires k < m <= |bars| == |drv.signals|
    ensures Later(Run(env, bars, drv, k), Run(env, bars, drv, m), bars[k].time)
    decreases m
  {
    var a := Run(env, bars, drv, m - 1);
    BarIsLater(env, a, DecisionAt(env, bars, drv, m - 1), bars[m - 1]);
    if k < m - 1 {
      RunIsLater(env, bars, drv, k, m - 1);
      LaterTransitive(Run(env, bars, drv, k), a, Run(env, bars, drv, m), bars[k].time, bars[m - 1].time);
    }
  }

  /** From any point of the run to its force-closed end. */
  lemma FinalIsLater(env: Env, bars: seq<OHLCVBar>, drv: Driver, k: nat, now: int)
    requires Ascending(bars)
    requires k <= |bars| == |drv.signals|
    requires k < |bars| ==> now <= bars[k].time
    ensures Later(Run(env, bars, drv, k), Final(env, bars, drv), now)
    ensures Final(env, bars, drv).pos.None?
  {
    var n := |bars|;
    if k < n {
      RunIsLater(env, bars, drv, k, n);
    }
  }

  /** What the final trade list shows about the decision taken at bar `i`. */
  ghost predicate Shows(trades: seq<Trade>, recorded: nat, held: bool, d: Decision, now: int) {
    var next := recorded + if d.close then 1 else 0;
    && (held ==> recorded < |trades| && (d.close <==> SignalExitAt(trades[recorded], now)))
    && (d.open.Some? ==> next < |trades| && trades[next].entryTime == now && trades[next].side == d.open.value)
    && (d.open.None? && (!held || d.close) && next < |trades| ==> trades[next].entryTime != now)
  }

  /** The same, for an account right after the bar, where the position taken may still be open. */
  ghost predicate ShowsSoFar(e: Account, recorded: nat, held: bool, d: Decision, now: int) {
    var next := recorded + if d.close then 1 else 0;
    && next <= |e.trades|
    && (d.close ==> SignalExitAt(e.trades[recorded], now))
    && (held && !d.close ==> if |e.trades| == recorded then e.pos.Some? else !SignalExitAt(e.trades[recorded], now))
    && (d.open.Some? ==>
      if |e.trades| == next then e.pos.Some? && e.pos.value.entryTime == now && e.pos.value.side == d.open.value
      else e.trades[next].entryTime == now && e.trades[next].side == d.open.value)
    && (d.open.None? && (!held || d.close) ==> |e.trades| == next && e.pos.None?)
  }

  lemma RiskShows(env: Env, b: Account, bar: OHLCVBar)
    ensures var c := AfterRisk(env, b, bar);
      || c == b
      || (&& b.pos.Some? && c.pos.None?
          && |c.trades| == |b.trades| + 1 && c.trades[..|b.trades|] == b.trades
          && EndsIn(c.trades[|b.trades|], b.pos.value) && c.trades[|b.trades|].exitReason != Signal)
  {
    if b.pos.Some? && RiskExit(b.pos.value, bar.high, bar.low).Some? {
      assert |AfterRisk(env, b, bar).trades| == |b.trades| + 1;
    }
  }

  lemma BarShows(env: Env, a: Account, d: Decision, bar: OHLCVBar)
    requires Applicable(d, SideOf(a.pos))
    ensures a.trades <= AfterBar(env, a, d, bar).trades
    ensures ShowsSoFar(AfterBar(env, a, d, bar), |a.trades|, a.pos.Some?, d, bar.time)
  {
    var b := AfterDecision(env, a, d, bar);
    RiskShows(env, b, bar);
    HoldKeepsIdentity(env, AfterRisk(env, b, bar), bar);
  }

  lemma ShowsInTheEnd(e: Account, f: Account, recorded: nat, held: bool, d: Decision, now: int)
    requires ShowsSoFar(e, recorded, held, d, now)
    requires Later(e, f, now + 1) && f.pos.None?
    ensures Shows(f.trades, recorded, held, d, now)
  {
  }

  lemma FinalShowsDecision(env: Env, bars: seq<OHLCVBar>, drv: Driver, i: nat)
    requires Ascending(bars)
    requires i < |bars| == |drv.signals|
    ensures var a := Run(env, bars, drv, i);
      && a.trades <= Final(env, bars, drv).trades
      && Shows(Final(env, bars, drv).trades, |a.trades|, a.pos.Some?, DecisionAt(env, bars, drv, i), bars[i].time)
  {
    var a, e, d := Run(env, bars, drv, i), Run(env, bars, drv, i + 1), DecisionAt(env, bars, drv, i);
    BarShows(env, a, d, bars[i]);
    assert i + 1 < |bars| ==> bars[i].time < bars[i + 1].time;
    FinalIsLater(env, bars, drv, i + 1, bars[i].time + 1);
    ShowsInTheEnd(e, Final(env, bars, drv), |a.trades|, a.pos.Some?, d, bars[i].time);
  }

  /** Runs that agree on the account so far and on the whole final trade list take the same next decision. */
  lemma SameTradesSameDecision(env: Env, bars: seq<OHLCVBar>, x: Driver, y: Driver, i: nat)
    requires Ascending(bars)
    requires i < |bars| == |x.signals| == |y.signals|
    requires Run(env, bars, x, i) == Run(env, bars, y, i)
    requires Final(env, bars, x).trades == Final(env, bars, y).trades
    ensures DecisionAt(env, bars, x, i) == DecisionAt(env, bars, y, i)
  {
    FinalShowsDecision(env, bars, x, i);
    FinalShowsDecision(env, bars, y, i);
  }

  ghost predicate SameDecisions(env: Env, bars: seq<OHLCVBar>, x: Driver, y: Driver, n: nat)
    requires n <= |bars| == |x.signals| == |y.signals|
  {
    forall i | 0 <= i < n :: DecisionAt(env, bars, x, i) == DecisionAt(env, bars, y, i)
  }

  lemma {:induction false} SameDecisionsSameRun(env: Env, bars: seq<OHLCVBar>, x: Driver, y: Driver, n: nat)
    requires n <= |bars| == |x.signals| == |y.signals|
    requires SameDecisions(env, bars, x, y, n)
    ensures Run(env, bars, x, n) == Run(env, bars, y, n)
  {
    if n > 0 {
      SameDecisionsSameRun(env, bars, x, y, n - 1);
      assert DecisionAt(env, bars, x, n - 1) == DecisionAt(env, bars, y, n - 1);
    }
  }

  lemma {:induction false} SameTradesSameDecisions(env: Env, bars: seq<OHLCVBar>, x: Driver, y: Driver, n: nat)
    requires Ascending(bars)
    requires n <= |bars| == |x.signals| == |y.signals|
    requires Final(env, bars, x).trades == Final(env, bars, y).trades
    ensures SameDecisions(env, bars, x, y, n)
    ensures Run(env, bars, x, n) == Run(env, bars, y, n)
  {
    hide AfterBar, Decide, Final;
    if n > 0 {
      SameTradesSameDecisions(env, bars, x, y, n - 1);
      SameTradesSameDecision(env, bars, x, y, n - 1);
    }
  }

  lemma SameDecisionsSameReport(env: Env, bars: seq<OHLCVBar>, x: Driver, y: Driver)
    requires |bars| == |x.signals| == |y.signals|
    requires SameDecisions(env, bars, x, y, |bars|)
    ensures Final(env, bars, x) == Final(env, bars, y)
    ensures Curve(env, bars, x) == Curve(env, bars, y)
  {
    SameDecisionsSameRun(env, bars, x, y, |bars|);
    forall i: nat | i < |bars|
      ensures EquityAt(env, bars, x, i) == EquityAt(env, bars, y, i)
    {
      SameDecisionsSameRun(env, bars, x, y, i + 1);
    }
  }

  /**
   Two rule runs over the same ascending bars record the same trades exactly when they take the same decision on
   every bar, and then they agree on everything else: final account and whole equity curve.
   */
  lemma TradesDetermineDecisions(env: Env, bars: seq<OHLCVBar>, x: Driver, y: Driver)
    requires Ascending(bars)
    requires |bars| == |x.signals| == |y.signals|
    ensures Final(env, bars, x).trades == Final(env, bars, y).trades <==> SameDecisions(env, bars, x, y, |bars|)
    ensures Final(env, bars, x).trades == Final(env, bars, y).trades ==>
      Final(env, bars, x) == Final(env, bars, y) && Curve(env, bars, x) == Curve(env, bars, y)
  {
    if Final(env, bars, x).trades == Final(env, bars, y).trades {
      SameTradesSameDecisions(env, bars, x, y, |bars|);
    }
    if SameDecisions(env, bars, x, y, |bars|) {
      SameDecisionsSameReport(env, bars, x, y);
    }
  }
}

/** A rule session reports what a backtest of the same bars reports: exactly when, and everything that then agrees. */
module RuleParity {
  import opened Domain
  import opened Fills
  import opened FillModel
  import opened RealArithmetic
  import opened RuleEngine
  import opened DecisionTrace
  import opened GridEngine
  import opened PaperModel
  import opened LiveSession

  /** The session can book the fill that closed `t`. */
  predicate Fillable(t: Trade) {
    0.0 < t.size && 0.0 < t.exitPrice
  }

  ghost predicate AllFillable(ts: seq<Trade>) {
    forall i | 0 <= i < |ts| :: Fillable(ts[i])
  }

  lemma FillableMeans(env: Env, t: Trade)
    ensures ExitFill(env, t).Valid() <==> Fillable(t)
  {
    if Fillable(t) {
      MulNonneg(t.exitPrice, t.size);
      MulNonneg(t.exitPrice * t.size, env.spec.taker);
    }
  }

  lemma CloseFollows(env: Env, st: PaperState, px: real, now: int, reason: ExitReason)
    requires st.pos.Some?
    ensures var r, a := PaperClose(env, st, px, now, reason), CloseAt(env, st.Acct(), px, now, reason);
      && (r.Done? <==> Fillable(a.trades[|st.trades|]))
      && (r.Done? ==> r.state.Acct() == a && r.state.pending == st.pending)
  {
    FillableMeans(env, Closed(env, st.pos.value, px, now, reason));
  }

  ghost predicate NewFillable(a: Account, b: Account) {
    forall i | |a.trades| <= i < |b.trades| :: Fillable(b.trades[i])
  }

  /** `o` is what a step of the paper broker from account `a` does where the rule engine steps from `a` to `b`. */
  ghost predicate Follows(o: Outcome, a: Account, b: Account) {
    && a.trades <= b.trades
    && (o.Done? <==> NewFillable(a, b))
    && (o.Done? ==> o.state.Acct() == b)
  }

  /** What the pending intents ask for at a bar's open, whoever submitted them. */
  function PendingDecision(st: PaperState): (d: Decision)
    ensures Applicable(d, SideOf(st.pos))
  {
    var close := st.pos.Some? && PendingClose(st);
    Decision(close,
      if st.pos.Some? && !close then None
      else if st.pending.enterLong then Some(Long)
      else if st.pending.enterShort then Some(Short)
      else None)
  }

  /** The intents of one signal ask for its live decision. */
  lemma PendingIsDecision(env: Env, st: PaperState, s: BarSignal)
    requires env.spec.kind.Rule? && st.pending == PendingOf(env.spec, s)
    ensures PendingDecision(st) == Decide(Live, SideOf(st.pos), s)
  {
  }

  lemma PendingFollows(env: Env, st: PaperState, bar: OHLCVBar)
    requires env.spec.kind.Rule?
    ensures Follows(PendingRule(env, st, bar), st.Acct(), AfterDecision(env, st.Acct(), PendingDecision(st), bar))
  {
    if st.pos.Some? && PendingClose(st) {
      CloseFollows(env, st, Slip(env.config, bar.open, st.pos.value.side.Long?), bar.time, Signal);
    }
  }

  lemma RiskFollows(env: Env, st: PaperState, bar: OHLCVBar)
    ensures Follows(RiskChecked(env, st, bar), st.Acct(), AfterRisk(env, st.Acct(), bar))
  {
    if st.pos.Some? && RiskExit(st.pos.value, bar.high, bar.low).Some? {
      var fill := RiskExit(st.pos.value, bar.high, bar.low).value;
      CloseFollows(env, st, fill.price, bar.time, fill.reason);
    }
  }

  /** One bar of the paper broker carries out whatever is pending, or raises on an unfillable exit. */
  lemma BarFollows(env: Env, st: PaperState, bar: OHLCVBar)
    requires env.spec.kind.Rule? && st.Valid()
    ensures Follows(PaperBar(env, st, bar), st.Acct(), AfterBar(env, st.Acct(), PendingDecision(st), bar))
  {
    var d := PendingDecision(st);
    var at := Arrived(st, bar);
    assert at.Acct() == st.Acct() && PendingDecision(at) == d;
    PendingFollows(env, at, bar);
    var b := AfterDecision(env, st.Acct(), d, bar);
    var c := AfterRisk(env, b, bar);
    HoldKeepsIdentity(env, c, bar);
    RiskShows(env, b, bar);
    var entered := PendingRule(env, at, bar);
    hide PendingRule, AfterDecision, PendingDecision, AfterRisk;
    if entered.Done? {
      RiskFollows(env, entered.state, bar);
    }
    hide RiskChecked, Held;
  }

  /** One bar of the paper broker carries out the live decision, or raises on an unfillable exit. */
  lemma PaperBarFollows(env: Env, st: PaperState, s: BarSignal, bar: OHLCVBar)
    requires env.spec.kind.Rule? && st.Valid() && st.pending == PendingOf(env.spec, s)
    ensures Follows(PaperBar(env, st, bar), st.Acct(), AfterBar(env, st.Acct(), Decide(Live, SideOf(st.pos), s), bar))
  {
    PendingIsDecision(env, st, s);
    hide PendingDecision, Decide, PaperBar, AfterBar, Follows;
    BarFollows(env, st, bar);
  }

  function LiveDriver(live: seq<BarSignal>): Driver {
    Driver(Live, live)
  }

  lemma {:induction false} RunFollows(env: Env, bars: seq<OHLCVBar>, live: seq<BarSignal>, n: nat)
    requires env.spec.kind.Rule? && Feed(env, bars, live) && n <= |bars|
    ensures var o, a := LiveRun(env, bars, live, n), Run(env, bars, LiveDriver(live), n);
      && (o.Done? <==> AllFillable(a.trades))
      && (o.Done? ==> o.state.Acct() == a)
  {
    hide PaperBar, AfterBar, SubmitAll, IntentsFor;
    if n > 0 {
      RunFollows(env, bars, live, n - 1);
      var drv := LiveDriver(live);
      var a, b := Run(env, bars, drv, n - 1), Run(env, bars, drv, n);
      BarIsLater(env, a, DecisionAt(env, bars, drv, n - 1), bars[n - 1]);
      var before := LiveRun(env, bars, live, n - 1);
      if before.Done? {
        LiveRunPending(env, bars, live, n - 1);
        PaperBarFollows(env, before.state, drv.Pending(n - 1), bars[n - 1]);
        var done := PaperBar(env, before.state, bars[n - 1]);
        if done.Done? {
          BarKeepsValid(env, before.state, bars[n - 1]);
          SubmitSetsPending(env.spec, done.state, live[n - 1]);
        }
      } else {
        var i :| 0 <= i < |a.trades| && !Fillable(a.trades[i]);
        assert b.trades[i] == a.trades[i];
      }
    }
  }

  lemma ForceCloseFollows(env: Env, st: PaperState, last: OHLCVBar)
    requires env.spec.kind.Rule? && st.Valid()
    requires st.mark == Some(last.close) && st.lastTime == Some(last.time)
    ensures Follows(ForceClosed(env, st), st.Acct(), Liquidated(env, st.Acct(), last))
  {
    if st.pos.Some? {
      CloseFollows(env, st, last.close, last.time, EndOfData);
    }
    hide PaperClose, CloseAt;
  }

  lemma FinalFollows(env: Env, bars: seq<OHLCVBar>, live: seq<BarSignal>)
    requires env.spec.kind.Rule? && Feed(env, bars, live)
    ensures var o, a := LiveFinal(env, bars, live), Final(env, bars, LiveDriver(live));
      && (o.Done? <==> AllFillable(a.trades))
      && (o.Done? ==> o.state.Acct() == a)
  {
    var n := |bars|;
    RunFollows(env, bars, live, n);
    if n > 0 {
      var done, a := LiveRun(env, bars, live, n), Run(env, bars, LiveDriver(live), n);
      if done.Done? {
        LiveRunPending(env, bars, live, n);
        ForceCloseFollows(env, done.state, bars[n - 1]);
      } else {
        var i :| 0 <= i < |a.trades| && !Fillable(a.trades[i]);
        assert Liquidated(env, a, bars[n - 1]).trades[i] == a.trades[i];
      }
      hide LiveRun, Run, ForceClosed, Liquidated, Feed;
    }
  }

  lemma PointFollows(env: Env, bars: seq<OHLCVBar>, live: seq<BarSignal>, i: nat)
    requires env.spec.kind.Rule? && Feed(env, bars, live) && i < |bars|
    requires LiveFinal(env, bars, live).Done?
    ensures LivePoint(env, bars, live, i) == CurvePoint(env, bars, LiveDriver(live), i)
  {
    if i == |bars| - 1 {
      FinalFollows(env, bars, live);
      assert Final(env, bars, LiveDriver(live)).pos.None?;
      hide LiveFinal, Final, LiveRun, Run;
    } else {
      DoneEarlier(env, bars, live, i + 1, |bars|);
      RunFollows(env, bars, live, i + 1);
      hide LiveFinal, Final, LiveRun, Run;
    }
  }

  lemma CurveFollows(env: Env, bars: seq<OHLCVBar>, live: seq<BarSignal>)
    requires env.spec.kind.Rule? && Feed(env, bars, live)
    requires LiveFinal(env, bars, live).Done?
    ensures LiveCurve(env, bars, live) == Curve(env, bars, LiveDriver(live))
  {
    hide LiveFinal, LivePoint, CurvePoint;
    forall i: nat | i < |bars|
      ensures LivePoint(env, bars, live, i) == CurvePoint(env, bars, LiveDriver(live), i)
    {
      PointFollows(env, bars, live, i);
    }
  }

  lemma {:induction false} DoneEarlier(env: Env, bars: seq<OHLCVBar>, live: seq<BarSignal>, k: nat, n: nat)
    requires Feed(env, bars, live) && k <= n <= |bars|
    requires LiveRun(env, bars, live, n).Done?
    ensures LiveRun(env, bars, live, k).Done?
    decreases n
  {
    hide PaperBar, SubmitAll, IntentsFor;
    if k < n {
      DoneEarlier(env, bars, live, k, n - 1);
    }
  }

  /**
   Rule parity, exactly. A session deciding `live` completes and records the trades that a backtest on `signals`
   records if and only if both decide alike on every bar and every backtest trade has a positive size and exit
   price. The whole account and the whole equity curve then agree too.
   */
  lemma SessionTradesMatchExactly(env: Env, bars: seq<OHLCVBar>, signals: seq<BarSignal>, live: seq<BarSignal>)
    requires env.spec.kind.Rule? && Ascending(bars) && |signals| == |bars| && Feed(env, bars, live)
    ensures var batch, session := Final(env, bars, Driver(Backtest, signals)), LiveFinal(env, bars, live);
      && (session.Done? && session.state.trades == batch.trades <==>
            && SameDecisions(env, bars, Driver(Backtest, signals), Driver(Live, live), |bars|)
            && AllFillable(batch.trades))
      && (session.Done? && session.state.trades == batch.trades ==>
            && session.state.Acct() == batch
            && LiveCurve(env, bars, live) == Curve(env, bars, Driver(Backtest, signals)))
  {
    FinalFollows(env, bars, live);
    TradesDetermineDecisions(env, bars, Driver(Backtest, signals), LiveDriver(live));
    if LiveFinal(env, bars, live).Done? {
      CurveFollows(env, bars, live);
    }
  }
}

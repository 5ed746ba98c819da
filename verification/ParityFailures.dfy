/** Each condition of rule parity is needed: families of inputs on which the session and the backtest differ. */
module ParityFailures {
  import opened Domain
  import opened FillModel
  import opened RuleEngine
  import opened DecisionTrace
  import opened GridEngine
  import opened PaperModel
  import opened LiveSession
  import opened RuleParity
  import opened ParityConditions

  ghost predicate SessionMatches(env: Env, bars: seq<OHLCVBar>, signals: seq<BarSignal>, live: seq<BarSignal>)
    requires |bars| == |signals| && Feed(env, bars, live)
  {
    var session := LiveFinal(env, bars, live);
    session.Done? && session.state.trades == Final(env, bars, Driver(Backtest, signals)).trades
  }

  /** A long entry on the first bar is held after the second, when the spec sets no stop and no target. */
  lemma LongAfterEntry(env: Env, bars: seq<OHLCVBar>, signals: seq<BarSignal>)
    requires env.spec.stopLossPct.None? && env.spec.takeProfitPct.None?
    requires 2 <= |bars| == |signals| && signals[0].enterLong
    ensures var a := Run(env, bars, Driver(Backtest, signals), 2);
      a.trades == [] && SideOf(a.pos) == Some(Long)
  {
    var drv := Driver(Backtest, signals);
    var a := Run(env, bars, drv, 1);
    assert a == NewAccount(env) by {
      assert Run(env, bars, drv, 0) == NewAccount(env);
      assert DecisionAt(env, bars, drv, 0) == IDLE;
    }
    var d := DecisionAt(env, bars, drv, 1);
    assert d == Decision(false, Some(Long));
    var b := AfterDecision(env, a, d, bars[1]);
    assert RiskExit(b.pos.value, bars[1].high, bars[1].low) == None;
    HoldKeepsIdentity(env, AfterRisk(env, b, bars[1]), bars[1]);
  }

  /** A short exit signal alone closes the session's long, and not the backtest's. */
  lemma LoneOppositeExitDiverges(env: Env, bars: seq<OHLCVBar>, signals: seq<BarSignal>)
    requires env.spec.kind.Rule? && env.spec.stopLossPct.None? && env.spec.takeProfitPct.None?
    requires Ascending(bars) && 3 <= |bars| == |signals| && Feed(env, bars, signals)
    requires signals[0].enterLong
    requires signals[1].exitShort && !signals[1].exitLong && !signals[1].enterShort
    ensures !SessionMatches(env, bars, signals, signals)
  {
    LongAfterEntry(env, bars, signals);
    assert !HarmlessAt(env, bars, signals, signals, 1);
    SessionMatchesBacktest(env, bars, signals, signals);
  }

  /** Both entries on one bar reverse the backtest's long, and leave the session's alone. */
  lemma BothEntriesDiverge(env: Env, bars: seq<OHLCVBar>, signals: seq<BarSignal>)
    requires env.spec.kind.Rule? && env.spec.stopLossPct.None? && env.spec.takeProfitPct.None?
    requires Ascending(bars) && 3 <= |bars| == |signals| && Feed(env, bars, signals)
    requires signals[0].enterLong
    requires signals[1].enterLong && signals[1].enterShort && !signals[1].exitLong && !signals[1].exitShort
    ensures !SessionMatches(env, bars, signals, signals)
  {
    LongAfterEntry(env, bars, signals);
    assert !HarmlessAt(env, bars, signals, signals, 1);
    SessionMatchesBacktest(env, bars, signals, signals);
  }

  /** The first entry that the warm-up gate suppresses is one the backtest takes. */
  lemma GatedEntryDiverges(env: Env, bars: seq<OHLCVBar>, signals: seq<BarSignal>, live: seq<BarSignal>, i: nat)
    requires env.spec.kind.Rule? && Ascending(bars) && |bars| == |signals| && Feed(env, bars, live)
    requires GatedFrom(signals, live) && i + 1 < |bars|
    requires live[i] == NO_SIGNAL && Enters(signals[i])
    requires forall j | 0 <= j < i :: !Enters(signals[j])
    ensures !SessionMatches(env, bars, signals, live)
  {
    LostEntryHarms(env, bars, signals, live, i);
    SessionMatchesBacktest(env, bars, signals, live);
  }

  /** At 100% slippage a sell fills at zero: the backtest books it, the session raises. */
  lemma FullSlippageExitRaises(env: Env, bars: seq<OHLCVBar>, signals: seq<BarSignal>)
    requires env.spec.kind.Rule? && env.spec.stopLossPct.None? && env.spec.takeProfitPct.None?
    requires env.config.slippagePct == 100.0
    requires Ascending(bars) && 3 <= |bars| == |signals| && Feed(env, bars, signals)
    requires signals[0].enterLong && signals[1].exitLong
    ensures LiveFinal(env, bars, signals).Raised?
  {
    LongAfterEntry(env, bars, signals);
    var x, y := Driver(Backtest, signals), Driver(Live, signals);
    var a := Run(env, bars, x, 2);
    assert Run(env, bars, y, 2) == a by {
      forall i: nat | i < 2
        ensures DecisionAt(env, bars, x, i) == DecisionAt(env, bars, y, i)
      {
        assert Run(env, bars, x, 0) == Run(env, bars, y, 0) == NewAccount(env);
      }
      SameDecisionsSameRun(env, bars, x, y, 2);
    }
    var d := DecisionAt(env, bars, y, 2);
    assert d.close;
    var t := AfterClose(env, a, d, bars[2]).trades[0];
    assert t.exitPrice == bars[2].open * (1.0 - 1.0) == 0.0;
    RiskShows(env, AfterDecision(env, a, d, bars[2]), bars[2]);
    assert Run(env, bars, y, 3).trades[0] == t;
    FinalIsLater(env, bars, y, 3, bars[2].time);
    assert !Fillable(Final(env, bars, y).trades[0]);
    FinalFollows(env, bars, signals);
  }
}

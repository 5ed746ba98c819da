/** When a rule session decides what the backtest decides, in terms of the signals and the side held. */
module ParityConditions {
  import opened Domain
  import opened RuleEngine
  import opened DecisionTrace
  import opened GridEngine
  import opened PaperModel
  import opened LiveSession
  import opened RuleParity

  /** The runtime's folded intents close what the batch broker closes for signal `s`. */
  predicate Compatible(held: Option<Side>, s: BarSignal) {
    match held
    case None => true
    case Some(Long) => s.exitLong || (if s.enterShort then s.exitShort || !s.enterLong else !s.exitShort)
    case Some(Short) => s.exitShort || s.enterLong || !s.exitLong
  }

  /** The batch broker does nothing on signal `s`. */
  predicate Inert(held: Option<Side>, s: BarSignal) {
    match held
    case None => !s.enterLong && !s.enterShort
    case Some(Long) => !s.exitLong && !s.enterShort
    case Some(Short) => !s.exitShort && !s.enterLong
  }

  lemma CompatibleMeansSameDecision(held: Option<Side>, s: BarSignal)
    ensures Decide(Backtest, held, s) == Decide(Live, held, s) <==> Compatible(held, s)
  {
  }

  lemma InertMeansSameDecision(held: Option<Side>, s: BarSignal)
    ensures Decide(Backtest, held, s) == Decide(Live, held, NO_SIGNAL) <==> Inert(held, s)
  {
  }

  /** The runtime's decisions are the interpreter's, except where the warm-up gate suppresses one. */
  ghost predicate GatedFrom(signals: seq<BarSignal>, live: seq<BarSignal>) {
    && |live| == |signals|
    && forall i | 0 <= i < |live| :: live[i] == signals[i] || live[i] == NO_SIGNAL
  }

  ghost predicate HarmlessAt(env: Env, bars: seq<OHLCVBar>, signals: seq<BarSignal>, live: seq<BarSignal>, i: nat)
    requires i + 1 < |bars| == |signals| == |live|
  {
    var held := SideOf(Run(env, bars, Driver(Backtest, signals), i + 1).pos);
    if live[i] == signals[i] then Compatible(held, signals[i]) else Inert(held, signals[i])
  }

  /**
   On every bar whose signal is carried out, folding and gating the signal made no difference to the held position.
   */
  ghost predicate Harmless(env: Env, bars: seq<OHLCVBar>, signals: seq<BarSignal>, live: seq<BarSignal>)
    requires |bars| == |signals| == |live|
  {
    forall i: nat | i + 1 < |bars| :: HarmlessAt(env, bars, signals, live, i)
  }

  lemma {:induction false} HarmlessSameDecisions(env: Env, bars: seq<OHLCVBar>, signals: seq<BarSignal>,
                                                 live: seq<BarSignal>, n: nat)
    requires n <= |bars| == |signals| && GatedFrom(signals, live)
    requires forall i: nat | i + 1 < n :: HarmlessAt(env, bars, signals, live, i)
    ensures SameDecisions(env, bars, Driver(Backtest, signals), Driver(Live, live), n)
  {
    hide AfterBar;
    if n > 0 {
      var x, y := Driver(Backtest, signals), Driver(Live, live);
      HarmlessSameDecisions(env, bars, signals, live, n - 1);
      SameDecisionsSameRun(env, bars, x, y, n - 1);
      if n > 1 {
        var held := SideOf(Run(env, bars, x, n - 1).pos);
        assert HarmlessAt(env, bars, signals, live, n - 2);
        CompatibleMeansSameDecision(held, signals[n - 2]);
        InertMeansSameDecision(held, signals[n - 2]);
      }
      assert DecisionAt(env, bars, x, n - 1) == DecisionAt(env, bars, y, n - 1);
    }
  }

  lemma SameDecisionsHarmless(env: Env, bars: seq<OHLCVBar>, signals: seq<BarSignal>, live: seq<BarSignal>)
    requires |bars| == |signals| && GatedFrom(signals, live)
    requires SameDecisions(env, bars, Driver(Backtest, signals), Driver(Live, live), |bars|)
    ensures Harmless(env, bars, signals, live)
  {
    var x, y := Driver(Backtest, signals), Driver(Live, live);
    forall i: nat | i + 1 < |bars|
      ensures HarmlessAt(env, bars, signals, live, i)
    {
      SameDecisionsSameRun(env, bars, x, y, i + 1);
      assert DecisionAt(env, bars, x, i + 1) == DecisionAt(env, bars, y, i + 1);
      var held := SideOf(Run(env, bars, x, i + 1).pos);
      CompatibleMeansSameDecision(held, signals[i]);
      InertMeansSameDecision(held, signals[i]);
    }
  }

  /**
   Rule parity with its condition spelled out: the session matches the backtest if and only if, on every bar of the
   backtest, the folded or gated signal treats the held position as the signal does, and every backtest trade can be
   booked as a fill.
   */
  lemma SessionMatchesBacktest(env: Env, bars: seq<OHLCVBar>, signals: seq<BarSignal>, live: seq<BarSignal>)
    requires env.spec.kind.Rule? && Ascending(bars) && |signals| == |bars| && Feed(env, bars, live)
    requires GatedFrom(signals, live)
    ensures var batch, session := Final(env, bars, Driver(Backtest, signals)), LiveFinal(env, bars, live);
      session.Done? && session.state.trades == batch.trades <==>
        Harmless(env, bars, signals, live) && AllFillable(batch.trades)
  {
    SessionTradesMatchExactly(env, bars, signals, live);
    if Harmless(env, bars, signals, live) {
      HarmlessSameDecisions(env, bars, signals, live, |bars|);
    }
    if SameDecisions(env, bars, Driver(Backtest, signals), Driver(Live, live), |bars|) {
      SameDecisionsHarmless(env, bars, signals, live);
    }
  }

  // ---- one-sided specs ----

  /** A spec without entry and exit rules on the other side. */
  ghost predicate OneSided(side: Side, signals: seq<BarSignal>) {
    forall i | 0 <= i < |signals| ::
      if side.Long? then !signals[i].enterShort && !signals[i].exitShort
      else !signals[i].enterLong && !signals[i].exitLong
  }

  /** The first `warmup` decisions are gated, and no others. */
  ghost predicate GatedFirst(signals: seq<BarSignal>, live: seq<BarSignal>, warmup: nat) {
    && |live| == |signals|
    && forall i | 0 <= i < |live| :: live[i] == if i < warmup then NO_SIGNAL else signals[i]
  }

  predicate Enters(s: BarSignal) {
    s.enterLong || s.enterShort
  }

  /** No entry falls on a gated bar that has a bar after it to be filled on. */
  ghost predicate NoLostEntry(signals: seq<BarSignal>, warmup: nat) {
    forall i | 0 <= i < warmup && i + 1 < |signals| :: !Enters(signals[i])
  }

  lemma {:induction false} OneSidedHolds(env: Env, bars: seq<OHLCVBar>, signals: seq<BarSignal>, side: Side, n: nat)
    requires n <= |bars| == |signals| && OneSided(side, signals)
    ensures var pos := Run(env, bars, Driver(Backtest, signals), n).pos;
      pos.None? || pos.value.side == side
  {
    if n > 0 {
      OneSidedHolds(env, bars, signals, side, n - 1);
      BarKeepsSide(env, Run(env, bars, Driver(Backtest, signals), n - 1),
                   DecisionAt(env, bars, Driver(Backtest, signals), n - 1), bars[n - 1]);
    }
  }

  lemma BarKeepsSide(env: Env, a: Account, d: Decision, bar: OHLCVBar)
    requires Applicable(d, SideOf(a.pos))
    ensures var pos := AfterBar(env, a, d, bar).pos;
      pos.Some? ==> Some(pos.value.side) == d.open || (!d.close && a.pos.Some? && pos.value.side == a.pos.value.side)
  {
    HoldKeepsIdentity(env, AfterRisk(env, AfterDecision(env, a, d, bar), bar), bar);
  }

  lemma {:induction false} FlatWhileNoEntry(env: Env, bars: seq<OHLCVBar>, signals: seq<BarSignal>, n: nat)
    requires n <= |bars| == |signals|
    requires forall i | 0 <= i && i + 1 < n :: !Enters(signals[i])
    ensures Run(env, bars, Driver(Backtest, signals), n).pos.None?
  {
    if n > 0 {
      FlatWhileNoEntry(env, bars, signals, n - 1);
      BarKeepsSide(env, Run(env, bars, Driver(Backtest, signals), n - 1),
                   DecisionAt(env, bars, Driver(Backtest, signals), n - 1), bars[n - 1]);
    }
  }

  /** The backtest is flat until its first entry, so it takes one that the gate suppresses. */
  lemma LostEntryHarms(env: Env, bars: seq<OHLCVBar>, signals: seq<BarSignal>, live: seq<BarSignal>, i: nat)
    requires i + 1 < |bars| == |signals| && GatedFrom(signals, live)
    requires live[i] == NO_SIGNAL && Enters(signals[i])
    requires forall j | 0 <= j < i :: !Enters(signals[j])
    ensures !HarmlessAt(env, bars, signals, live, i)
  {
    FlatWhileNoEntry(env, bars, signals, i + 1);
  }

  lemma {:induction false} FirstLostEntry(signals: seq<BarSignal>, warmup: nat) returns (i: nat)
    requires !NoLostEntry(signals, warmup)
    ensures i < warmup && i + 1 < |signals| && Enters(signals[i])
    ensures forall j | 0 <= j < i :: !Enters(signals[j])
  {
    i :| i < warmup && i + 1 < |signals| && Enters(signals[i]);
    if !NoLostEntry(signals, i) {
      i := FirstLostEntry(signals, i);
    }
  }

  /** On one-sided signals that lose no entry to the gate, folding and gating never matter. */
  lemma OneSidedHarmless(env: Env, bars: seq<OHLCVBar>, signals: seq<BarSignal>, live: seq<BarSignal>, side: Side,
                         warmup: nat)
    requires |signals| == |bars| && OneSided(side, signals) && GatedFirst(signals, live, warmup)
    requires NoLostEntry(signals, warmup)
    ensures Harmless(env, bars, signals, live)
  {
    forall i: nat | i + 1 < |bars|
      ensures HarmlessAt(env, bars, signals, live, i)
    {
      OneSidedHolds(env, bars, signals, side, i + 1);
      if i < warmup {
        FlatWhileNoEntry(env, bars, signals, i + 1);
      }
    }
  }

  /**
   A long-only or short-only spec needs no condition on the side held: the session matches the backtest if and only if
   no entry is lost to the gate and every backtest trade can be booked as a fill.
   */
  lemma OneSidedParity(env: Env, bars: seq<OHLCVBar>, signals: seq<BarSignal>, live: seq<BarSignal>, side: Side,
                       warmup: nat)
    requires env.spec.kind.Rule? && Ascending(bars) && |signals| == |bars| && Feed(env, bars, live)
    requires OneSided(side, signals) && GatedFirst(signals, live, warmup)
    ensures var batch, session := Final(env, bars, Driver(Backtest, signals)), LiveFinal(env, bars, live);
      && (session.Done? && session.state.trades == batch.trades <==>
            AllFillable(batch.trades) && NoLostEntry(signals, warmup))
      && (AllFillable(batch.trades) && NoLostEntry(signals, warmup) ==>
            && session.state.Acct() == batch
            && LiveCurve(env, bars, live) == Curve(env, bars, Driver(Backtest, signals)))
  {
    SessionMatchesBacktest(env, bars, signals, live);
    SessionTradesMatchExactly(env, bars, signals, live);
    hide LiveFinal, Final, LiveCurve, Curve, HarmlessAt;
    if NoLostEntry(signals, warmup) {
      OneSidedHarmless(env, bars, signals, live, side, warmup);
    } else {
      var i := FirstLostEntry(signals, warmup);
      LostEntryHarms(env, bars, signals, live, i);
    }
  }
}

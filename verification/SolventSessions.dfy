/** Which long-only specs can raise at ordinary slippage: those that can enter with nothing left to size by. */
module SolventSessions {
  import opened Domain
  import opened FillModel
  import opened RuleEngine
  import opened GridEngine
  import opened LiveSession
  import opened RuleParity
  import opened ParityConditions
  import opened Fillability
  import opened Solvency

  /** No long-only session of this spec raises. */
  ghost predicate AlwaysCompletes(env: Env) {
    forall bars, live ::
      Ascending(bars) && AllPositive(bars) && OneSided(Long, live) && Feed(env, bars, live) ==>
        LiveFinal(env, bars, live).Done?
  }

  lemma ThriftyCompletes(env: Env, bars: seq<OHLCVBar>, live: seq<BarSignal>)
    requires env.spec.kind.Rule? && UnfundedPercent(env) && Thrifty(env) && env.config.slippagePct < 100.0
    requires AllPositive(bars) && OneSided(Long, live) && Feed(env, bars, live)
    ensures LiveFinal(env, bars, live).Done?
  {
    hide AllPositive, OneSided, LiveFinal, Final, Thrifty, UnfundedPercent;
    FinalFillable(env, bars, LiveDriver(live));
    FinalFollows(env, bars, live);
  }

  // ---- every entry stopped out at once ----

  ghost predicate FlatWithCash(a: Account) {
    a.pos.None? && 0.0 < a.cash
  }

  lemma BarKeepsCash(env: Env, a: Account, d: Decision, bar: OHLCVBar)
    requires UnfundedPercent(env) && AlwaysStopsOut(env) && 0.0 < Survives(env) && PositivePrices(bar)
    requires Applicable(d, SideOf(a.pos)) && d.open != Some(Short) && FlatWithCash(a)
    ensures FlatWithCash(AfterBar(env, a, d, bar))
  {
    hide Survives, OpenAt, RiskExit, Left;
    if d.open.Some? {
      assert d.open.value == Long;
      StoppedOut(env, a, bar);
      LeftSign(Survives(env), a.cash);
    }
  }

  lemma {:induction false} RunKeepsCash(env: Env, bars: seq<OHLCVBar>, drv: Driver, n: nat)
    requires UnfundedPercent(env) && AlwaysStopsOut(env) && 0.0 < Survives(env)
    requires AllPositive(bars) && n <= |bars| == |drv.signals| && OneSided(Long, drv.signals)
    ensures FlatWithCash(Run(env, bars, drv, n))
  {
    hide AfterBar, AlwaysStopsOut, Survives, UnfundedPercent;
    if n > 0 {
      RunKeepsCash(env, bars, drv, n - 1);
      assert PositivePrices(bars[n - 1]);
      BarKeepsCash(env, Run(env, bars, drv, n - 1), DecisionAt(env, bars, drv, n - 1), bars[n - 1]);
    }
  }

  lemma StoppedCompletes(env: Env, bars: seq<OHLCVBar>, live: seq<BarSignal>)
    requires env.spec.kind.Rule? && UnfundedPercent(env) && env.config.slippagePct < 100.0
    requires AlwaysStopsOut(env) && 0.0 < Survives(env)
    requires AllPositive(bars) && OneSided(Long, live) && Feed(env, bars, live)
    ensures LiveFinal(env, bars, live).Done?
  {
    hide AlwaysStopsOut, Survives, LiveFinal, AllPositive, OneSided, Run;
    forall i: nat | i < |bars|
      ensures !EntersInDebt(env, bars, LiveDriver(live), i)
    {
      RunKeepsCash(env, bars, LiveDriver(live), i);
    }
    PercentSessionRaisesIff(env, bars, live);
  }

  // ---- an entry with nothing left ----

  /** Sold out and without cash on the third bar, the fourth enters again: the session raises. */
  lemma EntersAgain(env: Env, low: real)
    requires env.spec.kind.Rule? && UnfundedPercent(env) && env.config.slippagePct < 100.0 && 0.0 < low
    requires var a := Run(env, CrashBars(low), Trader(Live), 3); a.pos.None? && a.cash <= 0.0
    ensures !AlwaysCompletes(env)
  {
    var bars, live := CrashBars(low), BUY_SELL_BUY;
    CrashFeeds(low);
    assert Feed(env, bars, live);
    hide Run, LiveFinal, AllPositive, OneSided, Ascending;
    assert Trader(Live) == LiveDriver(live);
    assert DecisionAt(env, bars, LiveDriver(live), 3) == Decision(false, Some(Long));
    assert EntersInDebt(env, bars, LiveDriver(live), 3);
    PercentSessionRaisesIff(env, bars, live);
  }

  lemma CrashLeavesNothing(env: Env) returns (low: real)
    requires UnfundedPercent(env) && env.config.slippagePct < 100.0 && !Thrifty(env) && !AlwaysStopsOut(env)
    ensures 0.0 < low
    ensures var a := Run(env, CrashBars(low), Trader(Live), 3); a.pos.None? && a.cash <= 0.0
  {
    assert 1.0 < Outlay(env) || (Outlay(env) == 1.0 && env.spec.taker == 1.0);
    FractionPositive(env);
    hide Run, Outlay, Fraction, AlwaysStopsOut, Thrifty;
    if 1.0 < Outlay(env) {
      CrashPriceIs(Outlay(env), Fraction(env));
      low := CrashPrice(Outlay(env), Fraction(env));
      hide CrashPrice;
      CrashEndsNegative(env, low, Live);
    } else {
      low := 1.0;
    }
    var px, size := CrashSells(env, low, Live);
  }

  lemma StopLeavesNothing(env: Env)
    requires UnfundedPercent(env) && AlwaysStopsOut(env) && Survives(env) <= 0.0
    ensures var a := Run(env, CrashBars(1.0), Trader(Live), 3); a.pos.None? && a.cash <= 0.0
  {
    assert env.spec.stopLossPct.Some?;
    hide AlwaysStopsOut, Survives, Run, UnfundedPercent, Left;
    StopLeavesCash(env, Live);
    LeftSign(Survives(env), env.config.initialCash);
    assert DecisionAt(env, CrashBars(1.0), Trader(Live), 2) == IDLE;
    RunStep(env, CrashBars(1.0), Trader(Live), 2);
  }

  /**
   At any slippage short of the whole price, a long-only percent-of-equity spec without funding completes every session,
   whatever prices and signals it is fed, if and only if an entry costs less than the cash behind it, or exactly that
   with a sale that brings something in, or its own bar always stops it out with something left. The condition is read
   from the spec and the configuration alone.
   */
  lemma LongSessionsCompleteIff(env: Env)
    requires env.spec.kind.Rule? && UnfundedPercent(env) && env.config.slippagePct < 100.0
    ensures AlwaysCompletes(env) <==> Thrifty(env) || (AlwaysStopsOut(env) && 0.0 < Survives(env))
  {
    assert AlwaysStopsOut(env) ==> env.spec.stopLossPct.Some?;
    hide Thrifty, AlwaysStopsOut, Survives, Run, UnfundedPercent;
    if Thrifty(env) || (AlwaysStopsOut(env) && 0.0 < Survives(env)) {
      forall bars, live | Ascending(bars) && AllPositive(bars) && OneSided(Long, live) && Feed(env, bars, live)
        ensures LiveFinal(env, bars, live).Done?
      {
        hide LiveFinal, Ascending, AllPositive, OneSided;
        if Thrifty(env) {
          ThriftyCompletes(env, bars, live);
        } else {
          StoppedCompletes(env, bars, live);
        }
      }
    } else if AlwaysStopsOut(env) {
      StopLeavesNothing(env);
      EntersAgain(env, 1.0);
    } else {
      var low := CrashLeavesNothing(env);
      EntersAgain(env, low);
    }
  }
}

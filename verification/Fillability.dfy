/** Which exits a session can book: sizes and prices stay above zero, so the paper broker never raises. */
module Fillability {
  import opened Domain
  import opened RealArithmetic
  import opened FillModel
  import opened RuleEngine
  import opened DecisionTrace
  import opened LiveSession
  import opened RuleParity
  import opened ParityConditions
  import opened RiskInvariants

  lemma SlippedPrice(env: Env, price: real, sell: bool)
    requires 0.0 < price
    ensures 0.0 <= Slip(env.config, price, sell)
    ensures sell && env.config.slippagePct < 100.0 ==> 0.0 < Slip(env.config, price, sell)
    ensures !sell ==> 0.0 < Slip(env.config, price, sell)
  {
    var s := env.config.slippagePct / 100.0;
    MulNonneg(price, 1.0 - s);
    if s < 1.0 { MulPositive(price, 1.0 - s); }
    MulPositive(price, 1.0 + s);
  }

  /** The open position, if any, has a positive size and entry, and its own risk levels. */
  ghost predicate Sized(env: Env, a: Account) {
    a.pos.Some? ==> 0.0 < a.pos.value.size && 0.0 < a.pos.value.entryPrice && FromEntry(env, a.pos.value)
  }

  lemma LevelsAwayFromEntry(spec: Spec, entry: real)
    requires 0.0 < entry
    ensures spec.stopLossPct.Some? ==> entry < StopPrice(spec, Short, entry).value
    ensures spec.takeProfitPct.Some? ==> entry < TakePrice(spec, Long, entry).value
  {
    if spec.stopLossPct.Some? { MulPositive(entry, spec.stopLossPct.value / 100.0); }
    if spec.takeProfitPct.Some? { MulPositive(entry, spec.takeProfitPct.value / 100.0); }
  }

  /** A level that positive prices reach is positive: a stop or target at or below zero is never reached. */
  lemma RiskFillPositive(env: Env, p: Position, bar: OHLCVBar)
    requires FromEntry(env, p) && 0.0 < p.entryPrice && PositivePrices(bar)
    requires RiskExit(p, bar.high, bar.low).Some?
    ensures 0.0 < RiskExit(p, bar.high, bar.low).value.price
  {
    assert p.stopPrice.Some? == env.spec.stopLossPct.Some? && p.takePrice.Some? == env.spec.takeProfitPct.Some?;
    LevelsAwayFromEntry(env.spec, p.entryPrice);
    hide StopPrice, TakePrice;
  }

  lemma CloseFillable(env: Env, a: Account, px: real, now: int, reason: ExitReason)
    requires Sized(env, a) && a.pos.Some? && 0.0 < px && AllFillable(a.trades)
    ensures AllFillable(CloseAt(env, a, px, now, reason).trades)
  {
    hide Gross, PnlPct, FromEntry;
  }

  /** A bar that holds only sized positions books only fillable trades. */
  lemma BarFillable(env: Env, a: Account, d: Decision, bar: OHLCVBar)
    requires env.config.slippagePct < 100.0 && PositivePrices(bar)
    requires Applicable(d, SideOf(a.pos)) && Sized(env, a) && Sized(env, AfterDecision(env, a, d, bar))
    requires AllFillable(a.trades)
    ensures AllFillable(AfterBar(env, a, d, bar).trades)
  {
    SlippedPrice(env, bar.open, true);
    SlippedPrice(env, bar.open, false);
    hide Slip, Opened, FromEntry, CloseAt, RiskExit, Held;
    if d.close {
      CloseFillable(env, a, Slip(env.config, bar.open, a.pos.value.side.Long?), bar.time, Signal);
    }
    var b := AfterDecision(env, a, d, bar);
    if b.pos.Some? && RiskExit(b.pos.value, bar.high, bar.low).Some? {
      RiskFillPositive(env, b.pos.value, bar);
      var fill := RiskExit(b.pos.value, bar.high, bar.low).value;
      CloseFillable(env, b, fill.price, bar.time, fill.reason);
    }
  }

  lemma LiquidatedFillable(env: Env, a: Account, last: OHLCVBar)
    requires PositivePrices(last) && Sized(env, a) && AllFillable(a.trades)
    ensures AllFillable(Liquidated(env, a, last).trades)
  {
    hide CloseAt;
    if a.pos.Some? {
      CloseFillable(env, a, last.close, last.time, EndOfData);
    }
  }

  lemma HoldKeepsSized(env: Env, a: Account, bar: OHLCVBar)
    requires Sized(env, a)
    ensures Sized(env, AfterHold(env, a, bar))
  {
    HoldKeepsIdentity(env, a, bar);
    hide StopPrice, TakePrice;
  }

  // ---- sizes that do not depend on the equity ----

  lemma SizeHasSignOf(notional: real, price: real)
    requires 0.0 < price
    ensures 0.0 < SizeFor(notional, price) <==> 0.0 < notional
  {
    DivMul(notional, price);
    var size := SizeFor(notional, price);
    if 0.0 < size { MulPositive(size, price); } else { MulMono(size, 0.0, price); }
  }

  lemma ShareHasSignOf(equity: real, share: real, leverage: real)
    requires 0.0 < share && 1.0 <= leverage
    ensures 0.0 < equity * share * leverage <==> 0.0 < equity
  {
    MulPositive(share, leverage);
    assert equity * share * leverage == equity * (share * leverage);
    if 0.0 < equity { MulPositive(equity, share * leverage); } else { MulMono(equity, 0.0, share * leverage); }
  }

  lemma NotionalPositive(spec: Spec, equity: real)
    ensures spec.sizingMode.PercentEquity? ==> (0.0 < Notional(spec, equity) <==> 0.0 < equity)
    ensures !spec.sizingMode.PercentEquity? ==> 0.0 < Notional(spec, equity)
  {
    assert 1.0 <= Leverage(spec);
    if spec.sizingMode.PercentEquity? {
      ShareHasSignOf(equity, spec.sizingValue / 100.0, Leverage(spec));
    } else {
      MulPositive(spec.sizingValue, Leverage(spec));
    }
  }

  /** A size is bought whenever there is equity, and with fixed sizes even when there is none. */
  lemma TargetSizePositive(spec: Spec, equity: real, px: real)
    requires 0.0 < px
    ensures spec.sizingMode.PercentEquity? ==> (0.0 < TargetSize(spec, equity, px) <==> 0.0 < equity)
    ensures !spec.sizingMode.PercentEquity? ==> 0.0 < TargetSize(spec, equity, px)
  {
    NotionalPositive(spec, equity);
    SizeHasSignOf(Notional(spec, equity), px);
    hide Notional, SizeFor;
  }

  /** Fixed quote and fixed base sizes are positive whatever the equity behind them, leveraged or not. */
  lemma FixedSizePositive(env: Env, side: Side, equity: real, bar: OHLCVBar)
    requires !env.spec.sizingMode.PercentEquity? && env.config.slippagePct < 100.0 && PositivePrices(bar)
    ensures var p := Opened(env, side, equity, bar.open, bar.time);
      0.0 < p.size && 0.0 < p.entryPrice && FromEntry(env, p)
  {
    SlippedPrice(env, bar.open, side.Short?);
    TargetSizePositive(env.spec, equity, Slip(env.config, bar.open, side.Short?));
    hide Slip, TargetSize;
  }

  lemma FixedDecisionSized(env: Env, a: Account, d: Decision, bar: OHLCVBar)
    requires !env.spec.sizingMode.PercentEquity? && env.config.slippagePct < 100.0 && PositivePrices(bar)
    requires Applicable(d, SideOf(a.pos)) && Sized(env, a)
    ensures Sized(env, AfterDecision(env, a, d, bar))
  {
    hide FromEntry, Opened, Slip;
    if d.open.Some? {
      FixedSizePositive(env, d.open.value, AfterClose(env, a, d, bar).cash, bar);
    }
    hide CloseAt;
  }

  lemma {:induction false} FixedRunFillable(env: Env, bars: seq<OHLCVBar>, drv: Driver, n: nat)
    requires !env.spec.sizingMode.PercentEquity? && env.config.slippagePct < 100.0
    requires AllPositive(bars) && n <= |bars| == |drv.signals|
    ensures var a := Run(env, bars, drv, n); Sized(env, a) && AllFillable(a.trades)
  {
    hide AfterDecision, Sized, AfterHold;
    if n == 0 {
      StartSized(env);
    } else {
      FixedRunFillable(env, bars, drv, n - 1);
      var a, d, bar := Run(env, bars, drv, n - 1), DecisionAt(env, bars, drv, n - 1), bars[n - 1];
      assert PositivePrices(bar);
      FixedDecisionSized(env, a, d, bar);
      BarFillable(env, a, d, bar);
      var b := AfterDecision(env, a, d, bar);
      RiskKeepsSized(env, b, bar);
      HoldKeepsSized(env, AfterRisk(env, b, bar), bar);
    }
  }

  lemma StartSized(env: Env)
    ensures Sized(env, NewAccount(env))
  {
  }

  lemma RiskKeepsSized(env: Env, a: Account, bar: OHLCVBar)
    requires Sized(env, a)
    ensures Sized(env, AfterRisk(env, a, bar))
  {
    RiskShows(env, a, bar);
    hide AfterRisk, FromEntry;
  }

  lemma FixedFinalFillable(env: Env, bars: seq<OHLCVBar>, drv: Driver)
    requires !env.spec.sizingMode.PercentEquity? && env.config.slippagePct < 100.0
    requires AllPositive(bars) && |bars| == |drv.signals|
    ensures AllFillable(Final(env, bars, drv).trades)
  {
    FixedRunFillable(env, bars, drv, |bars|);
    hide Run, Sized;
    if bars != [] {
      assert PositivePrices(bars[|bars| - 1]);
      LiquidatedFillable(env, Run(env, bars, drv, |bars|), bars[|bars| - 1]);
    }
  }

  // ---- parity without a condition on the run ----

  /** What follows for the session of a one-sided spec once all trades of both runs are fillable. */
  lemma FillableParity(env: Env, bars: seq<OHLCVBar>, signals: seq<BarSignal>, live: seq<BarSignal>, side: Side,
                       warmup: nat)
    requires env.spec.kind.Rule? && Ascending(bars) && |signals| == |bars| && Feed(env, bars, live)
    requires OneSided(side, signals) && GatedFirst(signals, live, warmup)
    requires AllFillable(Final(env, bars, Driver(Backtest, signals)).trades)
    requires AllFillable(Final(env, bars, LiveDriver(live)).trades)
    ensures UnconditionalParity(env, bars, bars, signals, live, warmup)
  {
    OneSidedParity(env, bars, signals, live, side, warmup);
    FinalFollows(env, bars, live);
    hide LiveFinal, Final, LiveCurve, Curve, AllFillable, NoLostEntry;
  }

  /**
   The session over `bars` never raises, and it is the backtest over `seen`, field for field, if and only if no entry is
   lost to the gate.
   */
  ghost predicate UnconditionalParity(env: Env, bars: seq<OHLCVBar>, seen: seq<OHLCVBar>,
                                      signals: seq<BarSignal>, live: seq<BarSignal>, warmup: nat)
    requires |signals| == |seen| && Feed(env, bars, live)
  {
    var batch, session := Final(env, seen, Driver(Backtest, signals)), LiveFinal(env, bars, live);
    && session.Done?
    && (session.state.trades == batch.trades <==> NoLostEntry(signals, warmup))
    && (NoLostEntry(signals, warmup) ==>
          && session.state.Acct() == batch
          && LiveCurve(env, bars, live) == Curve(env, seen, Driver(Backtest, signals)))
  }

  /** Fixed quote and fixed base sizing, either side, spot or swap: parity with no condition on the run. */
  lemma FixedSizeParity(env: Env, bars: seq<OHLCVBar>, signals: seq<BarSignal>, live: seq<BarSignal>, side: Side,
                        warmup: nat)
    requires env.spec.kind.Rule? && !env.spec.sizingMode.PercentEquity? && env.config.slippagePct < 100.0
    requires Ascending(bars) && AllPositive(bars) && |signals| == |bars| && Feed(env, bars, live)
    requires OneSided(side, signals) && GatedFirst(signals, live, warmup)
    ensures UnconditionalParity(env, bars, bars, signals, live, warmup)
  {
    hide UnconditionalParity, AllPositive, Final;
    FixedFinalFillable(env, bars, Driver(Backtest, signals));
    FixedFinalFillable(env, bars, LiveDriver(live));
    FillableParity(env, bars, signals, live, side, warmup);
  }

  /**
   Fixed quote and fixed base sizing, both sides, any signals: the session never raises, and it matches the backtest if
   and only if folding and gating never treat the held position otherwise than the signal does.
   */
  lemma FixedSizeMatches(env: Env, bars: seq<OHLCVBar>, signals: seq<BarSignal>, live: seq<BarSignal>)
    requires env.spec.kind.Rule? && !env.spec.sizingMode.PercentEquity? && env.config.slippagePct < 100.0
    requires Ascending(bars) && AllPositive(bars) && |signals| == |bars| && Feed(env, bars, live)
    requires GatedFrom(signals, live)
    ensures var batch, session := Final(env, bars, Driver(Backtest, signals)), LiveFinal(env, bars, live);
      session.Done? && (session.state.trades == batch.trades <==> Harmless(env, bars, signals, live))
  {
    hide AllPositive, Final, LiveFinal, Harmless, AllFillable;
    FixedFinalFillable(env, bars, Driver(Backtest, signals));
    FixedFinalFillable(env, bars, LiveDriver(live));
    FinalFollows(env, bars, live);
    SessionMatchesBacktest(env, bars, signals, live);
  }

  // ---- sizes that follow the equity ----

  /** Bar `i` opens a position with nothing, or less, to size it by. */
  ghost predicate EntersInDebt(env: Env, bars: seq<OHLCVBar>, drv: Driver, i: nat)
    requires i < |bars| == |drv.signals|
  {
    var a, d := Run(env, bars, drv, i), DecisionAt(env, bars, drv, i);
    d.open.Some? && AfterClose(env, a, d, bars[i]).cash <= 0.0
  }

  /** A percentage of the equity buys something exactly when there is equity. */
  lemma PercentSizePositive(env: Env, side: Side, equity: real, bar: OHLCVBar)
    requires env.spec.sizingMode.PercentEquity? && env.config.slippagePct < 100.0 && PositivePrices(bar)
    ensures var p := Opened(env, side, equity, bar.open, bar.time);
      0.0 < p.entryPrice && FromEntry(env, p) && (0.0 < p.size <==> 0.0 < equity)
  {
    SlippedPrice(env, bar.open, side.Short?);
    TargetSizePositive(env.spec, equity, Slip(env.config, bar.open, side.Short?));
    hide Slip, TargetSize;
  }

  lemma PercentDecisionSized(env: Env, a: Account, d: Decision, bar: OHLCVBar)
    requires env.spec.sizingMode.PercentEquity? && env.config.slippagePct < 100.0 && PositivePrices(bar)
    requires Applicable(d, SideOf(a.pos)) && Sized(env, a)
    requires d.open.Some? ==> 0.0 < AfterClose(env, a, d, bar).cash
    ensures Sized(env, AfterDecision(env, a, d, bar))
  {
    hide FromEntry, Opened, Slip;
    if d.open.Some? {
      PercentSizePositive(env, d.open.value, AfterClose(env, a, d, bar).cash, bar);
    }
    hide CloseAt;
  }

  lemma {:induction false} PercentRunFillable(env: Env, bars: seq<OHLCVBar>, drv: Driver, n: nat)
    requires env.spec.sizingMode.PercentEquity? && env.config.slippagePct < 100.0
    requires AllPositive(bars) && n <= |bars| == |drv.signals|
    requires forall i: nat | i < n :: !EntersInDebt(env, bars, drv, i)
    ensures var a := Run(env, bars, drv, n); Sized(env, a) && AllFillable(a.trades)
  {
    hide AfterDecision, AfterClose, Sized, AfterHold;
    if n == 0 {
      StartSized(env);
    } else {
      PercentRunFillable(env, bars, drv, n - 1);
      var a, d, bar := Run(env, bars, drv, n - 1), DecisionAt(env, bars, drv, n - 1), bars[n - 1];
      assert PositivePrices(bar) && !EntersInDebt(env, bars, drv, n - 1);
      PercentDecisionSized(env, a, d, bar);
      BarFillable(env, a, d, bar);
      var b := AfterDecision(env, a, d, bar);
      RiskKeepsSized(env, b, bar);
      HoldKeepsSized(env, AfterRisk(env, b, bar), bar);
    }
  }

  /** The account holds, or has booked, a position of no size. */
  ghost predicate Sizeless(a: Account) {
    (a.pos.Some? && a.pos.value.size <= 0.0) || (exists i | 0 <= i < |a.trades| :: a.trades[i].size <= 0.0)
  }

  lemma CloseKeepsSizeless(env: Env, a: Account, px: real, now: int, reason: ExitReason)
    requires a.pos.Some? && Sizeless(a)
    ensures Sizeless(CloseAt(env, a, px, now, reason))
  {
    var b := CloseAt(env, a, px, now, reason);
    assert b.trades[|a.trades|].size == a.pos.value.size;
    hide Closed;
    assert forall i | 0 <= i < |a.trades| :: b.trades[i] == a.trades[i];
  }

  lemma RestKeepsSizeless(env: Env, a: Account, bar: OHLCVBar)
    requires Sizeless(a)
    ensures Sizeless(AfterHold(env, AfterRisk(env, a, bar), bar))
  {
    hide RiskExit, CloseAt, Held;
    if a.pos.Some? && RiskExit(a.pos.value, bar.high, bar.low).Some? {
      var fill := RiskExit(a.pos.value, bar.high, bar.low).value;
      CloseKeepsSizeless(env, a, fill.price, bar.time, fill.reason);
    }
    HoldKeepsIdentity(env, AfterRisk(env, a, bar), bar);
  }

  lemma DecisionKeepsSizeless(env: Env, a: Account, d: Decision, bar: OHLCVBar)
    requires Applicable(d, SideOf(a.pos)) && Sizeless(a)
    ensures Sizeless(AfterDecision(env, a, d, bar))
  {
    if d.close {
      CloseKeepsSizeless(env, a, Slip(env.config, bar.open, a.pos.value.side.Long?), bar.time, Signal);
    }
    hide Slip, Opened, Closed;
  }

  lemma {:induction false} SizelessLasts(env: Env, bars: seq<OHLCVBar>, drv: Driver, k: nat, n: nat)
    requires k <= n <= |bars| == |drv.signals| && Sizeless(Run(env, bars, drv, k))
    ensures Sizeless(Run(env, bars, drv, n))
    decreases n
  {
    hide Sizeless, AfterDecision, AfterRisk, AfterHold;
    if k < n {
      SizelessLasts(env, bars, drv, k, n - 1);
      var a, d := Run(env, bars, drv, n - 1), DecisionAt(env, bars, drv, n - 1);
      DecisionKeepsSizeless(env, a, d, bars[n - 1]);
      RestKeepsSizeless(env, AfterDecision(env, a, d, bars[n - 1]), bars[n - 1]);
    }
  }

  lemma SizelessUnfillable(env: Env, bars: seq<OHLCVBar>, drv: Driver)
    requires 0 < |bars| == |drv.signals| && Sizeless(Run(env, bars, drv, |bars|))
    ensures !AllFillable(Final(env, bars, drv).trades)
  {
    var a, last, f := Run(env, bars, drv, |bars|), bars[|bars| - 1], Final(env, bars, drv);
    assert f.pos.None?;
    hide Run, Closed;
    if a.pos.Some? { CloseKeepsSizeless(env, a, last.close, last.time, EndOfData); }
    var i :| 0 <= i < |f.trades| && f.trades[i].size <= 0.0;
    assert !Fillable(f.trades[i]);
  }

  lemma DebtIsUnfillable(env: Env, bars: seq<OHLCVBar>, drv: Driver, i: nat)
    requires env.spec.sizingMode.PercentEquity? && env.config.slippagePct < 100.0
    requires AllPositive(bars) && i < |bars| == |drv.signals| && EntersInDebt(env, bars, drv, i)
    ensures !AllFillable(Final(env, bars, drv).trades)
  {
    var a, d, bar := Run(env, bars, drv, i), DecisionAt(env, bars, drv, i), bars[i];
    assert PositivePrices(bar);
    hide Run, AfterClose, Opened, AfterRisk, AfterHold, AllFillable, Final, AllPositive;
    PercentSizePositive(env, d.open.value, AfterClose(env, a, d, bar).cash, bar);
    assert Sizeless(AfterDecision(env, a, d, bar));
    RestKeepsSizeless(env, AfterDecision(env, a, d, bar), bar);
    RunStep(env, bars, drv, i);
    SizelessLasts(env, bars, drv, i + 1, |bars|);
    SizelessUnfillable(env, bars, drv);
  }

  /**
   Sizing by percentage of equity, at any slippage short of the whole price: the session raises if and only if it
   enters a position with no cash left, or less.
   */
  lemma PercentSessionRaisesIff(env: Env, bars: seq<OHLCVBar>, live: seq<BarSignal>)
    requires env.spec.kind.Rule? && env.spec.sizingMode.PercentEquity? && env.config.slippagePct < 100.0
    requires AllPositive(bars) && Feed(env, bars, live)
    ensures LiveFinal(env, bars, live).Raised? <==>
            exists i: nat | i < |bars| :: EntersInDebt(env, bars, LiveDriver(live), i)
  {
    var drv := LiveDriver(live);
    FinalFollows(env, bars, live);
    hide Run, LiveFinal, AllPositive, AllFillable, Final, Liquidated, Sized;
    if i: nat :| i < |bars| && EntersInDebt(env, bars, drv, i) {
      DebtIsUnfillable(env, bars, drv, i);
    } else {
      PercentFinalFillable(env, bars, drv);
    }
  }

  lemma PercentFinalFillable(env: Env, bars: seq<OHLCVBar>, drv: Driver)
    requires env.spec.sizingMode.PercentEquity? && env.config.slippagePct < 100.0
    requires AllPositive(bars) && |bars| == |drv.signals|
    requires forall i: nat | i < |bars| :: !EntersInDebt(env, bars, drv, i)
    ensures AllFillable(Final(env, bars, drv).trades)
  {
    PercentRunFillable(env, bars, drv, |bars|);
    hide Run, Sized;
    if bars != [] {
      assert PositivePrices(bars[|bars| - 1]);
      LiquidatedFillable(env, Run(env, bars, drv, |bars|), bars[|bars| - 1]);
    }
  }
}

/** Solvency of long-only strategies that size by a percentage of their equity and pay no funding. */
module Solvency {
  import opened Domain
  import opened RealArithmetic
  import opened FillModel
  import opened RuleEngine
  import opened LiveSession
  import opened RuleParity
  import opened ParityConditions
  import opened RiskInvariants
  import opened Fillability

  /** A spec sized by percentage of equity that pays no funding: on spot, or on a swap with funding switched off. */
  predicate UnfundedPercent(env: Env) {
    env.spec.sizingMode.PercentEquity? && !PaysFunding(env)
  }

  /** The share of the cash that an entry is worth, leveraged on a swap. */
  function Fraction(env: Env): real {
    env.spec.sizingValue / 100.0 * Leverage(env.spec)
  }

  lemma FractionPositive(env: Env)
    ensures 0.0 < Fraction(env)
  {
    MulPositive(env.spec.sizingValue / 100.0, Leverage(env.spec));
  }

  /** What an entry costs, fee included, as a fraction of the cash behind it. */
  function Outlay(env: Env): real {
    Fraction(env) * (1.0 + env.spec.taker)
  }

  /** A long position bought with `Fraction(env)` of `cash`. */
  ghost predicate BoughtWith(env: Env, p: Position, cash: real) {
    && p.side.Long? && 0.0 < p.entryPrice && p.fundingPaid == 0.0
    && p.entryPrice * p.size == Fraction(env) * cash
    && FromEntry(env, p)
  }

  ghost predicate Bought(env: Env, a: Account) {
    a.pos.Some? ==> BoughtWith(env, a.pos.value, a.cash)
  }

  lemma SizePositive(env: Env, p: Position, cash: real)
    requires BoughtWith(env, p, cash) && 0.0 <= cash
    ensures 0.0 <= p.size && (0.0 < cash ==> 0.0 < p.size)
  {
    FractionPositive(env);
    MulNonneg(Fraction(env), cash);
    if 0.0 < cash { MulPositive(Fraction(env), cash); }
    hide Fraction, FromEntry;
    if p.size < 0.0 { MulStrict(p.size, 0.0, p.entryPrice); }
  }

  lemma CommittedIs(f: real, cash: real, t: real, notional: real)
    requires notional == f * cash
    ensures notional + notional * t == f * (1.0 + t) * cash
  {
  }

  /** The equity of a bought position: the cash left over plus the market value. */
  lemma EquityOfBought(env: Env, p: Position, cash: real, mark: real)
    requires BoughtWith(env, p, cash)
    ensures Equity(cash, Some(p), mark) == (1.0 - Outlay(env)) * cash + mark * p.size
  {
    CommittedIs(Fraction(env), cash, env.spec.taker, p.entryPrice * p.size);
    DistributeSub(p.size, mark, p.entryPrice);
    DistributeSub(cash, 1.0, Outlay(env));
    hide Fraction;
  }

  /** What an outlay `k` and the sale of `size` at `px` leave of the cash. */
  function Residue(k: real, cash: real, px: real, size: real, t: real): real {
    (1.0 - k) * cash + px * size * (1.0 - t)
  }

  /** The cash after selling it: the cash left over plus the proceeds net of the exit fee. */
  lemma CashAfterSale(env: Env, a: Account, px: real, now: int, reason: ExitReason)
    requires a.pos.Some? && BoughtWith(env, a.pos.value, a.cash)
    ensures CloseAt(env, a, px, now, reason).cash
         == Residue(Outlay(env), a.cash, px, a.pos.value.size, env.spec.taker)
  {
    var p := a.pos.value;
    EquityOfBought(env, p, a.cash, px);
    DistributeSub(px * p.size, 1.0, env.spec.taker);
    hide Outlay;
  }

  /**
   Cash that is positive stays positive: an entry leaves some of it, or spends all of it on something that can be sold
   again for more than its fee.
   */
  predicate Thrifty(env: Env) {
    Outlay(env) < 1.0 || (Outlay(env) == 1.0 && env.spec.taker < 1.0 && env.config.slippagePct < 100.0)
  }

  /** Nothing in the account is negative; a thrifty account's cash is not zero either. */
  ghost predicate Solvent(env: Env, a: Account) {
    && Bought(env, a)
    && (if Thrifty(env) then 0.0 < a.cash else 0.0 <= a.cash)
  }

  lemma Remainder(k: real, cash: real, value: real)
    requires k <= 1.0 && 0.0 <= cash && 0.0 <= value
    ensures 0.0 <= (1.0 - k) * cash + value
    ensures 0.0 < cash && (k < 1.0 || 0.0 < value) ==> 0.0 < (1.0 - k) * cash + value
  {
    MulNonneg(1.0 - k, cash);
    if k < 1.0 && 0.0 < cash { MulPositive(1.0 - k, cash); }
  }

  /** What selling `size` at `px` brings in after the fee, when neither is zero. */
  lemma NetValue(px: real, size: real, taker: real)
    requires 0.0 <= px && 0.0 <= size && 0.0 <= taker <= 1.0
    ensures 0.0 <= px * size * (1.0 - taker)
    ensures 0.0 < px && 0.0 < size && taker < 1.0 ==> 0.0 < px * size * (1.0 - taker)
  {
    MulNonneg(px, size);
    MulNonneg(px * size, 1.0 - taker);
    if 0.0 < px && 0.0 < size && taker < 1.0 {
      MulPositive(px, size);
      MulPositive(px * size, 1.0 - taker);
    }
  }

  lemma SaleLeaves(k: real, cash: real, px: real, size: real, taker: real)
    requires k <= 1.0 && 0.0 <= cash && 0.0 <= px && 0.0 <= size && 0.0 <= taker <= 1.0
    ensures 0.0 <= Residue(k, cash, px, size, taker)
    ensures 0.0 < cash && (k < 1.0 || (0.0 < px && 0.0 < size && taker < 1.0)) ==>
              0.0 < Residue(k, cash, px, size, taker)
  {
    NetValue(px, size, taker);
    Remainder(k, cash, px * size * (1.0 - taker));
  }

  lemma SaleKeepsSolvent(env: Env, a: Account, px: real, now: int, reason: ExitReason)
    requires Solvent(env, a) && a.pos.Some? && Outlay(env) <= 1.0
    requires 0.0 <= px && (env.config.slippagePct < 100.0 ==> 0.0 < px)
    ensures Solvent(env, CloseAt(env, a, px, now, reason))
  {
    var p := a.pos.value;
    SizePositive(env, p, a.cash);
    assert CloseAt(env, a, px, now, reason).pos.None?;
    hide Outlay, BoughtWith, CloseAt, Residue;
    CashAfterSale(env, a, px, now, reason);
    SaleLeaves(Outlay(env), a.cash, px, p.size, env.spec.taker);
  }

  lemma ShareOf(cash: real, share: real, leverage: real)
    ensures cash * share * leverage == share * leverage * cash
  {
  }

  lemma NotionalIs(env: Env, cash: real)
    requires env.spec.sizingMode.PercentEquity?
    ensures Notional(env.spec, cash) == Fraction(env) * cash
  {
    ShareOf(cash, env.spec.sizingValue / 100.0, Leverage(env.spec));
    hide Leverage;
  }

  lemma OpenBuys(env: Env, a: Account, bar: OHLCVBar)
    requires env.spec.sizingMode.PercentEquity? && PositivePrices(bar)
    ensures BoughtWith(env, Opened(env, Long, a.cash, bar.open, bar.time), a.cash)
  {
    SlippedPrice(env, bar.open, false);
    var px := Slip(env.config, bar.open, false);
    hide Slip;
    NotionalIs(env, a.cash);
    DivMul(Notional(env.spec, a.cash), px);
    hide Notional, Fraction;
  }

  lemma HoldKeepsBought(env: Env, a: Account, bar: OHLCVBar)
    requires UnfundedPercent(env) && Bought(env, a)
    ensures Bought(env, AfterHold(env, a, bar)) && AfterHold(env, a, bar).cash == a.cash
  {
    hide BoughtWith, FromEntry;
    assert !PaysFunding(env);
    if a.pos.Some? {
      var p, q := a.pos.value, AfterHold(env, a, bar).pos.value;
      assert q == p.(barsHeld := p.barsHeld + 1);
      BoughtIgnoresBars(env, p, p.barsHeld + 1, a.cash);
    }
  }

  lemma BoughtIgnoresBars(env: Env, p: Position, n: int, cash: real)
    requires BoughtWith(env, p, cash)
    ensures BoughtWith(env, p.(barsHeld := n), cash)
  {
  }

  lemma DecisionKeepsSolvent(env: Env, a: Account, d: Decision, bar: OHLCVBar)
    requires UnfundedPercent(env) && Outlay(env) <= 1.0 && PositivePrices(bar)
    requires Applicable(d, SideOf(a.pos)) && d.open != Some(Short) && Solvent(env, a)
    ensures Solvent(env, AfterDecision(env, a, d, bar))
  {
    SlippedPrice(env, bar.open, true);
    hide Slip, Opened, BoughtWith, Outlay;
    if d.close {
      SaleKeepsSolvent(env, a, Slip(env.config, bar.open, true), bar.time, Signal);
      BoughtIsLong(env, a);
    }
    hide CloseAt;
    OpenBuys(env, AfterClose(env, a, d, bar), bar);
  }

  lemma BoughtIsLong(env: Env, a: Account)
    requires Bought(env, a) && a.pos.Some?
    ensures a.pos.value.side.Long? && 0.0 < a.pos.value.entryPrice && FromEntry(env, a.pos.value)
  {
  }

  lemma BarKeepsSolvent(env: Env, a: Account, d: Decision, bar: OHLCVBar)
    requires UnfundedPercent(env) && Outlay(env) <= 1.0 && PositivePrices(bar)
    requires Applicable(d, SideOf(a.pos)) && d.open != Some(Short) && Solvent(env, a)
    ensures Solvent(env, AfterBar(env, a, d, bar))
  {
    DecisionKeepsSolvent(env, a, d, bar);
    hide Outlay, BoughtWith, AfterDecision, CloseAt, Held, FromEntry;
    var b := AfterDecision(env, a, d, bar);
    if b.pos.Some? && RiskExit(b.pos.value, bar.high, bar.low).Some? {
      BoughtIsLong(env, b);
      RiskFillPositive(env, b.pos.value, bar);
      var fill := RiskExit(b.pos.value, bar.high, bar.low).value;
      SaleKeepsSolvent(env, b, fill.price, bar.time, fill.reason);
    }
    hide RiskExit;
    HoldKeepsBought(env, AfterRisk(env, b, bar), bar);
  }

  lemma {:induction false} RunSolvent(env: Env, bars: seq<OHLCVBar>, drv: Driver, n: nat)
    requires UnfundedPercent(env) && Outlay(env) <= 1.0
    requires AllPositive(bars) && n <= |bars| == |drv.signals| && OneSided(Long, drv.signals)
    ensures Solvent(env, Run(env, bars, drv, n))
  {
    hide AfterBar, Outlay;
    if n > 0 {
      RunSolvent(env, bars, drv, n - 1);
      assert PositivePrices(bars[n - 1]);
      BarKeepsSolvent(env, Run(env, bars, drv, n - 1), DecisionAt(env, bars, drv, n - 1), bars[n - 1]);
    }
  }

  lemma FinalSolvent(env: Env, bars: seq<OHLCVBar>, drv: Driver)
    requires UnfundedPercent(env) && Outlay(env) <= 1.0
    requires AllPositive(bars) && |bars| == |drv.signals| && OneSided(Long, drv.signals)
    ensures Solvent(env, Final(env, bars, drv))
  {
    RunSolvent(env, bars, drv, |bars|);
    hide Run, Outlay, CloseAt;
    if bars != [] {
      var a, last := Run(env, bars, drv, |bars|), bars[|bars| - 1];
      assert PositivePrices(last);
      if a.pos.Some? {
        SaleKeepsSolvent(env, a, last.close, last.time, EndOfData);
      }
    }
  }

  lemma MarkNonneg(env: Env, a: Account, mark: real)
    requires Solvent(env, a) && Outlay(env) <= 1.0 && 0.0 < mark
    ensures 0.0 <= Equity(a.cash, a.pos, mark)
    ensures Thrifty(env) ==> 0.0 < Equity(a.cash, a.pos, mark)
  {
    if a.pos.Some? {
      var p := a.pos.value;
      EquityOfBought(env, p, a.cash, mark);
      SizePositive(env, p, a.cash);
      MulNonneg(mark, p.size);
      if 0.0 < p.size { MulPositive(mark, p.size); }
      Remainder(Outlay(env), a.cash, mark * p.size);
      hide Equity, Outlay, BoughtWith;
    }
  }

  /** Every cash balance and every reported equity point of a run. */
  ghost predicate NeverNegative(env: Env, bars: seq<OHLCVBar>, drv: Driver)
    requires |bars| == |drv.signals|
  {
    && (forall n: nat | n <= |bars| :: 0.0 <= Run(env, bars, drv, n).cash)
    && (forall i | 0 <= i < |bars| :: 0.0 <= Curve(env, bars, drv)[i])
  }

  /**
   Solvency over whole runs: whatever the prices, signals, slippage, stops and targets, a long-only unfunded run whose
   entries cost at most the cash behind them never goes below zero.
   */
  lemma RunNeverNegative(env: Env, bars: seq<OHLCVBar>, drv: Driver)
    requires UnfundedPercent(env) && Outlay(env) <= 1.0
    requires AllPositive(bars) && |bars| == |drv.signals| && OneSided(Long, drv.signals)
    ensures NeverNegative(env, bars, drv)
  {
    hide Outlay, Bought, Run, Final, Equity;
    forall n: nat | n <= |bars|
      ensures 0.0 <= Run(env, bars, drv, n).cash
    {
      RunSolvent(env, bars, drv, n);
    }
    forall i | 0 <= i < |bars|
      ensures 0.0 <= Curve(env, bars, drv)[i]
    {
      FinalSolvent(env, bars, drv);
      RunSolvent(env, bars, drv, i + 1);
      assert PositivePrices(bars[i]);
      MarkNonneg(env, Run(env, bars, drv, i + 1), bars[i].close);
    }
  }

  // ---- solvent runs never leave a session without a fill to book ----

  lemma SolventIsSized(env: Env, a: Account)
    requires Solvent(env, a) && Thrifty(env)
    ensures Sized(env, a)
  {
    if a.pos.Some? { SizePositive(env, a.pos.value, a.cash); }
  }

  lemma {:induction false} RunFillable(env: Env, bars: seq<OHLCVBar>, drv: Driver, n: nat)
    requires UnfundedPercent(env) && Thrifty(env) && env.config.slippagePct < 100.0
    requires AllPositive(bars) && n <= |bars| == |drv.signals| && OneSided(Long, drv.signals)
    ensures AllFillable(Run(env, bars, drv, n).trades)
  {
    hide AfterBar, AfterDecision, Outlay, Solvent, Sized;
    if n > 0 {
      RunFillable(env, bars, drv, n - 1);
      RunSolvent(env, bars, drv, n - 1);
      var a, d, bar := Run(env, bars, drv, n - 1), DecisionAt(env, bars, drv, n - 1), bars[n - 1];
      assert PositivePrices(bar);
      DecisionKeepsSolvent(env, a, d, bar);
      SolventIsSized(env, a);
      SolventIsSized(env, AfterDecision(env, a, d, bar));
      BarFillable(env, a, d, bar);
    }
  }

  lemma FinalFillable(env: Env, bars: seq<OHLCVBar>, drv: Driver)
    requires UnfundedPercent(env) && Thrifty(env) && env.config.slippagePct < 100.0
    requires AllPositive(bars) && |bars| == |drv.signals| && OneSided(Long, drv.signals)
    ensures AllFillable(Final(env, bars, drv).trades)
  {
    hide Run, Solvent, Sized, Outlay;
    RunFillable(env, bars, drv, |bars|);
    RunSolvent(env, bars, drv, |bars|);
    SolventIsSized(env, Run(env, bars, drv, |bars|));
    if bars != [] {
      assert PositivePrices(bars[|bars| - 1]);
      LiquidatedFillable(env, Run(env, bars, drv, |bars|), bars[|bars| - 1]);
    }
  }

  /**
   Parity without conditions on the run: a long-only unfunded strategy whose entries never cost more than the cash
   behind them trades live exactly as it backtests, to the last field of the last trade, whatever the price path.
   */
  lemma SolventParity(env: Env, bars: seq<OHLCVBar>, signals: seq<BarSignal>, live: seq<BarSignal>, warmup: nat)
    requires env.spec.kind.Rule? && UnfundedPercent(env) && Thrifty(env) && env.config.slippagePct < 100.0
    requires Ascending(bars) && AllPositive(bars) && |signals| == |bars| && Feed(env, bars, live)
    requires OneSided(Long, signals) && GatedFirst(signals, live, warmup)
    ensures UnconditionalParity(env, bars, bars, signals, live, warmup)
  {
    hide UnconditionalParity, AllPositive, Final, Thrifty, UnfundedPercent;
    FinalFillable(env, bars, Driver(Backtest, signals));
    FinalFillable(env, bars, LiveDriver(live));
    FillableParity(env, bars, signals, live, Long, warmup);
  }

  // ---- what solvency needs ----

  function StopFraction(env: Env): real
    requires env.spec.stopLossPct.Some?
  {
    env.spec.stopLossPct.value / 100.0
  }

  /** The stop is so close, and slippage so large, that an entry's own bar always reaches it. */
  predicate AlwaysStopsOut(env: Env) {
    && env.spec.stopLossPct.Some?
    && 1.0 <= (1.0 + env.config.slippagePct / 100.0) * (1.0 - StopFraction(env))
  }

  /** The share of the cash that an entry stopped out on its own bar leaves. */
  function Survives(env: Env): real
    requires env.spec.stopLossPct.Some?
  {
    1.0 - Outlay(env) + Fraction(env) * (1.0 - StopFraction(env)) * (1.0 - env.spec.taker)
  }

  lemma StopOf(env: Env, entry: real)
    requires env.spec.stopLossPct.Some?
    ensures StopPrice(env.spec, Long, entry).Some?
    ensures StopPrice(env.spec, Long, entry).value == entry * (1.0 - StopFraction(env))
  {
    LessAShare(entry, env.spec.stopLossPct.value / 100.0);
  }

  lemma LessAShare(x: real, f: real)
    ensures x - x * f == x * (1.0 - f)
  {
  }

  lemma StopAboveOpen(env: Env, open: real)
    requires AlwaysStopsOut(env) && 0.0 < open
    ensures open <= StopPrice(env.spec, Long, Slip(env.config, open, false)).value
  {
    StopOf(env, Slip(env.config, open, false));
    var up, down := 1.0 + env.config.slippagePct / 100.0, 1.0 - StopFraction(env);
    var e := Slip(env.config, open, false);
    assert e == open * up;
    hide Slip, StopPrice;
    Rescale(open, up, down);
    MulMono(1.0, up * down, open);
  }

  lemma Rescale(x: real, up: real, down: real)
    ensures x * up * down == up * down * x
  {
  }

  /** Selling what a fraction of the cash bought, a fraction below its price. */
  lemma SoldBelow(f: real, cash: real, e: real, size: real, down: real, net: real)
    requires e * size == f * cash
    ensures e * down * size * net == f * down * net * cash
  {
    assert e * down * size == (e * size) * down;
  }

  /** Such an entry's own bar reaches the stop. */
  lemma StopReached(env: Env, cash: real, bar: OHLCVBar)
    requires AlwaysStopsOut(env) && PositivePrices(bar)
    ensures var p := Opened(env, Long, cash, bar.open, bar.time);
      && p.stopPrice == StopPrice(env.spec, Long, p.entryPrice) && p.stopPrice.Some?
      && RiskExit(p, bar.high, bar.low) == Some(RiskFill(p.stopPrice.value, StopLoss))
  {
    StopAboveOpen(env, bar.open);
    var p, e := Opened(env, Long, cash, bar.open, bar.time), Slip(env.config, bar.open, false);
    assert p.stopPrice == StopPrice(env.spec, Long, e) && p.entryPrice == e && p.side == Long;
    hide Slip, StopPrice, Opened, AlwaysStopsOut;
  }

  lemma EntryStopped(env: Env, a: Account, bar: OHLCVBar)
    requires env.spec.sizingMode.PercentEquity? && AlwaysStopsOut(env) && PositivePrices(bar) && a.pos.None?
    ensures var bought := OpenAt(env, a, Long, bar.open, bar.time);
      var p := bought.pos.value;
      && bought.cash == a.cash && BoughtWith(env, p, a.cash)
      && p.stopPrice.Some? && AfterRisk(env, bought, bar) == CloseAt(env, bought, p.stopPrice.value, bar.time, StopLoss)
  {
    OpenBuys(env, a, bar);
    StopReached(env, a.cash, bar);
    hide Opened, Slip, StopPrice, RiskExit, BoughtWith, Fraction, AlwaysStopsOut, CloseAt;
  }

  /** A share of the cash. */
  function Left(share: real, cash: real): real {
    share * cash
  }

  lemma LeftSign(share: real, cash: real)
    requires 0.0 <= cash
    ensures 0.0 <= share ==> 0.0 <= Left(share, cash)
    ensures share <= 0.0 ==> Left(share, cash) <= 0.0
    ensures 0.0 < share && 0.0 < cash ==> 0.0 < Left(share, cash)
    ensures share < 0.0 && 0.0 < cash ==> Left(share, cash) < 0.0
  {
    if 0.0 <= share { MulNonneg(share, cash); } else { MulMono(share, 0.0, cash); }
    if 0.0 < cash && 0.0 < share { MulPositive(share, cash); }
    if 0.0 < cash && share < 0.0 { MulStrict(share, 0.0, cash); }
  }

  lemma StopLeaves(k: real, f: real, cash: real, e: real, px: real, size: real, down: real, t: real, survives: real)
    requires e * size == f * cash && px == e * down && survives == 1.0 - k + f * down * (1.0 - t)
    ensures Residue(k, cash, px, size, t) == Left(survives, cash)
  {
    SoldBelow(f, cash, e, size, down, 1.0 - t);
    Distribute(cash, 1.0 - k, f * down * (1.0 - t));
  }

  lemma SurvivesIs(env: Env, p: Position, cash: real)
    requires BoughtWith(env, p, cash) && env.spec.stopLossPct.Some?
    ensures p.stopPrice.Some?
    ensures Residue(Outlay(env), cash, p.stopPrice.value, p.size, env.spec.taker) == Left(Survives(env), cash)
  {
    StopOf(env, p.entryPrice);
    hide StopPrice, StopFraction, Fraction, Outlay, Left, Residue;
    StopLeaves(Outlay(env), Fraction(env), cash, p.entryPrice, p.stopPrice.value, p.size, 1.0 - StopFraction(env),
               env.spec.taker, Survives(env));
  }

  lemma StopSale(env: Env, a: Account, now: int)
    requires a.pos.Some? && BoughtWith(env, a.pos.value, a.cash) && env.spec.stopLossPct.Some?
    ensures var p := a.pos.value;
      p.stopPrice.Some? && CloseAt(env, a, p.stopPrice.value, now, StopLoss).cash == Left(Survives(env), a.cash)
  {
    hide *;
    SurvivesIs(env, a.pos.value, a.cash);
    CashAfterSale(env, a, a.pos.value.stopPrice.value, now, StopLoss);
  }

  /** An entry that its own bar stops out scales the cash by `Survives`. */
  lemma StoppedOut(env: Env, a: Account, bar: OHLCVBar)
    requires env.spec.sizingMode.PercentEquity? && AlwaysStopsOut(env) && PositivePrices(bar) && a.pos.None?
    ensures var b := AfterRisk(env, OpenAt(env, a, Long, bar.open, bar.time), bar);
      b.pos.None? && b.cash == Left(Survives(env), a.cash)
  {
    EntryStopped(env, a, bar);
    assert env.spec.stopLossPct.Some?;
    var bought := OpenAt(env, a, Long, bar.open, bar.time);
    hide AlwaysStopsOut, AfterRisk, Opened, BoughtWith, Survives, Closed, Left;
    StopSale(env, bought, bar.time);
  }

  ghost predicate Flat(a: Account) {
    a.pos.None? && 0.0 <= a.cash
  }

  lemma BarStaysFlat(env: Env, a: Account, d: Decision, bar: OHLCVBar)
    requires env.spec.sizingMode.PercentEquity? && AlwaysStopsOut(env) && 0.0 <= Survives(env) && PositivePrices(bar)
    requires Applicable(d, SideOf(a.pos)) && d.open != Some(Short) && Flat(a)
    ensures Flat(AfterBar(env, a, d, bar))
  {
    hide Survives, OpenAt, RiskExit, Left;
    if d.open.Some? {
      assert d.open.value == Long;
      StoppedOut(env, a, bar);
      LeftSign(Survives(env), a.cash);
    }
  }

  lemma {:induction false} RunStaysFlat(env: Env, bars: seq<OHLCVBar>, drv: Driver, n: nat)
    requires env.spec.sizingMode.PercentEquity? && AlwaysStopsOut(env) && 0.0 <= Survives(env)
    requires AllPositive(bars) && n <= |bars| == |drv.signals| && OneSided(Long, drv.signals)
    ensures Flat(Run(env, bars, drv, n))
  {
    hide AfterBar, AlwaysStopsOut, Survives;
    if n > 0 {
      RunStaysFlat(env, bars, drv, n - 1);
      assert PositivePrices(bars[n - 1]);
      BarStaysFlat(env, Run(env, bars, drv, n - 1), DecisionAt(env, bars, drv, n - 1), bars[n - 1]);
    }
  }

  /** Runs whose every entry is stopped out on its own bar are solvent if the stop leaves something. */
  lemma StoppedRunNeverNegative(env: Env, bars: seq<OHLCVBar>, drv: Driver)
    requires env.spec.sizingMode.PercentEquity? && AlwaysStopsOut(env) && 0.0 <= Survives(env)
    requires AllPositive(bars) && |bars| == |drv.signals| && OneSided(Long, drv.signals)
    ensures NeverNegative(env, bars, drv)
  {
    hide Run, AlwaysStopsOut, Survives;
    forall n: nat | n <= |bars|
      ensures Flat(Run(env, bars, drv, n))
    {
      RunStaysFlat(env, bars, drv, n);
    }
  }

  // ---- runs that end in debt ----

  function FlatBar(time: int, price: real): OHLCVBar {
    OHLCVBar(time, price, price, price, price, 0.0)
  }

  function FlatBars(n: nat): (bars: seq<OHLCVBar>)
    ensures |bars| == n
  {
    seq(n, i => FlatBar(i, 1.0))
  }

  /** Bought on the second bar, at 1, which stays there; sold on the third, at `low`; bought again on the fourth. */
  function CrashBars(low: real): seq<OHLCVBar> {
    [FlatBar(0, 1.0), FlatBar(1, 1.0), FlatBar(2, low), FlatBar(3, low)]
  }

  const BUY_SELL_BUY := [NO_SIGNAL.(enterLong := true), NO_SIGNAL.(exitLong := true), NO_SIGNAL.(enterLong := true),
                         NO_SIGNAL]

  function Trader(policy: Policy): Driver {
    Driver(policy, BUY_SELL_BUY)
  }

  /** A price so low that what is left of an outlay `k`, on a fraction `f`, does not make up for it. */
  function CrashPrice(k: real, f: real): real
    requires 0.0 < f
  {
    (k - 1.0) / (2.0 * f)
  }

  lemma CrashPriceIs(k: real, f: real)
    requires 1.0 < k && 0.0 < f
    ensures 0.0 < CrashPrice(k, f) && CrashPrice(k, f) * f == (k - 1.0) / 2.0
  {
    DivMul(k - 1.0, 2.0 * f);
    var low := CrashPrice(k, f);
    assert low * f * 2.0 == k - 1.0;
    if low <= 0.0 { MulMono(low, 0.0, f); }
  }

  lemma CrashArithmetic(k: real, f: real, cash: real, size: real, low: real)
    requires 1.0 < k && 0.0 < f && 0.0 < cash && 0.0 <= size <= f * cash && low == CrashPrice(k, f)
    ensures (1.0 - k) * cash + low * size < 0.0
  {
    CrashPriceIs(k, f);
    hide CrashPrice;
    MulMono(size, f * cash, low);
    MulPositive(k - 1.0, cash);
    var gap := (k - 1.0) * cash;
    assert 0.0 < gap;
    assert low * (f * cash) == (low * f) * cash == gap / 2.0;
    assert (1.0 - k) * cash == -gap;
  }

  /** Unless an entry is always stopped out, one at a flat price of 1 is still held after its bar. */
  lemma EntryHolds(env: Env, p: Position)
    requires !AlwaysStopsOut(env) && p == Opened(env, Long, env.config.initialCash, 1.0, 1)
    ensures 1.0 <= p.entryPrice && RiskExit(p, 1.0, 1.0).None?
  {
    var px := Slip(env.config, 1.0, false);
    assert 1.0 <= px == 1.0 + env.config.slippagePct / 100.0;
    if env.spec.stopLossPct.Some? { StopOf(env, px); }
    hide Slip, TargetSize;
    LevelsAwayFromEntry(env.spec, px);
  }

  lemma CrashStarts(env: Env, low: real, policy: Policy)
    ensures Run(env, CrashBars(low), Trader(policy), 1) == NewAccount(env)
    ensures DecisionAt(env, CrashBars(low), Trader(policy), 1) == Decision(false, Some(Long))
  {
    var bars, drv := CrashBars(low), Trader(policy);
    assert Run(env, bars, drv, 0) == NewAccount(env);
    assert DecisionAt(env, bars, drv, 0) == IDLE;
    assert Run(env, bars, drv, 1) == NewAccount(env);
  }

  lemma HeldUnfunded(env: Env, p: Position, mark: real)
    requires UnfundedPercent(env)
    ensures Held(env, p, mark) == p.(barsHeld := p.barsHeld + 1)
  {
    assert !PaysFunding(env);
  }

  lemma CrashHolds(env: Env, low: real, policy: Policy)
    requires UnfundedPercent(env) && !AlwaysStopsOut(env)
    ensures var p := Opened(env, Long, env.config.initialCash, 1.0, 1);
      var a := Run(env, CrashBars(low), Trader(policy), 2);
      a.cash == env.config.initialCash && a.pos == Some(p.(barsHeld := 1))
  {
    var bars := CrashBars(low);
    var p := Opened(env, Long, env.config.initialCash, 1.0, 1);
    CrashStarts(env, low, policy);
    EntryHolds(env, p);
    HeldUnfunded(env, p, 1.0);
    assert p.barsHeld == 0;
    hide Opened, Held, RiskExit, AlwaysStopsOut, Run;
    var b := AfterDecision(env, NewAccount(env), Decision(false, Some(Long)), bars[1]);
    assert b.pos == Some(p) && b.cash == env.config.initialCash;
    RunStep(env, bars, Trader(policy), 1);
  }

  lemma BoughtSizeAtMost(env: Env, p: Position, cash: real)
    requires BoughtWith(env, p, cash) && 0.0 <= p.size && 1.0 <= p.entryPrice
    ensures p.size <= Fraction(env) * cash
  {
    MulMono(1.0, p.entryPrice, p.size);
    hide Fraction, FromEntry;
  }

  /** What a sale at `px`, at most `low`, brings in is at most `low` a unit. */
  lemma NetProceeds(px: real, low: real, size: real, t: real)
    requires 0.0 <= px <= low && 0.0 <= size && 0.0 <= t
    ensures px * size * (1.0 - t) <= low * size
  {
    MulMono(px, low, size);
    MulNonneg(px, size);
    MulNonneg(px * size, t);
    DistributeSub(px * size, 1.0, t);
  }

  lemma CrashLoss(k: real, f: real, cash: real, px: real, low: real, size: real, t: real)
    requires 1.0 < k && 0.0 < f && 0.0 < cash && 0.0 <= size <= f * cash && low == CrashPrice(k, f)
    requires 0.0 <= px <= low && 0.0 <= t
    ensures Residue(k, cash, px, size, t) < 0.0
  {
    CrashArithmetic(k, f, cash, size, low);
    NetProceeds(px, low, size, t);
  }

  lemma SellsAtMost(env: Env, price: real)
    requires 0.0 < price
    ensures 0.0 <= Slip(env.config, price, true) <= price
  {
    var s := env.config.slippagePct / 100.0;
    MulNonneg(price, s);
    MulNonneg(price, 1.0 - s);
    DistributeSub(price, 1.0, s);
  }

  lemma CrashBought(env: Env, a: Account)
    requires UnfundedPercent(env) && a.cash == env.config.initialCash
    requires a.pos == Some(Opened(env, Long, env.config.initialCash, 1.0, 1).(barsHeld := 1))
    requires 1.0 <= a.pos.value.entryPrice
    ensures BoughtWith(env, a.pos.value, a.cash) && 0.0 <= a.pos.value.size <= Fraction(env) * a.cash
  {
    var cash, p := env.config.initialCash, Opened(env, Long, env.config.initialCash, 1.0, 1);
    OpenBuys(env, NewAccount(env), CrashBars(1.0)[1]);
    BoughtIgnoresBars(env, p, 1, cash);
    hide Opened, Fraction, BoughtWith;
    SizePositive(env, p, cash);
    BoughtSizeAtMost(env, a.pos.value, a.cash);
  }

  lemma SoldOnly(env: Env, a: Account, bar: OHLCVBar)
    requires a.pos.Some? && a.pos.value.side.Long?
    ensures var b := AfterBar(env, a, Decision(true, None), bar);
      b == CloseAt(env, a, Slip(env.config, bar.open, true), bar.time, Signal) && b.pos.None?
  {
    hide Slip, Closed;
  }

  lemma CrashPosition(env: Env, low: real, policy: Policy) returns (p: Position)
    requires UnfundedPercent(env) && !AlwaysStopsOut(env)
    ensures var a := Run(env, CrashBars(low), Trader(policy), 2);
      && a.cash == env.config.initialCash && a.pos == Some(p)
      && p.side.Long? && BoughtWith(env, p, a.cash) && 0.0 <= p.size <= Fraction(env) * a.cash
  {
    hide Run, AlwaysStopsOut, RiskExit, Opened, FromEntry, Fraction, UnfundedPercent;
    CrashHolds(env, low, policy);
    EntryHolds(env, Opened(env, Long, env.config.initialCash, 1.0, 1));
    var a := Run(env, CrashBars(low), Trader(policy), 2);
    CrashBought(env, a);
    p := a.pos.value;
  }

  /** The sale leaves what the entry did not cost, and the proceeds. */
  lemma CrashSells(env: Env, low: real, policy: Policy) returns (px: real, size: real)
    requires UnfundedPercent(env) && !AlwaysStopsOut(env) && 0.0 < low
    ensures 0.0 <= px <= low && 0.0 <= size <= Fraction(env) * env.config.initialCash
    ensures var a := Run(env, CrashBars(low), Trader(policy), 3);
      && a.pos.None?
      && a.cash == Residue(Outlay(env), env.config.initialCash, px, size, env.spec.taker)
  {
    var bars, drv := CrashBars(low), Trader(policy);
    hide UnfundedPercent, AlwaysStopsOut, Outlay, Fraction, Slip, BoughtWith, CloseAt, AfterBar, Run;
    var p := CrashPosition(env, low, policy);
    var a := Run(env, bars, drv, 2);
    SellsAtMost(env, low);
    px, size := Slip(env.config, low, true), p.size;
    CashAfterSale(env, a, px, 2, Signal);
    SoldOnly(env, a, bars[2]);
    RunStep(env, bars, drv, 2);
  }

  /** Held into a crash, an entry that cost more than the cash ends in debt. */
  lemma CrashEndsNegative(env: Env, low: real, policy: Policy)
    requires UnfundedPercent(env) && !AlwaysStopsOut(env) && 1.0 < Outlay(env)
    requires 0.0 < Fraction(env) && low == CrashPrice(Outlay(env), Fraction(env))
    ensures Run(env, CrashBars(low), Trader(policy), 3).cash < 0.0
  {
    CrashPriceIs(Outlay(env), Fraction(env));
    var px, size := CrashSells(env, low, policy);
    hide Outlay, Fraction, Run, CrashPrice, AlwaysStopsOut, Residue;
    CrashLoss(Outlay(env), Fraction(env), env.config.initialCash, px, low, size, env.spec.taker);
  }

  /** A run that goes below zero, on positive ascending bars and long signals. */
  ghost predicate GoesNegative(env: Env) {
    exists bars, signals ::
      && Ascending(bars) && AllPositive(bars) && |signals| == |bars| && OneSided(Long, signals)
      && !NeverNegative(env, bars, Driver(Backtest, signals))
  }

  lemma NegativeRun(env: Env, bars: seq<OHLCVBar>, signals: seq<BarSignal>, n: nat)
    requires Ascending(bars) && AllPositive(bars) && n <= |bars| == |signals| && OneSided(Long, signals)
    requires Run(env, bars, Driver(Backtest, signals), n).cash < 0.0
    ensures GoesNegative(env)
  {
    hide Run, Curve, OneSided, AllPositive, Ascending;
    assert !NeverNegative(env, bars, Driver(Backtest, signals));
  }

  /** An outlay above one admits a run that ends in debt, unless every entry is stopped out at once. */
  lemma CrashGoesNegative(env: Env)
    requires UnfundedPercent(env) && !AlwaysStopsOut(env) && 1.0 < Outlay(env)
    ensures GoesNegative(env)
  {
    FractionPositive(env);
    CrashPriceIs(Outlay(env), Fraction(env));
    var low := CrashPrice(Outlay(env), Fraction(env));
    CrashEndsNegative(env, low, Backtest);
    hide Run, Outlay, AlwaysStopsOut, GoesNegative;
    CrashFeeds(low);
    NegativeRun(env, CrashBars(low), BUY_SELL_BUY, 3);
  }

  lemma CrashFeeds(low: real)
    requires 0.0 < low
    ensures Ascending(CrashBars(low)) && AllPositive(CrashBars(low)) && OneSided(Long, BUY_SELL_BUY)
    ensures |CrashBars(low)| == |BUY_SELL_BUY| == 4
  {
  }

  /** An entry that its own bar stops out, on flat prices. */
  lemma StopLeavesCash(env: Env, policy: Policy)
    requires env.spec.sizingMode.PercentEquity? && AlwaysStopsOut(env)
    ensures var a := Run(env, CrashBars(1.0), Trader(policy), 2);
      a.pos.None? && a.cash == Left(Survives(env), env.config.initialCash)
  {
    var bars := CrashBars(1.0);
    CrashStarts(env, 1.0, policy);
    StoppedOut(env, NewAccount(env), bars[1]);
    hide AlwaysStopsOut, Survives, OpenAt, RiskExit, Run, Left;
    RunStep(env, bars, Trader(policy), 1);
  }

  /** And then it takes one entry, if the stop costs more than the cash. */
  lemma StopGoesNegative(env: Env)
    requires env.spec.sizingMode.PercentEquity? && AlwaysStopsOut(env) && Survives(env) < 0.0
    ensures GoesNegative(env)
  {
    StopLeavesCash(env, Backtest);
    CrashFeeds(1.0);
    hide AlwaysStopsOut, Survives, GoesNegative, Run, Left;
    LeftSign(Survives(env), env.config.initialCash);
    NegativeRun(env, CrashBars(1.0), BUY_SELL_BUY, 2);
  }

  ghost predicate AlwaysSolvent(env: Env) {
    forall bars, signals ::
      Ascending(bars) && AllPositive(bars) && |signals| == |bars| && OneSided(Long, signals) ==>
        NeverNegative(env, bars, Driver(Backtest, signals))
  }

  /**
   What solvency needs, exactly: entries that cost at most the cash behind them, or a stop that closes every entry on
   its own bar and leaves something.
   */
  lemma SolvencyExact(env: Env)
    requires UnfundedPercent(env)
    ensures AlwaysSolvent(env) <==> Outlay(env) <= 1.0 || (AlwaysStopsOut(env) && 0.0 <= Survives(env))
  {
    hide NeverNegative, StopFraction, Outlay, Survives;
    if Outlay(env) <= 1.0 || (AlwaysStopsOut(env) && 0.0 <= Survives(env)) {
      forall bars, signals | Ascending(bars) && AllPositive(bars) && |signals| == |bars| && OneSided(Long, signals)
        ensures NeverNegative(env, bars, Driver(Backtest, signals))
      {
        if Outlay(env) <= 1.0 {
          RunNeverNegative(env, bars, Driver(Backtest, signals));
        } else {
          StoppedRunNeverNegative(env, bars, Driver(Backtest, signals));
        }
      }
    } else if AlwaysStopsOut(env) {
      StopGoesNegative(env);
    } else {
      CrashGoesNegative(env);
    }
  }
}

/** When a DCA run buys and for how much, and the trade it ends with, in the configured amounts. */
module DcaForms {
  import opened Domain
  import opened RealArithmetic
  import opened FillModel
  import opened DcaEngine
  import opened DcaLedger
  import opened TradeForms

  // ---- the reference schedule ----

  /** The purchases scheduled for the first `n` bars: one in every bar whose predecessor's signal asks for it. */
  function Scheduled(sigs: seq<BarSignal>, n: nat): nat
    requires n <= |sigs|
  {
    if n <= 1 then 0 else Scheduled(sigs, n - 1) + if sigs[n - 2].dcaBuy then 1 else 0
  }

  /** As many of these as the configured maximum allows. */
  function Allowed(d: DCAConfig, sigs: seq<BarSignal>, n: nat): int
    requires n <= |sigs|
  {
    var k := Scheduled(sigs, n);
    if d.maxPurchases.Some? && d.maxPurchases.value < k then d.maxPurchases.value else k
  }

  /** What `k` purchases cost: the amount each, for as long as the cash lasts. */
  function CostOf(env: Env, d: DCAConfig, k: int): real {
    MinOf(Product(k as real, d.amountQuote), env.config.initialCash)
  }

  /** Spent by the end of the first `n` bars. */
  function SpentBy(env: Env, d: DCAConfig, sigs: seq<BarSignal>, n: nat): real
    requires n <= |sigs|
  {
    CostOf(env, d, Allowed(d, sigs, n))
  }

  /**
   The account after `k` allowed purchases: what they cost is spent, and the purchases counted are those that had any
   cash left, all of them while the cash covers the amount.
   */
  ghost predicate BoughtUpTo(env: Env, d: DCAConfig, a: DcaAccount, k: int) {
    && a.costBasis == CostOf(env, d, k) && a.cash == env.config.initialCash - a.costBasis
    && a.fees == Product(a.costBasis, env.spec.taker)
    && 0 <= a.purchases <= k && (Product(k as real, d.amountQuote) <= env.config.initialCash ==> a.purchases == k)
    && a.costBasis <= Product(a.purchases as real, d.amountQuote)
    && (0 < a.purchases ==> Product((a.purchases - 1) as real, d.amountQuote) < a.costBasis)
  }

  // ---- the model follows it ----

  lemma NextAllowed(d: DCAConfig, sigs: seq<BarSignal>, n: nat)
    requires n < |sigs| && (d.maxPurchases.Some? ==> 0 <= d.maxPurchases.value)
    ensures 0 <= Allowed(d, sigs, n) && (d.maxPurchases.Some? ==> Allowed(d, sigs, n) <= d.maxPurchases.value)
    ensures var k := Allowed(d, sigs, n);
      Allowed(d, sigs, n + 1) ==
        if PendingBuy(sigs, n) && !(d.maxPurchases.Some? && k == d.maxPurchases.value) then k + 1 else k
  {
  }

  lemma ProductsAscend(j: int, k: int, amount: real)
    requires j <= k && 0.0 < amount
    ensures Product(j as real, amount) <= Product(k as real, amount)
  {
    MulMono(j as real, k as real, amount);
  }

  /** One bar, by what is left of the cap and of the cash. */
  lemma BarBuys(env: Env, d: DCAConfig, a: DcaAccount, buy: bool, bar: OHLCVBar, idx: int, k: int, next: int)
    requires env.spec.kind == Dca(d) && 0.0 < bar.open && BoughtUpTo(env, d, a, k)
    requires next == if buy && !(d.maxPurchases.Some? && k == d.maxPurchases.value) then k + 1 else k
    requires d.maxPurchases.Some? ==> k <= d.maxPurchases.value
    ensures BoughtUpTo(env, d, AfterDcaBar(env, d, a, buy, bar, idx), next)
  {
    ProductNext(k, d.amountQuote);
    ProductNext(a.purchases, d.amountQuote);
    var spend := Spend(d, a);
    FeesAdd(a.costBasis, spend, env.spec.taker);
    if a.purchases < k { ProductsAscend(a.purchases + 1, k, d.amountQuote); }
    hide Product, PurchasedQty;
  }

  lemma FeesAdd(cost: real, spend: real, taker: real)
    ensures Product(cost + spend, taker) == Product(cost, taker) + spend * taker
  {
    Distribute(taker, cost, spend);
  }

  lemma {:induction false} PurchasesAre(env: Env, d: DCAConfig, bars: seq<OHLCVBar>, sigs: seq<BarSignal>, n: nat)
    requires env.spec.kind == Dca(d) && n <= |bars| == |sigs| && OpensPositive(bars)
    ensures BoughtUpTo(env, d, DcaRun(env, d, bars, sigs, n), Allowed(d, sigs, n))
  {
    if n > 0 {
      PurchasesAre(env, d, bars, sigs, n - 1);
      NextAllowed(d, sigs, n - 1);
      hide BoughtUpTo, AfterDcaBar, Allowed;
      BarBuys(env, d, DcaRun(env, d, bars, sigs, n - 1), PendingBuy(sigs, n - 1), bars[n - 1], n - 1,
              Allowed(d, sigs, n - 1), Allowed(d, sigs, n));
    }
  }

  // ---- what is held ----

  /** The open slipped up. */
  function BuyFill(env: Env, open: real): (px: real)
    requires 0.0 < open
    ensures 0.0 < px
  {
    MulNonneg(open, env.config.slippagePct / 100.0);
    open + open * (env.config.slippagePct / 100.0)
  }

  /** The base units that `spent` buys at an open, its fee left behind. */
  function UnitsFor(env: Env, spent: real, open: real): real
    requires 0.0 < open
  {
    (spent - spent * env.spec.taker) / BuyFill(env, open)
  }

  /** All units bought in the first `n` bars. */
  function UnitsBy(env: Env, d: DCAConfig, bars: seq<OHLCVBar>, sigs: seq<BarSignal>, n: nat): real
    requires n <= |bars| == |sigs| && OpensPositive(bars)
  {
    if n == 0 then 0.0
    else
      UnitsBy(env, d, bars, sigs, n - 1)
      + UnitsFor(env, SpentBy(env, d, sigs, n) - SpentBy(env, d, sigs, n - 1), bars[n - 1].open)
  }

  lemma NothingBuysNothing(env: Env, open: real)
    requires 0.0 < open
    ensures UnitsFor(env, 0.0, open) == 0.0
  {
  }

  lemma BoughtUnits(env: Env, spend: real, open: real)
    requires 0.0 < open
    ensures PurchasedQty(env, spend, open) == UnitsFor(env, spend, open)
  {
    assert Slip(env.config, open, false) == BuyFill(env, open);
  }

  lemma BarHolds(env: Env, d: DCAConfig, a: DcaAccount, buy: bool, bar: OHLCVBar, idx: int, spent: real)
    requires 0.0 < bar.open
    requires spent == AfterDcaBar(env, d, a, buy, bar, idx).costBasis - a.costBasis
    ensures AfterDcaBar(env, d, a, buy, bar, idx).base == a.base + UnitsFor(env, spent, bar.open)
  {
    NothingBuysNothing(env, bar.open);
    BoughtUnits(env, Spend(d, a), bar.open);
    hide PurchasedQty, UnitsFor, PurchaseFee;
    if buy && !Capped(d, a) && 0.0 < Spend(d, a) { assert spent == Spend(d, a); } else { assert spent == 0.0; }
  }

  lemma SpentIs(env: Env, d: DCAConfig, sigs: seq<BarSignal>, n: nat, a: DcaAccount)
    requires n <= |sigs| && BoughtUpTo(env, d, a, Allowed(d, sigs, n))
    ensures a.costBasis == SpentBy(env, d, sigs, n)
  {
  }

  lemma {:induction false} HoldingsAre(env: Env, d: DCAConfig, bars: seq<OHLCVBar>, sigs: seq<BarSignal>, n: nat)
    requires env.spec.kind == Dca(d) && n <= |bars| == |sigs| && OpensPositive(bars)
    ensures DcaRun(env, d, bars, sigs, n).base == UnitsBy(env, d, bars, sigs, n)
  {
    if n > 0 {
      var a, b := DcaRun(env, d, bars, sigs, n - 1), DcaRun(env, d, bars, sigs, n);
      HoldingsAre(env, d, bars, sigs, n - 1);
      PurchasesAre(env, d, bars, sigs, n - 1);
      PurchasesAre(env, d, bars, sigs, n);
      SpentIs(env, d, sigs, n - 1, a);
      SpentIs(env, d, sigs, n, b);
      hide BoughtUpTo, AfterDcaBar, Allowed, SpentBy, UnitsFor;
      BarHolds(env, d, a, PendingBuy(sigs, n - 1), bars[n - 1], n - 1,
               SpentBy(env, d, sigs, n) - SpentBy(env, d, sigs, n - 1));
    }
  }

  // ---- the first purchase ----

  /** Bar `i` carries the first scheduled purchase. */
  ghost predicate FirstScheduled(sigs: seq<BarSignal>, i: nat) {
    1 <= i <= |sigs| && sigs[i - 1].dcaBuy && Scheduled(sigs, i) == 0
  }

  /** The entry is the first scheduled purchase, once there was one. */
  ghost predicate EntryIsFirst(bars: seq<OHLCVBar>, sigs: seq<BarSignal>, n: nat, a: DcaAccount)
    requires n <= |bars| == |sigs|
  {
    && (a.firstEntry.Some? <==> 0 < Scheduled(sigs, n))
    && (a.firstEntry.Some? ==>
          0 <= a.firstIdx < n && FirstScheduled(sigs, a.firstIdx) && a.firstEntry.value == bars[a.firstIdx].time)
  }

  lemma BarEnters(env: Env, d: DCAConfig, bars: seq<OHLCVBar>, sigs: seq<BarSignal>, n: nat, a: DcaAccount)
    requires env.spec.kind == Dca(d) && n < |bars| == |sigs| && OpensPositive(bars)
    requires BoughtUpTo(env, d, a, Allowed(d, sigs, n)) && EntryIsFirst(bars, sigs, n, a)
    ensures EntryIsFirst(bars, sigs, n + 1, AfterDcaBar(env, d, a, PendingBuy(sigs, n), bars[n], n))
  {
    hide PurchasedQty;
  }

  lemma {:induction false} EntryIs(env: Env, d: DCAConfig, bars: seq<OHLCVBar>, sigs: seq<BarSignal>, n: nat)
    requires env.spec.kind == Dca(d) && n <= |bars| == |sigs| && OpensPositive(bars)
    ensures EntryIsFirst(bars, sigs, n, DcaRun(env, d, bars, sigs, n))
  {
    if n > 0 {
      EntryIs(env, d, bars, sigs, n - 1);
      PurchasesAre(env, d, bars, sigs, n - 1);
      hide BoughtUpTo, AfterDcaBar, Allowed, EntryIsFirst;
      BarEnters(env, d, bars, sigs, n - 1, DcaRun(env, d, bars, sigs, n - 1));
    }
  }

  // ---- the trade and the curve ----

  /**
   The trade of a run over all `bars`: entered with the first scheduled purchase at the average price paid, fees aside,
   for all units bought, and sold whole at the last close slipped down.
   */
  ghost predicate LadderTrade(env: Env, d: DCAConfig, bars: seq<OHLCVBar>, sigs: seq<BarSignal>, i: nat, t: Trade)
    requires i < |bars| == |sigs| && OpensPositive(bars)
  {
    var n := |bars|;
    var spent, sold := SpentBy(env, d, sigs, n), Product(t.exitPrice, t.size);
    && FirstScheduled(sigs, i) && t.entryTime == bars[i].time
    && t.exitTime == bars[n - 1].time && t.barsHeld == n - 1 - i && t.exitReason == EndOfData && t.side == Long
    && t.size == UnitsBy(env, d, bars, sigs, n)
    && Product(t.entryPrice, t.size) == spent - Product(spent, env.spec.taker)
    && FilledAt(env.config, bars[n - 1].close, false, t.exitPrice)
    && t.feesPaid == Product(spent, env.spec.taker) + Product(sold, env.spec.taker) && t.fundingPaid == 0.0
    && t.pnl == sold - Product(sold, env.spec.taker) - spent
    && Product(t.pnlPct, spent) == 100.0 * t.pnl
  }

  lemma EntryAverages(net: real, base: real)
    requires base != 0.0
    ensures Product(net / base, base) == net
  {
    DivMul(net, base);
  }

  /** The trade's amounts, from what was spent and what is held. */
  lemma SoldLadder(env: Env, entry: int, idx: int, base: real, cost: real, fees: real, last: OHLCVBar, now: int)
    requires base != 0.0 && cost != 0.0 && fees == Product(cost, env.spec.taker)
    ensures var t := DcaSold(env, entry, idx, base, cost, fees, last, now);
      var sold := Product(t.exitPrice, t.size);
      && Product(t.entryPrice, t.size) == cost - Product(cost, env.spec.taker)
      && FilledAt(env.config, last.close, false, t.exitPrice)
      && t.feesPaid == Product(cost, env.spec.taker) + Product(sold, env.spec.taker)
      && t.pnl == sold - Product(sold, env.spec.taker) - cost
      && Product(t.pnlPct, cost) == 100.0 * t.pnl
  {
    SlipFills(env.config, last.close, false);
    EntryAverages(cost - fees, base);
    PercentIs(Proceeds(env, base, last.close) - cost, cost);
    hide Slip, PnlPct, FilledAt;
  }

  /** Selling the account's holdings records the trade, if there are any. */
  lemma {:induction false} LadderSold(env: Env, d: DCAConfig, bars: seq<OHLCVBar>, sigs: seq<BarSignal>, a: DcaAccount)
    requires 0 < |bars| == |sigs| && OpensPositive(bars) && a.trades == []
    requires EntryIsFirst(bars, sigs, |bars|, a) && a.base == UnitsBy(env, d, bars, sigs, |bars|)
    requires a.costBasis == SpentBy(env, d, sigs, |bars|) && a.fees == Product(a.costBasis, env.spec.taker)
    requires a.firstEntry.Some? ==> a.costBasis != 0.0
    ensures var ts := DcaLiquidated(env, a, bars[|bars| - 1], |bars| - 1).trades;
      if 0.0 < a.base && 0 < Scheduled(sigs, |bars|)
      then |ts| == 1 && 0 <= a.firstIdx < |bars| && LadderTrade(env, d, bars, sigs, a.firstIdx, ts[0])
      else ts == []
  {
    var n := |bars|;
    if a.firstEntry.Some? && 0.0 < a.base {
      SoldLadder(env, a.firstEntry.value, a.firstIdx, a.base, a.costBasis, a.fees, bars[n - 1], n - 1);
    }
    hide SpentBy, UnitsBy, FilledAt, Product, Slip, FirstScheduled, Proceeds, ExitFee, PnlPct, Scheduled;
  }

  lemma {:induction false} RunLadder(env: Env, d: DCAConfig, bars: seq<OHLCVBar>, sigs: seq<BarSignal>)
    requires env.spec.kind == Dca(d) && |bars| == |sigs| && OpensPositive(bars)
    ensures var n, a := |bars|, DcaRun(env, d, bars, sigs, |bars|);
      && EntryIsFirst(bars, sigs, n, a) && a.base == UnitsBy(env, d, bars, sigs, n) && a.trades == []
      && a.costBasis == SpentBy(env, d, sigs, n) && a.fees == Product(a.costBasis, env.spec.taker)
      && (a.firstEntry.Some? ==> a.costBasis != 0.0)
      && (0.0 < a.base && 0 < Scheduled(sigs, n) <==> env.spec.taker < 1.0 && 0 < Scheduled(sigs, n))
  {
    var n := |bars|;
    RunAccumulates(env, d, bars, sigs, n);
    PurchasesAre(env, d, bars, sigs, n);
    EntryIs(env, d, bars, sigs, n);
    HoldingsAre(env, d, bars, sigs, n);
    SpentIs(env, d, sigs, n, DcaRun(env, d, bars, sigs, n));
    hide DcaRun, Scheduled, Allowed, SpentBy, UnitsBy, FirstScheduled, Product;
  }

  /**
   A DCA backtest records one trade when the taker fee leaves something to buy with and a purchase was scheduled before
   its last bar, and none otherwise.
   */
  lemma {:induction false} DcaTradeIs(env: Env, d: DCAConfig, bars: seq<OHLCVBar>, sigs: seq<BarSignal>)
    requires env.spec.kind == Dca(d) && |bars| == |sigs| && OpensPositive(bars)
    ensures var ts := DcaFinal(env, d, bars, sigs).trades;
      if env.spec.taker < 1.0 && 0 < Scheduled(sigs, |bars|)
      then |ts| == 1 && exists i: nat :: i < |bars| && LadderTrade(env, d, bars, sigs, i, ts[0])
      else ts == []
  {
    if bars != [] {
      RunLadder(env, d, bars, sigs);
      LadderSold(env, d, bars, sigs, DcaRun(env, d, bars, sigs, |bars|));
    }
    hide DcaRun, Scheduled, EntryIsFirst, SpentBy, UnitsBy, LadderTrade, DcaLiquidated;
  }

  lemma CurvePoint(env: Env, d: DCAConfig, bars: seq<OHLCVBar>, sigs: seq<BarSignal>, i: nat)
    requires i + 1 < |bars| == |sigs| && OpensPositive(bars)
    ensures var a := DcaRun(env, d, bars, sigs, i + 1);
      DcaCurve(env, d, bars, sigs)[i] == a.cash + Product(a.base, bars[i].close)
  {
    hide DcaRun;
  }

  /** Cash, cost basis and holdings after `n` bars. */
  lemma RunHolds(env: Env, d: DCAConfig, bars: seq<OHLCVBar>, sigs: seq<BarSignal>, n: nat)
    requires env.spec.kind == Dca(d) && n <= |bars| == |sigs| && OpensPositive(bars)
    ensures var a := DcaRun(env, d, bars, sigs, n);
      && a.costBasis == SpentBy(env, d, sigs, n) && a.cash == env.config.initialCash - SpentBy(env, d, sigs, n)
      && a.base == UnitsBy(env, d, bars, sigs, n)
  {
    PurchasesAre(env, d, bars, sigs, n);
    HoldingsAre(env, d, bars, sigs, n);
    SpentIs(env, d, sigs, n, DcaRun(env, d, bars, sigs, n));
    hide DcaRun, SpentBy, UnitsBy, Allowed, CostOf;
  }

  /** The curve before the last bar: the cash left and the units held, at the close. */
  lemma DcaCurveIs(env: Env, d: DCAConfig, bars: seq<OHLCVBar>, sigs: seq<BarSignal>, i: nat)
    requires env.spec.kind == Dca(d) && i + 1 < |bars| == |sigs| && OpensPositive(bars)
    ensures DcaCurve(env, d, bars, sigs)[i]
         == env.config.initialCash - SpentBy(env, d, sigs, i + 1)
            + Product(UnitsBy(env, d, bars, sigs, i + 1), bars[i].close)
  {
    hide *;
    var a := DcaRun(env, d, bars, sigs, i + 1);
    CurvePoint(env, d, bars, sigs, i);
    RunHolds(env, d, bars, sigs, i + 1);
  }
}

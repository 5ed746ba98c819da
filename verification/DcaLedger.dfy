/** What a DCA run always keeps, and exactly when its final cash is accounted for by its one trade. */
module DcaLedger {
  import opened Domain
  import opened RealArithmetic
  import opened FillModel
  import opened DcaEngine

  /** Until the liquidation every unit of quote is either cash or cost basis, and the counters agree with it. */
  ghost predicate Accumulating(env: Env, d: DCAConfig, a: DcaAccount) {
    && a.cash + a.costBasis == env.config.initialCash
    && 0.0 <= a.cash && 0.0 <= a.costBasis
    && a.fees == a.costBasis * env.spec.taker && a.feesPaid == a.fees
    && a.trades == [] && a.realized == 0.0
    && 0 <= a.purchases && (d.maxPurchases.Some? ==> a.purchases <= d.maxPurchases.value)
    && (a.firstEntry.Some? <==> 0.0 < a.costBasis) && (0 < a.purchases <==> 0.0 < a.costBasis)
    && a.costBasis <= a.purchases as real * d.amountQuote
    && (if env.spec.taker < 1.0 && 0.0 < a.costBasis then 0.0 < a.base else a.base == 0.0)
  }

  lemma QtyBought(env: Env, spend: real, open: real)
    requires 0.0 < spend && 0.0 < open
    ensures if env.spec.taker < 1.0 then 0.0 < PurchasedQty(env, spend, open) else PurchasedQty(env, spend, open) == 0.0
  {
    BuyPricePositive(env, open);
    var px, net := Slip(env.config, open, false), spend - PurchaseFee(env, spend);
    DistributeSub(spend, 1.0, env.spec.taker);
    assert net == spend * (1.0 - env.spec.taker);
    hide Slip;
    if env.spec.taker < 1.0 {
      MulPositive(spend, 1.0 - env.spec.taker);
      PositiveQuotient(net, px);
    }
  }

  lemma PositiveQuotient(n: real, d: real)
    requires 0.0 < n && 0.0 < d
    ensures 0.0 < n / d
  {
    DivMul(n, d);
    if n / d <= 0.0 { MulMono(n / d, 0.0, d); }
  }

  lemma BarAccumulates(env: Env, d: DCAConfig, a: DcaAccount, buy: bool, bar: OHLCVBar, idx: int)
    requires env.spec.kind == Dca(d) && 0.0 < bar.open && Accumulating(env, d, a)
    ensures Accumulating(env, d, AfterDcaBar(env, d, a, buy, bar, idx))
  {
    var spend := Spend(d, a);
    if buy && !Capped(d, a) && 0.0 < spend {
      QtyBought(env, spend, bar.open);
      hide PurchasedQty;
      Distribute(env.spec.taker, a.costBasis, spend);
      Distribute(d.amountQuote, a.purchases as real, 1.0);
    }
  }

  lemma {:induction false} RunAccumulates(env: Env, d: DCAConfig, bars: seq<OHLCVBar>, sigs: seq<BarSignal>, n: nat)
    requires env.spec.kind == Dca(d) && n <= |bars| == |sigs| && OpensPositive(bars)
    ensures Accumulating(env, d, DcaRun(env, d, bars, sigs, n))
  {
    hide AfterDcaBar, Accumulating;
    if n == 0 {
      StartsAccumulating(env, d);
    } else {
      RunAccumulates(env, d, bars, sigs, n - 1);
      BarAccumulates(env, d, DcaRun(env, d, bars, sigs, n - 1), PendingBuy(sigs, n - 1), bars[n - 1], n - 1);
    }
  }

  lemma StartsAccumulating(env: Env, d: DCAConfig)
    requires env.spec.kind == Dca(d)
    ensures Accumulating(env, d, NewDcaAccount(env))
  {
  }

  /**
   The final cash of a DCA backtest is its initial cash plus the pnl of its trades exactly when it bought nothing or
   the taker fee leaves something to buy with.
   */
  lemma DcaConservation(env: Env, d: DCAConfig, bars: seq<OHLCVBar>, sigs: seq<BarSignal>)
    requires env.spec.kind == Dca(d) && |bars| == |sigs| && OpensPositive(bars)
    ensures var a, f := DcaRun(env, d, bars, sigs, |bars|), DcaFinal(env, d, bars, sigs);
      && (f.cash == env.config.initialCash + SumPnl(f.trades) <==> env.spec.taker < 1.0 || a.costBasis == 0.0)
      && |f.trades| == (if env.spec.taker < 1.0 && 0.0 < a.costBasis then 1 else 0)
      && f.realized == SumPnl(f.trades)
  {
    RunAccumulates(env, d, bars, sigs, |bars|);
    var a, f := DcaRun(env, d, bars, sigs, |bars|), DcaFinal(env, d, bars, sigs);
    hide DcaRun, Proceeds, ExitFee, PnlPct;
    if f.trades != [] {
      SumsSnoc([], f.trades[0]);
      assert f.trades == [] + [f.trades[0]];
    }
  }

  // ---- the average entry price ----

  /** Every purchase price lies between `lo` and `hi`. */
  ghost predicate PurchasesBetween(env: Env, bars: seq<OHLCVBar>, lo: real, hi: real) {
    forall i | 0 <= i < |bars| :: lo <= Slip(env.config, bars[i].open, false) <= hi
  }

  /** What was paid, fees aside, for `base` units at prices between `lo` and `hi`. */
  ghost predicate PaidBetween(paid: real, base: real, lo: real, hi: real) {
    lo * base <= paid <= hi * base
  }

  lemma PaidMore(paid: real, base: real, net: real, qty: real, px: real, lo: real, hi: real)
    requires PaidBetween(paid, base, lo, hi) && qty * px == net && 0.0 <= qty && lo <= px <= hi
    ensures PaidBetween(paid + net, base + qty, lo, hi)
  {
    MulMono(lo, px, qty);
    MulMono(px, hi, qty);
    Distribute(lo, base, qty);
    Distribute(hi, base, qty);
  }

  lemma QtyAtPrice(env: Env, spend: real, open: real)
    requires 0.0 < spend && 0.0 < open
    ensures 0.0 <= PurchasedQty(env, spend, open)
    ensures PurchasedQty(env, spend, open) * Slip(env.config, open, false) == spend - PurchaseFee(env, spend)
  {
    QtyBought(env, spend, open);
    BuyPricePositive(env, open);
    DivMul(spend - PurchaseFee(env, spend), Slip(env.config, open, false));
  }

  lemma BarPaidBetween(env: Env, d: DCAConfig, a: DcaAccount, buy: bool, bar: OHLCVBar, idx: int, lo: real, hi: real)
    requires 0.0 < bar.open && lo <= Slip(env.config, bar.open, false) <= hi
    requires PaidBetween(a.costBasis - a.fees, a.base, lo, hi)
    ensures var b := AfterDcaBar(env, d, a, buy, bar, idx); PaidBetween(b.costBasis - b.fees, b.base, lo, hi)
  {
    var spend := Spend(d, a);
    if buy && !Capped(d, a) && 0.0 < spend {
      QtyAtPrice(env, spend, bar.open);
      hide PurchasedQty, PurchaseFee, Slip, PaidBetween;
      PaidMore(a.costBasis - a.fees, a.base, spend - PurchaseFee(env, spend), PurchasedQty(env, spend, bar.open),
               Slip(env.config, bar.open, false), lo, hi);
    }
  }

  lemma {:induction false} RunPaidBetween(env: Env, d: DCAConfig, bars: seq<OHLCVBar>, sigs: seq<BarSignal>, n: nat,
                                          lo: real, hi: real)
    requires env.spec.kind == Dca(d) && n <= |bars| == |sigs| && OpensPositive(bars)
        && PurchasesBetween(env, bars, lo, hi)
    ensures var a := DcaRun(env, d, bars, sigs, n); PaidBetween(a.costBasis - a.fees, a.base, lo, hi)
  {
    if n == 0 {
      assert PaidBetween(0.0, 0.0, lo, hi);
    } else {
      RunPaidBetween(env, d, bars, sigs, n - 1, lo, hi);
      hide AfterDcaBar, PaidBetween, Slip;
      BarPaidBetween(env, d, DcaRun(env, d, bars, sigs, n - 1), PendingBuy(sigs, n - 1), bars[n - 1], n - 1, lo, hi);
    }
  }

  /** The entry price that a DCA run reports lies between the lowest and the highest purchase price. */
  lemma DcaEntryBetween(env: Env, d: DCAConfig, bars: seq<OHLCVBar>, sigs: seq<BarSignal>, lo: real, hi: real)
    requires env.spec.kind == Dca(d) && |bars| == |sigs| && OpensPositive(bars) && PurchasesBetween(env, bars, lo, hi)
    ensures var ts := DcaFinal(env, d, bars, sigs).trades;
      forall i | 0 <= i < |ts| :: lo <= ts[i].entryPrice <= hi
  {
    RunAccumulates(env, d, bars, sigs, |bars|);
    RunPaidBetween(env, d, bars, sigs, |bars|, lo, hi);
    var a := DcaRun(env, d, bars, sigs, |bars|);
    hide DcaRun, Proceeds, ExitFee, PnlPct, PurchasesBetween, Slip;
    if 0.0 < a.base {
      QuotientBetween(a.costBasis - a.fees, a.base, lo, hi);
    }
  }
}

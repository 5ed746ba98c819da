/** The account of a DCA strategy: scheduled quote purchases, accumulated and sold once at the end. */
module DcaEngine {
  import opened Domain
  import opened FillModel

  datatype DcaAccount = DcaAccount(
    cash: real, base: real, costBasis: real, fees: real, purchases: int,
    firstEntry: Option<int>, firstIdx: int, trades: seq<Trade>, realized: real, feesPaid: real)

  function NewDcaAccount(env: Env): DcaAccount {
    DcaAccount(env.config.initialCash, 0.0, 0.0, 0.0, 0, None, 0, [], 0.0, 0.0)
  }

  predicate Capped(d: DCAConfig, a: DcaAccount) {
    d.maxPurchases.Some? && a.purchases >= d.maxPurchases.value
  }

  function Spend(d: DCAConfig, a: DcaAccount): real {
    if d.amountQuote <= a.cash then d.amountQuote else a.cash
  }

  function PurchaseFee(env: Env, spend: real): real {
    spend * env.spec.taker
  }

  /** The base amount `spend` buys at the slipped `open`, its fee taken out of the spend. */
  function PurchasedQty(env: Env, spend: real, open: real): real
    requires 0.0 < open
  {
    BuyPricePositive(env, open);
    (spend - PurchaseFee(env, spend)) / Slip(env.config, open, false)
  }

  /** One bar: the pending purchase at this bar's open, unless capped or out of cash. */
  function AfterDcaBar(env: Env, d: DCAConfig, a: DcaAccount, buy: bool, bar: OHLCVBar, idx: int): DcaAccount
    requires 0.0 < bar.open
  {
    var spend := Spend(d, a);
    if !buy || Capped(d, a) || spend <= 0.0 then a else
      var fee := PurchaseFee(env, spend);
      a.(cash := a.cash - spend, base := a.base + PurchasedQty(env, spend, bar.open),
         costBasis := a.costBasis + spend, fees := a.fees + fee,
         purchases := a.purchases + 1,
         firstEntry := if a.firstEntry.None? then Some(bar.time) else a.firstEntry,
         firstIdx := if a.firstEntry.None? then idx else a.firstIdx,
         feesPaid := a.feesPaid + fee)
  }

  function ExitFee(env: Env, base: real, close: real): real {
    Slip(env.config, close, true) * base * env.spec.taker
  }

  /** What selling `base` at the slipped `close` brings in, after the fee. */
  function Proceeds(env: Env, base: real, close: real): real {
    Slip(env.config, close, true) * base - ExitFee(env, base, close)
  }

  /** The one trade a DCA run records. */
  function DcaSold(env: Env, firstEntry: int, firstIdx: int, base: real, costBasis: real, fees: real, last: OHLCVBar,
                   idx: int): Trade
    requires base != 0.0
  {
    var pnl := Proceeds(env, base, last.close) - costBasis;
    Trade(Long, firstEntry, last.time, (costBasis - fees) / base, Slip(env.config, last.close, true), base, pnl,
          PnlPct(pnl, costBasis), fees + ExitFee(env, base, last.close), 0.0, idx - firstIdx, EndOfData)
  }

  /** Sells the whole position at the slipped last close. */
  function DcaLiquidated(env: Env, a: DcaAccount, last: OHLCVBar, idx: int): DcaAccount {
    if a.base <= 0.0 || a.firstEntry.None? then a else
      var t := DcaSold(env, a.firstEntry.value, a.firstIdx, a.base, a.costBasis, a.fees, last, idx);
      a.(cash := a.cash + Proceeds(env, a.base, last.close), base := 0.0, trades := a.trades + [t],
         realized := a.realized + t.pnl, feesPaid := a.feesPaid + ExitFee(env, a.base, last.close))
  }

  ghost predicate OpensPositive(bars: seq<OHLCVBar>) {
    forall i | 0 <= i < |bars| :: 0.0 < bars[i].open
  }

  /** Whether bar `i` carries a purchase scheduled on the bar before. */
  predicate PendingBuy(sigs: seq<BarSignal>, i: nat)
    requires i <= |sigs|
  {
    i > 0 && sigs[i - 1].dcaBuy
  }

  function DcaRun(env: Env, d: DCAConfig, bars: seq<OHLCVBar>, sigs: seq<BarSignal>, n: nat): DcaAccount
    requires n <= |bars| == |sigs| && OpensPositive(bars)
  {
    if n == 0 then NewDcaAccount(env)
    else AfterDcaBar(env, d, DcaRun(env, d, bars, sigs, n - 1), PendingBuy(sigs, n - 1), bars[n - 1], n - 1)
  }

  function DcaFinal(env: Env, d: DCAConfig, bars: seq<OHLCVBar>, sigs: seq<BarSignal>): DcaAccount
    requires |bars| == |sigs| && OpensPositive(bars)
  {
    if bars == [] then NewDcaAccount(env)
    else DcaLiquidated(env, DcaRun(env, d, bars, sigs, |bars|), bars[|bars| - 1], |bars| - 1)
  }

  /** Cash plus the marked base holdings. */
  function DcaEquity(a: DcaAccount, mark: real): real {
    a.cash + a.base * mark
  }

  function DcaPoint(env: Env, d: DCAConfig, bars: seq<OHLCVBar>, sigs: seq<BarSignal>, i: nat): real
    requires i < |bars| == |sigs| && OpensPositive(bars)
  {
    DcaEquity(if i == |bars| - 1 then DcaFinal(env, d, bars, sigs)
      else DcaRun(env, d, bars, sigs, i + 1), bars[i].close)
  }

  function DcaCurve(env: Env, d: DCAConfig, bars: seq<OHLCVBar>, sigs: seq<BarSignal>): seq<real>
    requires |bars| == |sigs| && OpensPositive(bars)
  {
    seq(|bars|, i requires 0 <= i < |bars| => DcaPoint(env, d, bars, sigs, i))
  }
}

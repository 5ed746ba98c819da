/**
 The fill, sizing, risk and funding arithmetic. Both brokers carry the same expressions; they are defined once here.
 */
module FillModel {
  import opened Domain
  import opened RealArithmetic

  /** Adversarial slippage: buys fill higher, sells fill lower. */
  function Slip(config: Config, price: real, sell: bool): real {
    var s := config.slippagePct / 100.0;
    if sell then price * (1.0 - s) else price * (1.0 + s)
  }

  lemma BuyPricePositive(env: Env, price: real)
    requires 0.0 < price
    ensures 0.0 < Slip(env.config, price, false)
  {
    MulPositive(price, 1.0 + env.config.slippagePct / 100.0);
  }

  function Leverage(spec: Spec): real {
    if spec.IsPerp() && spec.maxLeverage.Some? then spec.maxLeverage.value else 1.0
  }

  /** The leveraged quote amount that a size is bought for. */
  function Notional(spec: Spec, equity: real): real {
    (if spec.sizingMode.PercentEquity? then equity * (spec.sizingValue / 100.0) else spec.sizingValue) * Leverage(spec)
  }

  /** Position size in base units. Leverage scales a quote notional, never an explicit base amount. */
  function TargetSize(spec: Spec, equity: real, entryPrice: real): real {
    if spec.sizingMode.FixedBase? then spec.sizingValue else SizeFor(Notional(spec, equity), entryPrice)
  }

  function SizeFor(notional: real, entryPrice: real): real {
    if entryPrice > 0.0 then notional / entryPrice else 0.0
  }

  /**
   The size bought is worth the sizing rule's notional, leveraged on a swap; an explicit base amount is taken as it
   is.
   */
  lemma SizeBuysNotional(spec: Spec, equity: real, entryPrice: real)
    requires 0.0 < entryPrice
    ensures var size := TargetSize(spec, equity, entryPrice);
      match spec.sizingMode
      case FixedBase => size == spec.sizingValue
      case FixedQuote => entryPrice * size == Leverage(spec) * spec.sizingValue
      case PercentEquity => 100.0 * (entryPrice * size) == Leverage(spec) * (spec.sizingValue * equity)
    ensures !spec.IsPerp() ==> Leverage(spec) == 1.0
  {
  }

  function StopPrice(spec: Spec, side: Side, entryPrice: real): Option<real> {
    if spec.stopLossPct.None? then None else
      var delta := entryPrice * (spec.stopLossPct.value / 100.0);
      Some(if side.Long? then entryPrice - delta else entryPrice + delta)
  }

  function TakePrice(spec: Spec, side: Side, entryPrice: real): Option<real> {
    if spec.takeProfitPct.None? then None else
      var delta := entryPrice * (spec.takeProfitPct.value / 100.0);
      Some(if side.Long? then entryPrice + delta else entryPrice - delta)
  }

  /** The position opened at `fillOpen` with `equity` behind it. */
  function Opened(env: Env, side: Side, equity: real, fillOpen: real, now: int): Position {
    var px := Slip(env.config, fillOpen, side.Short?);
    var size := TargetSize(env.spec, equity, px);
    Position(side, now, px, size, px * size * env.spec.taker, 0, 0.0, 0.0,
             StopPrice(env.spec, side, px), TakePrice(env.spec, side, px))
  }

  /** Price gain of a position at `px`, before fees and funding. */
  function Gross(side: Side, entryPrice: real, size: real, px: real): real {
    if side.Long? then (px - entryPrice) * size else (entryPrice - px) * size
  }

  function PnlPct(pnl: real, notional: real): real {
    if notional != 0.0 then pnl / notional * 100.0 else 0.0
  }

  /** The trade that closing `p` at `px` records. */
  function Closed(env: Env, p: Position, px: real, now: int, reason: ExitReason): Trade {
    var exitFee := px * p.size * env.spec.taker;
    var pnl := Gross(p.side, p.entryPrice, p.size, px) - p.entryFee - exitFee - p.fundingPaid;
    Trade(p.side, p.entryTime, now, p.entryPrice, px, p.size, pnl, PnlPct(pnl, p.entryPrice * p.size),
          p.entryFee + exitFee, p.fundingPaid, p.barsHeld, reason)
  }

  datatype RiskFill = RiskFill(price: real, reason: ExitReason)

  /** The intrabar exit of `p` in a bar's range, stop before target. */
  function RiskExit(p: Position, high: real, low: real): Option<RiskFill> {
    if p.stopPrice.Some? && (if p.side.Long? then low <= p.stopPrice.value else high >= p.stopPrice.value) then
      Some(RiskFill(p.stopPrice.value, StopLoss))
    else if p.takePrice.Some? && (if p.side.Long? then high >= p.takePrice.value else low <= p.takePrice.value) then
      Some(RiskFill(p.takePrice.value, TakeProfit))
    else
      None
  }

  predicate PaysFunding(env: Env) {
    env.spec.IsPerp() && env.config.fundingEnabled
  }

  /** One funding charge on `p` at `mark`: a long pays a positive rate, a short receives it. */
  function Charge(env: Env, p: Position, mark: real): real {
    var charge := mark * p.size * env.config.fundingRate;
    if p.side.Long? then charge else -charge
  }

  /** How many whole funding intervals fit into `hours`. */
  function Intervals(env: Env, hours: real): int {
    (hours / env.config.fundingIntervalHours).Floor
  }

  lemma IntervalsStep(env: Env, hours: real)
    ensures Intervals(env, hours - env.config.fundingIntervalHours) == Intervals(env, hours) - 1
    ensures var left := hours - Intervals(env, hours) as real * env.config.fundingIntervalHours;
      0.0 <= left < env.config.fundingIntervalHours
    ensures env.config.fundingIntervalHours <= hours ==> 1 <= Intervals(env, hours)
    ensures 0.0 <= hours < env.config.fundingIntervalHours ==> Intervals(env, hours) == 0
  {
    var iv := env.config.fundingIntervalHours;
    var k := Intervals(env, hours);
    FloorOfQuotient(hours, iv, k);
    DistributeSub(iv, k as real, 1.0);
    FloorOfQuotient(hours - iv, iv, k - 1);
    if iv <= hours && k <= 0 { MulMono(k as real, 0.0, iv); }
    if 0.0 <= hours < iv { FloorOfQuotient(hours, iv, 0); }
  }

  /** The funding loop: charge and subtract an interval while a whole one has accumulated. */
  function Charged(env: Env, p: Position, mark: real): Position
    decreases Intervals(env, p.hoursSinceFunding)
  {
    if p.hoursSinceFunding < env.config.fundingIntervalHours then
      p
    else
      IntervalsStep(env, p.hoursSinceFunding);
      Charged(env, p.(hoursSinceFunding := p.hoursSinceFunding - env.config.fundingIntervalHours,
                      fundingPaid := p.fundingPaid + Charge(env, p, mark)), mark)
  }

  function Accrued(env: Env, p: Position, mark: real): Position {
    if !PaysFunding(env) then p
    else Charged(env, p.(hoursSinceFunding := p.hoursSinceFunding + env.BarHours()), mark)
  }

  /** One more bar held, with its funding. */
  function Held(env: Env, p: Position, mark: real): Position {
    Accrued(env, p.(barsHeld := p.barsHeld + 1), mark)
  }

  /** Realized cash plus the open position's unrealized pnl, net of its entry fee and funding. */
  function Equity(cash: real, pos: Option<Position>, mark: real): real {
    match pos
    case None => cash
    case Some(p) => cash + Gross(p.side, p.entryPrice, p.size, mark) - p.entryFee - p.fundingPaid
  }
}

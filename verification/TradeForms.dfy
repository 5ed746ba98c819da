/**
 Every trade a rule run records, accounted for in the prices of its bars: how it was filled, sized, charged and
 settled.
 */
module TradeForms {
  import opened Domain
  import opened RealArithmetic
  import opened FillModel
  import opened RuleEngine
  import opened DecisionTrace
  import opened GridEngine
  import opened PaperModel
  import opened LiveSession
  import opened RuleParity
  import opened RiskInvariants
  import opened Funding
  import opened Ledger

  // ---- the reference arithmetic ----

  /** How long a bar of the timeframe lasts. */
  function HoursOf(timeframe: string): real {
    if timeframe == "1m" then 1.0 / 60.0
    else if timeframe == "5m" then 5.0 / 60.0
    else if timeframe == "15m" then 15.0 / 60.0
    else if timeframe == "30m" then 30.0 / 60.0
    else if timeframe == "1h" then 1.0
    else if timeframe == "4h" then 4.0
    else if timeframe == "1d" then 24.0
    else if timeframe == "1w" then 168.0
    else 0.0
  }

  /** How many whole intervals fit into `n` bars. */
  function IntervalsIn(n: int, barHours: real, interval: real): int
    requires interval != 0.0
  {
    (n as real * barHours / interval).Floor
  }

  /** The whole funding intervals in `n` bars. */
  function WholeIntervals(env: Env, n: int): int {
    IntervalsIn(n, HoursOf(env.spec.timeframe), env.config.fundingIntervalHours)
  }

  /** What intervals ending at `mark` cost a long. */
  function IntervalsCost(elapsed: int, mark: real, size: real, rate: real): real {
    elapsed as real * (mark * size * rate)
  }

  /** A long's funding over `n` bars from bar `i` on: each interval that ends in a bar costs the rate at its close. */
  function LongFunding(env: Env, size: real, bars: seq<OHLCVBar>, i: nat, n: nat): real
    requires i + n <= |bars|
  {
    if n == 0 then 0.0
    else
      var elapsed := WholeIntervals(env, n) - WholeIntervals(env, n - 1);
      LongFunding(env, size, bars, i, n - 1)
      + IntervalsCost(elapsed, bars[i + n - 1].close, size, env.config.fundingRate)
  }

  /** What a position has paid: a short pays what a long receives, and only a swap with funding on pays at all. */
  function FundingOwed(env: Env, side: Side, size: real, bars: seq<OHLCVBar>, i: nat, n: nat): real
    requires i + n <= |bars|
  {
    if !(':' in env.spec.symbol && env.config.fundingEnabled) then 0.0
    else if side.Long? then LongFunding(env, size, bars, i, n)
    else 0.0 - LongFunding(env, size, bars, i, n)
  }

  /** A buy fills slipped up, a sell slipped down. */
  ghost predicate FilledAt(config: Config, price: real, buy: bool, fill: real) {
    var slip := price * (config.slippagePct / 100.0);
    fill == if buy then price + slip else price - slip
  }

  /** The size the sizing rule buys at `price` with `equity` behind it; leverage scales a quote amount on a swap. */
  ghost predicate SizedBy(spec: Spec, equity: real, price: real, size: real) {
    var leverage := if ':' in spec.symbol && spec.maxLeverage.Some? then spec.maxLeverage.value else 1.0;
    match spec.sizingMode
    case FixedBase => size == spec.sizingValue
    case FixedQuote => if 0.0 < price then price * size == leverage * spec.sizingValue else size == 0.0
    case PercentEquity =>
      if 0.0 < price then 100.0 * (price * size) == leverage * (spec.sizingValue * equity) else size == 0.0
  }

  /** A level `pct` percent from the entry, above it or below. */
  ghost predicate LevelAt(entry: real, pct: real, above: bool, level: real) {
    var move := entry * (pct / 100.0);
    level == if above then entry + move else entry - move
  }

  /** Entered at bar `i`'s open, because the decision there asked for it, with `equity` behind it. */
  ghost predicate Entered(env: Env, bars: seq<OHLCVBar>, drv: Driver, i: nat, side: Side, entryTime: int,
                          entryPrice: real, size: real, equity: real)
    requires |bars| == |drv.signals|
  {
    && i < |bars| && DecisionAt(env, bars, drv, i).open == Some(side) && entryTime == bars[i].time
    && FilledAt(env.config, bars[i].open, side.Long?, entryPrice)
    && SizedBy(env.spec, equity, entryPrice, size)
  }

  /** Exited in bar `x`: at its open by a decision, inside it at a level, or at the close of the last bar. */
  ghost predicate Exited(env: Env, bars: seq<OHLCVBar>, drv: Driver, x: nat, t: Trade)
    requires |bars| == |drv.signals|
  {
    match t.exitReason
    case Signal =>
      && x < |bars| && DecisionAt(env, bars, drv, x).close && t.exitTime == bars[x].time
      && FilledAt(env.config, bars[x].open, t.side.Short?, t.exitPrice)
    case StopLoss =>
      && x < |bars| && t.exitTime == bars[x].time && env.spec.stopLossPct.Some?
      && LevelAt(t.entryPrice, env.spec.stopLossPct.value, t.side.Short?, t.exitPrice)
    case TakeProfit =>
      && x < |bars| && t.exitTime == bars[x].time && env.spec.takeProfitPct.Some?
      && LevelAt(t.entryPrice, env.spec.takeProfitPct.value, t.side.Long?, t.exitPrice)
    case EndOfData =>
      && 0 < x == |bars| && t.exitTime == bars[x - 1].time && t.exitPrice == bars[x - 1].close
  }

  /** The price difference in the side's favour, less a fee on each fill and the funding. */
  ghost predicate Settled(env: Env, t: Trade) {
    var bought, sold := Product(t.entryPrice, t.size), Product(t.exitPrice, t.size);
    && t.feesPaid == Product(bought, env.spec.taker) + Product(sold, env.spec.taker)
    && t.pnl == (if t.side.Long? then sold - bought else bought - sold) - t.feesPaid - t.fundingPaid
    && (if bought == 0.0 then t.pnlPct == 0.0 else Product(t.pnlPct, bought) == 100.0 * t.pnl)
  }

  /** Trade `t`, recorded after the trades `before`, with all that its record says. */
  ghost predicate Accounted(env: Env, bars: seq<OHLCVBar>, drv: Driver, before: seq<Trade>, t: Trade)
    requires |bars| == |drv.signals|
  {
    && 0 <= t.barsHeld && Settled(env, t)
    && exists i: nat, x: nat :: AccountedFrom(env, bars, drv, before, t, i, x)
  }

  /** Entered in bar `i` and exited in bar `x`. */
  ghost predicate AccountedFrom(env: Env, bars: seq<OHLCVBar>, drv: Driver, before: seq<Trade>, t: Trade, i: nat,
                                x: nat)
    requires |bars| == |drv.signals|
  {
    && 0 <= t.barsHeld && i + t.barsHeld == x <= |bars|
    && Entered(env, bars, drv, i, t.side, t.entryTime, t.entryPrice, t.size, env.config.initialCash + SumPnl(before))
    && Exited(env, bars, drv, x, t)
    && t.fundingPaid == FundingOwed(env, t.side, t.size, bars, i, t.barsHeld)
  }

  ghost predicate AllAccounted(env: Env, bars: seq<OHLCVBar>, drv: Driver, ts: seq<Trade>)
    requires |bars| == |drv.signals|
  {
    forall k | 0 <= k < |ts| :: Accounted(env, bars, drv, ts[..k], ts[k])
  }

  lemma AllAccountedNext(env: Env, bars: seq<OHLCVBar>, drv: Driver, ts: seq<Trade>, t: Trade)
    requires |bars| == |drv.signals| && AllAccounted(env, bars, drv, ts) && Accounted(env, bars, drv, ts, t)
    ensures AllAccounted(env, bars, drv, ts + [t])
  {
    var all := ts + [t];
    hide Accounted;
    forall k | 0 <= k < |all|
      ensures Accounted(env, bars, drv, all[..k], all[k])
    {
      if k < |ts| { assert all[..k] == ts[..k]; } else { assert all[..k] == ts; }
    }
  }

  // ---- the model's arithmetic is the reference's ----

  lemma HoursAre(env: Env)
    ensures env.BarHours() == HoursOf(env.spec.timeframe)
  {
    assert env.spec.timeframe in ["1m", "5m", "15m", "30m", "1h", "4h", "1d", "1w"];
  }

  lemma SlipFills(config: Config, price: real, buy: bool)
    ensures FilledAt(config, price, buy, Slip(config, price, !buy))
  {
  }

  lemma SizeIs(spec: Spec, equity: real, price: real)
    ensures SizedBy(spec, equity, price, TargetSize(spec, equity, price))
  {
    if 0.0 < price { SizeBuysNotional(spec, equity, price); }
  }

  lemma IntervalsAre(env: Env, n: int)
    ensures ChargesBy(env, n) == WholeIntervals(env, n)
  {
    HoursAre(env);
    assert ChargesBy(env, n) == IntervalsIn(n, env.BarHours(), env.config.fundingIntervalHours);
    hide HoursOf, Env.BarHours, IntervalsIn, ChargesBy;
  }

  lemma Mirrored(count: real, charge: real)
    ensures count * (0.0 - charge) == 0.0 - count * charge
  {
  }

  lemma DueInIs(env: Env, p: Position, n: int, mark: real)
    ensures var cost := IntervalsCost(WholeIntervals(env, n) - WholeIntervals(env, n - 1), mark, p.size,
                                      env.config.fundingRate);
      DueIn(env, p, n, mark) == if p.side.Long? then cost else 0.0 - cost
  {
    IntervalsAre(env, n);
    IntervalsAre(env, n - 1);
    hide ChargesBy, WholeIntervals;
    Mirrored((ChargesBy(env, n) - ChargesBy(env, n - 1)) as real, mark * p.size * env.config.fundingRate);
  }

  /** The charges that fell due are the funding owed. */
  lemma {:induction false} DueIsOwed(env: Env, p: Position, bars: seq<OHLCVBar>, i: nat, n: nat)
    requires i + n <= |bars|
    ensures var owed := LongFunding(env, p.size, bars, i, n);
      FundingDue(env, p, Marks(bars, i, i + n)) == if p.side.Long? then owed else 0.0 - owed
  {
    var marks := Marks(bars, i, i + n);
    hide DueIn, ChargesBy, WholeIntervals, IntervalsCost;
    if n > 0 {
      DueIsOwed(env, p, bars, i, n - 1);
      assert marks[..n - 1] == Marks(bars, i, i + (n - 1)) && marks[n - 1] == bars[i + n - 1].close;
      DueInIs(env, p, n, bars[i + n - 1].close);
    }
  }

  /** Every open position of a run has paid exactly the funding owed since its entry. */
  lemma PaidIsOwed(env: Env, bars: seq<OHLCVBar>, drv: Driver, n: nat)
    requires n <= |bars| == |drv.signals|
    ensures var pos := Run(env, bars, drv, n).pos;
      pos.Some? ==> var p := pos.value;
        && 1 <= p.barsHeld <= n
        && p.fundingPaid == FundingOwed(env, p.side, p.size, bars, n - p.barsHeld, p.barsHeld)
  {
    RunOnSchedule(env, bars, drv, n);
    var pos := Run(env, bars, drv, n).pos;
    if pos.Some? {
      var p := pos.value;
      DueIsOwed(env, p, bars, n - p.barsHeld, p.barsHeld);
      hide Run, FundingDue, LongFunding, Span, ChargesBy;
    }
  }

  // ---- every bar ----

  /** The open position, entered after the trades recorded so far. */
  ghost predicate Carried(env: Env, bars: seq<OHLCVBar>, drv: Driver, a: Account, n: nat)
    requires n <= |bars| == |drv.signals|
  {
    a.pos.Some? ==> PositionFrom(env, bars, drv, a.trades, a.pos.value, n)
  }

  /** It has paid the funding owed. */
  ghost predicate PaidUpTo(env: Env, bars: seq<OHLCVBar>, a: Account, n: nat)
    requires n <= |bars|
  {
    a.pos.Some? ==> var p := a.pos.value;
      && 0 <= p.barsHeld <= n
      && p.fundingPaid == FundingOwed(env, p.side, p.size, bars, n - p.barsHeld, p.barsHeld)
  }

  ghost predicate PositionFrom(env: Env, bars: seq<OHLCVBar>, drv: Driver, before: seq<Trade>, p: Position, n: nat)
    requires |bars| == |drv.signals|
  {
    && FromEntry(env, p) && 0 <= p.barsHeld <= n
    && Entered(env, bars, drv, n - p.barsHeld, p.side, p.entryTime, p.entryPrice, p.size,
               env.config.initialCash + SumPnl(before))
  }

  lemma GrossIs(side: Side, entry: real, size: real, px: real)
    ensures var bought, sold := Product(entry, size), Product(px, size);
      Gross(side, entry, size, px) == if side.Long? then sold - bought else bought - sold
  {
  }

  lemma FeeIs(price: real, size: real, taker: real)
    ensures price * size * taker == Product(Product(price, size), taker)
  {
  }

  lemma PercentIs(pnl: real, notional: real)
    ensures var pct := PnlPct(pnl, notional); if notional == 0.0 then pct == 0.0 else pct * notional == 100.0 * pnl
  {
    if notional != 0.0 { DivMul(pnl, notional); }
  }

  lemma SettledPercent(env: Env, p: Position, px: real, now: int, reason: ExitReason)
    ensures var t, bought := Closed(env, p, px, now, reason), Product(p.entryPrice, p.size);
      if bought == 0.0 then t.pnlPct == 0.0 else Product(t.pnlPct, bought) == 100.0 * t.pnl
  {
    PercentIs(Closed(env, p, px, now, reason).pnl, p.entryPrice * p.size);
    hide Gross;
  }

  lemma SettledWhenClosed(env: Env, p: Position, px: real, now: int, reason: ExitReason)
    requires p.entryFee == p.entryPrice * p.size * env.spec.taker
    ensures Settled(env, Closed(env, p, px, now, reason))
  {
    GrossIs(p.side, p.entryPrice, p.size, px);
    FeeIs(p.entryPrice, p.size, env.spec.taker);
    FeeIs(px, p.size, env.spec.taker);
    SettledPercent(env, p, px, now, reason);
    hide Gross, PnlPct, Product;
  }

  lemma ClosedFields(env: Env, p: Position, px: real, now: int, reason: ExitReason)
    ensures var t := Closed(env, p, px, now, reason);
      && t.side == p.side && t.entryTime == p.entryTime && t.entryPrice == p.entryPrice && t.size == p.size
      && t.barsHeld == p.barsHeld && t.fundingPaid == p.fundingPaid
  {
    hide Gross, PnlPct;
  }

  lemma PositionParts(env: Env, bars: seq<OHLCVBar>, drv: Driver, before: seq<Trade>, p: Position, n: nat, i: int)
    requires |bars| == |drv.signals| && PositionFrom(env, bars, drv, before, p, n) && i == n - p.barsHeld
    ensures 0 <= p.barsHeld <= n && p.entryFee == p.entryPrice * p.size * env.spec.taker
    ensures Entered(env, bars, drv, i, p.side, p.entryTime, p.entryPrice, p.size,
                    env.config.initialCash + SumPnl(before))
  {
    hide Entered, StopPrice, TakePrice;
  }

  lemma PartsAccounted(env: Env, bars: seq<OHLCVBar>, drv: Driver, before: seq<Trade>, t: Trade, i: nat, x: nat)
    requires x <= |bars| == |drv.signals| && 0 <= t.barsHeld && i + t.barsHeld == x
    requires Entered(env, bars, drv, i, t.side, t.entryTime, t.entryPrice, t.size,
                     env.config.initialCash + SumPnl(before))
    requires Exited(env, bars, drv, x, t) && Settled(env, t)
    requires t.fundingPaid == FundingOwed(env, t.side, t.size, bars, i, t.barsHeld)
    ensures Accounted(env, bars, drv, before, t)
  {
    hide Entered, Exited, Settled, FundingOwed;
    assert AccountedFrom(env, bars, drv, before, t, i, x);
  }

  /** Closing a carried position records a trade that is accounted for, if the exit is and the funding is. */
  lemma CloseAccounted(env: Env, bars: seq<OHLCVBar>, drv: Driver, before: seq<Trade>, p: Position, n: nat, px: real,
                       now: int, reason: ExitReason)
    requires n <= |bars| == |drv.signals| && PositionFrom(env, bars, drv, before, p, n)
    requires Exited(env, bars, drv, n, Closed(env, p, px, now, reason))
    requires p.fundingPaid == FundingOwed(env, p.side, p.size, bars, n - p.barsHeld, p.barsHeld)
    ensures Accounted(env, bars, drv, before, Closed(env, p, px, now, reason))
  {
    hide *;
    var i := n - p.barsHeld;
    PositionParts(env, bars, drv, before, p, n, i);
    ClosedFields(env, p, px, now, reason);
    SettledWhenClosed(env, p, px, now, reason);
    PartsAccounted(env, bars, drv, before, Closed(env, p, px, now, reason), i, n);
  }

  /** A position just opened is carried, and owes nothing. */
  lemma OpenCarried(env: Env, bars: seq<OHLCVBar>, drv: Driver, b: Account, n: nat, side: Side)
    requires n < |bars| == |drv.signals| && DecisionAt(env, bars, drv, n).open == Some(side)
    requires b.cash == env.config.initialCash + SumPnl(b.trades)
    ensures var p := Opened(env, side, b.cash, bars[n].open, bars[n].time);
      && PositionFrom(env, bars, drv, b.trades, p, n) && p.barsHeld == 0
      && p.fundingPaid == FundingOwed(env, p.side, p.size, bars, n, 0)
  {
    var px := Slip(env.config, bars[n].open, side.Short?);
    SlipFills(env.config, bars[n].open, side.Long?);
    SizeIs(env.spec, b.cash, px);
    hide Slip, TargetSize, StopPrice, TakePrice, FilledAt, SizedBy, Run;
  }

  lemma CloseStep(env: Env, bars: seq<OHLCVBar>, drv: Driver, a: Account, n: nat)
    requires n < |bars| == |drv.signals| && a == Run(env, bars, drv, n) && DecisionAt(env, bars, drv, n).close
    requires AllAccounted(env, bars, drv, a.trades) && a.pos.Some?
    requires PositionFrom(env, bars, drv, a.trades, a.pos.value, n)
    ensures var b := CloseAt(env, a, Slip(env.config, bars[n].open, a.pos.value.side.Long?), bars[n].time, Signal);
      AllAccounted(env, bars, drv, b.trades) && b.pos.None?
  {
    var p := a.pos.value;
    var px := Slip(env.config, bars[n].open, p.side.Long?);
    var t := Closed(env, p, px, bars[n].time, Signal);
    PaidIsOwed(env, bars, drv, n);
    SlipFills(env.config, bars[n].open, p.side.Short?);
    SignalExit(env, bars, drv, p, n);
    assert CloseAt(env, a, px, bars[n].time, Signal).trades == a.trades + [t] by { hide Closed; }
    hide *;
    CloseAccounted(env, bars, drv, a.trades, p, n, px, bars[n].time, Signal);
    AllAccountedNext(env, bars, drv, a.trades, t);
  }

  lemma SignalExit(env: Env, bars: seq<OHLCVBar>, drv: Driver, p: Position, n: nat)
    requires n < |bars| == |drv.signals| && DecisionAt(env, bars, drv, n).close
    ensures var px := Slip(env.config, bars[n].open, p.side.Long?);
      Exited(env, bars, drv, n, Closed(env, p, px, bars[n].time, Signal))
  {
    SlipFills(env.config, bars[n].open, p.side.Short?);
    hide Slip, FilledAt, Gross, PnlPct, Run;
  }

  /** What is kept by everything that happens to a run's account. */
  ghost predicate Kept(env: Env, bars: seq<OHLCVBar>, drv: Driver, a: Account, n: nat)
    requires n <= |bars| == |drv.signals|
  {
    && AllAccounted(env, bars, drv, a.trades) && Carried(env, bars, drv, a, n)
    && a.cash == env.config.initialCash + SumPnl(a.trades)
  }

  lemma AfterCloseKeeps(env: Env, bars: seq<OHLCVBar>, drv: Driver, n: nat)
    requires n < |bars| == |drv.signals| && Kept(env, bars, drv, Run(env, bars, drv, n), n)
    ensures var b := AfterClose(env, Run(env, bars, drv, n), DecisionAt(env, bars, drv, n), bars[n]);
      Kept(env, bars, drv, b, n) && PaidUpTo(env, bars, b, n)
  {
    var a, d := Run(env, bars, drv, n), DecisionAt(env, bars, drv, n);
    if d.close {
      var px := Slip(env.config, bars[n].open, a.pos.value.side.Long?);
      CloseStep(env, bars, drv, a, n);
      CloseCash(env, a, px, bars[n].time, Signal);
      hide CloseAt, AllAccounted, Run, Slip, PositionFrom;
    } else {
      PaidIsOwed(env, bars, drv, n);
      hide AllAccounted, Run, PositionFrom, FundingOwed, CloseAt;
    }
  }

  lemma CloseCash(env: Env, a: Account, px: real, now: int, reason: ExitReason)
    requires a.pos.Some? && a.cash == env.config.initialCash + SumPnl(a.trades)
    ensures var b := CloseAt(env, a, px, now, reason); b.cash == env.config.initialCash + SumPnl(b.trades)
  {
    SumsSnoc(a.trades, Closed(env, a.pos.value, px, now, reason));
    hide Closed;
  }

  lemma DecisionKeeps(env: Env, bars: seq<OHLCVBar>, drv: Driver, n: nat)
    requires n < |bars| == |drv.signals| && Kept(env, bars, drv, Run(env, bars, drv, n), n)
    ensures var b := AfterDecision(env, Run(env, bars, drv, n), DecisionAt(env, bars, drv, n), bars[n]);
      Kept(env, bars, drv, b, n) && PaidUpTo(env, bars, b, n)
  {
    var d := DecisionAt(env, bars, drv, n);
    var b := AfterClose(env, Run(env, bars, drv, n), d, bars[n]);
    AfterCloseKeeps(env, bars, drv, n);
    hide Run, AfterClose, AllAccounted, PositionFrom, FundingOwed, Opened;
    if d.open.Some? { OpenCarried(env, bars, drv, b, n, d.open.value); }
  }

  lemma LevelExit(env: Env, bars: seq<OHLCVBar>, drv: Driver, p: Position, n: nat, fill: RiskFill)
    requires n < |bars| == |drv.signals| && FromEntry(env, p)
    requires RiskExit(p, bars[n].high, bars[n].low) == Some(fill)
    ensures Exited(env, bars, drv, n, Closed(env, p, fill.price, bars[n].time, fill.reason))
  {
    LevelsAre(env, p);
    hide Gross, PnlPct, StopPrice, TakePrice, LevelAt;
  }

  lemma LevelsAre(env: Env, p: Position)
    requires FromEntry(env, p)
    ensures p.stopPrice.Some? == env.spec.stopLossPct.Some? && p.takePrice.Some? == env.spec.takeProfitPct.Some?
    ensures p.stopPrice.Some? ==>
      LevelAt(p.entryPrice, env.spec.stopLossPct.value, p.side.Short?, p.stopPrice.value)
    ensures p.takePrice.Some? ==>
      LevelAt(p.entryPrice, env.spec.takeProfitPct.value, p.side.Long?, p.takePrice.value)
  {
  }

  lemma RiskKeeps(env: Env, bars: seq<OHLCVBar>, drv: Driver, b: Account, n: nat)
    requires n < |bars| == |drv.signals| && Kept(env, bars, drv, b, n) && PaidUpTo(env, bars, b, n)
    ensures Kept(env, bars, drv, AfterRisk(env, b, bars[n]), n)
  {
    if b.pos.Some? && RiskExit(b.pos.value, bars[n].high, bars[n].low).Some? {
      var p, fill := b.pos.value, RiskExit(b.pos.value, bars[n].high, bars[n].low).value;
      var t := Closed(env, p, fill.price, bars[n].time, fill.reason);
      LevelExit(env, bars, drv, p, n, fill);
      hide Closed, Exited, FundingOwed, AllAccounted, Accounted, Entered;
      CloseAccounted(env, bars, drv, b.trades, p, n, fill.price, bars[n].time, fill.reason);
      AllAccountedNext(env, bars, drv, b.trades, t);
      CloseCash(env, b, fill.price, bars[n].time, fill.reason);
    }
    hide RiskExit, AllAccounted, PositionFrom;
  }

  lemma HoldKeeps(env: Env, bars: seq<OHLCVBar>, drv: Driver, c: Account, n: nat)
    requires n < |bars| == |drv.signals| && Kept(env, bars, drv, c, n)
    ensures Kept(env, bars, drv, AfterHold(env, c, bars[n]), n + 1)
  {
    HoldKeepsIdentity(env, c, bars[n]);
    hide AfterHold, AllAccounted, Entered, StopPrice, TakePrice;
  }

  lemma BarInParts(env: Env, bars: seq<OHLCVBar>, drv: Driver, n: nat)
    requires n < |bars| == |drv.signals|
    ensures var b := AfterDecision(env, Run(env, bars, drv, n), DecisionAt(env, bars, drv, n), bars[n]);
      Run(env, bars, drv, n + 1) == AfterHold(env, AfterRisk(env, b, bars[n]), bars[n])
  {
    hide AfterDecision, AfterRisk, AfterHold;
  }

  lemma NothingKept(env: Env, bars: seq<OHLCVBar>, drv: Driver)
    requires |bars| == |drv.signals|
    ensures Kept(env, bars, drv, Run(env, bars, drv, 0), 0)
  {
  }

  lemma {:induction false} RunKept(env: Env, bars: seq<OHLCVBar>, drv: Driver, n: nat)
    requires n <= |bars| == |drv.signals|
    ensures Kept(env, bars, drv, Run(env, bars, drv, n), n)
  {
    hide *;
    if n == 0 {
      NothingKept(env, bars, drv);
    } else {
      RunKept(env, bars, drv, n - 1);
      DecisionKeeps(env, bars, drv, n - 1);
      var b := AfterDecision(env, Run(env, bars, drv, n - 1), DecisionAt(env, bars, drv, n - 1), bars[n - 1]);
      RiskKeeps(env, bars, drv, b, n - 1);
      HoldKeeps(env, bars, drv, AfterRisk(env, b, bars[n - 1]), n - 1);
      BarInParts(env, bars, drv, n - 1);
    }
  }

  lemma EndExit(env: Env, bars: seq<OHLCVBar>, drv: Driver, p: Position)
    requires 0 < |bars| == |drv.signals|
    ensures var last := bars[|bars| - 1];
      Exited(env, bars, drv, |bars|, Closed(env, p, last.close, last.time, EndOfData))
  {
    hide Gross, PnlPct;
  }

  /**
   Every trade of a rule run, whoever drives it, in the prices of the bars: filled at its entry bar's open slipped
   against it, sized by the rule on the cash of the trades before it, held for `barsHeld` bars with the funding of each
   interval that ended in them, and exited at a slipped open, at its stop or target, or at the last close; its fees, its
   pnl and its percentage follow from these.
   */
  lemma RuleTradesAccounted(env: Env, bars: seq<OHLCVBar>, drv: Driver)
    requires |bars| == |drv.signals|
    ensures AllAccounted(env, bars, drv, Final(env, bars, drv).trades)
  {
    var n := |bars|;
    RunKept(env, bars, drv, n);
    var a := Run(env, bars, drv, n);
    if n > 0 && a.pos.Some? {
      var p, last := a.pos.value, bars[n - 1];
      PaidIsOwed(env, bars, drv, n);
      EndExit(env, bars, drv, p);
      hide Run, Closed, Exited, FundingOwed, AllAccounted, Accounted, PositionFrom;
      CloseAccounted(env, bars, drv, a.trades, p, n, last.close, last.time, EndOfData);
      AllAccountedNext(env, bars, drv, a.trades, Closed(env, p, last.close, last.time, EndOfData));
    }
    hide Run, AllAccounted;
  }

  /** And every trade of a completed session. */
  lemma SessionTradesAccounted(env: Env, bars: seq<OHLCVBar>, live: seq<BarSignal>)
    requires env.spec.kind.Rule? && Feed(env, bars, live) && LiveFinal(env, bars, live).Done?
    ensures AllAccounted(env, bars, LiveDriver(live), LiveFinal(env, bars, live).state.trades)
  {
    FinalFollows(env, bars, live);
    RuleTradesAccounted(env, bars, LiveDriver(live));
    hide LiveFinal, Final, AllAccounted;
  }

  /** The equity of an open position: the cash, and its gain at the mark less its entry fee and funding. */
  ghost predicate MarkedAs(env: Env, cash: real, p: Position, mark: real, funding: real, equity: real) {
    var bought, worth := Product(p.entryPrice, p.size), Product(mark, p.size);
    equity == cash + (if p.side.Long? then worth - bought else bought - worth)
      - Product(bought, env.spec.taker) - funding
  }

  lemma MarkedWhenHeld(env: Env, cash: real, p: Position, mark: real)
    requires FromEntry(env, p)
    ensures MarkedAs(env, cash, p, mark, p.fundingPaid, Equity(cash, Some(p), mark))
  {
    GrossIs(p.side, p.entryPrice, p.size, mark);
    FeeIs(p.entryPrice, p.size, env.spec.taker);
    hide Product, Gross, StopPrice, TakePrice;
  }

  lemma PointIs(env: Env, bars: seq<OHLCVBar>, drv: Driver, i: nat)
    requires i + 1 < |bars| == |drv.signals|
    ensures var a := Run(env, bars, drv, i + 1); Curve(env, bars, drv)[i] == Equity(a.cash, a.pos, bars[i].close)
  {
    hide Run, Equity;
  }

  lemma KeptMeans(env: Env, bars: seq<OHLCVBar>, drv: Driver, a: Account, n: nat)
    requires n <= |bars| == |drv.signals| && Kept(env, bars, drv, a, n)
    ensures a.cash == env.config.initialCash + SumPnl(a.trades)
    ensures a.pos.Some? ==> FromEntry(env, a.pos.value)
  {
    hide AllAccounted, Entered, FromEntry;
  }

  lemma RunPaidUp(env: Env, bars: seq<OHLCVBar>, drv: Driver, n: nat)
    requires n <= |bars| == |drv.signals|
    ensures var a := Run(env, bars, drv, n);
      PaidUpTo(env, bars, a, n) && (a.pos.Some? ==> 1 <= a.pos.value.barsHeld <= n)
  {
    PaidIsOwed(env, bars, drv, n);
    hide Run, FundingOwed;
  }

  /** An equity point at bar `i`: initial cash, the pnl so far, and what the open position is marked at. */
  ghost predicate PointOf(env: Env, bars: seq<OHLCVBar>, a: Account, i: nat, point: real)
    requires i < |bars|
  {
    var cash := env.config.initialCash + SumPnl(a.trades);
    match a.pos
    case None => point == cash
    case Some(p) =>
      && 1 <= p.barsHeld <= i + 1
      && MarkedAs(env, cash, p, bars[i].close,
                  FundingOwed(env, p.side, p.size, bars, i + 1 - p.barsHeld, p.barsHeld), point)
  }

  lemma PointHeld(env: Env, bars: seq<OHLCVBar>, a: Account, i: nat, p: Position)
    requires i < |bars| && a.pos == Some(p) && 1 <= p.barsHeld <= i + 1
    requires a.cash == env.config.initialCash + SumPnl(a.trades)
    requires FromEntry(env, p) && PaidUpTo(env, bars, a, i + 1)
    ensures PointOf(env, bars, a, i, Equity(a.cash, a.pos, bars[i].close))
  {
    MarkedWhenHeld(env, a.cash, p, bars[i].close);
    hide MarkedAs, FundingOwed, Equity, FromEntry;
  }

  lemma PointFlat(env: Env, bars: seq<OHLCVBar>, a: Account, i: nat)
    requires i < |bars| && a.pos.None? && a.cash == env.config.initialCash + SumPnl(a.trades)
    ensures PointOf(env, bars, a, i, Equity(a.cash, a.pos, bars[i].close))
  {
  }

  /** Every point of a run's curve before the last, and the last after the force-close. */
  lemma CurveAccounted(env: Env, bars: seq<OHLCVBar>, drv: Driver, i: nat)
    requires i < |bars| == |drv.signals|
    ensures i + 1 < |bars| ==> PointOf(env, bars, Run(env, bars, drv, i + 1), i, Curve(env, bars, drv)[i])
    ensures i + 1 == |bars| ==>
      var f := Final(env, bars, drv);
      f.pos.None? && Curve(env, bars, drv)[i] == env.config.initialCash + SumPnl(f.trades)
  {
    if i == |bars| - 1 {
      RuleConservation(env, bars, drv);
      hide Final, Curve;
    } else {
      hide *;
      RunPaidUp(env, bars, drv, i + 1);
      RunKept(env, bars, drv, i + 1);
      var a := Run(env, bars, drv, i + 1);
      KeptMeans(env, bars, drv, a, i + 1);
      PointIs(env, bars, drv, i);
      if a.pos.Some? { PointHeld(env, bars, a, i, a.pos.value); } else { PointFlat(env, bars, a, i); }
    }
  }

  // ---- the signals in the trades ----

  ghost predicate EntersAt(ts: seq<Trade>, now: int, side: Side) {
    exists k :: 0 <= k < |ts| && ts[k].entryTime == now && ts[k].side == side
  }

  ghost predicate LeavesAt(ts: seq<Trade>, now: int) {
    exists k :: 0 <= k < |ts| && SignalExitAt(ts[k], now)
  }

  lemma SameStamp(bars: seq<OHLCVBar>, i: nat, j: nat)
    requires Ascending(bars) && i < |bars| && j < |bars| && bars[i].time == bars[j].time
    ensures i == j
  {
  }

  /** A bar's decision is on record: a trade entered there exactly when it opens, left there exactly when it closes. */
  lemma DecisionOnRecord(env: Env, bars: seq<OHLCVBar>, drv: Driver, i: nat)
    requires Ascending(bars) && i < |bars| == |drv.signals|
    ensures var ts, d := Final(env, bars, drv).trades, DecisionAt(env, bars, drv, i);
      && (forall side :: EntersAt(ts, bars[i].time, side) <==> d.open == Some(side))
      && (LeavesAt(ts, bars[i].time) <==> d.close)
  {
    var ts, d := Final(env, bars, drv).trades, DecisionAt(env, bars, drv, i);
    FinalShowsDecision(env, bars, drv, i);
    RuleTradesAccounted(env, bars, drv);
    hide Final, Run, Settled, FilledAt, SizedBy, FundingOwed, LevelAt;
    forall k | 0 <= k < |ts|
      ensures ts[k].entryTime == bars[i].time ==> d.open == Some(ts[k].side)
      ensures SignalExitAt(ts[k], bars[i].time) ==> d.close
    {
      assert Accounted(env, bars, drv, ts[..k], ts[k]);
      var e: nat, x: nat :| AccountedFrom(env, bars, drv, ts[..k], ts[k], e, x);
      if ts[k].entryTime == bars[i].time { SameStamp(bars, e, i); }
      if SignalExitAt(ts[k], bars[i].time) { SameStamp(bars, x, i); }
    }
  }

  /** The side held, or none, and the signal carried out at bar `i`'s open. */
  ghost function SignalFor(signals: seq<BarSignal>, i: nat): BarSignal
    requires i <= |signals|
  {
    if i == 0 then NO_SIGNAL else signals[i - 1]
  }

  /**
   What a backtest records of a bar, in the flags of the signal before it: its position is left on its own exit or on an
   entry of the other side, and an entry is taken, the long one first, by a flat account or one that just left.
   */
  lemma BacktestFollowsSignals(env: Env, bars: seq<OHLCVBar>, signals: seq<BarSignal>, i: nat)
    requires Ascending(bars) && i < |bars| == |signals|
    ensures var drv := Driver(Backtest, signals);
      var ts, s, held := Final(env, bars, drv).trades, SignalFor(signals, i), SideOf(Run(env, bars, drv, i).pos);
      var leaves := (held == Some(Long) && (s.exitLong || s.enterShort))
        || (held == Some(Short) && (s.exitShort || s.enterLong));
      && (LeavesAt(ts, bars[i].time) <==> leaves)
      && (EntersAt(ts, bars[i].time, Long) <==> s.enterLong && (held == None || leaves))
      && (EntersAt(ts, bars[i].time, Short) <==> s.enterShort && !s.enterLong && (held == None || leaves))
  {
    DecisionOnRecord(env, bars, Driver(Backtest, signals), i);
    hide Final, Run, EntersAt, LeavesAt;
  }

  /** What a session records: any exit leaves, and the short entry counts only without a long one. */
  lemma SessionFollowsSignals(env: Env, bars: seq<OHLCVBar>, live: seq<BarSignal>, i: nat)
    requires env.spec.kind.Rule? && Ascending(bars) && i < |bars| && Feed(env, bars, live)
    requires LiveFinal(env, bars, live).Done?
    ensures var ts, s := LiveFinal(env, bars, live).state.trades, SignalFor(live, i);
      var held := SideOf(Run(env, bars, LiveDriver(live), i).pos);
      var leaves := held.Some? && (s.exitLong || s.exitShort || (if held.value.Long? then s.enterShort && !s.enterLong
                                                                 else s.enterLong));
      && (LeavesAt(ts, bars[i].time) <==> leaves)
      && (EntersAt(ts, bars[i].time, Long) <==> s.enterLong && (held == None || leaves))
      && (EntersAt(ts, bars[i].time, Short) <==> s.enterShort && !s.enterLong && (held == None || leaves))
  {
    FinalFollows(env, bars, live);
    DecisionOnRecord(env, bars, LiveDriver(live), i);
    hide LiveFinal, Final, Run, EntersAt, LeavesAt;
  }
}

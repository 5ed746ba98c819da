/** The paper broker's whole mutable state as a value, and what each of its methods makes of it. */
module PaperModel {
  import opened Domain
  import opened FillModel
  import opened Fills
  import opened RuleEngine
  import opened GridEngine
  import opened DcaEngine

  datatype OrderSide = Buy | Sell

  datatype OrderType = Market | Limit

  datatype IntentReason = OnSignal | OnGrid | OnDca | OnStopLoss | OnTakeProfit | OnEndOfSession | Manual

  datatype IntentFields = IntentFields(
    side: OrderSide, kind: OrderType, amount: real, price: Option<real>, reduceOnly: bool, reason: IntentReason)
  {
    predicate Valid() {
      0.0 < amount && (price.Some? ==> 0.0 < price.value)
    }
  }

  type OrderIntent = i: IntentFields | i.Valid()
    witness IntentFields(Buy, Market, 1.0, None, false, OnSignal)

  datatype OrderRecord = OrderRecord(
    id: nat, side: OrderSide, kind: OrderType, status: OrderStatus, amount: real, filled: real, remaining: real,
    average: Option<real>, fee: real, reason: IntentReason)

  /** The intents recorded against the last close, carried out on the next bar. */
  datatype Pending = Pending(exit: bool, enterLong: bool, enterShort: bool, gridBuys: seq<real>, dcaBuy: bool)

  const NOTHING_PENDING := Pending(false, false, false, [], false)

  /** The online analogue of the batch broker's DCA locals. */
  datatype DcaBook = DcaBook(base: real, costBasis: real, fees: real, purchases: int, firstEntry: Option<int>,
    firstIdx: int)

  const EMPTY_DCA := DcaBook(0.0, 0.0, 0.0, 0, None, 0)

  datatype PaperState = PaperState(
    cash: real, pos: Option<Position>, trades: seq<Trade>, orders: seq<OrderRecord>,
    realized: real, feesPaid: real, fundingPaid: real, mark: Option<real>, lastTime: Option<int>,
    pending: Pending, filled: map<real, real>, entries: map<real, GridEntry>, barIndex: int,
    dca: DcaBook, nextOrder: nat)
  {
    function Acct(): Account {
      Account(cash, pos, trades, realized, feesPaid, fundingPaid)
    }

    function WithAcct(a: Account): PaperState {
      this.(cash := a.cash, pos := a.pos, trades := a.trades, realized := a.realized, feesPaid := a.feesPaid,
            fundingPaid := a.fundingPaid)
    }

    function GridAcct(): GridAccount {
      GridAccount(cash, filled, entries, trades, realized, feesPaid)
    }

    function WithGrid(a: GridAccount): PaperState {
      this.(cash := a.cash, filled := a.filled, entries := a.entries, trades := a.trades, realized := a.realized,
            feesPaid := a.feesPaid)
    }

    function DcaAcct(): DcaAccount {
      DcaAccount(cash, dca.base, dca.costBasis, dca.fees, dca.purchases, dca.firstEntry, dca.firstIdx, trades,
        realized, feesPaid)
    }

    function WithDca(a: DcaAccount): PaperState {
      this.(cash := a.cash, dca := DcaBook(a.base, a.costBasis, a.fees, a.purchases, a.firstEntry, a.firstIdx),
            trades := a.trades, realized := a.realized, feesPaid := a.feesPaid)
    }

    /** What every method relies on and keeps. */
    ghost predicate Valid() {
      && filled.Keys == entries.Keys
      && PositiveLevels(pending.gridBuys)
      && (0.0 < dca.base ==> dca.firstEntry.Some?)
    }
  }

  function NewPaper(env: Env): (st: PaperState)
    ensures st.Valid()
  {
    PaperState(env.config.initialCash, None, [], [], 0.0, 0.0, 0.0, None, None, NOTHING_PENDING, map[], map[], -1,
               EMPTY_DCA, 1)
  }

  /** A method either returns or raises; a raise leaves the state as far as it got. */
  datatype Outcome = Done(state: PaperState) | Raised(state: PaperState)

  // ---- orders ----

  /** The resting record acknowledging an intent. */
  function Acknowledged(id: nat, i: OrderIntent): OrderRecord {
    OrderRecord(id, i.side, i.kind, Open, i.amount, 0.0, i.amount, None, 0.0, i.reason)
  }

  /** The pending flag an intent raises. */
  function Flagged(p: Pending, i: OrderIntent): Pending {
    if i.reduceOnly || i.reason.OnStopLoss? || i.reason.OnTakeProfit? then p.(exit := true)
    else if i.reason.OnGrid? && i.price.Some? then p.(gridBuys := p.gridBuys + [i.price.value])
    else if i.reason.OnDca? then p.(dcaBuy := true)
    else if i.side.Buy? then p.(enterLong := true)
    else p.(enterShort := true)
  }

  function Submitted(st: PaperState, i: OrderIntent): (r: PaperState)
    ensures st.Valid() ==> r.Valid()
  {
    st.(pending := Flagged(st.pending, i),
        orders := st.orders + [Acknowledged(st.nextOrder, i)], nextOrder := st.nextOrder + 1)
  }

  function FillReason(reason: ExitReason): IntentReason {
    match reason
    case StopLoss => OnStopLoss
    case TakeProfit => OnTakeProfit
    case _ => OnSignal
  }

  /** The order record of an atomic fill, booked through the shared aggregation. */
  function FillRecord(id: nat, side: OrderSide, amount: real, fills: seq<Fill>, reason: IntentReason): OrderRecord {
    var a := AggregateFills(amount, fills);
    OrderRecord(id, side, Market, a.status, amount, a.filled, a.remaining, a.average, a.fee, reason)
  }

  /** The fill event that a close of `t.size` at `t.exitPrice` builds. */
  function ExitFill(env: Env, t: Trade): FillEvent {
    FillEvent(t.size, t.exitPrice, t.exitPrice * t.size * env.spec.taker)
  }

  predicate Resting(o: OrderRecord, orderId: nat) {
    o.id == orderId && (o.status.Open? || o.status.PartiallyFilled?)
  }

  /** The order log once the first resting record with this id is canceled. */
  function Relabeled(orders: seq<OrderRecord>, orderId: nat): seq<OrderRecord> {
    if orders == [] then []
    else if Resting(orders[0], orderId) then [orders[0].(status := Canceled)] + orders[1..]
    else [orders[0]] + Relabeled(orders[1..], orderId)
  }

  /** An order's record once its cumulative `fills` are folded in. */
  function WithFills(o: OrderRecord, fills: seq<Fill>): OrderRecord {
    var a := AggregateFills(o.amount, fills);
    o.(filled := a.filled, remaining := a.remaining, average := a.average, fee := a.fee, status := a.status)
  }

  /** The order log once `fills` is folded into the first record with this id. */
  function Reconciled(orders: seq<OrderRecord>, orderId: nat, fills: seq<Fill>): seq<OrderRecord> {
    if orders == [] then []
    else if orders[0].id == orderId then [WithFills(orders[0], fills)] + orders[1..]
    else [orders[0]] + Reconciled(orders[1..], orderId, fills)
  }

  /** The relabeled record is the first resting one. */
  lemma {:induction false} RelabeledAt(orders: seq<OrderRecord>, orderId: nat, i: nat)
    requires i <= |orders|
    requires forall j | 0 <= j < i :: !Resting(orders[j], orderId)
    requires i < |orders| ==> Resting(orders[i], orderId)
    ensures Relabeled(orders, orderId) == if i == |orders| then orders else orders[i := orders[i].(status := Canceled)]
  {
    if i > 0 {
      RelabeledAt(orders[1..], orderId, i - 1);
    }
  }

  /** The reconciled record is the first with the id. */
  lemma {:induction false} ReconciledAt(orders: seq<OrderRecord>, orderId: nat, fills: seq<Fill>, i: nat)
    requires i <= |orders|
    requires forall j | 0 <= j < i :: orders[j].id != orderId
    requires i < |orders| ==> orders[i].id == orderId
    ensures Reconciled(orders, orderId, fills) == if i == |orders| then orders
        else orders[i := WithFills(orders[i], fills)]
  {
    if i > 0 {
      ReconciledAt(orders[1..], orderId, fills, i - 1);
    }
  }

  /** Reporting the same cumulative list again changes nothing. */
  lemma {:induction false} ReconcileIdempotent(orders: seq<OrderRecord>, orderId: nat, fills: seq<Fill>)
    ensures var once := Reconciled(orders, orderId, fills); Reconciled(once, orderId, fills) == once
  {
    if orders != [] && orders[0].id != orderId {
      ReconcileIdempotent(orders[1..], orderId, fills);
    }
  }

  // ---- rule path ----

  function PaperEquity(env: Env, st: PaperState, mark: real): real {
    var base := Equity(st.cash, st.pos, mark);
    match env.spec.kind
    case Rule => base
    case Grid(_) => base + HeldValue(st.filled, mark)
    case Dca(_) => base + st.dca.base * mark
  }

  /** `pnl().unrealized` of a session. */
  function Unrealized(st: PaperState): real {
    if st.pos.None? || st.mark.None? then 0.0
    else
      var p := st.pos.value;
      Gross(p.side, p.entryPrice, p.size, st.mark.value) - p.entryFee - p.fundingPaid
  }

  datatype PnLBreakdown = PnLBreakdown(realized: real, unrealized: real, feesPaid: real, fundingPaid: real, total: real)

  /** What `pnl()` reports. */
  function PnlOf(st: PaperState): PnLBreakdown {
    PnLBreakdown(st.realized, Unrealized(st), st.feesPaid, st.fundingPaid, st.realized + Unrealized(st))
  }

  /** The equity that `portfolio()` reports: marked at the last close seen, or the cash before the first. */
  function PortfolioOf(env: Env, st: PaperState): real {
    if st.mark.Some? then PaperEquity(env, st, st.mark.value) else st.cash
  }

  function PaperOpen(env: Env, st: PaperState, side: Side, fillOpen: real, now: int): PaperState {
    var p := Opened(env, side, PaperEquity(env, st, fillOpen), fillOpen, now);
    st.(pos := Some(p), feesPaid := st.feesPaid + p.entryFee)
  }

  /** Closes the position. The trade is booked before the fill event is built, so a raise keeps the position too. */
  function PaperClose(env: Env, st: PaperState, px: real, now: int, reason: ExitReason): Outcome
    requires st.pos.Some?
  {
    var p := st.pos.value;
    var t := Closed(env, p, px, now, reason);
    var booked := st.WithAcct(CloseAt(env, st.Acct(), px, now, reason)).(nextOrder := st.nextOrder + 1);
    var fill := ExitFill(env, t);
    if fill.Valid() then
      Done(booked.(orders := st.orders
        + [FillRecord(st.nextOrder, if p.side.Long? then Sell else Buy, p.size, [fill], FillReason(reason))]))
    else
      Raised(booked.(pos := st.pos))
  }

  predicate PendingClose(st: PaperState)
    requires st.pos.Some?
  {
    || st.pending.exit
    || (st.pos.value.side.Long? && st.pending.enterShort)
    || (st.pos.value.side.Short? && st.pending.enterLong)
  }

  function PendingOpened(env: Env, st: PaperState, bar: OHLCVBar): PaperState {
    if st.pos.Some? then st
    else if st.pending.enterLong then PaperOpen(env, st, Long, bar.open, bar.time)
    else if st.pending.enterShort then PaperOpen(env, st, Short, bar.open, bar.time)
    else st
  }

  function PendingRule(env: Env, st: PaperState, bar: OHLCVBar): Outcome {
    var closed :=
      if st.pos.Some? && PendingClose(st) then
        PaperClose(env, st, Slip(env.config, bar.open, st.pos.value.side.Long?), bar.time, Signal)
      else Done(st);
    if closed.Raised? then closed else Done(PendingOpened(env, closed.state, bar))
  }

  function RiskChecked(env: Env, st: PaperState, bar: OHLCVBar): Outcome {
    if st.pos.None? then Done(st) else
      match RiskExit(st.pos.value, bar.high, bar.low)
      case None => Done(st)
      case Some(fill) => PaperClose(env, st, fill.price, bar.time, fill.reason)
  }

  // ---- one bar ----

  /** Bar `idx` reaches the broker. */
  function Arrived(st: PaperState, bar: OHLCVBar): PaperState {
    st.(barIndex := st.barIndex + 1, lastTime := Some(bar.time), mark := Some(bar.close))
  }

  /** The pending intents carried out at the bar's open, then the intrabar exits of a rule position. */
  function Executed(env: Env, st: PaperState, bar: OHLCVBar): Outcome
    requires st.Valid() && (env.spec.kind.Dca? ==> 0.0 < bar.open)
  {
    match env.spec.kind
    case Grid(g) => Done(st.WithGrid(AfterGridBar(env, g, st.GridAcct(), st.pending.gridBuys, bar, st.barIndex)))
    case Dca(d) => Done(st.WithDca(AfterDcaBar(env, d, st.DcaAcct(), st.pending.dcaBuy, bar, st.barIndex)))
    case Rule =>
      var entered := PendingRule(env, st, bar);
      if entered.Raised? then entered else RiskChecked(env, entered.state, bar)
  }

  function Rested(env: Env, st: PaperState, bar: OHLCVBar): PaperState {
    (if st.pos.None? then st else st.(pos := Some(Held(env, st.pos.value, bar.close)))).(pending := NOTHING_PENDING)
  }

  function PaperBar(env: Env, st: PaperState, bar: OHLCVBar): Outcome
    requires st.Valid() && (env.spec.kind.Dca? ==> 0.0 < bar.open)
  {
    var done := Executed(env, Arrived(st, bar), bar);
    if done.Raised? then done else Done(Rested(env, done.state, bar))
  }

  // ---- end of session ----

  function ForceClosed(env: Env, st: PaperState): Outcome
    requires st.Valid()
  {
    if st.mark.None? || st.lastTime.None? then Done(st) else
      var flat := if st.pos.Some? then PaperClose(env, st, st.mark.value, st.lastTime.value, EndOfData) else Done(st);
      if flat.Raised? then flat else
        var last := OHLCVBar(st.lastTime.value, 0.0, 0.0, 0.0, st.mark.value, 0.0);
        match env.spec.kind
        case Rule => flat
        case Grid(_) => Done(flat.state.WithGrid(GridLiquidated(env, flat.state.GridAcct(), last, st.barIndex)))
        case Dca(_) => Done(flat.state.WithDca(DcaLiquidated(env, flat.state.DcaAcct(), last, st.barIndex)))
  }

  // ---- the runtime's translation ----

  function MarketOrder(side: OrderSide, reduceOnly: bool, reason: IntentReason): OrderIntent {
    IntentFields(side, Market, 1.0, None, reduceOnly, reason)
  }

  function GridIntents(levels: seq<real>): seq<OrderIntent>
    requires PositiveLevels(levels)
  {
    seq(|levels|, i requires 0 <= i < |levels| => IntentFields(Buy, Limit, 1.0, Some(levels[i]), false, OnGrid))
  }

  /** The intents a bar's signal becomes: at most one exit and one entry for a rule strategy. */
  function IntentsFor(spec: Spec, s: BarSignal): seq<OrderIntent>
    requires PositiveLevels(s.gridBuyLevels)
  {
    match spec.kind
    case Grid(_) => GridIntents(s.gridBuyLevels)
    case Dca(_) => if s.dcaBuy then [MarketOrder(Buy, false, OnDca)] else []
    case Rule =>
      (if s.exitLong || s.exitShort then [MarketOrder(if s.exitLong then Sell else Buy, true, OnSignal)] else [])
      + (if s.enterLong then [MarketOrder(Buy, false, OnSignal)]
         else if s.enterShort then [MarketOrder(Sell, false, OnSignal)]
         else [])
  }

  function SubmitAll(st: PaperState, intents: seq<OrderIntent>): (r: PaperState)
    ensures st.Valid() ==> r.Valid()
    decreases |intents|
  {
    if intents == [] then st else SubmitAll(Submitted(st, intents[0]), intents[1..])
  }
}

/**
 The stateful paper broker, advanced one bar and one order at a time. A method that returns `ok == false` has raised.
 */
module PaperBrokers {
  import opened Domain
  import opened FillModel
  import opened Fills
  import opened Positions
  import opened RuleEngine
  import opened GridEngine
  import opened DcaEngine
  import opened PaperModel
  import opened Sorting

  class PaperBroker {
    const env: Env

    var cash: real
    var pos: OpenPosition?
    var trades: seq<Trade>
    var orders: seq<OrderRecord>
    var realized: real
    var feesPaid: real
    var fundingPaid: real
    var mark: Option<real>
    var lastBarTime: Option<int>

    /** The flags recorded against the most recent close. */
    var pending: Pending

    var gridFilled: map<real, real>
    var gridEntries: map<real, GridEntry>
    var barIndex: int
    var dca: DcaBook
    var nextOrder: nat

    function State(): PaperState
      reads this, pos
    {
      PaperState(cash, ViewOf(pos), trades, orders, realized, feesPaid, fundingPaid, mark, lastBarTime,
                 pending,
                 gridFilled, gridEntries, barIndex,
                 dca, nextOrder)
    }

    ghost predicate Valid()
      reads this, pos
    {
      State().Valid()
    }

    constructor (env: Env)
      ensures this.env == env && State() == NewPaper(env)
      ensures pos == null
    {
      this.env := env;
      cash, pos, trades, orders := env.config.initialCash, null, [], [];
      realized, feesPaid, fundingPaid := 0.0, 0.0, 0.0;
      mark, lastBarTime := None, None;
      pending := NOTHING_PENDING;
      gridFilled, gridEntries, barIndex := map[], map[], -1;
      dca, nextOrder := EMPTY_DCA, 1;
    }

    /** Records `intent` as a pending next-bar action and acknowledges it with a resting order. */
    method Submit(intent: OrderIntent) returns (record: OrderRecord)
      modifies this
      ensures State() == Submitted(old(State()), intent)
      ensures pos == old(pos)
      ensures record == orders[|orders| - 1] && record.id == old(nextOrder) && record.status == OrderStatus.Open
    {
      if intent.reduceOnly || intent.reason.OnStopLoss? || intent.reason.OnTakeProfit? {
        pending := pending.(exit := true);
      } else if intent.reason.OnGrid? && intent.price.Some? {
        pending := pending.(gridBuys := pending.gridBuys + [intent.price.value]);
      } else if intent.reason.OnDca? {
        pending := pending.(dcaBuy := true);
      } else if intent.side.Buy? {
        pending := pending.(enterLong := true);
      } else {
        pending := pending.(enterShort := true);
      }
      record := OrderRecord(nextOrder, intent.side, intent.kind, OrderStatus.Open, intent.amount, 0.0, intent.amount,
        None, 0.0, intent.reason);
      nextOrder := nextOrder + 1;
      orders := orders + [record];
    }

    /** Advances the simulation by one bar. */
    method OnBar(bar: OHLCVBar) returns (ok: bool)
      requires Valid() && (env.spec.kind.Dca? ==> 0.0 < bar.open)
      modifies this, pos
      ensures ok == PaperBar(env, old(State()), bar).Done?
      ensures State() == PaperBar(env, old(State()), bar).state
      ensures pos == null || pos == old(pos) || fresh(pos)
    {
      hide AfterGridBar, AfterDcaBar, PendingRule, RiskChecked, Held;
      barIndex := barIndex + 1;
      lastBarTime := Some(bar.time);
      mark := Some(bar.close);
      ghost var at := Arrived(old(State()), bar);
      assert State() == at;
      ok := true;
      match env.spec.kind {
        case Grid(g) => ApplyPendingGrid(g, bar);
        case Dca(d) => ApplyPendingDca(d, bar);
        case Rule => ok := ApplyPendingRule(bar);
      }
      if !ok {
        return;
      }
      if pos != null && env.spec.kind.Rule? {
        ok := CheckRiskExits(bar);
        if !ok {
          return;
        }
      } else {
        NoRisk(env, State(), bar);
      }
      ghost var ran := State();
      assert ran == Executed(env, at, bar).state;
      if pos != null {
        pos.Hold(env, bar.close);
      }
      ClearPending();
    }

    static lemma NoRisk(env: Env, st: PaperState, bar: OHLCVBar)
      ensures st.pos.None? ==> RiskChecked(env, st, bar) == Done(st)
    {
    }

    method ClearPending()
      modifies this
      ensures State() == old(State()).(pending := NOTHING_PENDING)
      ensures pos == old(pos)
    {
      pending := NOTHING_PENDING;
    }

    method ApplyPendingRule(bar: OHLCVBar) returns (ok: bool)
      requires env.spec.kind.Rule?
      modifies this
      ensures ok == PendingRule(env, old(State()), bar).Done?
      ensures State() == PendingRule(env, old(State()), bar).state
      ensures pos == null || pos == old(pos) || fresh(pos)
    {
      hide PaperClose, PaperOpen;
      if pos != null {
        var shouldExit := (pos.side.Long? && pending.exit) || (pos.side.Short? && pending.exit);
        var reverse := (pos.side.Long? && pending.enterShort) || (pos.side.Short? && pending.enterLong);
        if shouldExit || reverse {
          ok := Close(Slip(env.config, bar.open, pos.side.Long?), bar.time, Signal);
          if !ok {
            return;
          }
          ClosedKeepsPending(env, old(State()), Slip(env.config, bar.open, old(pos.View()).side.Long?), bar.time,
            Signal);
        }
      }
      if pos == null {
        if pending.enterLong {
          Open(Long, bar.open, bar.time);
        } else if pending.enterShort {
          Open(Short, bar.open, bar.time);
        }
      }
      ok := true;
    }

    static lemma ClosedKeepsPending(env: Env, st: PaperState, px: real, now: int, reason: ExitReason)
      requires st.pos.Some? && PaperClose(env, st, px, now, reason).Done?
      ensures var r := PaperClose(env, st, px, now, reason).state; r.pos.None? && r.pending == st.pending
    {
    }

    method CheckRiskExits(bar: OHLCVBar) returns (ok: bool)
      requires pos != null
      modifies this
      ensures ok == RiskChecked(env, old(State()), bar).Done?
      ensures State() == RiskChecked(env, old(State()), bar).state
      ensures pos == null || pos == old(pos)
    {
      hide PaperClose;
      ok := true;
      if pos.side.Long? {
        if pos.stopPrice.Some? && bar.low <= pos.stopPrice.value {
          ok := Close(pos.stopPrice.value, bar.time, StopLoss);
        } else if pos.takePrice.Some? && bar.high >= pos.takePrice.value {
          ok := Close(pos.takePrice.value, bar.time, TakeProfit);
        }
      } else {
        if pos.stopPrice.Some? && bar.high >= pos.stopPrice.value {
          ok := Close(pos.stopPrice.value, bar.time, StopLoss);
        } else if pos.takePrice.Some? && bar.low <= pos.takePrice.value {
          ok := Close(pos.takePrice.value, bar.time, TakeProfit);
        }
      }
    }

    /** Opens a position sized on the account's equity at the (slipped) open. */
    method Open(side: Side, fillOpen: real, now: int)
      modifies this
      ensures State() == PaperOpen(env, old(State()), side, fillOpen, now)
      ensures fresh(pos)
    {
      hide PaperEquity, Opened;
      var p := Opened(env, side, PaperEquity(env, State(), fillOpen), fillOpen, now);
      pos := new OpenPosition(p);
      feesPaid := feesPaid + p.entryFee;
    }

    /** Closes the open position. It raises when the exit cannot be booked as a fill event. */
    method Close(px: real, now: int, reason: ExitReason) returns (ok: bool)
      requires pos != null
      modifies this
      ensures ok == PaperClose(env, old(State()), px, now, reason).Done?
      ensures State() == PaperClose(env, old(State()), px, now, reason).state
      ensures pos == if ok then null else old(pos)
    {
      hide FillRecord, Closed;
      ghost var t := Closed(env, pos.View(), px, now, reason);
      var exitFee := BookTrade(px, now, reason);
      var id := nextOrder;
      nextOrder := nextOrder + 1;
      var fill := FillEvent(pos.size, px, exitFee);
      assert fill == ExitFill(env, t);
      ok := fill.Valid();
      if ok {
        orders := orders + [FillRecord(id, if pos.side.Long? then Sell else Buy, pos.size, [fill], FillReason(reason))];
        pos := null;
      }
    }

    /** Books the closing trade into the ledger; the position stays for now. */
    method BookTrade(px: real, now: int, reason: ExitReason) returns (exitFee: real)
      requires pos != null
      modifies this
      ensures State()
          == old(State()).WithAcct(CloseAt(env, old(State().Acct()), px, now, reason)).(pos := old(State()).pos)
      ensures pos == old(pos)
      ensures var t := Closed(env, pos.View(), px, now, reason);
        ExitFill(env, t) == FillEvent(pos.size, px, exitFee)
    {
      ghost var t := Closed(env, pos.View(), px, now, reason);
      exitFee := px * pos.size * env.spec.taker;
      var pnl := Gross(pos.side, pos.entryPrice, pos.size, px) - pos.entryFee - exitFee - pos.fundingPaid;
      var u := Trade(pos.side, pos.entryTime, now, pos.entryPrice, px, pos.size, pnl,
        PnlPct(pnl, pos.entryPrice * pos.size),
                     pos.entryFee + exitFee, pos.fundingPaid, pos.barsHeld, reason);
      assert u.pnl == t.pnl;
      assert u.pnlPct == t.pnlPct;
      assert u == t;
      hide Closed, PnlPct, Gross;
      feesPaid := feesPaid + exitFee;
      realized := realized + pnl;
      fundingPaid := fundingPaid + pos.fundingPaid;
      cash := cash + pnl;
      trades := trades + [u];
    }

    method ApplyPendingGrid(g: GridConfig, bar: OHLCVBar)
      requires Valid() && env.spec.kind == Grid(g)
      modifies this
      ensures State()
          == old(State()).WithGrid(AfterGridBar(env, g, old(State().GridAcct()), old(pending.gridBuys), bar, barIndex))
      ensures pos == old(pos)
    {
      hide BuyAll, GridEngine.SellTargets;
      BuyLevels(g, pending.gridBuys, bar.time);
      SellTargets(g, bar.close, bar.time);
    }

    method BuyLevels(g: GridConfig, levels: seq<real>, now: int)
      requires Valid() && env.spec.kind == Grid(g) && PositiveLevels(levels)
      modifies this
      ensures Valid()
      ensures State() == old(State()).WithGrid(BuyAll(env, g, old(State().GridAcct()), levels, now, barIndex))
      ensures pos == old(pos)
    {
      hide GridEngine.Buy;
      for k := 0 to |levels|
        invariant Valid() && pos == old(pos)
        invariant State() == old(State()).WithGrid(State().GridAcct())
        invariant BuyAll(env, g, State().GridAcct(), levels[k..], now, barIndex) ==
                  BuyAll(env, g, old(State().GridAcct()), levels, now, barIndex)
      {
        assert levels[k..][1..] == levels[k + 1..];
        if levels[k] !in gridFilled {
          BuyLevel(g, levels[k], now);
        } else {
          BuyHeld(env, g, State().GridAcct(), levels[k], now, barIndex);
        }
      }
    }

    method BuyLevel(g: GridConfig, level: real, now: int)
      requires Valid() && env.spec.kind == Grid(g) && 0.0 < level && level !in gridFilled
      modifies this
      ensures Valid()
      ensures State() == old(State()).WithGrid(GridEngine.Buy(env, g, old(State().GridAcct()), level, now, barIndex))
      ensures pos == old(pos)
    {
      hide Slip, PerLevelNotional;
      BuyPricePositive(env, level);
      ghost var r := GridEngine.Buy(env, g, State().GridAcct(), level, now, barIndex);
      var px := Slip(env.config, level, false);
      var size := PerLevelNotional(env, g) / px;
      var fee := px * size * env.spec.taker;
      cash := cash - (px * size + fee);
      feesPaid := feesPaid + fee;
      gridFilled := gridFilled[level := size];
      if level !in gridEntries {
        gridEntries := gridEntries[level := GridEntry(now, px, fee, barIndex)];
      }
      assert r.filled[level] == size;
      assert r.entries[level].fee == fee;
      assert r.cash == cash && r.feesPaid == feesPaid;
    }

    method SellTargets(g: GridConfig, close: real, now: int)
      requires Valid() && env.spec.kind == Grid(g)
      modifies this
      ensures Valid()
      ensures State()
          == old(State()).WithGrid(GridEngine.SellTargets(env, g, old(State().GridAcct()), close, now, barIndex))
      ensures pos == old(pos)
    {
      hide GridEngine.Sell, Slip, Sorted, AllHeld, GridTarget, GridLevels;
      var rest := Sorted(gridFilled.Keys);
      ghost var keys := rest;
      SortedHeld(State().GridAcct());
      while rest != []
        invariant Valid() && pos == old(pos) && AllHeld(State().GridAcct(), rest)
        invariant State() == old(State()).WithGrid(State().GridAcct())
        invariant SellReached(env, g, State().GridAcct(), rest, close, now, barIndex) ==
                  SellReached(env, g, old(State().GridAcct()), keys, close, now, barIndex)
        decreases |rest|
      {
        var level := rest[0];
        ghost var b := State().GridAcct();
        FirstHeld(b, rest);
        if Reached(GridLevels(g), level, close) {
          SellLot(level, Slip(env.config, GridTarget(GridLevels(g), level).value, true), now, TakeProfit);
        }
        StillHeld(b, State().GridAcct(), rest);
        rest := rest[1..];
      }
    }

    method SellLot(level: real, px: real, now: int, reason: ExitReason)
      requires Valid() && level in gridFilled
      modifies this
      ensures Valid()
      ensures State()
          == old(State()).WithGrid(GridEngine.Sell(env, old(State().GridAcct()), level, px, now, barIndex, reason))
      ensures pos == old(pos)
    {
      hide LotSold;
      var size := gridFilled[level];
      var t := LotSold(env, size, gridEntries[level], px, now, barIndex, reason);
      gridFilled := gridFilled - {level};
      gridEntries := gridEntries - {level};
      var exitFee := px * size * env.spec.taker;
      cash := cash + (px * size - exitFee);
      feesPaid := feesPaid + exitFee;
      realized := realized + t.pnl;
      trades := trades + [t];
    }

    method ApplyPendingDca(d: DCAConfig, bar: OHLCVBar)
      requires Valid() && env.spec.kind == Dca(d) && 0.0 < bar.open
      modifies this
      ensures State()
          == old(State()).WithDca(AfterDcaBar(env, d, old(State().DcaAcct()), old(pending.dcaBuy), bar, barIndex))
      ensures pos == old(pos)
    {
      hide PurchaseFee, PurchasedQty;
      var capped := d.maxPurchases.Some? && dca.purchases >= d.maxPurchases.value;
      if pending.dcaBuy && !capped {
        var spend := if d.amountQuote <= cash then d.amountQuote else cash;
        if spend > 0.0 {
          var fee := PurchaseFee(env, spend);
          dca := dca.(base := dca.base + PurchasedQty(env, spend, bar.open), costBasis := dca.costBasis + spend,
                      fees := dca.fees + fee, purchases := dca.purchases + 1,
                      firstEntry := if dca.firstEntry.None? then Some(bar.time) else dca.firstEntry,
                      firstIdx := if dca.firstEntry.None? then barIndex else dca.firstIdx);
          feesPaid := feesPaid + fee;
          cash := cash - spend;
        }
      }
    }

    /** Closes any open inventory at the last mark. It does nothing before the first bar and on a flat account. */
    method ForceClose() returns (ok: bool)
      requires Valid()
      modifies this
      ensures ok == ForceClosed(env, old(State())).Done?
      ensures State() == ForceClosed(env, old(State())).state
      ensures pos == null || pos == old(pos)
    {
      hide PaperClose, GridLiquidated, DcaLiquidated;
      ok := true;
      if mark.None? || lastBarTime.None? {
        return;
      }
      var last := OHLCVBar(lastBarTime.value, 0.0, 0.0, 0.0, mark.value, 0.0);
      if pos != null {
        ok := Close(last.close, last.time, EndOfData);
        if !ok {
          return;
        }
        ClosedKeepsBooks(env, old(State()), last.close, last.time, EndOfData);
      }
      match env.spec.kind {
        case Rule =>
        case Grid(_) => SellRemaining(last);
        case Dca(_) => SellAccumulated(last);
      }
    }

    static lemma ClosedKeepsBooks(env: Env, st: PaperState, px: real, now: int, reason: ExitReason)
      requires st.pos.Some? && st.Valid()
      ensures var r := PaperClose(env, st, px, now, reason).state;
        r.Valid() && r.filled == st.filled && r.entries == st.entries && r.barIndex == st.barIndex
    {
    }

    method SellAccumulated(last: OHLCVBar)
      requires Valid()
      modifies this
      ensures State() == old(State()).WithDca(DcaLiquidated(env, old(State().DcaAcct()), last, barIndex))
      ensures pos == old(pos)
    {
      hide DcaSold, Proceeds, ExitFee;
      if dca.base > 0.0 {
        var t := DcaSold(env, dca.firstEntry.value, dca.firstIdx, dca.base, dca.costBasis, dca.fees, last, barIndex);
        cash := cash + Proceeds(env, dca.base, last.close);
        feesPaid := feesPaid + ExitFee(env, dca.base, last.close);
        realized := realized + t.pnl;
        trades := trades + [t];
        dca := dca.(base := 0.0);
      }
    }

    method SellRemaining(last: OHLCVBar)
      requires Valid()
      modifies this
      ensures Valid()
      ensures State() == old(State()).WithGrid(GridLiquidated(env, old(State().GridAcct()), last, barIndex))
      ensures pos == old(pos)
    {
      hide GridEngine.Sell, Slip, Sorted, AllHeld;
      var rest := Sorted(gridFilled.Keys);
      ghost var keys := rest;
      SortedHeld(State().GridAcct());
      while rest != []
        invariant Valid() && pos == old(pos) && AllHeld(State().GridAcct(), rest)
        invariant State() == old(State()).WithGrid(State().GridAcct())
        invariant SellAll(env, State().GridAcct(), rest, last.close, last.time, barIndex) ==
                  SellAll(env, old(State().GridAcct()), keys, last.close, last.time, barIndex)
        decreases |rest|
      {
        ghost var b := State().GridAcct();
        FirstHeld(b, rest);
        SellLot(rest[0], Slip(env.config, last.close, true), last.time, EndOfData);
        StillHeld(b, State().GridAcct(), rest);
        rest := rest[1..];
      }
    }

    /** The mark-to-market equity of the portfolio snapshot. */
    function PortfolioEquity(): real
      reads this, pos
    {
      PortfolioOf(env, State())
    }

    /** The realized and unrealized pnl of the session. */
    function Pnl(): PnLBreakdown
      reads this, pos
    {
      PnlOf(State())
    }

    /** Relabels a resting order as canceled; returns whether there was one. */
    method Cancel(orderId: nat) returns (canceled: bool)
      modifies this`orders
      ensures State() == old(State()).(orders := Relabeled(old(orders), orderId))
      ensures canceled <==> exists i | 0 <= i < |old(orders)| :: Resting(old(orders)[i], orderId)
    {
      hide Relabeled;
      for i := 0 to |orders|
        invariant orders == old(orders)
        invariant forall j | 0 <= j < i :: !Resting(orders[j], orderId)
      {
        if Resting(orders[i], orderId) {
          RelabeledAt(orders, orderId, i);
          orders := orders[i := orders[i].(status := Canceled)];
          return true;
        }
      }
      RelabeledAt(orders, orderId, |orders|);
      canceled := false;
    }

    /** Folds the cumulative `fills` of an order into its record. */
    method ApplyFills(orderId: nat, fills: seq<Fill>) returns (updated: Option<OrderRecord>)
      modifies this`orders
      ensures State() == old(State()).(orders := Reconciled(old(orders), orderId, fills))
      ensures updated.None? <==> forall i | 0 <= i < |old(orders)| :: old(orders)[i].id != orderId
    {
      hide Reconciled, WithFills;
      for i := 0 to |orders|
        invariant orders == old(orders)
        invariant forall j | 0 <= j < i :: orders[j].id != orderId
      {
        if orders[i].id == orderId {
          ReconciledAt(orders, orderId, fills, i);
          var r := WithFills(orders[i], fills);
          orders := orders[i := r];
          return Some(r);
        }
      }
      ReconciledAt(orders, orderId, fills, |orders|);
      updated := None;
    }
  }
}

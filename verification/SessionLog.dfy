/** The order log of a rule session: what it acknowledges, and what it says of the trades. */
module SessionLog {
  import opened Domain
  import opened RealArithmetic
  import opened FillModel
  import opened Fills
  import opened RuleEngine
  import opened PaperModel
  import opened LiveSession

  /** The records of executed closes, in order; an acknowledged intent stays open. */
  function Executions(orders: seq<OrderRecord>): seq<OrderRecord> {
    if orders == [] then [] else
      var before, o := Executions(orders[..|orders| - 1]), orders[|orders| - 1];
      if o.status.Filled? then before + [o] else before
  }

  /** `o` is the close of `t`: the whole size, on the other side, at the exit price, with the taker fee on it. */
  ghost predicate ClosesTrade(env: Env, o: OrderRecord, t: Trade) {
    && o.side == (if t.side.Long? then Sell else Buy) && o.kind.Market?
    && o.amount == t.size && o.filled == t.size && o.remaining == 0.0
    && o.average.Some? && o.average.value == t.exitPrice
    && o.fee == Product(Product(t.exitPrice, t.size), env.spec.taker)
    && o.reason == match t.exitReason
                   case StopLoss => OnStopLoss
                   case TakeProfit => OnTakeProfit
                   case _ => OnSignal
  }

  ghost predicate LogsTrades(env: Env, log: seq<OrderRecord>, ts: seq<Trade>) {
    |log| == |ts| && forall k | 0 <= k < |log| :: ClosesTrade(env, log[k], ts[k])
  }

  /** The ids count up from one. */
  ghost predicate Numbered(st: PaperState) {
    && st.nextOrder == |st.orders| + 1
    && forall i | 0 <= i < |st.orders| :: st.orders[i].id == i + 1
  }

  ghost predicate Logged(env: Env, st: PaperState) {
    LogsTrades(env, Executions(st.orders), st.trades) && Numbered(st)
  }

  lemma OneMoreRecord(orders: seq<OrderRecord>, o: OrderRecord)
    ensures Executions(orders + [o]) == if o.status.Filled? then Executions(orders) + [o] else Executions(orders)
  {
    assert (orders + [o])[..|orders|] == orders;
  }

  lemma SubmittedLogged(env: Env, st: PaperState, i: OrderIntent)
    requires Logged(env, st)
    ensures Logged(env, Submitted(st, i))
  {
    OneMoreRecord(st.orders, Acknowledged(st.nextOrder, i));
    hide Executions, LogsTrades, Flagged;
  }

  lemma {:induction false} AllSubmittedLogged(env: Env, st: PaperState, intents: seq<OrderIntent>)
    requires Logged(env, st)
    ensures Logged(env, SubmitAll(st, intents))
    decreases |intents|
  {
    hide Logged, Submitted;
    if intents != [] {
      SubmittedLogged(env, st, intents[0]);
      AllSubmittedLogged(env, Submitted(st, intents[0]), intents[1..]);
    }
  }

  lemma RecordCloses(env: Env, p: Position, px: real, now: int, reason: ExitReason, id: nat)
    requires ExitFill(env, Closed(env, p, px, now, reason)).Valid()
    ensures var t := Closed(env, p, px, now, reason);
      var o := FillRecord(id, if p.side.Long? then Sell else Buy, p.size, [ExitFill(env, t)], FillReason(reason));
      ClosesTrade(env, o, t) && o.status.Filled? && o.id == id
  {
    AtomicFill(ExitFill(env, Closed(env, p, px, now, reason)));
    hide AggregateFills, Gross, PnlPct;
  }

  lemma TradesLogged(env: Env, log: seq<OrderRecord>, ts: seq<Trade>, o: OrderRecord, t: Trade)
    requires LogsTrades(env, log, ts) && ClosesTrade(env, o, t)
    ensures LogsTrades(env, log + [o], ts + [t])
  {
    hide ClosesTrade;
  }

  /** A close that does not raise appends its trade and its record. */
  lemma CloseLogged(env: Env, st: PaperState, px: real, now: int, reason: ExitReason)
    requires st.pos.Some? && Logged(env, st) && PaperClose(env, st, px, now, reason).Done?
    ensures Logged(env, PaperClose(env, st, px, now, reason).state)
  {
    var p := st.pos.value;
    var t := Closed(env, p, px, now, reason);
    RecordCloses(env, p, px, now, reason, st.nextOrder);
    var o := FillRecord(st.nextOrder, if p.side.Long? then Sell else Buy, p.size, [ExitFill(env, t)],
                        FillReason(reason));
    OneMoreRecord(st.orders, o);
    TradesLogged(env, Executions(st.orders), st.trades, o, t);
    hide Executions, LogsTrades, ClosesTrade, Closed, FillRecord, ExitFill, FillReason;
  }

  lemma PendingLogged(env: Env, st: PaperState, bar: OHLCVBar)
    requires Logged(env, st) && PendingRule(env, st, bar).Done?
    ensures Logged(env, PendingRule(env, st, bar).state)
  {
    hide Executions, LogsTrades, PaperClose, Slip, PendingClose;
    if st.pos.Some? && PendingClose(st) {
      CloseLogged(env, st, Slip(env.config, bar.open, st.pos.value.side.Long?), bar.time, Signal);
    }
  }

  lemma RiskLogged(env: Env, st: PaperState, bar: OHLCVBar)
    requires Logged(env, st) && RiskChecked(env, st, bar).Done?
    ensures Logged(env, RiskChecked(env, st, bar).state)
  {
    hide Logged, PaperClose, RiskExit;
    if st.pos.Some? && RiskExit(st.pos.value, bar.high, bar.low).Some? {
      var fill := RiskExit(st.pos.value, bar.high, bar.low).value;
      CloseLogged(env, st, fill.price, bar.time, fill.reason);
    }
  }

  lemma BarLogged(env: Env, st: PaperState, bar: OHLCVBar)
    requires env.spec.kind.Rule? && st.Valid() && Logged(env, st) && PaperBar(env, st, bar).Done?
    ensures Logged(env, PaperBar(env, st, bar).state)
  {
    hide Executions, LogsTrades, PendingRule, RiskChecked, Held;
    var arrived := Arrived(st, bar);
    PendingLogged(env, arrived, bar);
    RiskLogged(env, PendingRule(env, arrived, bar).state, bar);
  }

  lemma {:induction false} RunLogged(env: Env, bars: seq<OHLCVBar>, live: seq<BarSignal>, n: nat)
    requires env.spec.kind.Rule? && Feed(env, bars, live) && n <= |bars| && LiveRun(env, bars, live, n).Done?
    ensures Logged(env, LiveRun(env, bars, live, n).state)
  {
    hide Logged, PaperBar, SubmitAll, IntentsFor;
    if n == 0 {
      NothingLogged(env);
    } else {
      RunLogged(env, bars, live, n - 1);
      BarLogged(env, LiveRun(env, bars, live, n - 1).state, bars[n - 1]);
      AllSubmittedLogged(env, PaperBar(env, LiveRun(env, bars, live, n - 1).state, bars[n - 1]).state,
                         IntentsFor(env.spec, live[n - 1]));
    }
  }

  lemma NothingLogged(env: Env)
    ensures Logged(env, NewPaper(env))
  {
  }

  /**
   The order log of a completed session: its ids count up from one, and its executed records are the closes of the
   trades, one for each and in their order.
   */
  lemma SessionLogsTrades(env: Env, bars: seq<OHLCVBar>, live: seq<BarSignal>)
    requires env.spec.kind.Rule? && Feed(env, bars, live) && LiveFinal(env, bars, live).Done?
    ensures var st := LiveFinal(env, bars, live).state;
      && LogsTrades(env, Executions(st.orders), st.trades)
      && forall i | 0 <= i < |st.orders| :: st.orders[i].id == i + 1
  {
    RunLogged(env, bars, live, |bars|);
    var st := LiveRun(env, bars, live, |bars|).state;
    hide LiveRun, Executions, LogsTrades, PaperClose;
    if st.mark.Some? && st.lastTime.Some? && st.pos.Some? {
      CloseLogged(env, st, st.mark.value, st.lastTime.value, EndOfData);
    }
  }
}

/** Which sessions never raise, however their broker is called, and what one that does raise books twice. */
module SessionSafety {
  import opened Domain
  import opened RealArithmetic
  import opened FillModel
  import opened Fills
  import opened RuleEngine
  import opened DecisionTrace
  import opened PaperModel
  import opened LiveSession
  import opened RuleParity
  import opened Ledger
  import opened Fillability
  import opened Solvency

  /** Every bar the broker is given has positive prices. */
  ghost predicate PositiveBars(ops: seq<Op>) {
    forall i | 0 <= i < |ops| && ops[i].DoBar? :: PositivePrices(ops[i].bar)
  }

  /** No intent asks to enter short. */
  ghost predicate NoShortEntry(ops: seq<Op>) {
    forall i | 0 <= i < |ops| && ops[i].DoSubmit? :: !Flagged(NOTHING_PENDING, ops[i].intent).enterShort
  }

  ghost predicate MarkedPositive(st: PaperState) {
    st.mark.Some? ==> 0.0 < st.mark.value
  }

  /** No call of the sequence raises. */
  ghost predicate NeverRaises(env: Env, ops: seq<Op>)
    requires env.spec.kind.Rule?
  {
    forall n: nat | n < |ops| :: Apply(env, After(env, ops[..n]), ops[n]).Done?
  }

  lemma {:induction false} NothingLost(env: Env, ops: seq<Op>)
    requires env.spec.kind.Rule? && NeverRaises(env, ops)
    ensures LostFees(env, ops) == 0.0
    decreases |ops|
  {
    if ops != [] {
      var before := ops[..|ops| - 1];
      forall n: nat | n < |before|
        ensures Apply(env, After(env, before[..n]), before[n]).Done?
      {
        assert before[..n] == ops[..n] && before[n] == ops[n];
      }
      NothingLost(env, before);
      assert Apply(env, After(env, before), ops[|before|]).Done?;
      hide After, Apply;
    }
  }

  // ---- fixed sizes ----

  ghost predicate FixedSafe(env: Env, st: PaperState) {
    st.Valid() && Sized(env, st.Acct()) && AllFillable(st.trades) && MarkedPositive(st)
  }

  lemma FixedBarSafe(env: Env, st: PaperState, bar: OHLCVBar)
    requires env.spec.kind.Rule? && !env.spec.sizingMode.PercentEquity? && env.config.slippagePct < 100.0
    requires PositivePrices(bar) && FixedSafe(env, st)
    ensures PaperBar(env, st, bar).Done? && FixedSafe(env, PaperBar(env, st, bar).state)
  {
    var a, d := st.Acct(), PendingDecision(st);
    var b := AfterDecision(env, a, d, bar);
    hide PendingDecision, AfterDecision, Sized, PaperBar, PaperState.Valid;
    BarFollows(env, st, bar);
    FixedDecisionSized(env, a, d, bar);
    BarFillable(env, a, d, bar);
    RiskKeepsSized(env, b, bar);
    HoldKeepsSized(env, AfterRisk(env, b, bar), bar);
    BarKeepsValid(env, st, bar);
    hide AfterRisk, AfterHold;
  }

  lemma CloseSafe(env: Env, st: PaperState)
    requires env.spec.kind.Rule? && st.Valid() && Sized(env, st.Acct()) && AllFillable(st.trades) && MarkedPositive(st)
    ensures var o := ForceClosed(env, st);
      && o.Done? && o.state.mark == st.mark && o.state.pending == st.pending
      && (o.state.Acct() == st.Acct()
          || (st.pos.Some? && st.mark.Some? && st.lastTime.Some?
              && o.state.Acct() == CloseAt(env, st.Acct(), st.mark.value, st.lastTime.value, EndOfData)))
  {
    if st.mark.Some? && st.lastTime.Some? && st.pos.Some? {
      CloseFollows(env, st, st.mark.value, st.lastTime.value, EndOfData);
      CloseFillable(env, st.Acct(), st.mark.value, st.lastTime.value, EndOfData);
      assert PaperClose(env, st, st.mark.value, st.lastTime.value, EndOfData).state.mark == st.mark;
      hide PaperClose, CloseAt;
    }
  }

  lemma FixedOpSafe(env: Env, st: PaperState, op: Op)
    requires env.spec.kind.Rule? && !env.spec.sizingMode.PercentEquity? && env.config.slippagePct < 100.0
    requires (op.DoBar? ==> PositivePrices(op.bar)) && FixedSafe(env, st)
    ensures Apply(env, st, op).Done? && FixedSafe(env, Apply(env, st, op).state)
  {
    ApplyKeepsValid(env, st, op);
    match op
    case DoSubmit(i) => assert Submitted(st, i).Acct() == st.Acct();
    case DoBar(bar) =>
      hide PaperBar, FixedSafe;
      FixedBarSafe(env, st, bar);
    case DoCancel(_) =>
    case DoFills(_, _) =>
    case DoForceClose =>
      hide ForceClosed;
      CloseSafe(env, st);
      if st.pos.Some? && st.mark.Some? && st.lastTime.Some? {
        CloseFillable(env, st.Acct(), st.mark.value, st.lastTime.value, EndOfData);
      }
  }

  lemma {:induction false} FixedAlwaysSafe(env: Env, ops: seq<Op>)
    requires env.spec.kind.Rule? && !env.spec.sizingMode.PercentEquity? && env.config.slippagePct < 100.0
    requires PositiveBars(ops)
    ensures FixedSafe(env, After(env, ops))
    decreases |ops|
  {
    hide Apply, FixedSafe;
    if ops == [] {
      StartSafe(env);
    } else {
      FixedAlwaysSafe(env, ops[..|ops| - 1]);
      FixedOpSafe(env, After(env, ops[..|ops| - 1]), ops[|ops| - 1]);
    }
  }

  lemma StartSafe(env: Env)
    ensures FixedSafe(env, NewPaper(env))
  {
  }

  /**
   With fixed quote or base sizing no call ever raises, in whatever order the broker is called, and the fees agree.
   */
  lemma FixedSizeNeverRaises(env: Env, ops: seq<Op>)
    requires env.spec.kind.Rule? && !env.spec.sizingMode.PercentEquity? && env.config.slippagePct < 100.0
    requires PositiveBars(ops)
    ensures NeverRaises(env, ops) && LostFees(env, ops) == 0.0
  {
    hide Apply, FixedSafe;
    forall n: nat | n < |ops|
      ensures Apply(env, After(env, ops[..n]), ops[n]).Done?
    {
      FixedAlwaysSafe(env, ops[..n]);
      FixedOpSafe(env, After(env, ops[..n]), ops[n]);
    }
    NothingLost(env, ops);
  }

  // ---- long-only specs without funding that never outspend their cash ----

  ghost predicate SolventSafe(env: Env, st: PaperState) {
    st.Valid() && Solvent(env, st.Acct()) && AllFillable(st.trades) && MarkedPositive(st) && !st.pending.enterShort
  }

  lemma SolventBarSafe(env: Env, st: PaperState, bar: OHLCVBar)
    requires env.spec.kind.Rule? && UnfundedPercent(env) && Thrifty(env) && env.config.slippagePct < 100.0
    requires PositivePrices(bar) && SolventSafe(env, st)
    ensures PaperBar(env, st, bar).Done? && SolventSafe(env, PaperBar(env, st, bar).state)
  {
    var a, d := st.Acct(), PendingDecision(st);
    assert d.open != Some(Short) && Outlay(env) <= 1.0;
    hide PendingDecision, AfterDecision, Sized, Solvent, PaperBar, Thrifty, Outlay, PaperState.Valid, AfterBar;
    BarFollows(env, st, bar);
    DecisionKeepsSolvent(env, a, d, bar);
    SolventIsSized(env, a);
    SolventIsSized(env, AfterDecision(env, a, d, bar));
    BarFillable(env, a, d, bar);
    BarKeepsSolvent(env, a, d, bar);
    BarKeepsValid(env, st, bar);
  }

  lemma SolventOpSafe(env: Env, st: PaperState, op: Op)
    requires env.spec.kind.Rule? && UnfundedPercent(env) && Thrifty(env) && env.config.slippagePct < 100.0
    requires op.DoBar? ==> PositivePrices(op.bar)
    requires op.DoSubmit? ==> !Flagged(NOTHING_PENDING, op.intent).enterShort
    requires SolventSafe(env, st)
    ensures Apply(env, st, op).Done? && SolventSafe(env, Apply(env, st, op).state)
  {
    ApplyKeepsValid(env, st, op);
    assert Outlay(env) <= 1.0;
    hide Thrifty, Solvent, Outlay, Sized;
    match op
    case DoSubmit(i) => assert Submitted(st, i).Acct() == st.Acct();
    case DoBar(bar) =>
      hide PaperBar, SolventSafe;
      SolventBarSafe(env, st, bar);
    case DoCancel(id) => assert st.(orders := Relabeled(st.orders, id)).Acct() == st.Acct();
    case DoFills(id, fills) => assert st.(orders := Reconciled(st.orders, id, fills)).Acct() == st.Acct();
    case DoForceClose =>
      hide ForceClosed, CloseAt;
      SolventIsSized(env, st.Acct());
      CloseSafe(env, st);
      if st.pos.Some? && st.mark.Some? && st.lastTime.Some? {
        CloseFillable(env, st.Acct(), st.mark.value, st.lastTime.value, EndOfData);
        SaleKeepsSolvent(env, st.Acct(), st.mark.value, st.lastTime.value, EndOfData);
      }
  }

  lemma {:induction false} SolventAlwaysSafe(env: Env, ops: seq<Op>)
    requires env.spec.kind.Rule? && UnfundedPercent(env) && Thrifty(env) && env.config.slippagePct < 100.0
    requires PositiveBars(ops) && NoShortEntry(ops)
    ensures SolventSafe(env, After(env, ops))
    decreases |ops|
  {
    if ops == [] {
      hide Thrifty;
      StartSafe(env);
    } else {
      hide Apply, SolventSafe, Thrifty, Flagged;
      SolventAlwaysSafe(env, ops[..|ops| - 1]);
      SolventOpSafe(env, After(env, ops[..|ops| - 1]), ops[|ops| - 1]);
    }
  }

  /** Nor does one of a broker without funding that never outspends its cash and is never asked to enter short. */
  lemma SolventNeverRaises(env: Env, ops: seq<Op>)
    requires env.spec.kind.Rule? && UnfundedPercent(env) && Thrifty(env) && env.config.slippagePct < 100.0
    requires PositiveBars(ops) && NoShortEntry(ops)
    ensures NeverRaises(env, ops) && LostFees(env, ops) == 0.0
  {
    hide Apply, SolventSafe, Thrifty, Flagged;
    forall n: nat | n < |ops|
      ensures Apply(env, After(env, ops[..n]), ops[n]).Done?
    {
      SolventAlwaysSafe(env, ops[..n]);
      SolventOpSafe(env, After(env, ops[..n]), ops[n]);
    }
    NothingLost(env, ops);
  }

  // ---- a session that raises ----

  const ENTER := DoSubmit(MarketOrder(Buy, false, OnSignal))

  const LEAVE := DoSubmit(MarketOrder(Sell, true, OnSignal))

  function BuyThenLeave(bar: OHLCVBar): seq<Op> {
    [ENTER, DoBar(bar), LEAVE]
  }

  function RaisingExit(bar: OHLCVBar, next: OHLCVBar): seq<Op> {
    BuyThenLeave(bar) + [DoBar(next)]
  }

  /** Bought at one bar's open, its exit at the next bar's open raising; the session is then stopped. */
  function ExitThenStop(bar: OHLCVBar, next: OHLCVBar): seq<Op> {
    RaisingExit(bar, next) + [DoForceClose]
  }

  ghost predicate NoWayOut(env: Env) {
    && env.spec.kind.Rule? && env.config.slippagePct == 100.0
    && env.spec.stopLossPct.None? && env.spec.takeProfitPct.None?
  }

  lemma {:induction false} AfterNext(env: Env, ops: seq<Op>, op: Op)
    requires env.spec.kind.Rule?
    ensures After(env, ops + [op]) == Apply(env, After(env, ops), op).state
    ensures LostFees(env, ops + [op]) == LostFees(env, ops) + LostFee(Apply(env, After(env, ops), op))
  {
    assert (ops + [op])[..|ops|] == ops;
    hide Apply;
  }

  lemma EntrySized(env: Env, equity: real, bar: OHLCVBar)
    requires 0.0 < equity && PositivePrices(bar)
    ensures var p := Opened(env, Long, equity, bar.open, bar.time); 0.0 < p.size && 0.0 < p.entryPrice
  {
    BuyPricePositive(env, bar.open);
    TargetSizePositive(env.spec, equity, Slip(env.config, bar.open, false));
    hide Slip, TargetSize;
  }

  /** Bought and held, at no level that a later bar could reach, with the exit submitted. */
  ghost predicate Leaving(env: Env, st: PaperState, bar: OHLCVBar) {
    && st.pending.exit && st.trades == [] && st.pos.Some?
    && var p := st.pos.value;
      && p.side.Long? && p.entryTime == bar.time && 0.0 < p.size && 0.0 < p.entryPrice
      && p.stopPrice.None? && p.takePrice.None? && p.entryFee == p.entryPrice * p.size * env.spec.taker
  }

  lemma EntryBar(env: Env, st: PaperState, bar: OHLCVBar)
    requires NoWayOut(env) && PositivePrices(bar)
    requires st == Submitted(NewPaper(env), ENTER.intent)
    ensures var o := PaperBar(env, st, bar); o.Done? && Leaving(env, Submitted(o.state, LEAVE.intent), bar)
  {
    EntrySized(env, env.config.initialCash, bar);
    var p := Opened(env, Long, env.config.initialCash, bar.open, bar.time);
    HoldKeepsIdentity(env, Account(0.0, Some(p), [], 0.0, 0.0, 0.0), bar);
    hide Held, TargetSize, Slip;
  }

  lemma AfterEntry(env: Env, bar: OHLCVBar)
    requires NoWayOut(env) && PositivePrices(bar)
    ensures Leaving(env, After(env, BuyThenLeave(bar)), bar) && LostFees(env, BuyThenLeave(bar)) == 0.0
  {
    assert [] + [ENTER] == [ENTER];
    assert [ENTER] + [DoBar(bar)] == [ENTER, DoBar(bar)];
    assert [ENTER, DoBar(bar)] + [LEAVE] == [ENTER, DoBar(bar), LEAVE];
    hide After, LostFees, PaperBar, Leaving, NoWayOut;
    AfterNext(env, [], ENTER);
    AfterNext(env, [ENTER], DoBar(bar));
    AfterNext(env, [ENTER, DoBar(bar)], LEAVE);
    assert After(env, []) == NewPaper(env) && LostFees(env, []) == 0.0 by { AfterNothing(env); }
    EntryBar(env, Submitted(NewPaper(env), ENTER.intent), bar);
  }

  lemma AfterNothing(env: Env)
    requires env.spec.kind.Rule?
    ensures After(env, []) == NewPaper(env) && LostFees(env, []) == 0.0
  {
  }

  /** The exit that raises: booked at a price of zero, the position kept. */
  lemma ExitRaises(env: Env, st: PaperState, bar: OHLCVBar, next: OHLCVBar)
    requires NoWayOut(env) && st.Valid() && Leaving(env, st, bar)
    ensures var o := PaperBar(env, st, next);
      && o.Raised? && o.state.pos == st.pos && o.state.mark == Some(next.close) && o.state.lastTime == Some(next.time)
      && o.state.trades == [Closed(env, st.pos.value, 0.0, next.time, Signal)]
  {
    assert Slip(env.config, next.open, true) == 0.0;
    hide Slip, Gross, PnlPct;
  }

  lemma StopBooksAgain(env: Env, st: PaperState)
    requires env.spec.kind.Rule? && st.Valid() && st.pos.Some? && st.mark.Some? && st.lastTime.Some?
    requires 0.0 < st.mark.value && 0.0 < st.pos.value.size
    ensures var o := ForceClosed(env, st);
      && o.Done? && o.state.pos.None?
      && o.state.trades == st.trades + [Closed(env, st.pos.value, st.mark.value, st.lastTime.value, EndOfData)]
  {
    CloseFollows(env, st, st.mark.value, st.lastTime.value, EndOfData);
    CloseEmpties(env, st, st.mark.value, st.lastTime.value, EndOfData);
    hide PaperClose, Closed;
  }

  lemma LeavingMeans(env: Env, st: PaperState, bar: OHLCVBar)
    requires Leaving(env, st, bar)
    ensures st.trades == [] && st.pos.Some? && st.pos.value.entryTime == bar.time
    ensures 0.0 < st.pos.value.size && 0.0 < st.pos.value.entryPrice
    ensures st.pos.value.entryFee == st.pos.value.entryPrice * st.pos.value.size * env.spec.taker
  {
  }

  lemma RaisesIn(env: Env, ops: seq<Op>, op: Op, more: seq<Op>)
    requires env.spec.kind.Rule? && Apply(env, After(env, ops), op).Raised?
    ensures !NeverRaises(env, ops + [op] + more)
  {
    var all := ops + [op] + more;
    assert all[..|ops|] == ops && all[|ops|] == op;
    hide After, Apply;
  }

  lemma FeePositive(price: real, size: real, taker: real)
    requires 0.0 < price && 0.0 < size
    ensures 0.0 < taker ==> 0.0 < price * size * taker
  {
    MulPositive(price, size);
    if 0.0 < taker { MulPositive(price * size, taker); }
  }

  lemma TwiceClosed(env: Env, p: Position, next: OHLCVBar)
    requires 0.0 < p.size && 0.0 < p.entryPrice && p.entryFee == p.entryPrice * p.size * env.spec.taker
    ensures var a, b := Closed(env, p, 0.0, next.time, Signal), Closed(env, p, next.close, next.time, EndOfData);
      && [a] + [b] == [a, b]
      && a.entryTime == b.entryTime == p.entryTime && a.entryPrice == b.entryPrice == p.entryPrice
      && a.size == b.size == p.size && a.exitPrice == 0.0 && b.exitPrice == next.close
      && a.feesPaid == p.entryFee && (0.0 < env.spec.taker ==> 0.0 < a.feesPaid)
      && a.exitReason == Signal && b.exitReason == EndOfData
  {
    FeePositive(p.entryPrice, p.size, env.spec.taker);
    assert 0.0 * p.size * env.spec.taker == 0.0;
    hide Gross, PnlPct;
  }

  /** The position of that session, and the two trades it becomes. */
  lemma TwoTrades(env: Env, bar: OHLCVBar, next: OHLCVBar) returns (p: Position)
    requires NoWayOut(env) && PositivePrices(bar) && PositivePrices(next)
    ensures p.entryTime == bar.time && 0.0 < p.size && 0.0 < p.entryPrice
    ensures p.entryFee == p.entryPrice * p.size * env.spec.taker
    ensures var ops := ExitThenStop(bar, next);
      && !NeverRaises(env, ops) && After(env, ops).pos.None? && LostFees(env, ops) == p.entryFee
      && After(env, ops).trades == [Closed(env, p, 0.0, next.time, Signal)]
        + [Closed(env, p, next.close, next.time, EndOfData)]
  {
    hide After, LostFees, PaperBar, ForceClosed, Leaving, Closed, NeverRaises, BuyThenLeave;
    hide PaperState.Valid;
    AfterEntry(env, bar);
    var st := After(env, BuyThenLeave(bar));
    LeavingMeans(env, st, bar);
    p := st.pos.value;
    ExitRaises(env, st, bar, next);
    AfterNext(env, BuyThenLeave(bar), DoBar(next));
    RaisesIn(env, BuyThenLeave(bar), DoBar(next), [DoForceClose]);
    StopBooksAgain(env, After(env, RaisingExit(bar, next)));
    AfterNext(env, RaisingExit(bar, next), DoForceClose);
  }

  /**
   At 100% slippage the exit of such a session raises, and stopping the session books the same entry a second time: two
   trades of one position, and a total of fees that is short of theirs by one entry fee.
   */
  lemma EntryBookedTwice(env: Env, bar: OHLCVBar, next: OHLCVBar)
    requires NoWayOut(env) && PositivePrices(bar) && PositivePrices(next)
    ensures var ops := ExitThenStop(bar, next);
      var st := After(env, ops);
      && !NeverRaises(env, ops)
      && |st.trades| == 2 && st.pos.None?
      && (forall i | 0 <= i < 2 :: var t := st.trades[i];
        t.entryTime == bar.time && t.entryPrice == st.trades[0].entryPrice && t.size == st.trades[0].size)
      && st.trades[0].exitPrice == 0.0 && st.trades[0].exitReason == Signal
      && st.trades[1].exitPrice == next.close && st.trades[1].exitReason == EndOfData
      && PnlOf(st).feesPaid == SumFees(st.trades) - st.trades[0].feesPaid
      && (0.0 < env.spec.taker ==> 0.0 < st.trades[0].feesPaid)
  {
    var p := TwoTrades(env, bar, next);
    hide After, LostFees, NoWayOut, Closed, ExitThenStop, NeverRaises, SumFees, SumPnl, SumFunding, PortfolioOf;
    PnlMatchesPortfolio(env, ExitThenStop(bar, next));
    TwiceClosed(env, p, next);
  }
}

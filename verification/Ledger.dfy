/** The books balance: cash, realized pnl, fees and funding always add up to what the recorded trades say. */
module Ledger {
  import opened Domain
  import opened Fills
  import opened FillModel
  import opened RuleEngine
  import opened DecisionTrace
  import opened GridEngine
  import opened PaperModel

  /** The entry fee of the position still open. */
  function OpenFee(pos: Option<Position>): real {
    if pos.Some? then pos.value.entryFee else 0.0
  }

  ghost predicate Balanced(env: Env, a: Account) {
    && a.cash == env.config.initialCash + SumPnl(a.trades)
    && a.realized == SumPnl(a.trades)
    && a.feesPaid == SumFees(a.trades) + OpenFee(a.pos)
    && a.fundingPaid == SumFunding(a.trades)
  }

  lemma CloseBalanced(env: Env, a: Account, px: real, now: int, reason: ExitReason)
    requires a.pos.Some? && Balanced(env, a)
    ensures Balanced(env, CloseAt(env, a, px, now, reason))
  {
    SumsSnoc(a.trades, Closed(env, a.pos.value, px, now, reason));
  }

  lemma DecisionBalanced(env: Env, a: Account, d: Decision, bar: OHLCVBar)
    requires Applicable(d, SideOf(a.pos)) && Balanced(env, a)
    ensures Balanced(env, AfterDecision(env, a, d, bar))
  {
    if d.close {
      CloseBalanced(env, a, Slip(env.config, bar.open, a.pos.value.side.Long?), bar.time, Signal);
    }
    hide CloseAt, Opened;
    assert AfterClose(env, a, d, bar).pos.None? ==> OpenFee(AfterClose(env, a, d, bar).pos) == 0.0;
  }

  lemma BarBalanced(env: Env, a: Account, d: Decision, bar: OHLCVBar)
    requires Applicable(d, SideOf(a.pos)) && Balanced(env, a)
    ensures Balanced(env, AfterBar(env, a, d, bar))
  {
    DecisionBalanced(env, a, d, bar);
    hide AfterDecision, CloseAt;
    var b := AfterDecision(env, a, d, bar);
    if b.pos.Some? && RiskExit(b.pos.value, bar.high, bar.low).Some? {
      var fill := RiskExit(b.pos.value, bar.high, bar.low).value;
      CloseBalanced(env, b, fill.price, bar.time, fill.reason);
    }
    HoldKeepsIdentity(env, AfterRisk(env, b, bar), bar);
  }

  /** Closing at a price leaves the equity marked at that price, less the exit fee. */
  lemma CloseRealizesMark(env: Env, a: Account, px: real, now: int, reason: ExitReason)
    requires a.pos.Some?
    ensures CloseAt(env, a, px, now, reason).cash == Equity(a.cash, a.pos, px) - px * a.pos.value.size * env.spec.taker
  {
    hide Gross, PnlPct;
  }

  /** Every account a rule run reaches is balanced. */
  lemma {:induction false} RunBalanced(env: Env, bars: seq<OHLCVBar>, drv: Driver, n: nat)
    requires n <= |bars| == |drv.signals|
    ensures Balanced(env, Run(env, bars, drv, n))
  {
    if n > 0 {
      RunBalanced(env, bars, drv, n - 1);
      BarBalanced(env, Run(env, bars, drv, n - 1), DecisionAt(env, bars, drv, n - 1), bars[n - 1]);
    }
  }

  /** A rule backtest's last equity point is its initial cash plus the pnl of all its trades. */
  lemma RuleConservation(env: Env, bars: seq<OHLCVBar>, drv: Driver)
    requires 0 < |bars| == |drv.signals|
    ensures var f := Final(env, bars, drv);
      && Balanced(env, f) && f.pos.None?
      && Curve(env, bars, drv)[|bars| - 1] == env.config.initialCash + SumPnl(f.trades)
  {
    RunBalanced(env, bars, drv, |bars|);
    var a, last := Run(env, bars, drv, |bars|), bars[|bars| - 1];
    if a.pos.Some? {
      CloseBalanced(env, a, last.close, last.time, EndOfData);
    }
    hide Run;
  }

  // ---- every use of the paper broker ----

  /** What a caller can do with a session's broker. */
  datatype Op =
    | DoSubmit(intent: OrderIntent)
    | DoBar(bar: OHLCVBar)
    | DoCancel(id: nat)
    | DoFills(orderId: nat, fills: seq<Fill>)
    | DoForceClose

  function Apply(env: Env, st: PaperState, op: Op): Outcome
    requires st.Valid() && !env.spec.kind.Dca?
  {
    match op
    case DoSubmit(i) => Done(Submitted(st, i))
    case DoBar(bar) => PaperBar(env, st, bar)
    case DoCancel(id) => Done(st.(orders := Relabeled(st.orders, id)))
    case DoFills(id, fills) => Done(st.(orders := Reconciled(st.orders, id, fills)))
    case DoForceClose => ForceClosed(env, st)
  }

  // A call that raises leaves the broker as far as it got, and the session goes on using it.

  /** The books, once closes that raised have left entry fees worth `lost` counted once but booked in two trades. */
  ghost predicate Books(env: Env, st: PaperState, lost: real) {
    && st.Valid()
    && st.cash == env.config.initialCash + SumPnl(st.trades)
    && st.realized == SumPnl(st.trades)
    && st.feesPaid == SumFees(st.trades) + OpenFee(st.pos) - lost
    && st.fundingPaid == SumFunding(st.trades)
  }

  /** The entry fee of the position that a raising close books and keeps. */
  function LostFee(o: Outcome): real {
    if o.Raised? then OpenFee(o.state.pos) else 0.0
  }

  lemma CloseBooks(env: Env, st: PaperState, px: real, now: int, reason: ExitReason, lost: real)
    requires st.pos.Some? && Books(env, st, lost)
    ensures var o := PaperClose(env, st, px, now, reason); Books(env, o.state, lost + LostFee(o))
  {
    SumsSnoc(st.trades, Closed(env, st.pos.value, px, now, reason));
    hide Gross, PnlPct, FillRecord;
  }

  lemma PendingBooks(env: Env, st: PaperState, bar: OHLCVBar, lost: real)
    requires Books(env, st, lost)
    ensures var o := PendingRule(env, st, bar); Books(env, o.state, lost + LostFee(o))
  {
    hide PaperEquity, Opened, PaperClose, Slip;
    if st.pos.Some? && PendingClose(st) {
      var px := Slip(env.config, bar.open, st.pos.value.side.Long?);
      CloseBooks(env, st, px, bar.time, Signal, lost);
      CloseEmpties(env, st, px, bar.time, Signal);
    }
  }

  lemma CloseEmpties(env: Env, st: PaperState, px: real, now: int, reason: ExitReason)
    requires st.pos.Some?
    ensures var o := PaperClose(env, st, px, now, reason); o.Done? ==> o.state.pos.None?
  {
  }

  lemma RiskBooks(env: Env, st: PaperState, bar: OHLCVBar, lost: real)
    requires Books(env, st, lost)
    ensures var o := RiskChecked(env, st, bar); Books(env, o.state, lost + LostFee(o))
  {
    if st.pos.Some? && RiskExit(st.pos.value, bar.high, bar.low).Some? {
      var fill := RiskExit(st.pos.value, bar.high, bar.low).value;
      CloseBooks(env, st, fill.price, bar.time, fill.reason, lost);
    }
    hide PaperClose, Books;
  }

  lemma RestBooks(env: Env, st: PaperState, bar: OHLCVBar, lost: real)
    requires Books(env, st, lost)
    ensures Books(env, Rested(env, st, bar), lost)
  {
    HoldKeepsIdentity(env, st.Acct(), bar);
    hide Held;
  }

  lemma BarBooks(env: Env, st: PaperState, bar: OHLCVBar, lost: real)
    requires env.spec.kind.Rule? && Books(env, st, lost)
    ensures var o := PaperBar(env, st, bar); Books(env, o.state, lost + LostFee(o))
  {
    var at := Arrived(st, bar);
    assert Books(env, at, lost);
    hide Books, PendingRule, RiskChecked, Rested;
    PendingBooks(env, at, bar, lost);
    var entered := PendingRule(env, at, bar);
    if entered.Done? {
      RiskBooks(env, entered.state, bar, lost);
      var checked := RiskChecked(env, entered.state, bar);
      if checked.Done? { RestBooks(env, checked.state, bar, lost); }
    }
  }

  lemma OpBooks(env: Env, st: PaperState, op: Op, lost: real)
    requires env.spec.kind.Rule? && Books(env, st, lost)
    ensures var o := Apply(env, st, op); Books(env, o.state, lost + LostFee(o))
  {
    match op
    case DoSubmit(i) => assert Submitted(st, i).Valid();
    case DoBar(bar) =>
      hide PaperBar;
      BarBooks(env, st, bar, lost);
    case DoCancel(_) =>
    case DoFills(_, _) =>
    case DoForceClose =>
      if st.mark.Some? && st.lastTime.Some? && st.pos.Some? {
        CloseBooks(env, st, st.mark.value, st.lastTime.value, EndOfData, lost);
      }
      hide PaperClose;
  }

  /** The broker after a sequence of calls, those that raised among them. */
  function After(env: Env, ops: seq<Op>): (st: PaperState)
    requires env.spec.kind.Rule?
    ensures st.Valid()
    decreases |ops|
  {
    if ops == [] then NewPaper(env)
    else
      ApplyKeepsValid(env, After(env, ops[..|ops| - 1]), ops[|ops| - 1]);
      Apply(env, After(env, ops[..|ops| - 1]), ops[|ops| - 1]).state
  }

  lemma CloseKeepsValid(env: Env, st: PaperState, px: real, now: int, reason: ExitReason)
    requires st.pos.Some? && st.Valid()
    ensures PaperClose(env, st, px, now, reason).state.Valid()
  {
    hide CloseAt, FillRecord, ExitFill, Closed;
  }

  lemma PendingKeepsValid(env: Env, st: PaperState, bar: OHLCVBar)
    requires st.Valid()
    ensures PendingRule(env, st, bar).state.Valid()
  {
    hide PaperClose, Slip, PaperEquity, Opened;
    if st.pos.Some? && PendingClose(st) {
      CloseKeepsValid(env, st, Slip(env.config, bar.open, st.pos.value.side.Long?), bar.time, Signal);
    }
  }

  lemma RiskKeepsValid(env: Env, st: PaperState, bar: OHLCVBar)
    requires st.Valid()
    ensures RiskChecked(env, st, bar).state.Valid()
  {
    hide PaperClose;
    if st.pos.Some? && RiskExit(st.pos.value, bar.high, bar.low).Some? {
      var fill := RiskExit(st.pos.value, bar.high, bar.low).value;
      CloseKeepsValid(env, st, fill.price, bar.time, fill.reason);
    }
    hide RiskExit;
  }

  lemma ApplyKeepsValid(env: Env, st: PaperState, op: Op)
    requires env.spec.kind.Rule? && st.Valid()
    ensures Apply(env, st, op).state.Valid()
  {
    match op
    case DoSubmit(i) => assert Submitted(st, i).Valid();
    case DoBar(bar) =>
      var at := Arrived(st, bar);
      hide PendingRule, RiskChecked, Held;
      PendingKeepsValid(env, at, bar);
      if PendingRule(env, at, bar).Done? { RiskKeepsValid(env, PendingRule(env, at, bar).state, bar); }
    case DoForceClose =>
      hide PaperClose;
      if st.mark.Some? && st.lastTime.Some? && st.pos.Some? {
        CloseKeepsValid(env, st, st.mark.value, st.lastTime.value, EndOfData);
      }
    case _ =>
  }

  /** The entry fees of all closes that raised. */
  function LostFees(env: Env, ops: seq<Op>): real
    requires env.spec.kind.Rule?
    decreases |ops|
  {
    if ops == [] then 0.0
    else
      var before := ops[..|ops| - 1];
      LostFees(env, before) + LostFee(Apply(env, After(env, before), ops[|ops| - 1]))
  }

  lemma {:induction false} AlwaysBooks(env: Env, ops: seq<Op>)
    requires env.spec.kind.Rule?
    ensures Books(env, After(env, ops), LostFees(env, ops))
    decreases |ops|
  {
    if ops != [] {
      AlwaysBooks(env, ops[..|ops| - 1]);
      hide Books, Apply;
      OpBooks(env, After(env, ops[..|ops| - 1]), ops[|ops| - 1], LostFees(env, ops[..|ops| - 1]));
    }
  }

  /**
   However a rule session's broker is called, and whether or not calls raised, its realized pnl and funding are the
   sums over its trades and its total pnl is its equity minus its initial cash, marked or not. Its fees are those of
   the trades and of the open entry, less the entry fees of closes that raised, which two trades report and were paid
   once: so they are the sums exactly when those fees come to nothing.
   */
  lemma PnlMatchesPortfolio(env: Env, ops: seq<Op>)
    requires env.spec.kind.Rule?
    ensures var st := After(env, ops);
      var pnl := PnlOf(st);
      && st.cash == env.config.initialCash + SumPnl(st.trades)
      && pnl.realized == SumPnl(st.trades)
      && pnl.fundingPaid == SumFunding(st.trades)
      && pnl.total == PortfolioOf(env, st) - env.config.initialCash
      && pnl.feesPaid == SumFees(st.trades) + OpenFee(st.pos) - LostFees(env, ops)
      && (pnl.feesPaid == SumFees(st.trades) + OpenFee(st.pos) <==> LostFees(env, ops) == 0.0)
  {
    AlwaysBooks(env, ops);
    hide After, LostFees, Gross;
  }
}

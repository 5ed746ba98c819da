/** The books of a grid session balance however its broker is called. */
module GridSessionLedger {
  import opened Domain
  import opened GridEngine
  import opened PaperModel
  import opened Ledger
  import opened GridLedger
  import opened Sorting

  /** A grid session never holds a rule position, and its books balance. */
  ghost predicate GridBooks(env: Env, st: PaperState) {
    st.Valid() && st.pos.None? && GridBalanced(env, st.GridAcct())
  }

  lemma GridBarBalanced(env: Env, g: GridConfig, st: PaperState, bar: OHLCVBar)
    requires env.spec.kind == Grid(g) && GridBooks(env, st)
    ensures var o := PaperBar(env, st, bar); o.Done? && GridBooks(env, o.state)
  {
    var a, at := st.GridAcct(), Arrived(st, bar);
    BuyAllBalanced(env, g, a, st.pending.gridBuys, bar.time, at.barIndex);
    hide GridBalanced, BuyAll, SellReached;
    var b := BuyAll(env, g, a, st.pending.gridBuys, bar.time, at.barIndex);
    SortedHeld(b);
    SellReachedBalanced(env, g, b, Sorted(b.filled.Keys), bar.close, bar.time, at.barIndex);
    hide Sorted;
    assert at.GridAcct() == a;
    assert Executed(env, at, bar).state.GridAcct() == AfterGridBar(env, g, a, st.pending.gridBuys, bar, at.barIndex);
  }

  lemma GridForceCloseBalanced(env: Env, g: GridConfig, st: PaperState)
    requires env.spec.kind == Grid(g) && GridBooks(env, st)
    ensures var o := ForceClosed(env, st); o.Done? && GridBooks(env, o.state)
  {
    if st.mark.Some? && st.lastTime.Some? {
      var a := st.GridAcct();
      SortedHeld(a);
      SellAllBalanced(env, a, Sorted(a.filled.Keys), st.mark.value, st.lastTime.value, st.barIndex);
      hide GridBalanced, SellAll, Sorted;
    }
  }

  lemma GridOpBalanced(env: Env, g: GridConfig, st: PaperState, op: Op)
    requires env.spec.kind == Grid(g) && GridBooks(env, st)
    ensures var o := Apply(env, st, op); o.Done? && GridBooks(env, o.state)
  {
    hide GridBalanced;
    match op
    case DoBar(bar) => GridBarBalanced(env, g, st, bar); hide PaperBar;
    case DoForceClose => GridForceCloseBalanced(env, g, st); hide ForceClosed;
    case DoSubmit(i) => assert Submitted(st, i).GridAcct() == st.GridAcct();
    case DoCancel(id) => assert st.(orders := Relabeled(st.orders, id)).GridAcct() == st.GridAcct();
    case DoFills(id, fills) => assert st.(orders := Reconciled(st.orders, id, fills)).GridAcct() == st.GridAcct();
  }

  lemma GridBooksStart(env: Env, g: GridConfig)
    requires env.spec.kind == Grid(g)
    ensures GridBooks(env, NewPaper(env))
  {
    GridStart(env, g);
    assert NewPaper(env).GridAcct() == NewGridAccount(env);
    hide GridBalanced;
  }

  /** A grid session's broker after a sequence of calls; none of them raises. */
  function ApplyGrid(env: Env, g: GridConfig, ops: seq<Op>): (st: PaperState)
    requires env.spec.kind == Grid(g)
    ensures GridBooks(env, st)
    decreases |ops|
  {
    if ops == [] then
      GridBooksStart(env, g);
      NewPaper(env)
    else
      var before := ApplyGrid(env, g, ops[..|ops| - 1]);
      GridOpBalanced(env, g, before, ops[|ops| - 1]);
      Apply(env, before, ops[|ops| - 1]).state
  }

  /**
   However a grid session's broker is called, its realized pnl is the sum over its trades, its fees are those of its
   trades and of its open lots, and its cash plus the cost of the open lots is its initial cash plus its realized pnl.
   */
  lemma GridSessionBooks(env: Env, g: GridConfig, ops: seq<Op>)
    requires env.spec.kind == Grid(g)
    ensures var st := ApplyGrid(env, g, ops);
      && st.realized == SumPnl(st.trades)
      && st.feesPaid == SumFees(st.trades) + Total(EntryFees(st.GridAcct()))
      && st.cash + Total(Costs(st.GridAcct())) == env.config.initialCash + st.realized
  {
    assert GridBooks(env, ApplyGrid(env, g, ops));
    hide ApplyGrid, Total, Costs, EntryFees;
  }
}

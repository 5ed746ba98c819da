/** Grid and DCA sessions report exactly what their backtests report. */
module GridDcaParity {
  import opened Domain
  import opened FillModel
  import opened GridEngine
  import opened DcaEngine
  import opened PaperModel
  import opened LiveSession

  lemma GridBarFollows(env: Env, g: GridConfig, st: PaperState, bar: OHLCVBar)
    requires env.spec.kind == Grid(g) && st.Valid() && st.pos.None?
    ensures var o := PaperBar(env, st, bar);
      && o.Done? && o.state.pos.None?
      && o.state.GridAcct() == AfterGridBar(env, g, st.GridAcct(), st.pending.gridBuys, bar, st.barIndex + 1)
  {
    hide AfterGridBar;
  }

  lemma {:induction false} GridRunFollows(env: Env, g: GridConfig, bars: seq<OHLCVBar>, live: seq<BarSignal>, n: nat)
    requires env.spec.kind == Grid(g) && Feed(env, bars, live) && n <= |bars|
    ensures var o := LiveRun(env, bars, live, n);
      o.Done? && o.state.pos.None? && o.state.GridAcct() == GridRun(env, g, bars, live, n)
  {
    hide PaperBar, AfterGridBar, SubmitAll, IntentsFor;
    if n > 0 {
      GridRunFollows(env, g, bars, live, n - 1);
      LiveRunPending(env, bars, live, n - 1);
      var st := LiveRun(env, bars, live, n - 1).state;
      GridBarFollows(env, g, st, bars[n - 1]);
      BarKeepsValid(env, st, bars[n - 1]);
      SubmitSetsPending(env.spec, PaperBar(env, st, bars[n - 1]).state, live[n - 1]);
    }
  }

  lemma LiquidationSeesCloseAndTime(env: Env, a: GridAccount, last: OHLCVBar, idx: int)
    requires a.Valid()
    ensures GridLiquidated(env, a, OHLCVBar(last.time, 0.0, 0.0, 0.0, last.close, 0.0), idx)
        == GridLiquidated(env, a, last, idx)
  {
    hide SellAll;
  }

  lemma GridForceClose(env: Env, g: GridConfig, st: PaperState, last: OHLCVBar)
    requires env.spec.kind == Grid(g) && st.Valid() && st.pos.None?
    requires st.mark == Some(last.close) && st.lastTime == Some(last.time)
    ensures var o := ForceClosed(env, st);
      o.Done? && o.state.pos.None? && o.state.GridAcct() == GridLiquidated(env, st.GridAcct(), last, st.barIndex)
  {
    LiquidationSeesCloseAndTime(env, st.GridAcct(), last, st.barIndex);
    hide GridLiquidated;
  }

  lemma GridFinalFollows(env: Env, g: GridConfig, bars: seq<OHLCVBar>, live: seq<BarSignal>)
    requires env.spec.kind == Grid(g) && Feed(env, bars, live)
    ensures var o := LiveFinal(env, bars, live);
      o.Done? && o.state.pos.None? && o.state.GridAcct() == GridFinal(env, g, bars, live)
  {
    var n := |bars|;
    GridRunFollows(env, g, bars, live, n);
    LiveRunPending(env, bars, live, n);
    if n > 0 {
      hide LiveRun, GridRun, GridLiquidated, ForceClosed, Feed;
      GridForceClose(env, g, LiveRun(env, bars, live, n).state, bars[n - 1]);
    }
  }

  lemma GridEquityFollows(env: Env, g: GridConfig, st: PaperState, mark: real)
    requires env.spec.kind == Grid(g) && st.pos.None?
    ensures PaperEquity(env, st, mark) == GridEquity(st.GridAcct(), mark)
    ensures st.filled == map[] ==> PaperEquity(env, st, mark) == st.cash
  {
    NothingHeld(mark);
  }

  lemma GridPointFollows(env: Env, g: GridConfig, bars: seq<OHLCVBar>, live: seq<BarSignal>, i: nat)
    requires env.spec.kind == Grid(g) && Feed(env, bars, live) && i < |bars|
    ensures LivePoint(env, bars, live, i) == GridPoint(env, g, bars, live, i)
  {
    assert i == |bars| - 1 ==> GridFinal(env, g, bars, live).filled == map[];
    hide LiveFinal, GridFinal, LiveRun, GridRun, HeldValue, PaperEquity, GridEquity, Feed;
    if i == |bars| - 1 {
      GridFinalFollows(env, g, bars, live);
      GridEquityFollows(env, g, LiveFinal(env, bars, live).state, bars[i].close);
    } else {
      GridRunFollows(env, g, bars, live, i + 1);
      GridEquityFollows(env, g, LiveRun(env, bars, live, i + 1).state, bars[i].close);
    }
  }

  lemma NothingHeld(mark: real)
    ensures HeldValue(map[], mark) == 0.0
  {
    var none: map<real, real> := map[];
    assert (map l | l in none :: none[l] * mark) == map[];
  }

  /**
   Grid parity: for any triggered levels the session completes and its trades, cash, realized pnl and equity curve
   are the backtest's.
   */
  lemma GridSessionMatchesBacktest(env: Env, g: GridConfig, bars: seq<OHLCVBar>, signals: seq<BarSignal>)
    requires env.spec.kind == Grid(g) && Feed(env, bars, signals)
    ensures var o := LiveFinal(env, bars, signals);
      && o.Done?
      && o.state.GridAcct() == GridFinal(env, g, bars, signals)
      && LiveCurve(env, bars, signals) == GridCurve(env, g, bars, signals)
  {
    GridFinalFollows(env, g, bars, signals);
    forall i: nat | i < |bars|
      ensures LivePoint(env, bars, signals, i) == GridPoint(env, g, bars, signals, i)
    {
      GridPointFollows(env, g, bars, signals, i);
    }
    hide LivePoint, GridPoint, LiveFinal, GridFinal;
  }

  lemma DcaBarFollows(env: Env, d: DCAConfig, st: PaperState, bar: OHLCVBar)
    requires env.spec.kind == Dca(d) && st.Valid() && st.pos.None? && 0.0 < bar.open
    ensures var o := PaperBar(env, st, bar);
      && o.Done? && o.state.pos.None?
      && o.state.DcaAcct() == AfterDcaBar(env, d, st.DcaAcct(), st.pending.dcaBuy, bar, st.barIndex + 1)
  {
    hide AfterDcaBar;
  }

  lemma {:induction false} DcaRunFollows(env: Env, d: DCAConfig, bars: seq<OHLCVBar>, live: seq<BarSignal>, n: nat)
    requires env.spec.kind == Dca(d) && Feed(env, bars, live) && n <= |bars|
    ensures var o := LiveRun(env, bars, live, n);
      o.Done? && o.state.pos.None? && o.state.DcaAcct() == DcaRun(env, d, bars, live, n)
  {
    hide PaperBar, AfterDcaBar, SubmitAll, IntentsFor;
    if n > 0 {
      DcaRunFollows(env, d, bars, live, n - 1);
      LiveRunPending(env, bars, live, n - 1);
      var st := LiveRun(env, bars, live, n - 1).state;
      DcaBarFollows(env, d, st, bars[n - 1]);
      BarKeepsValid(env, st, bars[n - 1]);
      SubmitSetsPending(env.spec, PaperBar(env, st, bars[n - 1]).state, live[n - 1]);
    }
  }

  lemma DcaForceClose(env: Env, d: DCAConfig, st: PaperState, last: OHLCVBar)
    requires env.spec.kind == Dca(d) && st.Valid() && st.pos.None?
    requires st.mark == Some(last.close) && st.lastTime == Some(last.time)
    ensures var o := ForceClosed(env, st);
      o.Done? && o.state.pos.None? && o.state.DcaAcct() == DcaLiquidated(env, st.DcaAcct(), last, st.barIndex)
  {
    hide Proceeds, ExitFee, PnlPct;
  }

  lemma DcaFinalFollows(env: Env, d: DCAConfig, bars: seq<OHLCVBar>, live: seq<BarSignal>)
    requires env.spec.kind == Dca(d) && Feed(env, bars, live)
    ensures var o := LiveFinal(env, bars, live);
      o.Done? && o.state.pos.None? && o.state.DcaAcct() == DcaFinal(env, d, bars, live)
  {
    var n := |bars|;
    DcaRunFollows(env, d, bars, live, n);
    LiveRunPending(env, bars, live, n);
    if n > 0 {
      hide LiveRun, DcaRun, DcaLiquidated, ForceClosed, Feed;
      DcaForceClose(env, d, LiveRun(env, bars, live, n).state, bars[n - 1]);
    }
  }

  lemma DcaEquityFollows(env: Env, d: DCAConfig, st: PaperState, mark: real)
    requires env.spec.kind == Dca(d) && st.pos.None?
    ensures PaperEquity(env, st, mark) == DcaEquity(st.DcaAcct(), mark)
  {
  }

  lemma DcaPointFollows(env: Env, d: DCAConfig, bars: seq<OHLCVBar>, live: seq<BarSignal>, i: nat)
    requires env.spec.kind == Dca(d) && Feed(env, bars, live) && i < |bars|
    ensures LivePoint(env, bars, live, i) == DcaPoint(env, d, bars, live, i)
  {
    assert OpensPositive(bars);
    hide LiveFinal, DcaFinal, LiveRun, DcaRun, PaperEquity, DcaEquity, Feed, OpensPositive;
    if i == |bars| - 1 {
      DcaFinalFollows(env, d, bars, live);
      DcaEquityFollows(env, d, LiveFinal(env, bars, live).state, bars[i].close);
    } else {
      DcaRunFollows(env, d, bars, live, i + 1);
      DcaEquityFollows(env, d, LiveRun(env, bars, live, i + 1).state, bars[i].close);
    }
  }

  /** DCA parity: the purchase cap, the single closing trade, the cash and the equity curve are the backtest's. */
  lemma DcaSessionMatchesBacktest(env: Env, d: DCAConfig, bars: seq<OHLCVBar>, signals: seq<BarSignal>)
    requires env.spec.kind == Dca(d) && Feed(env, bars, signals)
    ensures var o := LiveFinal(env, bars, signals);
      && o.Done?
      && o.state.DcaAcct() == DcaFinal(env, d, bars, signals)
      && LiveCurve(env, bars, signals) == DcaCurve(env, d, bars, signals)
  {
    DcaFinalFollows(env, d, bars, signals);
    forall i: nat | i < |bars|
      ensures LivePoint(env, bars, signals, i) == DcaPoint(env, d, bars, signals, i)
    {
      DcaPointFollows(env, d, bars, signals, i);
    }
    hide LivePoint, DcaPoint, LiveFinal, DcaFinal;
  }
}

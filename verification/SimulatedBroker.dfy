/** The batch broker: one call walks a whole bar array, its state in locals. */
module SimulatedBrokers {
  import opened Domain
  import opened FillModel
  import opened Positions
  import opened RuleEngine
  import opened GridEngine
  import opened DcaEngine
  import opened Sorting

  datatype EquityPoint = EquityPoint(timestamp: int, equity: real)

  /** A curve stamped with its bars' times. */
  function Stamped(bars: seq<OHLCVBar>, curve: seq<real>): seq<EquityPoint>
    requires |bars| == |curve|
  {
    seq(|bars|, i requires 0 <= i < |bars| => EquityPoint(bars[i].time, curve[i]))
  }

  /** A rule run's locals hold the account `a`. */
  ghost predicate Holds(cash: real, pos: OpenPosition?, trades: seq<Trade>, a: Account)
    reads pos
  {
    cash == a.cash && ViewOf(pos) == a.pos && trades == a.trades
  }

  ghost predicate HoldsGrid(cash: real, filled: map<real, real>, entries: map<real, GridEntry>, trades: seq<Trade>,
                            a: GridAccount) {
    a.Valid() && cash == a.cash && filled == a.filled && entries == a.entries && trades == a.trades
  }

  /** A DCA run's locals hold the account `a`. */
  ghost predicate HoldsDca(cash: real, base: real, costBasis: real, fees: real, purchases: int,
                           firstEntry: Option<int>, firstIdx: int, a: DcaAccount) {
    && cash == a.cash && base == a.base && costBasis == a.costBasis && fees == a.fees
    && purchases == a.purchases && firstEntry == a.firstEntry && firstIdx == a.firstIdx && a.trades == []
  }

  /** `curve` holds the marks of a grid run's first `i` bars. */
  ghost predicate GridMarks(env: Env, g: GridConfig, bars: seq<OHLCVBar>, sigs: seq<BarSignal>,
                            curve: seq<EquityPoint>, i: nat)
    requires 2 <= g.levels && i <= |bars| == |sigs| && PositiveBuys(sigs)
  {
    && |curve| == i
    && forall j: nat | j < i ::
      curve[j] == EquityPoint(bars[j].time, GridEquity(GridRun(env, g, bars, sigs, j + 1), bars[j].close))
  }

  lemma GridEmpty(env: Env, g: GridConfig, bars: seq<OHLCVBar>, sigs: seq<BarSignal>)
    requires 2 <= g.levels && |bars| == |sigs| && PositiveBuys(sigs)
    ensures GridRun(env, g, bars, sigs, 0) == NewGridAccount(env) && GridMarks(env, g, bars, sigs, [], 0)
    ensures bars == [] ==>
      GridFinal(env, g, bars, sigs).trades == [] && Stamped(bars, GridCurve(env, g, bars, sigs)) == []
    ensures bars == [] ==> forall curve | GridMarks(env, g, bars, sigs, curve, 0) :: curve == []
  {
  }

  lemma GridMarksNext(env: Env, g: GridConfig, bars: seq<OHLCVBar>, sigs: seq<BarSignal>, curve: seq<EquityPoint>,
                      i: nat, equity: real)
    requires 2 <= g.levels && i < |bars| == |sigs| && PositiveBuys(sigs)
    requires GridMarks(env, g, bars, sigs, curve, i)
    requires equity == GridEquity(GridRun(env, g, bars, sigs, i + 1), bars[i].close)
    ensures GridMarks(env, g, bars, sigs, curve + [EquityPoint(bars[i].time, equity)], i + 1)
  {
    hide GridRun, GridEquity;
  }

  lemma GridMarksDone(env: Env, g: GridConfig, bars: seq<OHLCVBar>, sigs: seq<BarSignal>, curve: seq<EquityPoint>,
                      equity: real)
    requires 2 <= g.levels && 0 < |bars| == |sigs| && PositiveBuys(sigs)
    requires GridMarks(env, g, bars, sigs, curve, |bars|)
    requires equity == GridFinal(env, g, bars, sigs).cash
    ensures |curve| == |bars|
    ensures curve[|bars| - 1 := EquityPoint(bars[|bars| - 1].time, equity)]
        == Stamped(bars, GridCurve(env, g, bars, sigs))
  {
    hide GridRun, GridEquity, GridFinal;
  }

  class SimulatedBroker {
    const env: Env
    /** How each filled level was bought; re-initialized by every grid run. */
    var gridEntries: map<real, GridEntry>

    constructor (env: Env)
      ensures this.env == env
    {
      this.env := env;
      gridEntries := map[];
    }

    /** Walks the bars forward and reports the closed trades and the per-bar equity curve. */
    method Run(bars: seq<OHLCVBar>, signals: seq<BarSignal>) returns (trades: seq<Trade>, curve: seq<EquityPoint>)
      requires |bars| == |signals| && PositiveBuys(signals)
      requires env.spec.kind.Dca? ==> OpensPositive(bars)
      modifies this
      ensures match env.spec.kind
        case Rule =>
          && trades == Final(env, bars, Driver(Backtest, signals)).trades
          && curve == Stamped(bars, Curve(env, bars, Driver(Backtest, signals)))
        case Grid(g) =>
          && trades == GridFinal(env, g, bars, signals).trades
          && curve == Stamped(bars, GridCurve(env, g, bars, signals))
        case Dca(d) =>
          && trades == DcaFinal(env, d, bars, signals).trades
          && curve == Stamped(bars, DcaCurve(env, d, bars, signals))
    {
      match env.spec.kind
      case Grid(g) => trades, curve := RunGrid(g, bars, signals);
      case Dca(d) => trades, curve := RunDca(d, bars, signals);
      case Rule => trades, curve := RunRule(bars, signals);
    }

    method RunRule(bars: seq<OHLCVBar>, signals: seq<BarSignal>) returns (trades: seq<Trade>, curve: seq<EquityPoint>)
      requires |bars| == |signals|
      ensures trades == Final(env, bars, Driver(Backtest, signals)).trades
      ensures curve == Stamped(bars, Curve(env, bars, Driver(Backtest, signals)))
    {
      ghost var drv := Driver(Backtest, signals);
      var cash := env.config.initialCash;
      var pos: OpenPosition? := null;
      trades, curve := [], [];
      for i := 0 to |bars|
        invariant pos == null || fresh(pos)
        invariant Holds(cash, pos, trades, RuleEngine.Run(env, bars, drv, i))
        invariant |curve| == i
        invariant forall j | 0 <= j < i :: curve[j] == EquityPoint(bars[j].time, EquityAt(env, bars, drv, j))
      {
        var bar := bars[i];
        ghost var a := RuleEngine.Run(env, bars, drv, i);
        ghost var d := DecisionAt(env, bars, drv, i);
        if i > 0 {
          trades, cash, pos := ApplyRuleIntent(signals[i - 1], pos, trades, cash, bar, a);
        }
        ghost var b := AfterDecision(env, a, d, bar);
        if pos != null {
          trades, cash, pos := CheckRiskExits(pos, trades, cash, bar, b);
        }
        ghost var c := AfterRisk(env, b, bar);
        assert Holds(cash, pos, trades, c);
        if pos != null {
          pos.Hold(env, bar.close);
        }
        assert RuleEngine.Run(env, bars, drv, i + 1) == AfterHold(env, c, bar);
        curve := curve + [EquityPoint(bar.time, Equity(cash, ViewOf(pos), bar.close))];
      }
      if pos != null && |bars| > 0 {
        var last := bars[|bars| - 1];
        var pnl;
        trades, pnl := Close(pos, trades, last.close, last.time, EndOfData);
        cash := cash + pnl;
        curve := curve[|curve| - 1 := EquityPoint(last.time, cash)];
      }
    }

    /** Applies one bar's entry and exit intent at the next bar's open: exit first, then entry when flat. */
    method ApplyRuleIntent(sig: BarSignal, pos: OpenPosition?, trades: seq<Trade>, cash: real, bar: OHLCVBar,
                           ghost a: Account)
      returns (trades': seq<Trade>, cash': real, pos': OpenPosition?)
      requires Holds(cash, pos, trades, a)
      ensures pos' == null || pos' == pos || fresh(pos')
      ensures Holds(cash', pos', trades', AfterDecision(env, a, Decide(Backtest, SideOf(a.pos), sig), bar))
    {
      trades', cash', pos' := trades, cash, pos;
      if pos != null {
        var shouldExit := (pos.side.Long? && sig.exitLong) || (pos.side.Short? && sig.exitShort);
        var reverse := (pos.side.Long? && sig.enterShort) || (pos.side.Short? && sig.enterLong);
        if shouldExit || reverse {
          var pnl;
          trades', pnl := Close(pos, trades, Slip(env.config, bar.open, pos.side.Long?), bar.time, Signal);
          cash' := cash + pnl;
          pos' := null;
        }
      }
      if pos' == null {
        if sig.enterLong {
          pos' := new OpenPosition(Opened(env, Long, cash', bar.open, bar.time));
        } else if sig.enterShort {
          pos' := new OpenPosition(Opened(env, Short, cash', bar.open, bar.time));
        }
      }
    }

    method CheckRiskExits(pos: OpenPosition, trades: seq<Trade>, cash: real, bar: OHLCVBar, ghost a: Account)
      returns (trades': seq<Trade>, cash': real, pos': OpenPosition?)
      requires Holds(cash, pos, trades, a)
      ensures pos' == null || pos' == pos
      ensures Holds(cash', pos', trades', AfterRisk(env, a, bar))
    {
      trades', cash', pos' := trades, cash, pos;
      var pnl;
      if pos.side.Long? {
        if pos.stopPrice.Some? && bar.low <= pos.stopPrice.value {
          trades', pnl := Close(pos, trades, pos.stopPrice.value, bar.time, StopLoss);
          return trades', cash + pnl, null;
        }
        if pos.takePrice.Some? && bar.high >= pos.takePrice.value {
          trades', pnl := Close(pos, trades, pos.takePrice.value, bar.time, TakeProfit);
          return trades', cash + pnl, null;
        }
      } else {
        if pos.stopPrice.Some? && bar.high >= pos.stopPrice.value {
          trades', pnl := Close(pos, trades, pos.stopPrice.value, bar.time, StopLoss);
          return trades', cash + pnl, null;
        }
        if pos.takePrice.Some? && bar.low <= pos.takePrice.value {
          trades', pnl := Close(pos, trades, pos.takePrice.value, bar.time, TakeProfit);
          return trades', cash + pnl, null;
        }
      }
    }

    /** Books the closing trade and returns its realized pnl, the cash delta. */
    method Close(pos: OpenPosition, trades: seq<Trade>, exitPx: real, now: int, reason: ExitReason)
      returns (trades': seq<Trade>, pnl: real)
      ensures trades' == trades + [Closed(env, pos.View(), exitPx, now, reason)]
      ensures pnl == Closed(env, pos.View(), exitPx, now, reason).pnl
    {
      var exitFee := exitPx * pos.size * env.spec.taker;
      pnl := Gross(pos.side, pos.entryPrice, pos.size, exitPx) - pos.entryFee - exitFee - pos.fundingPaid;
      assert pnl == Closed(env, pos.View(), exitPx, now, reason).pnl;
      trades' := trades + [Trade(pos.side, pos.entryTime, now, pos.entryPrice, exitPx, pos.size, pnl,
                                 PnlPct(pnl, pos.entryPrice * pos.size), pos.entryFee + exitFee, pos.fundingPaid,
                                 pos.barsHeld, reason)];
      assert trades'[|trades|].pnlPct == Closed(env, pos.View(), exitPx, now, reason).pnlPct;
    }

    method RunGrid(g: GridConfig, bars: seq<OHLCVBar>, signals: seq<BarSignal>)
      returns (trades: seq<Trade>, curve: seq<EquityPoint>)
      requires env.spec.kind == Grid(g) && |bars| == |signals| && PositiveBuys(signals)
      modifies this
      ensures trades == GridFinal(env, g, bars, signals).trades
      ensures curve == Stamped(bars, GridCurve(env, g, bars, signals))
    {
      hide GridLiquidated, GridRun, GridMarks, Stamped, GridFinal, GridCurve, PositiveBuys;
      GridEmpty(env, g, bars, signals);
      var cash, filled;
      cash, filled, trades, curve := WalkGrid(g, bars, signals);
      if |bars| > 0 {
        var last := bars[|bars| - 1];
        cash, filled, trades :=
          SellRemaining(last, cash, filled, trades, |bars| - 1, GridRun(env, g, bars, signals, |bars|));
        GridFinalIs(env, g, bars, signals);
        GridMarksDone(env, g, bars, signals, curve, cash);
        curve := curve[|bars| - 1 := EquityPoint(last.time, cash)];
      }
    }

    /** The grid's bar loop, up to the liquidation. */
    method WalkGrid(g: GridConfig, bars: seq<OHLCVBar>, signals: seq<BarSignal>)
      returns (cash: real, filled: map<real, real>, trades: seq<Trade>, curve: seq<EquityPoint>)
      requires env.spec.kind == Grid(g) && |bars| == |signals| && PositiveBuys(signals)
      modifies this
      ensures HoldsGrid(cash, filled, gridEntries, trades, GridRun(env, g, bars, signals, |bars|))
      ensures GridMarks(env, g, bars, signals, curve, |bars|)
    {
      hide AfterGridBar, HeldValue, GridRun, GridMarks, PositiveBuys;
      GridEmpty(env, g, bars, signals);
      gridEntries := map[];
      cash, filled, trades, curve := env.config.initialCash, map[], [], [];
      for i := 0 to |bars|
        invariant HoldsGrid(cash, filled, gridEntries, trades, GridRun(env, g, bars, signals, i))
        invariant GridMarks(env, g, bars, signals, curve, i)
      {
        GridRunStep(env, g, bars, signals, i);
        cash, filled, trades :=
          GridBar(g, PendingBuys(signals, i), bars[i], cash, filled, trades, i, GridRun(env, g, bars, signals, i));
        var equity := cash + HeldValue(filled, bars[i].close);
        GridMarksNext(env, g, bars, signals, curve, i, equity);
        curve := curve + [EquityPoint(bars[i].time, equity)];
      }
    }

    /** One bar of the grid: buys at the triggered levels, then sells at the reached targets. */
    method GridBar(g: GridConfig, buys: seq<real>, bar: OHLCVBar, cash: real, filled: map<real, real>,
                   trades: seq<Trade>, idx: int, ghost a: GridAccount)
      returns (cash': real, filled': map<real, real>, trades': seq<Trade>)
      requires env.spec.kind == Grid(g) && PositiveLevels(buys)
      requires HoldsGrid(cash, filled, gridEntries, trades, a)
      modifies this
      ensures HoldsGrid(cash', filled', gridEntries, trades', AfterGridBar(env, g, a, buys, bar, idx))
    {
      hide BuyAll, GridEngine.SellTargets;
      cash', filled' := BuyLevels(g, buys, cash, filled, trades, bar.time, idx, a);
      ghost var b := BuyAll(env, g, a, buys, bar.time, idx);
      cash', filled', trades' := SellTargets(g, bar.close, cash', filled', trades, bar.time, idx, b);
    }

    method BuyLevels(g: GridConfig, levels: seq<real>, cash: real, filled: map<real, real>, trades: seq<Trade>,
                     now: int, idx: int, ghost a: GridAccount)
      returns (cash': real, filled': map<real, real>)
      requires env.spec.kind == Grid(g) && PositiveLevels(levels)
      requires HoldsGrid(cash, filled, gridEntries, trades, a)
      modifies this
      ensures HoldsGrid(cash', filled', gridEntries, trades, BuyAll(env, g, a, levels, now, idx))
    {
      hide Buy, PositiveLevels;
      cash', filled' := cash, filled;
      var rest := levels;
      ghost var b := a;
      while rest != []
        invariant PositiveLevels(rest)
        invariant HoldsGrid(cash', filled', gridEntries, trades, b)
        invariant BuyAll(env, g, b, rest, now, idx) == BuyAll(env, g, a, levels, now, idx)
        decreases |rest|
      {
        PositiveSplit(rest);
        if rest[0] !in filled' {
          cash', filled' := BuyLevel(g, rest[0], cash', filled', trades, now, idx, b);
        } else {
          BuyHeld(env, g, b, rest[0], now, idx);
        }
        b, rest := Buy(env, g, b, rest[0], now, idx), rest[1..];
      }
    }

    method BuyLevel(g: GridConfig, level: real, cash: real, filled: map<real, real>, trades: seq<Trade>, now: int,
                    idx: int, ghost a: GridAccount)
      returns (cash': real, filled': map<real, real>)
      requires env.spec.kind == Grid(g) && 0.0 < level && level !in filled
      requires HoldsGrid(cash, filled, gridEntries, trades, a)
      modifies this
      ensures HoldsGrid(cash', filled', gridEntries, trades, Buy(env, g, a, level, now, idx))
    {
      hide Slip, PerLevelNotional;
      BuyPricePositive(env, level);
      var px := Slip(env.config, level, false);
      var size := PerLevelNotional(env, g) / px;
      var fee := px * size * env.spec.taker;
      cash' := cash - (px * size + fee);
      filled' := filled[level := size];
      if level !in gridEntries {
        gridEntries := gridEntries[level := GridEntry(now, px, fee, idx)];
      }
      ghost var r := Buy(env, g, a, level, now, idx);
      assert r.filled[level] == size;
      assert r.entries[level].fee == fee;
      assert r.cash == cash';
    }

    /** Sells every held level whose next level up the close has reached. */
    method SellTargets(g: GridConfig, close: real, cash: real, filled: map<real, real>, trades: seq<Trade>, now: int,
                       idx: int, ghost a: GridAccount)
      returns (cash': real, filled': map<real, real>, trades': seq<Trade>)
      requires env.spec.kind == Grid(g) && HoldsGrid(cash, filled, gridEntries, trades, a)
      modifies this
      ensures HoldsGrid(cash', filled', gridEntries, trades', GridEngine.SellTargets(env, g, a, close, now, idx))
    {
      hide GridEngine.Sell, Slip, Sorted, AllHeld, GridTarget, GridLevels;
      cash', filled', trades' := cash, filled, trades;
      var rest := Sorted(filled.Keys);
      ghost var b, keys := a, rest;
      SortedHeld(a);
      while rest != []
        invariant HoldsGrid(cash', filled', gridEntries, trades', b)
        invariant AllHeld(b, rest)
        invariant SellReached(env, g, b, rest, close, now, idx) == SellReached(env, g, a, keys, close, now, idx)
        decreases |rest|
      {
        var level := rest[0];
        FirstHeld(b, rest);
        ghost var c := SellIfReached(env, g, b, level, close, now, idx);
        if Reached(GridLevels(g), level, close) {
          var px := Slip(env.config, GridTarget(GridLevels(g), level).value, true);
          cash', filled', trades' := SellLot(level, px, cash', filled', trades', now, idx, TakeProfit, b);
        }
        StillHeld(b, c, rest);
        b, rest := c, rest[1..];
      }
    }

    method SellRemaining(last: OHLCVBar, cash: real, filled: map<real, real>, trades: seq<Trade>, idx: int,
                         ghost a: GridAccount)
      returns (cash': real, filled': map<real, real>, trades': seq<Trade>)
      requires HoldsGrid(cash, filled, gridEntries, trades, a)
      modifies this
      ensures HoldsGrid(cash', filled', gridEntries, trades', GridLiquidated(env, a, last, idx))
    {
      hide GridEngine.Sell, Slip, Sorted, AllHeld;
      cash', filled', trades' := cash, filled, trades;
      var rest := Sorted(filled.Keys);
      ghost var b, keys := a, rest;
      SortedHeld(a);
      while rest != []
        invariant HoldsGrid(cash', filled', gridEntries, trades', b)
        invariant AllHeld(b, rest)
        invariant SellAll(env, b, rest, last.close, last.time, idx) == SellAll(env, a, keys, last.close, last.time, idx)
        decreases |rest|
      {
        FirstHeld(b, rest);
        var px := Slip(env.config, last.close, true);
        ghost var c := GridEngine.Sell(env, b, rest[0], px, last.time, idx, EndOfData);
        cash', filled', trades' := SellLot(rest[0], px, cash', filled', trades', last.time, idx, EndOfData, b);
        StillHeld(b, c, rest);
        b, rest := c, rest[1..];
      }
    }

    method SellLot(level: real, px: real, cash: real, filled: map<real, real>, trades: seq<Trade>, now: int, idx: int,
                   reason: ExitReason, ghost a: GridAccount)
      returns (cash': real, filled': map<real, real>, trades': seq<Trade>)
      requires level in filled && HoldsGrid(cash, filled, gridEntries, trades, a)
      modifies this
      ensures HoldsGrid(cash', filled', gridEntries, trades', GridEngine.Sell(env, a, level, px, now, idx, reason))
    {
      hide LotSold;
      var size := filled[level];
      trades' := trades + [LotSold(env, size, gridEntries[level], px, now, idx, reason)];
      filled' := filled - {level};
      gridEntries := gridEntries - {level};
      var exitFee := px * size * env.spec.taker;
      cash' := cash + (px * size - exitFee);
    }

    method RunDca(d: DCAConfig, bars: seq<OHLCVBar>, signals: seq<BarSignal>)
      returns (trades: seq<Trade>, curve: seq<EquityPoint>)
      requires env.spec.kind == Dca(d) && |bars| == |signals| && OpensPositive(bars)
      ensures trades == DcaFinal(env, d, bars, signals).trades
      ensures curve == Stamped(bars, DcaCurve(env, d, bars, signals))
    {
      hide AfterDcaBar, DcaSold, Proceeds;
      var cash, base, costBasis, fees := env.config.initialCash, 0.0, 0.0, 0.0;
      var purchases, firstEntry, firstIdx := 0, None, 0;
      trades, curve := [], [];
      for i := 0 to |bars|
        invariant HoldsDca(cash, base, costBasis, fees, purchases, firstEntry, firstIdx,
            DcaRun(env, d, bars, signals, i))
        invariant |curve| == i
        invariant forall j | 0 <= j < i ::
          curve[j] == EquityPoint(bars[j].time, DcaEquity(DcaRun(env, d, bars, signals, j + 1), bars[j].close))
      {
        cash, base, costBasis, fees, purchases, firstEntry, firstIdx :=
          DcaBar(d, PendingBuy(signals, i), bars[i], i, cash, base, costBasis, fees, purchases, firstEntry, firstIdx,
                 DcaRun(env, d, bars, signals, i));
        curve := curve + [EquityPoint(bars[i].time, cash + base * bars[i].close)];
      }
      if base > 0.0 && firstEntry.Some? && |bars| > 0 {
        var last := bars[|bars| - 1];
        trades := [DcaSold(env, firstEntry.value, firstIdx, base, costBasis, fees, last, |bars| - 1)];
        cash := cash + Proceeds(env, base, last.close);
        curve := curve[|curve| - 1 := EquityPoint(last.time, cash)];
      }
    }

    /** One bar of the ladder: the scheduled purchase, while uncapped and in cash. */
    method DcaBar(d: DCAConfig, buy: bool, bar: OHLCVBar, idx: int, cash: real, base: real, costBasis: real, fees: real,
                  purchases: int, firstEntry: Option<int>, firstIdx: int, ghost a: DcaAccount)
      returns (cash': real, base': real, costBasis': real, fees': real, purchases': int, firstEntry': Option<int>,
        firstIdx': int)
      requires 0.0 < bar.open && HoldsDca(cash, base, costBasis, fees, purchases, firstEntry, firstIdx, a)
      ensures HoldsDca(cash', base', costBasis', fees', purchases', firstEntry', firstIdx',
          AfterDcaBar(env, d, a, buy, bar, idx))
    {
      hide PurchaseFee, PurchasedQty;
      cash', base', costBasis', fees' := cash, base, costBasis, fees;
      purchases', firstEntry', firstIdx' := purchases, firstEntry, firstIdx;
      var capped := d.maxPurchases.Some? && purchases >= d.maxPurchases.value;
      if buy && !capped {
        var spend := if d.amountQuote <= cash then d.amountQuote else cash;
        if spend > 0.0 {
          base' := base + PurchasedQty(env, spend, bar.open);
          costBasis' := costBasis + spend;
          fees' := fees + PurchaseFee(env, spend);
          cash' := cash - spend;
          purchases' := purchases + 1;
          if firstEntry.None? {
            firstEntry', firstIdx' := Some(bar.time), idx;
          }
        }
      }
    }
  }
}

/** What a grid run always keeps: balanced books, one lot per level, a bounded inventory, and when it must profit. */
module GridLedger {
  import opened Domain
  import opened RealArithmetic
  import opened FillModel
  import opened Sorting
  import opened GridEngine

  // ---- sums over dictionaries ----

  lemma {:induction false} TotalRemove(m: map<real, real>, k: real)
    requires k in m
    ensures Total(m) == m[k] + Total(m - {k})
    decreases |m|
  {
    assert m.Keys != {};
    var least := Least(m.Keys);
    assert (m - {least}).Keys == m.Keys - {least};
    if k != least {
      TotalRemove(m - {least}, k);
      var rest := m - {k};
      assert rest.Keys == m.Keys - {k} && least in rest;
      assert Least(rest.Keys) == least;
      assert m - {least} - {k} == rest - {least};
    }
  }

  lemma TotalAdd(m: map<real, real>, k: real, v: real)
    requires k !in m
    ensures Total(m[k := v]) == Total(m) + v
  {
    TotalRemove(m[k := v], k);
    assert m[k := v] - {k} == m;
  }

  function Repeated(n: nat, c: real): real {
    n as real * c
  }

  lemma {:induction false} TotalConstant(m: map<real, real>, c: real)
    requires forall k | k in m :: m[k] == c
    ensures Total(m) == Repeated(|m|, c)
    decreases |m|
  {
    OneMore(0, c);
    hide Repeated;
    if m != map[] {
      assert m.Keys != {};
      var k := Least(m.Keys);
      var rest := m - {k};
      TotalConstant(rest, c);
      assert rest.Keys == m.Keys - {k};
      assert |rest| == |m| - 1;
      assert Total(m) == c + Total(rest);
      OneMore(|rest|, c);
    }
  }

  lemma OneMore(n: nat, c: real)
    ensures Repeated(n + 1, c) == c + Repeated(n, c) && Repeated(0, c) == 0.0
  {
    Distribute(c, n as real, 1.0);
  }

  lemma {:induction false} FewerKeys(s: set<real>, levels: seq<real>)
    requires forall l | l in s :: l in levels
    ensures |s| <= |levels|
  {
    if levels == [] {
      if s != {} { var l := PickOne(s); assert false; }
    } else {
      var last := levels[|levels| - 1];
      FewerKeys(s - {last}, levels[..|levels| - 1]);
      assert s <= (s - {last}) + {last};
    }
  }

  // ---- the books ----

  /** What a lot cost, entry fee included. */
  function LotCost(e: GridEntry, size: real): real {
    e.price * size + e.fee
  }

  function Costs(a: GridAccount): map<real, real>
    requires a.Valid()
  {
    map l | l in a.filled :: LotCost(a.entries[l], a.filled[l])
  }

  function EntryFees(a: GridAccount): map<real, real> {
    map l | l in a.entries :: a.entries[l].fee
  }

  /** Cash plus the cost of the open lots is the initial cash plus what the closed lots earned. */
  ghost predicate GridBalanced(env: Env, a: GridAccount) {
    && a.Valid()
    && a.cash + Total(Costs(a)) == env.config.initialCash + SumPnl(a.trades)
    && a.realized == SumPnl(a.trades)
    && a.feesPaid == SumFees(a.trades) + Total(EntryFees(a))
  }

  /**
   Every open lot sits on a grid level, was bought at that level's slipped price, and took its share of the
   allocation.
   */
  ghost predicate Lots(env: Env, g: GridConfig, a: GridAccount)
    requires 2 <= g.levels
  {
    && a.Valid()
    && forall l | l in a.filled :: LotAt(env, g, a, l)
  }

  predicate IsLevel(g: GridConfig, l: real)
    requires 2 <= g.levels
  {
    l in GridLevels(g)
  }

  ghost predicate LotAt(env: Env, g: GridConfig, a: GridAccount, l: real)
    requires 2 <= g.levels && a.Valid() && l in a.filled
  {
    SoundLot(env, g, l, a.entries[l], a.filled[l])
  }

  ghost predicate SoundLot(env: Env, g: GridConfig, l: real, e: GridEntry, size: real)
    requires 2 <= g.levels
  {
    && IsLevel(g, l)
    && 0.0 < l
    && 0.0 < size
    && e.price == Slip(env.config, l, false)
    && e.price * size == PerLevelNotional(env, g)
    && e.fee == PerLevelNotional(env, g) * env.spec.taker
  }

  lemma PerLevelPositive(env: Env, g: GridConfig)
    requires env.spec.kind == Grid(g)
    ensures 0.0 < PerLevelNotional(env, g)
    ensures PerLevelNotional(env, g) * g.levels as real == Allocated(env, g)
  {
    MulPositive(env.config.initialCash, g.allocationPct / 100.0);
    DivMul(env.config.initialCash * (g.allocationPct / 100.0), g.levels as real);
    if PerLevelNotional(env, g) <= 0.0 {
      MulMono(PerLevelNotional(env, g), 0.0, g.levels as real);
    }
  }

  /** Adding a lot for its cost keeps the books balanced. */
  lemma LotBought(env: Env, a: GridAccount, r: GridAccount, level: real, e: GridEntry, size: real)
    requires GridBalanced(env, a) && level !in a.filled
    requires r == a.(cash := a.cash - LotCost(e, size), filled := a.filled[level := size],
                     entries := a.entries[level := e], feesPaid := a.feesPaid + e.fee)
    ensures GridBalanced(env, r)
  {
    hide LotCost, Total;
    assert Costs(r) == Costs(a)[level := LotCost(e, size)];
    TotalAdd(Costs(a), level, LotCost(e, size));
    assert EntryFees(r) == EntryFees(a)[level := e.fee];
    TotalAdd(EntryFees(a), level, e.fee);
  }

  /** The lot a buy adds: its size and price multiply to the level's share, its fee is that share's. */
  lemma LotOfBuy(env: Env, g: GridConfig, a: GridAccount, level: real, now: int, idx: int)
    returns (e: GridEntry, size: real)
    requires env.spec.kind == Grid(g) && 0.0 < level && a.Valid() && level !in a.filled
    ensures Buy(env, g, a, level, now, idx) ==
      a.(cash := a.cash - LotCost(e, size), filled := a.filled[level := size],
         entries := a.entries[level := e], feesPaid := a.feesPaid + e.fee)
    ensures 0.0 < size && e.price == Slip(env.config, level, false)
    ensures e.price * size == PerLevelNotional(env, g) && e.fee == PerLevelNotional(env, g) * env.spec.taker
  {
    BuyPricePositive(env, level);
    PerLevelPositive(env, g);
    hide Slip, PerLevelNotional;
    var r := Buy(env, g, a, level, now, idx);
    size, e := r.filled[level], r.entries[level];
    DivMul(PerLevelNotional(env, g), e.price);
    if size <= 0.0 { MulMono(size, 0.0, e.price); }
  }

  lemma LotsGrow(env: Env, g: GridConfig, a: GridAccount, r: GridAccount, level: real, e: GridEntry, size: real)
    requires 2 <= g.levels && Lots(env, g, a) && SoundLot(env, g, level, e, size)
    requires r.filled == a.filled[level := size] && r.entries == a.entries[level := e]
    ensures Lots(env, g, r)
  {
    hide SoundLot;
    forall l | l in r.filled
      ensures LotAt(env, g, r, l)
    {
      assert l != level ==> LotAt(env, g, a, l);
    }
  }

  lemma BuyKeeps(env: Env, g: GridConfig, a: GridAccount, level: real, now: int, idx: int)
    requires env.spec.kind == Grid(g) && 0.0 < level && IsLevel(g, level)
    requires GridBalanced(env, a) && Lots(env, g, a)
    ensures GridBalanced(env, Buy(env, g, a, level, now, idx)) && Lots(env, g, Buy(env, g, a, level, now, idx))
  {
    if level !in a.filled {
      var e, size := LotOfBuy(env, g, a, level, now, idx);
      assert SoundLot(env, g, level, e, size);
      hide IsLevel, SoundLot, LotAt, GridLevels, Slip, PerLevelNotional, Buy, LotCost, Total;
      LotBought(env, a, Buy(env, g, a, level, now, idx), level, e, size);
      LotsGrow(env, g, a, Buy(env, g, a, level, now, idx), level, e, size);
    }
  }

  /** Removing a lot for its pnl keeps the books balanced. */
  lemma LotRemoved(env: Env, a: GridAccount, r: GridAccount, level: real, t: Trade, exitFee: real)
    requires GridBalanced(env, a) && level in a.filled
    requires t.pnl == r.cash - a.cash - LotCost(a.entries[level], a.filled[level])
    requires t.feesPaid == a.entries[level].fee + exitFee
    requires r == GridAccount(r.cash, a.filled - {level}, a.entries - {level}, a.trades + [t], a.realized + t.pnl,
        a.feesPaid + exitFee)
    ensures GridBalanced(env, r)
  {
    hide LotCost, Total;
    assert Costs(r) == Costs(a) - {level};
    TotalRemove(Costs(a), level);
    assert EntryFees(r) == EntryFees(a) - {level};
    TotalRemove(EntryFees(a), level);
    SumsSnoc(a.trades, t);
  }

  lemma LotOfSell(env: Env, a: GridAccount, level: real, px: real, now: int, idx: int, reason: ExitReason)
    returns (t: Trade, exitFee: real)
    requires a.Valid() && level in a.filled
    ensures var r := Sell(env, a, level, px, now, idx, reason);
      && r == GridAccount(r.cash, a.filled - {level}, a.entries - {level}, a.trades + [t], a.realized + t.pnl,
        a.feesPaid + exitFee)
      && t.pnl == r.cash - a.cash - LotCost(a.entries[level], a.filled[level])
      && t.feesPaid == a.entries[level].fee + exitFee
  {
    var size, e := a.filled[level], a.entries[level];
    t, exitFee := LotSold(env, size, e, px, now, idx, reason), px * size * env.spec.taker;
    hide PnlPct;
    DistributeSub(size, px, e.price);
  }

  lemma LotsShrink(env: Env, g: GridConfig, a: GridAccount, r: GridAccount, level: real)
    requires 2 <= g.levels && Lots(env, g, a)
    requires r.filled == a.filled - {level} && r.entries == a.entries - {level}
    ensures Lots(env, g, r)
  {
    hide SoundLot;
    forall l | l in r.filled
      ensures LotAt(env, g, r, l)
    {
      assert LotAt(env, g, a, l);
    }
  }

  lemma SellKeeps(env: Env, g: GridConfig, a: GridAccount, level: real, px: real, now: int, idx: int,
                  reason: ExitReason)
    requires 2 <= g.levels && level in a.filled
    requires GridBalanced(env, a) && Lots(env, g, a)
    ensures var r := Sell(env, a, level, px, now, idx, reason);
      GridBalanced(env, r) && Lots(env, g, r)
  {
    hide Sell, LotCost, LotAt, Total;
    var t, exitFee := LotOfSell(env, a, level, px, now, idx, reason);
    LotRemoved(env, a, Sell(env, a, level, px, now, idx, reason), level, t, exitFee);
    LotsShrink(env, g, a, Sell(env, a, level, px, now, idx, reason), level);
  }

  ghost predicate AllOnGrid(g: GridConfig, buys: seq<real>)
    requires 2 <= g.levels
  {
    forall i | 0 <= i < |buys| :: IsLevel(g, buys[i])
  }

  ghost predicate SignalsOnGrid(g: GridConfig, sigs: seq<BarSignal>)
    requires 2 <= g.levels
  {
    forall i | 0 <= i < |sigs| :: AllOnGrid(g, sigs[i].gridBuyLevels)
  }

  lemma {:induction false} BuyAllKeeps(env: Env, g: GridConfig, a: GridAccount, levels: seq<real>, now: int, idx: int)
    requires env.spec.kind == Grid(g) && PositiveLevels(levels) && AllOnGrid(g, levels)
    requires GridBalanced(env, a) && Lots(env, g, a)
    ensures var r := BuyAll(env, g, a, levels, now, idx);
      GridBalanced(env, r) && Lots(env, g, r) && r.trades == a.trades
    decreases |levels|
  {
    hide GridBalanced, Lots, IsLevel, GridLevels;
    if levels != [] {
      BuyKeeps(env, g, a, levels[0], now, idx);
      BuyAllKeeps(env, g, Buy(env, g, a, levels[0], now, idx), levels[1..], now, idx);
    }
  }

  /** Every trade so far took profit: it sold a level's lot at that level's target. */
  ghost predicate TookProfit(env: Env, g: GridConfig, t: Trade)
    requires 2 <= g.levels
  {
    && t.exitReason == TakeProfit
    && exists l :: IsLevel(g, l) && SoldAtTarget(env, g, t, l)
  }

  ghost predicate SoldAtTarget(env: Env, g: GridConfig, t: Trade, l: real)
    requires 2 <= g.levels
  {
    var target := GridTarget(GridLevels(g), l);
    && target.Some? && 0.0 < l && 0.0 < t.size
    && t.entryPrice == Slip(env.config, l, false)
    && t.exitPrice == Slip(env.config, target.value, true)
    && t.pnl == LotPnl(env, t.size, l, target.value)
  }

  /** A lot's pnl when bought at `l` and sold at `target`: the gain left after slippage and both fees. */
  function LotPnl(env: Env, size: real, l: real, target: real): real {
    size * Margin(env, l, target)
  }

  /** What one unit bought at `l` and sold at `target` leaves after slippage and both fees. */
  function Margin(env: Env, l: real, target: real): real {
    Slip(env.config, target, true) * (1.0 - env.spec.taker) - Slip(env.config, l, false) * (1.0 + env.spec.taker)
  }

  lemma LotPnlIs(size: real, px: real, entry: real, taker: real, notional: real, fee: real)
    requires entry * size == notional && fee == notional * taker
    ensures (px - entry) * size - fee - px * size * taker == size * (px * (1.0 - taker) - entry * (1.0 + taker))
  {
  }

  lemma TargetTrade(env: Env, g: GridConfig, level: real, e: GridEntry, size: real, now: int, idx: int)
    requires 2 <= g.levels && SoundLot(env, g, level, e, size) && GridTarget(GridLevels(g), level).Some?
    ensures var px := Slip(env.config, GridTarget(GridLevels(g), level).value, true);
      SoldAtTarget(env, g, LotSold(env, size, e, px, now, idx, TakeProfit), level)
  {
    hide IsLevel, GridLevels, GridTarget, PerLevelNotional, PnlPct, Slip;
    var px := Slip(env.config, GridTarget(GridLevels(g), level).value, true);
    LotPnlIs(size, px, e.price, env.spec.taker, PerLevelNotional(env, g), e.fee);
  }

  lemma SellIfReachedKeeps(env: Env, g: GridConfig, a: GridAccount, level: real, close: real, now: int, idx: int)
    requires 2 <= g.levels && level in a.filled
    requires GridBalanced(env, a) && Lots(env, g, a)
    ensures var r := SellIfReached(env, g, a, level, close, now, idx);
      && GridBalanced(env, r) && Lots(env, g, r)
      && (r == a || (|r.trades| == |a.trades| + 1 && r.trades[..|a.trades|] == a.trades
        && TookProfit(env, g, r.trades[|a.trades|])))
  {
    hide IsLevel, GridLevels, GridTarget, GridBalanced, SoundLot, LotSold, SoldAtTarget, Slip;
    if Reached(GridLevels(g), level, close) {
      var px := Slip(env.config, GridTarget(GridLevels(g), level).value, true);
      SellKeeps(env, g, a, level, px, now, idx, TakeProfit);
      assert LotAt(env, g, a, level);
      assert IsLevel(g, level) by { SoundLevel(env, g, level, a.entries[level], a.filled[level]); }
      TargetTrade(env, g, level, a.entries[level], a.filled[level], now, idx);
      SoldForTarget(env, a.filled[level], a.entries[level], px, now, idx);
    }
  }

  lemma SoundLevel(env: Env, g: GridConfig, level: real, e: GridEntry, size: real)
    requires 2 <= g.levels && SoundLot(env, g, level, e, size)
    ensures IsLevel(g, level)
  {
  }

  lemma SoldForTarget(env: Env, size: real, e: GridEntry, px: real, now: int, idx: int)
    ensures LotSold(env, size, e, px, now, idx, TakeProfit).exitReason == TakeProfit
  {
  }

  ghost predicate AllTookProfit(env: Env, g: GridConfig, ts: seq<Trade>)
    requires 2 <= g.levels
  {
    forall i | 0 <= i < |ts| :: TookProfit(env, g, ts[i])
  }

  lemma {:induction false} SellReachedKeeps(env: Env, g: GridConfig, a: GridAccount, keys: seq<real>, close: real,
                                            now: int, idx: int)
    requires 2 <= g.levels && AllHeld(a, keys)
    requires GridBalanced(env, a) && Lots(env, g, a) && AllTookProfit(env, g, a.trades)
    ensures var r := SellReached(env, g, a, keys, close, now, idx);
      GridBalanced(env, r) && Lots(env, g, r) && AllTookProfit(env, g, r.trades)
    decreases |keys|
  {
    hide GridBalanced, Lots, TookProfit, SellIfReached;
    if keys != [] {
      FirstHeld(a, keys);
      SellIfReachedKeeps(env, g, a, keys[0], close, now, idx);
      var b := SellIfReached(env, g, a, keys[0], close, now, idx);
      assert AllTookProfit(env, g, b.trades) by {
        forall i | 0 <= i < |b.trades|
          ensures TookProfit(env, g, b.trades[i])
        {
          assert i < |a.trades| ==> b.trades[i] == a.trades[i];
        }
      }
      StillHeld(a, b, keys);
      SellReachedKeeps(env, g, b, keys[1..], close, now, idx);
    }
  }

  lemma GridStart(env: Env, g: GridConfig)
    requires 2 <= g.levels
    ensures var a := NewGridAccount(env);
      GridBalanced(env, a) && Lots(env, g, a) && AllTookProfit(env, g, a.trades)
  {
    assert Costs(NewGridAccount(env)) == map[];
    assert EntryFees(NewGridAccount(env)) == map[];
  }

  /** After every bar of every grid run: balanced books, sound lots, and only take-profit trades. */
  lemma {:induction false} GridRunKeeps(env: Env, g: GridConfig, bars: seq<OHLCVBar>, sigs: seq<BarSignal>, n: nat)
    requires env.spec.kind == Grid(g) && n <= |bars| == |sigs| && PositiveBuys(sigs) && SignalsOnGrid(g, sigs)
    ensures var a := GridRun(env, g, bars, sigs, n);
      GridBalanced(env, a) && Lots(env, g, a) && AllTookProfit(env, g, a.trades)
  {
    hide GridBalanced, Lots, AllTookProfit, SellReached, BuyAll, IsLevel, GridLevels;
    if n == 0 {
      GridStart(env, g);
    } else {
      GridRunKeeps(env, g, bars, sigs, n - 1);
      var a, buys := GridRun(env, g, bars, sigs, n - 1), PendingBuys(sigs, n - 1);
      assert AllOnGrid(g, buys);
      BuyAllKeeps(env, g, a, buys, bars[n - 1].time, n - 1);
      var b := BuyAll(env, g, a, buys, bars[n - 1].time, n - 1);
      SortedHeld(b);
      SellReachedKeeps(env, g, b, Sorted(b.filled.Keys), bars[n - 1].close, bars[n - 1].time, n - 1);
    }
  }

  lemma {:induction false} SellAllKeeps(env: Env, g: GridConfig, a: GridAccount, keys: seq<real>, close: real,
                                        now: int, idx: int)
    requires 2 <= g.levels && AllHeld(a, keys)
    requires GridBalanced(env, a) && Lots(env, g, a)
    ensures GridBalanced(env, SellAll(env, a, keys, close, now, idx))
    decreases |keys|
  {
    hide GridBalanced, Lots, Sell, Slip;
    if keys != [] {
      FirstHeld(a, keys);
      SellKeeps(env, g, a, keys[0], Slip(env.config, close, true), now, idx, EndOfData);
      var b := Sell(env, a, keys[0], Slip(env.config, close, true), now, idx, EndOfData);
      StillHeld(a, b, keys);
      SellAllKeeps(env, g, b, keys[1..], close, now, idx);
    }
  }

  /** A grid backtest's final cash is its initial cash plus the pnl of all its trades; realized and fees agree. */
  lemma GridConservation(env: Env, g: GridConfig, bars: seq<OHLCVBar>, sigs: seq<BarSignal>)
    requires env.spec.kind == Grid(g) && |bars| == |sigs| && PositiveBuys(sigs) && SignalsOnGrid(g, sigs)
    ensures var f := GridFinal(env, g, bars, sigs);
      && f.cash == env.config.initialCash + SumPnl(f.trades)
      && f.realized == SumPnl(f.trades) && f.feesPaid == SumFees(f.trades)
  {
    hide GridRun, GridBalanced, Lots, AllTookProfit, GridLiquidated;
    var n := |bars|;
    if n == 0 {
      GridStart(env, g);
    } else {
      GridRunKeeps(env, g, bars, sigs, n);
      LiquidationKeeps(env, g, GridRun(env, g, bars, sigs, n), bars[n - 1], n - 1);
    }
    EmptyBooks(env, GridFinal(env, g, bars, sigs));
  }

  lemma LiquidationKeeps(env: Env, g: GridConfig, a: GridAccount, last: OHLCVBar, idx: int)
    requires 2 <= g.levels && GridBalanced(env, a) && Lots(env, g, a)
    ensures GridBalanced(env, GridLiquidated(env, a, last, idx))
  {
    SortedHeld(a);
    hide Sorted, SellAll;
    SellAllKeeps(env, g, a, Sorted(a.filled.Keys), last.close, last.time, idx);
  }

  lemma EmptyBooks(env: Env, f: GridAccount)
    requires GridBalanced(env, f) && f.filled == map[] && f.entries == map[]
    ensures f.cash == env.config.initialCash + SumPnl(f.trades)
    ensures f.realized == SumPnl(f.trades) && f.feesPaid == SumFees(f.trades)
  {
    assert Costs(f) == map[] && EntryFees(f) == map[];
  }

  // ---- the books alone, at whatever positive levels ----

  lemma BuyBalanced(env: Env, g: GridConfig, a: GridAccount, level: real, now: int, idx: int)
    requires env.spec.kind == Grid(g) && 0.0 < level && GridBalanced(env, a)
    ensures GridBalanced(env, Buy(env, g, a, level, now, idx))
  {
    if level !in a.filled {
      var e, size := LotOfBuy(env, g, a, level, now, idx);
      hide Buy, LotCost, Total, PerLevelNotional;
      LotBought(env, a, Buy(env, g, a, level, now, idx), level, e, size);
    }
  }

  lemma {:induction false} BuyAllBalanced(env: Env, g: GridConfig, a: GridAccount, levels: seq<real>, now: int,
                                          idx: int)
    requires env.spec.kind == Grid(g) && PositiveLevels(levels) && GridBalanced(env, a)
    ensures GridBalanced(env, BuyAll(env, g, a, levels, now, idx))
    decreases |levels|
  {
    hide GridBalanced;
    if levels != [] {
      PositiveSplit(levels);
      BuyBalanced(env, g, a, levels[0], now, idx);
      BuyAllBalanced(env, g, Buy(env, g, a, levels[0], now, idx), levels[1..], now, idx);
    }
  }

  lemma SellBalanced(env: Env, a: GridAccount, level: real, px: real, now: int, idx: int, reason: ExitReason)
    requires level in a.filled && GridBalanced(env, a)
    ensures GridBalanced(env, Sell(env, a, level, px, now, idx, reason))
  {
    hide Sell, LotCost, Total;
    var t, exitFee := LotOfSell(env, a, level, px, now, idx, reason);
    LotRemoved(env, a, Sell(env, a, level, px, now, idx, reason), level, t, exitFee);
  }

  lemma {:induction false} SellReachedBalanced(env: Env, g: GridConfig, a: GridAccount, keys: seq<real>, close: real,
                                               now: int, idx: int)
    requires 2 <= g.levels && AllHeld(a, keys) && GridBalanced(env, a)
    ensures GridBalanced(env, SellReached(env, g, a, keys, close, now, idx))
    decreases |keys|
  {
    hide GridBalanced, Sell, GridLevels, GridTarget, Slip;
    if keys != [] {
      FirstHeld(a, keys);
      if Reached(GridLevels(g), keys[0], close) {
        SellBalanced(env, a, keys[0], Slip(env.config, GridTarget(GridLevels(g), keys[0]).value, true), now, idx,
          TakeProfit);
      }
      var b := SellIfReached(env, g, a, keys[0], close, now, idx);
      StillHeld(a, b, keys);
      SellReachedBalanced(env, g, b, keys[1..], close, now, idx);
    }
  }

  lemma {:induction false} SellAllBalanced(env: Env, a: GridAccount, keys: seq<real>, close: real, now: int, idx: int)
    requires AllHeld(a, keys) && GridBalanced(env, a)
    ensures GridBalanced(env, SellAll(env, a, keys, close, now, idx))
    decreases |keys|
  {
    hide GridBalanced, Sell, Slip;
    if keys != [] {
      FirstHeld(a, keys);
      SellBalanced(env, a, keys[0], Slip(env.config, close, true), now, idx, EndOfData);
      var b := Sell(env, a, keys[0], Slip(env.config, close, true), now, idx, EndOfData);
      StillHeld(a, b, keys);
      SellAllBalanced(env, b, keys[1..], close, now, idx);
    }
  }

  // ---- the inventory ----

  /** The share of the initial cash that the whole grid uses. */
  function Allocated(env: Env, g: GridConfig): real {
    env.config.initialCash * (g.allocationPct / 100.0)
  }

  /** What the whole grid may cost: the allocation and its entry fees. */
  function Allocation(env: Env, g: GridConfig): real {
    Allocated(env, g) * (1.0 + env.spec.taker)
  }

  /** What every lot of the grid costs. */
  function FullLot(env: Env, g: GridConfig): real
    requires 2 <= g.levels
  {
    PerLevelNotional(env, g) * (1.0 + env.spec.taker)
  }

  lemma UniformCosts(env: Env, g: GridConfig, a: GridAccount)
    requires 2 <= g.levels && Lots(env, g, a)
    ensures forall l | l in Costs(a) :: Costs(a)[l] == FullLot(env, g)
    ensures |a.filled| <= g.levels
  {
    hide LotCost, PerLevelNotional, FullLot;
    forall l | l in a.filled.Keys
      ensures IsLevel(g, l) && Costs(a)[l] == FullLot(env, g)
    {
      assert LotAt(env, g, a, l);
      LotCostIs(env, g, l, a.entries[l], a.filled[l]);
      hide SoundLot;
    }
    forall l | l in a.filled.Keys
      ensures l in GridLevels(g)
    {
      assert IsLevel(g, l);
    }
    FewerKeys(a.filled.Keys, GridLevels(g));
    assert |a.filled.Keys| == |a.filled|;
  }

  lemma CostsCount(a: GridAccount)
    requires a.Valid()
    ensures |Costs(a)| == |a.filled|
  {
    assert Costs(a).Keys == a.filled.Keys && |Costs(a)| == |Costs(a).Keys| && |a.filled.Keys| == |a.filled|;
  }

  lemma InventoryBounded(env: Env, g: GridConfig, a: GridAccount)
    requires env.spec.kind == Grid(g) && Lots(env, g, a)
    ensures |a.filled| <= g.levels
    ensures Total(Costs(a)) <= Allocation(env, g)
  {
    assert a.Valid();
    hide Lots, LotCost, Total, GridLevels, FullLot, Allocation, Repeated;
    UniformCosts(env, g, a);
    CostsCount(a);
    TotalConstant(Costs(a), FullLot(env, g));
    LotsWithinAllocation(env, g, |a.filled|, Total(Costs(a)));
  }

  lemma LotsWithinAllocation(env: Env, g: GridConfig, n: nat, total: real)
    requires env.spec.kind == Grid(g) && n <= g.levels && total == Repeated(n, FullLot(env, g))
    ensures total <= Allocation(env, g)
  {
    PerLevelPositive(env, g);
    hide PerLevelNotional, Allocated;
    LotsCostAtMost(n as real, g.levels as real, PerLevelNotional(env, g), 1.0 + env.spec.taker, Allocated(env, g),
                   FullLot(env, g), total, Allocation(env, g));
  }

  lemma LotCostIs(env: Env, g: GridConfig, l: real, e: GridEntry, size: real)
    requires 2 <= g.levels && SoundLot(env, g, l, e, size)
    ensures LotCost(e, size) == FullLot(env, g)
  {
    hide PerLevelNotional, Slip, IsLevel;
    Distribute(PerLevelNotional(env, g), 1.0, env.spec.taker);
  }

  lemma LotsCostAtMost(n: real, levels: real, share: real, withFee: real, budget: real, lot: real, total: real,
                       allocation: real)
    requires n <= levels && 0.0 <= share && 0.0 <= withFee
    requires share * levels == budget && lot == share * withFee
    requires total == n * lot && allocation == budget * withFee
    ensures total <= allocation
  {
    MulNonneg(share, withFee);
    MulMono(n, levels, lot);
    assert levels * (share * withFee) == (share * levels) * withFee;
  }

  /**
   In every reachable grid state the two dictionaries hold the same levels, all of them grid levels, and the open
   lots cost at most the allocation with its entry fees.
   */
  lemma GridInventoryBound(env: Env, g: GridConfig, bars: seq<OHLCVBar>, sigs: seq<BarSignal>, n: nat)
    requires env.spec.kind == Grid(g) && n <= |bars| == |sigs| && PositiveBuys(sigs) && SignalsOnGrid(g, sigs)
    ensures var a := GridRun(env, g, bars, sigs, n);
      && a.filled.Keys == a.entries.Keys
      && (forall l | l in a.filled :: IsLevel(g, l))
      && Total(Costs(a)) <= Allocation(env, g)
      && a.cash >= env.config.initialCash - Allocation(env, g) + SumPnl(a.trades)
  {
    GridRunKeeps(env, g, bars, sigs, n);
    var a := GridRun(env, g, bars, sigs, n);
    InventoryBounded(env, g, a);
    hide GridRun, GridLevels, PerLevelNotional, Allocation;
    forall l | l in a.filled
      ensures IsLevel(g, l)
    {
      assert LotAt(env, g, a, l);
    }
  }

  // ---- when a grid must profit ----

  /** The spread from a level to its target covers slippage and both fees. */
  ghost predicate CoversCosts(env: Env, l: real, target: real) {
    Slip(env.config, l, false) * (1.0 + env.spec.taker) < Slip(env.config, target, true) * (1.0 - env.spec.taker)
  }

  lemma ProfitIff(env: Env, size: real, l: real, target: real)
    requires 0.0 < size
    ensures 0.0 < LotPnl(env, size, l, target) <==> CoversCosts(env, l, target)
  {
    assert CoversCosts(env, l, target) <==> 0.0 < Margin(env, l, target);
    hide CoversCosts, Margin;
    var gain := Margin(env, l, target);
    if 0.0 < gain { MulPositive(size, gain); } else { MulMono(gain, 0.0, size); }
  }

  lemma {:induction false} SumOfProfits(ts: seq<Trade>)
    requires forall i | 0 <= i < |ts| :: 0.0 < ts[i].pnl
    ensures 0.0 <= SumPnl(ts)
  {
    if ts != [] {
      SumOfProfits(ts[..|ts| - 1]);
    }
  }

  /**
   A take-profit trade earns money exactly when its level's spread covers the costs. If every level's does, the cash
   never falls below what the allocation leaves.
   */
  lemma GridProfits(env: Env, g: GridConfig, bars: seq<OHLCVBar>, sigs: seq<BarSignal>, n: nat)
    requires env.spec.kind == Grid(g) && n <= |bars| == |sigs| && PositiveBuys(sigs) && SignalsOnGrid(g, sigs)
    requires forall l | IsLevel(g, l) && GridTarget(GridLevels(g), l).Some? ::
      CoversCosts(env, l, GridTarget(GridLevels(g), l).value)
    ensures var a := GridRun(env, g, bars, sigs, n);
      && (forall i | 0 <= i < |a.trades| :: 0.0 < a.trades[i].pnl)
      && a.cash >= env.config.initialCash - Allocation(env, g)
  {
    GridRunKeeps(env, g, bars, sigs, n);
    GridInventoryBound(env, g, bars, sigs, n);
    var a := GridRun(env, g, bars, sigs, n);
    hide GridRun, GridLevels, GridTarget, CoversCosts, Allocation;
    forall i | 0 <= i < |a.trades|
      ensures 0.0 < a.trades[i].pnl
    {
      assert TookProfit(env, g, a.trades[i]);
      var l :| IsLevel(g, l) && SoldAtTarget(env, g, a.trades[i], l);
      ProfitIff(env, a.trades[i].size, l, GridTarget(GridLevels(g), l).value);
    }
    SumOfProfits(a.trades);
  }

  /** Without fees and slippage every level covers its costs, so the cash never falls below the unallocated share. */
  lemma FrictionlessGridProfits(env: Env, g: GridConfig, bars: seq<OHLCVBar>, sigs: seq<BarSignal>, n: nat)
    requires env.spec.kind == Grid(g) && n <= |bars| == |sigs| && PositiveBuys(sigs) && SignalsOnGrid(g, sigs)
    requires env.spec.taker == 0.0 && env.config.slippagePct == 0.0
    ensures var a := GridRun(env, g, bars, sigs, n);
      && (forall i | 0 <= i < |a.trades| :: 0.0 < a.trades[i].pnl)
      && a.cash >= env.config.initialCash * (1.0 - g.allocationPct / 100.0)
  {
    hide GridRun, GridLevels, GridTarget, CoversCosts, Allocation, IsLevel;
    forall l | IsLevel(g, l) && GridTarget(GridLevels(g), l).Some?
      ensures CoversCosts(env, l, GridTarget(GridLevels(g), l).value)
    {
      FrictionlessCovers(env, l, GridTarget(GridLevels(g), l).value);
    }
    GridProfits(env, g, bars, sigs, n);
    FrictionlessAllocation(env, g);
  }

  lemma FrictionlessCovers(env: Env, l: real, target: real)
    requires env.spec.taker == 0.0 && env.config.slippagePct == 0.0 && l < target
    ensures CoversCosts(env, l, target)
  {
  }

  lemma FrictionlessAllocation(env: Env, g: GridConfig)
    requires env.spec.taker == 0.0
    ensures env.config.initialCash - Allocation(env, g) == env.config.initialCash * (1.0 - g.allocationPct / 100.0)
  {
    DistributeSub(env.config.initialCash, 1.0, g.allocationPct / 100.0);
  }
}

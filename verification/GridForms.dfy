/** Where a grid's levels lie, and every trade a grid run records, accounted for in them. */
module GridForms {
  import opened Domain
  import opened RealArithmetic
  import opened FillModel
  import opened Sorting
  import opened GridEngine
  import opened GridLedger
  import opened TradeForms

  // ---- the levels ----

  /** `l` is the `j`-th of the grid's levels, which divide its range evenly. */
  ghost predicate LevelIs(g: GridConfig, j: nat, l: real) {
    && j < g.levels
    && (l - g.lower) * (g.levels - 1) as real == (g.upper - g.lower) * j as real
  }

  ghost predicate SoundGrid(g: GridConfig) {
    0.0 < g.lower < g.upper && 2 <= g.levels
  }

  lemma StepIs(g: GridConfig)
    requires SoundGrid(g)
    ensures 0.0 < Step(g) && Step(g) * (g.levels - 1) as real == g.upper - g.lower
  {
    var n := (g.levels - 1) as real;
    DivMul(g.upper - g.lower, n);
    var step := Step(g);
    if step <= 0.0 { MulMono(step, 0.0, n); }
  }

  lemma Regroup(step: real, j: real, n: real, range: real)
    requires step * n == range
    ensures step * j * n == range * j
  {
  }

  lemma LevelAtIndex(g: GridConfig, j: nat)
    requires SoundGrid(g) && j < g.levels
    ensures LevelIs(g, j, GridLevels(g)[j]) && GridLevels(g)[j] == g.lower + Product(j as real, Step(g))
  {
    StepIs(g);
    Regroup(Step(g), j as real, (g.levels - 1) as real, g.upper - g.lower);
    hide Step;
  }

  lemma NextLevel(g: GridConfig, j: nat)
    requires SoundGrid(g) && j + 1 < g.levels
    ensures |GridLevels(g)| == g.levels && GridLevels(g)[j + 1] - GridLevels(g)[j] == Step(g)
  {
    LevelAtIndex(g, j);
    LevelAtIndex(g, j + 1);
    ProductNext(j, Step(g));
    assert |GridLevels(g)| == g.levels;
    hide Step, GridLevels, Product;
  }

  lemma LevelsAscend(g: GridConfig, j: nat, k: nat)
    requires SoundGrid(g) && j < k < g.levels
    ensures |GridLevels(g)| == g.levels && GridLevels(g)[j] < GridLevels(g)[k]
  {
    LevelAtIndex(g, j);
    LevelAtIndex(g, k);
    StepIs(g);
    assert |GridLevels(g)| == g.levels;
    hide Step, GridLevels, Product;
    ProductGrows(j as real, k as real, Step(g));
  }

  /** The levels: as many as configured, from the lower bound to the upper, ascending, and equally far apart. */
  lemma GridLevelsAre(g: GridConfig)
    requires SoundGrid(g)
    ensures var levels := GridLevels(g);
      && |levels| == g.levels && levels[0] == g.lower && levels[g.levels - 1] == g.upper
      && (forall j | 0 <= j < g.levels :: LevelIs(g, j, levels[j]))
      && (forall j, k | 0 <= j < k < g.levels :: levels[j] < levels[k])
      && (forall j | 0 <= j < g.levels - 1 :: levels[j + 1] - levels[j] == levels[1] - levels[0])
  {
    LevelAtIndex(g, 0);
    LevelAtIndex(g, g.levels - 1);
    StepIs(g);
    NextLevel(g, 0);
    assert |GridLevels(g)| == g.levels;
    hide Step, GridLevels, LevelIs;
    forall j: nat | j < g.levels ensures LevelIs(g, j, GridLevels(g)[j]) {
      LevelAtIndex(g, j);
    }
    forall j: nat, k: nat | j < k < g.levels ensures GridLevels(g)[j] < GridLevels(g)[k] {
      LevelsAscend(g, j, k);
    }
    forall j: nat | j < g.levels - 1 ensures GridLevels(g)[j + 1] - GridLevels(g)[j] == Step(g) {
      NextLevel(g, j);
    }
  }

  /** A lot's target is the next level up; the top level has none. */
  lemma TargetIs(g: GridConfig, j: nat)
    requires SoundGrid(g) && j < g.levels
    ensures var levels := GridLevels(g);
      |levels| == g.levels
      && GridTarget(levels, levels[j]) == if j + 1 < g.levels then Some(levels[j + 1]) else None
  {
    GridLevelsAre(g);
    var levels := GridLevels(g);
    hide GridLevels, GridTarget, LevelIs;
    var target := GridTarget(levels, levels[j]);
    if j + 1 < g.levels { assert levels[j] < levels[j + 1]; }
    if target.Some? {
      var k :| 0 <= k < |levels| && levels[k] == target.value;
      assert k == j + 1;
    }
  }

  // ---- lots and trades ----

  /** A level's share of the allocation, bought at `price`: the same quote amount at every level. */
  ghost predicate LevelShare(env: Env, g: GridConfig, price: real, size: real) {
    100.0 * Product(Product(price, size), g.levels as real) == Product(env.config.initialCash, g.allocationPct)
  }

  /** A lot of the `j`-th level, bought in bar `i` because the bar before triggered the level. */
  ghost predicate LotFrom(env: Env, g: GridConfig, bars: seq<OHLCVBar>, sigs: seq<BarSignal>, j: nat, i: nat, l: real,
                          entryTime: int, price: real, size: real)
    requires 2 <= g.levels && |bars| == |sigs|
  {
    && j < |GridLevels(g)| && l == GridLevels(g)[j]
    && 1 <= i < |bars| && l in sigs[i - 1].gridBuyLevels && entryTime == bars[i].time
    && FilledAt(env.config, l, true, price) && LevelShare(env, g, price, size)
  }

  /** What the books hold for level `l`. */
  ghost predicate OpenLot(env: Env, g: GridConfig, bars: seq<OHLCVBar>, sigs: seq<BarSignal>, l: real, e: GridEntry,
                          size: real)
    requires 2 <= g.levels && |bars| == |sigs|
  {
    && 0 <= e.barIndex && e.fee == Product(Product(e.price, size), env.spec.taker)
    && exists j: nat :: LotFrom(env, g, bars, sigs, j, e.barIndex, l, e.time, e.price, size)
  }

  /** Sold in bar `x`: at the next level up, which its close has reached, or at the close of the last bar. */
  ghost predicate SoldIn(env: Env, g: GridConfig, bars: seq<OHLCVBar>, j: nat, x: nat, t: Trade)
    requires 2 <= g.levels
  {
    && x < |bars| && t.exitTime == bars[x].time
    && match t.exitReason
       case TakeProfit => j + 1 < |GridLevels(g)| && GridLevels(g)[j + 1] <= bars[x].close
         && FilledAt(env.config, GridLevels(g)[j + 1], false, t.exitPrice)
       case EndOfData => x == |bars| - 1 && FilledAt(env.config, bars[x].close, false, t.exitPrice)
       case _ => false
  }

  ghost predicate LotTrade(env: Env, g: GridConfig, bars: seq<OHLCVBar>, sigs: seq<BarSignal>, t: Trade)
    requires 2 <= g.levels && |bars| == |sigs|
  {
    && t.side.Long? && t.fundingPaid == 0.0 && Settled(env, t)
    && exists j: nat, i: nat, x: nat, l :: LotTradeAt(env, g, bars, sigs, t, j, i, x, l)
  }

  ghost predicate LotTradeAt(env: Env, g: GridConfig, bars: seq<OHLCVBar>, sigs: seq<BarSignal>, t: Trade, j: nat,
                             i: nat, x: nat, l: real)
    requires 2 <= g.levels && |bars| == |sigs|
  {
    && i + t.barsHeld == x && LotFrom(env, g, bars, sigs, j, i, l, t.entryTime, t.entryPrice, t.size)
    && SoldIn(env, g, bars, j, x, t)
  }

  ghost predicate AllOpenLots(env: Env, g: GridConfig, bars: seq<OHLCVBar>, sigs: seq<BarSignal>, a: GridAccount)
    requires 2 <= g.levels && |bars| == |sigs|
  {
    && a.Valid()
    && forall l | l in a.filled :: OpenLot(env, g, bars, sigs, l, a.entries[l], a.filled[l])
  }

  ghost predicate AllLotTrades(env: Env, g: GridConfig, bars: seq<OHLCVBar>, sigs: seq<BarSignal>, ts: seq<Trade>)
    requires 2 <= g.levels && |bars| == |sigs|
  {
    forall k | 0 <= k < |ts| :: LotTrade(env, g, bars, sigs, ts[k])
  }

  ghost predicate GridKept(env: Env, g: GridConfig, bars: seq<OHLCVBar>, sigs: seq<BarSignal>, a: GridAccount)
    requires 2 <= g.levels && |bars| == |sigs|
  {
    AllOpenLots(env, g, bars, sigs, a) && AllLotTrades(env, g, bars, sigs, a.trades)
  }

  // ---- buying ----

  lemma ShareIs(cash: real, pct: real, levels: real, share: real, amount: real)
    requires share * levels == cash * (pct / 100.0) && amount == share
    ensures 100.0 * Product(amount, levels) == Product(cash, pct)
  {
  }

  lemma BoughtShare(env: Env, g: GridConfig, px: real)
    requires env.spec.kind == Grid(g) && 0.0 < px
    ensures var size := PerLevelNotional(env, g) / px;
      LevelShare(env, g, px, size) && px * size * env.spec.taker == Product(Product(px, size), env.spec.taker)
  {
    var size := PerLevelNotional(env, g) / px;
    DivMul(env.config.initialCash * (g.allocationPct / 100.0), g.levels as real);
    DivMul(PerLevelNotional(env, g), px);
    FeeIs(px, size, env.spec.taker);
    ShareIs(env.config.initialCash, g.allocationPct, g.levels as real, PerLevelNotional(env, g), Product(px, size));
  }

  lemma BuyForms(env: Env, g: GridConfig, bars: seq<OHLCVBar>, sigs: seq<BarSignal>, a: GridAccount, level: real,
                 n: nat)
    requires env.spec.kind == Grid(g) && |bars| == |sigs| && 1 <= n < |bars|
    requires 0.0 < level && level in sigs[n - 1].gridBuyLevels && IsLevel(g, level) && level !in a.filled
    ensures a.Valid() ==> var r := Buy(env, g, a, level, bars[n].time, n);
      && level in r.filled && OpenLot(env, g, bars, sigs, level, r.entries[level], r.filled[level])
      && r.filled == a.filled[level := r.filled[level]] && r.entries == a.entries[level := r.entries[level]]
      && r.trades == a.trades
  {
    if a.Valid() {
      BuyPricePositive(env, level);
      var px := Slip(env.config, level, false);
      SlipFills(env.config, level, true);
      BoughtShare(env, g, px);
      var j: nat :| j < |GridLevels(g)| && GridLevels(g)[j] == level;
      hide Slip, FilledAt, LevelShare, PerLevelNotional, GridLevels, Product;
      var size := PerLevelNotional(env, g) / px;
      assert LotFrom(env, g, bars, sigs, j, n, level, bars[n].time, px, size);
    }
  }

  lemma BuyKept(env: Env, g: GridConfig, bars: seq<OHLCVBar>, sigs: seq<BarSignal>, a: GridAccount, level: real, n: nat)
    requires env.spec.kind == Grid(g) && |bars| == |sigs| && 1 <= n < |bars|
    requires 0.0 < level && level in sigs[n - 1].gridBuyLevels && IsLevel(g, level)
    requires GridKept(env, g, bars, sigs, a)
    ensures GridKept(env, g, bars, sigs, Buy(env, g, a, level, bars[n].time, n))
  {
    if level !in a.filled {
      BuyForms(env, g, bars, sigs, a, level, n);
      hide Buy, OpenLot, AllLotTrades, IsLevel;
    } else {
      BuyHeld(env, g, a, level, bars[n].time, n);
    }
  }

  lemma {:induction false} BuyAllKept(env: Env, g: GridConfig, bars: seq<OHLCVBar>, sigs: seq<BarSignal>,
                                      a: GridAccount, buys: seq<real>, n: nat)
    requires env.spec.kind == Grid(g) && |bars| == |sigs| && 1 <= n < |bars|
    requires PositiveLevels(buys) && AllOnGrid(g, buys)
    requires forall k | 0 <= k < |buys| :: buys[k] in sigs[n - 1].gridBuyLevels
    requires GridKept(env, g, bars, sigs, a)
    ensures GridKept(env, g, bars, sigs, BuyAll(env, g, a, buys, bars[n].time, n))
    decreases |buys|
  {
    hide GridKept, IsLevel, Buy;
    if buys != [] {
      BuyKept(env, g, bars, sigs, a, buys[0], n);
      BuyAllKept(env, g, bars, sigs, Buy(env, g, a, buys[0], bars[n].time, n), buys[1..], n);
    }
  }

  // ---- selling ----

  lemma LotSoldPercent(env: Env, size: real, e: GridEntry, px: real, now: int, idx: int, reason: ExitReason)
    ensures var t, bought := LotSold(env, size, e, px, now, idx, reason), Product(e.price, size);
      if bought == 0.0 then t.pnlPct == 0.0 else Product(t.pnlPct, bought) == 100.0 * t.pnl
  {
    PercentIs(LotSold(env, size, e, px, now, idx, reason).pnl, e.price * size);
  }

  lemma LotGain(px: real, price: real, size: real)
    ensures (px - price) * size == Product(px, size) - Product(price, size)
  {
  }

  lemma LotSettled(env: Env, size: real, e: GridEntry, px: real, now: int, idx: int, reason: ExitReason)
    requires e.fee == Product(Product(e.price, size), env.spec.taker)
    ensures Settled(env, LotSold(env, size, e, px, now, idx, reason))
  {
    FeeIs(px, size, env.spec.taker);
    LotGain(px, e.price, size);
    LotSoldPercent(env, size, e, px, now, idx, reason);
    hide PnlPct, Product;
  }

  /** Selling an open lot records a trade of the kind. */
  lemma SoldForms(env: Env, g: GridConfig, bars: seq<OHLCVBar>, sigs: seq<BarSignal>, l: real, e: GridEntry, size: real,
                  j: nat, px: real, x: nat, reason: ExitReason)
    requires 2 <= g.levels && x < |bars| == |sigs| && OpenLot(env, g, bars, sigs, l, e, size)
    requires j < |GridLevels(g)| && l == GridLevels(g)[j] && SoundGrid(g)
    requires SoldIn(env, g, bars, j, x, LotSold(env, size, e, px, bars[x].time, x, reason))
    ensures LotTrade(env, g, bars, sigs, LotSold(env, size, e, px, bars[x].time, x, reason))
  {
    var t := LotSold(env, size, e, px, bars[x].time, x, reason);
    LotSettled(env, size, e, px, bars[x].time, x, reason);
    var k: nat :| LotFrom(env, g, bars, sigs, k, e.barIndex, l, e.time, e.price, size);
    SameIndex(g, j, k);
    hide Settled, FilledAt, LevelShare, GridLevels, PnlPct, Product, SoldIn;
    assert LotTradeAt(env, g, bars, sigs, t, j, e.barIndex, x, l);
  }

  lemma SameIndex(g: GridConfig, j: nat, k: nat)
    requires SoundGrid(g) && j < |GridLevels(g)| && k < |GridLevels(g)| && GridLevels(g)[j] == GridLevels(g)[k]
    ensures j == k
  {
    GridLevelsAre(g);
    hide GridLevels, LevelIs;
  }

  lemma SellForms(env: Env, g: GridConfig, bars: seq<OHLCVBar>, sigs: seq<BarSignal>, a: GridAccount, l: real, j: nat,
                  px: real, x: nat, reason: ExitReason)
    requires 2 <= g.levels && SoundGrid(g) && x < |bars| == |sigs| && GridKept(env, g, bars, sigs, a) && l in a.filled
    requires j < |GridLevels(g)| && l == GridLevels(g)[j]
    requires SoldIn(env, g, bars, j, x, LotSold(env, a.filled[l], a.entries[l], px, bars[x].time, x, reason))
    ensures var r := Sell(env, a, l, px, bars[x].time, x, reason);
      && GridKept(env, g, bars, sigs, r) && r.filled == a.filled - {l} && r.entries == a.entries - {l}
      && r.trades == a.trades + [LotSold(env, a.filled[l], a.entries[l], px, bars[x].time, x, reason)]
  {
    var t := LotSold(env, a.filled[l], a.entries[l], px, bars[x].time, x, reason);
    SoldForms(env, g, bars, sigs, l, a.entries[l], a.filled[l], j, px, x, reason);
    hide LotSold, OpenLot, LotTrade, GridLevels, SoldIn;
  }

  lemma TakenProfit(env: Env, g: GridConfig, bars: seq<OHLCVBar>, j: nat, x: nat, size: real, e: GridEntry)
    requires SoundGrid(g) && x < |bars| && j + 1 < |GridLevels(g)| && GridLevels(g)[j + 1] <= bars[x].close
    ensures var px := Slip(env.config, GridLevels(g)[j + 1], true);
      SoldIn(env, g, bars, j, x, LotSold(env, size, e, px, bars[x].time, x, TakeProfit))
  {
    SlipFills(env.config, GridLevels(g)[j + 1], false);
    hide Slip, FilledAt, GridLevels, PnlPct;
  }

  /** Taking profit on one level, if the close has reached the next. */
  lemma SellIfReachedKept(env: Env, g: GridConfig, bars: seq<OHLCVBar>, sigs: seq<BarSignal>, a: GridAccount, l: real,
                          j: nat, x: nat)
    requires SoundGrid(g) && x < |bars| == |sigs| && GridKept(env, g, bars, sigs, a) && l in a.filled
    requires j < |GridLevels(g)| && l == GridLevels(g)[j]
    ensures var r := SellIfReached(env, g, a, l, bars[x].close, bars[x].time, x);
      && GridKept(env, g, bars, sigs, r) && a.trades <= r.trades
      && r.filled.Keys == (if Tops(g, j, bars[x].close) then a.filled.Keys - {l} else a.filled.Keys)
      && (Tops(g, j, bars[x].close) ==> r.trades != [] && SoldAbove(env, g, bars, j, x, r.trades[|r.trades| - 1]))
  {
    TargetIs(g, j);
    hide GridLevels, GridTarget, Slip, Sell, GridKept, LotSold;
    if Tops(g, j, bars[x].close) {
      var px := Slip(env.config, GridLevels(g)[j + 1], true);
      TakenProfit(env, g, bars, j, x, a.filled[l], a.entries[l]);
      SellForms(env, g, bars, sigs, a, l, j, px, x, TakeProfit);
      SoldReason(env, a.filled[l], a.entries[l], px, bars[x].time, x, TakeProfit);
    }
  }

  lemma SoldReason(env: Env, size: real, e: GridEntry, px: real, now: int, idx: int, reason: ExitReason)
    ensures LotSold(env, size, e, px, now, idx, reason).exitReason == reason
  {
  }

  /** The close has reached the level above the `j`-th. */
  ghost predicate Tops(g: GridConfig, j: nat, close: real)
    requires 2 <= g.levels
  {
    j + 1 < |GridLevels(g)| && GridLevels(g)[j + 1] <= close
  }

  ghost predicate SoldAbove(env: Env, g: GridConfig, bars: seq<OHLCVBar>, j: nat, x: nat, t: Trade)
    requires 2 <= g.levels
  {
    t.exitReason == TakeProfit && SoldIn(env, g, bars, j, x, t)
  }

  /** Every held level has an index. */
  lemma HeldIndex(env: Env, g: GridConfig, bars: seq<OHLCVBar>, sigs: seq<BarSignal>, a: GridAccount, l: real)
    returns (j: nat)
    requires 2 <= g.levels && |bars| == |sigs| && GridKept(env, g, bars, sigs, a) && l in a.filled
    ensures j < |GridLevels(g)| && l == GridLevels(g)[j]
  {
    var e := a.entries[l];
    assert OpenLot(env, g, bars, sigs, l, e, a.filled[l]);
    hide GridLevels, FilledAt, LevelShare, AllLotTrades;
    j :| LotFrom(env, g, bars, sigs, j, e.barIndex, l, e.time, e.price, a.filled[l]);
  }

  /** What one sweep of take-profits does to the level `l`: it keeps it, or sells it for the next level up. */
  ghost predicate Swept(env: Env, g: GridConfig, bars: seq<OHLCVBar>, a: GridAccount, r: GridAccount, j: nat, l: real,
                        x: nat)
    requires 2 <= g.levels && x < |bars|
  {
    && (l in r.filled <==> l in a.filled && !Tops(g, j, bars[x].close))
    && (l in a.filled && Tops(g, j, bars[x].close) ==>
          exists k :: 0 <= k < |r.trades| && SoldAbove(env, g, bars, j, x, r.trades[k]))
  }

  lemma {:induction false} SellReachedKept(env: Env, g: GridConfig, bars: seq<OHLCVBar>, sigs: seq<BarSignal>,
                                           a: GridAccount, keys: seq<real>, x: nat, j: nat, l: real)
    requires SoundGrid(g) && x < |bars| == |sigs| && AllHeld(a, keys) && GridKept(env, g, bars, sigs, a)
    requires j < |GridLevels(g)| && l == GridLevels(g)[j]
    ensures var r := SellReached(env, g, a, keys, bars[x].close, bars[x].time, x);
      && GridKept(env, g, bars, sigs, r) && a.trades <= r.trades
      && (l in keys ==> Swept(env, g, bars, a, r, j, l, x))
      && (l !in keys ==> (l in r.filled <==> l in a.filled))
    decreases |keys|
  {
    if keys != [] {
      FirstHeld(a, keys);
      var b := SellIfReached(env, g, a, keys[0], bars[x].close, bars[x].time, x);
      var r := SellReached(env, g, a, keys, bars[x].close, bars[x].time, x);
      var i := HeldIndex(env, g, bars, sigs, a, keys[0]);
      SellIfReachedKept(env, g, bars, sigs, a, keys[0], i, x);
      StillHeld(a, b, keys);
      hide GridKept, GridLevels, SellIfReached, SoldAbove, Tops;
      SellReachedKept(env, g, bars, sigs, b, keys[1..], x, j, l);
      if l == keys[0] {
        SameIndex(g, i, j);
        assert l !in keys[1..];
        if Tops(g, j, bars[x].close) { assert SoldAbove(env, g, bars, j, x, r.trades[|b.trades| - 1]); }
      } else {
        assert l in keys ==> l in keys[1..];
      }
    }
  }

  // ---- whole runs ----

  /** Level `l` is triggered for a purchase in bar `n`. */
  ghost predicate Due(sigs: seq<BarSignal>, n: nat, l: real)
    requires n <= |sigs|
  {
    1 <= n && l in sigs[n - 1].gridBuyLevels
  }

  lemma PendingKept(env: Env, g: GridConfig, bars: seq<OHLCVBar>, sigs: seq<BarSignal>, a: GridAccount, n: nat)
    requires env.spec.kind == Grid(g) && n < |bars| == |sigs| && PositiveBuys(sigs) && SignalsOnGrid(g, sigs)
    requires GridKept(env, g, bars, sigs, a)
    ensures var b := BuyAll(env, g, a, PendingBuys(sigs, n), bars[n].time, n);
      && GridKept(env, g, bars, sigs, b)
      && (forall l :: l in b.filled <==> l in a.filled || Due(sigs, n, l))
  {
    var buys := PendingBuys(sigs, n);
    hide GridKept, IsLevel, PositiveLevels, Buy;
    if n > 0 {
      assert buys == sigs[n - 1].gridBuyLevels && AllOnGrid(g, sigs[n - 1].gridBuyLevels);
      BuyAllKept(env, g, bars, sigs, a, buys, n);
    }
  }

  /** One bar of a run, seen from the `j`-th level. */
  lemma GridBarForms(env: Env, g: GridConfig, bars: seq<OHLCVBar>, sigs: seq<BarSignal>, n: nat, j: nat)
    requires env.spec.kind == Grid(g) && n < |bars| == |sigs| && PositiveBuys(sigs) && SignalsOnGrid(g, sigs)
    requires j < |GridLevels(g)| && GridKept(env, g, bars, sigs, GridRun(env, g, bars, sigs, n))
    ensures var a, r, l := GridRun(env, g, bars, sigs, n), GridRun(env, g, bars, sigs, n + 1), GridLevels(g)[j];
      && GridKept(env, g, bars, sigs, r)
      && (l in r.filled <==> (l in a.filled || Due(sigs, n, l)) && !Tops(g, j, bars[n].close))
      && ((l in a.filled || Due(sigs, n, l)) && Tops(g, j, bars[n].close) ==>
            exists k :: 0 <= k < |r.trades| && SoldAbove(env, g, bars, j, n, r.trades[k]))
  {
    var a, l := GridRun(env, g, bars, sigs, n), GridLevels(g)[j];
    var b := BuyAll(env, g, a, PendingBuys(sigs, n), bars[n].time, n);
    PendingKept(env, g, bars, sigs, a, n);
    SortedIs(b.filled.Keys);
    SortedHeld(b);
    hide GridKept, GridRun, GridLevels, SoldAbove, Tops, Due, BuyAll, PositiveLevels, Sorted, SellReached;
    GridRunStep(env, g, bars, sigs, n);
    SellReachedKept(env, g, bars, sigs, b, Sorted(b.filled.Keys), n, j, l);
  }

  lemma GridStartKept(env: Env, g: GridConfig, bars: seq<OHLCVBar>, sigs: seq<BarSignal>)
    requires env.spec.kind == Grid(g) && |bars| == |sigs| && PositiveBuys(sigs)
    ensures GridKept(env, g, bars, sigs, GridRun(env, g, bars, sigs, 0))
  {
  }

  lemma LevelCount(env: Env, g: GridConfig)
    requires env.spec.kind == Grid(g)
    ensures 2 <= g.levels && |GridLevels(g)| == g.levels
  {
  }

  lemma {:induction false} GridRunKept(env: Env, g: GridConfig, bars: seq<OHLCVBar>, sigs: seq<BarSignal>, n: nat)
    requires env.spec.kind == Grid(g) && n <= |bars| == |sigs| && PositiveBuys(sigs) && SignalsOnGrid(g, sigs)
    ensures GridKept(env, g, bars, sigs, GridRun(env, g, bars, sigs, n))
  {
    hide *;
    if n == 0 {
      GridStartKept(env, g, bars, sigs);
    } else {
      GridRunKept(env, g, bars, sigs, n - 1);
      LevelCount(env, g);
      GridBarForms(env, g, bars, sigs, n - 1, 0);
    }
  }

  /**
   Which lots a run holds, exactly: after a bar a level is held if and only if it was held before or triggered on the
   bar before, and there is no level above it that the bar's close has reached. In that case its lot was sold for the
   level above, and the sale is on record.
   */
  lemma GridHoldsIff(env: Env, g: GridConfig, bars: seq<OHLCVBar>, sigs: seq<BarSignal>, n: nat, j: nat)
    requires env.spec.kind == Grid(g) && n < |bars| == |sigs| && PositiveBuys(sigs) && SignalsOnGrid(g, sigs)
    requires j < g.levels
    ensures var levels, a, r := GridLevels(g), GridRun(env, g, bars, sigs, n), GridRun(env, g, bars, sigs, n + 1);
      && |levels| == g.levels
      && var bought := levels[j] in a.filled || (1 <= n && levels[j] in sigs[n - 1].gridBuyLevels);
      var reached := j + 1 < g.levels && levels[j + 1] <= bars[n].close;
      && (levels[j] in r.filled <==> bought && !reached)
      && (bought && reached ==>
            exists k :: 0 <= k < |r.trades| && SoldAbove(env, g, bars, j, n, r.trades[k]))
  {
    GridRunKept(env, g, bars, sigs, n);
    assert |GridLevels(g)| == g.levels;
    hide GridKept, GridRun, GridLevels, SoldAbove, SignalsOnGrid;
    GridBarForms(env, g, bars, sigs, n, j);
  }

  // ---- the end of the run ----

  lemma EndSale(env: Env, g: GridConfig, bars: seq<OHLCVBar>, j: nat, size: real, e: GridEntry)
    requires 2 <= g.levels && bars != []
    ensures var x := |bars| - 1;
      SoldIn(env, g, bars, j, x,
             LotSold(env, size, e, Slip(env.config, bars[x].close, true), bars[x].time, x, EndOfData))
  {
    SlipFills(env.config, bars[|bars| - 1].close, false);
    hide Slip, FilledAt, PnlPct;
  }

  lemma {:induction false} SellAllKept(env: Env, g: GridConfig, bars: seq<OHLCVBar>, sigs: seq<BarSignal>,
                                       a: GridAccount, keys: seq<real>)
    requires SoundGrid(g) && 0 < |bars| == |sigs| && AllHeld(a, keys) && GridKept(env, g, bars, sigs, a)
    ensures var x := |bars| - 1;
      GridKept(env, g, bars, sigs, SellAll(env, a, keys, bars[x].close, bars[x].time, x))
    decreases |keys|
  {
    if keys != [] {
      var x := |bars| - 1;
      FirstHeld(a, keys);
      var j := HeldIndex(env, g, bars, sigs, a, keys[0]);
      var px := Slip(env.config, bars[x].close, true);
      EndSale(env, g, bars, j, a.filled[keys[0]], a.entries[keys[0]]);
      SellForms(env, g, bars, sigs, a, keys[0], j, px, x, EndOfData);
      StillHeld(a, Sell(env, a, keys[0], px, bars[x].time, x, EndOfData), keys);
      hide GridKept, GridLevels, Sell, Slip;
      SellAllKept(env, g, bars, sigs, Sell(env, a, keys[0], px, bars[x].time, x, EndOfData), keys[1..]);
    }
  }

  /**
   Every trade of a grid run: a level's share of the allocation, bought at the level slipped up in a bar after the
   level was triggered, and sold at the next level slipped down in a bar that closed there, or at the last close; its
   fees, its pnl and its percentage follow.
   */
  lemma GridTradesAccounted(env: Env, g: GridConfig, bars: seq<OHLCVBar>, sigs: seq<BarSignal>)
    requires env.spec.kind == Grid(g) && |bars| == |sigs| && PositiveBuys(sigs) && SignalsOnGrid(g, sigs)
    ensures AllLotTrades(env, g, bars, sigs, GridFinal(env, g, bars, sigs).trades)
  {
    if bars != [] {
      var n := |bars|;
      var a := GridRun(env, g, bars, sigs, n);
      GridRunKept(env, g, bars, sigs, n);
      GridFinalIs(env, g, bars, sigs);
      SortedHeld(a);
      hide GridRun, GridFinal, LotTrade, OpenLot, SellAll, Sorted, SignalsOnGrid;
      SellAllKept(env, g, bars, sigs, a, Sorted(a.filled.Keys));
    }
  }

  // ---- the curve ----

  /** The inventory is worth the sum of its lots, each its size at the mark. */
  lemma {:induction false} ValueSplits(filled: map<real, real>, l: real, mark: real)
    ensures HeldValue(map[], mark) == 0.0
    ensures l in filled ==> HeldValue(filled, mark) == HeldValue(filled - {l}, mark) + Product(filled[l], mark)
  {
    if l in filled {
      var values := map k | k in filled :: filled[k] * mark;
      var less := filled - {l};
      var rest := map k | k in less :: less[k] * mark;
      TotalRemove(values, l);
      assert rest.Keys == values.Keys - {l};
      forall k | k in rest
        ensures rest[k] == (values - {l})[k]
      {
        assert less[k] == filled[k];
      }
      assert rest == values - {l};
    }
  }

  lemma {:induction false} PointBefore(env: Env, g: GridConfig, bars: seq<OHLCVBar>, sigs: seq<BarSignal>, i: nat)
    requires 2 <= g.levels && i + 1 < |bars| == |sigs| && PositiveBuys(sigs)
    ensures var a := GridRun(env, g, bars, sigs, i + 1);
      GridCurve(env, g, bars, sigs)[i] == a.cash + HeldValue(a.filled, bars[i].close)
  {
    hide GridRun, HeldValue, PositiveBuys;
  }

  lemma {:induction false} PointAtEnd(env: Env, g: GridConfig, bars: seq<OHLCVBar>, sigs: seq<BarSignal>, i: nat)
    requires 2 <= g.levels && i + 1 == |bars| == |sigs| && PositiveBuys(sigs)
    ensures GridCurve(env, g, bars, sigs)[i] == GridFinal(env, g, bars, sigs).cash
  {
    hide GridFinal, HeldValue, PositiveBuys;
  }

  lemma {:induction false} RunBooks(env: Env, g: GridConfig, bars: seq<OHLCVBar>, sigs: seq<BarSignal>, n: nat)
    requires env.spec.kind == Grid(g) && n <= |bars| == |sigs| && PositiveBuys(sigs) && SignalsOnGrid(g, sigs)
    ensures var a := GridRun(env, g, bars, sigs, n);
      a.cash == env.config.initialCash + SumPnl(a.trades) - Total(Costs(a))
  {
    GridRunKeeps(env, g, bars, sigs, n);
    hide GridRun, Lots, PositiveBuys, SignalsOnGrid;
  }

  /**
   The curve: before the last bar initial cash, the pnl so far, and the lots held at the close less what they cost; and
   in the end what all trades earned.
   */
  lemma {:induction false} GridCurveAccounted(env: Env, g: GridConfig, bars: seq<OHLCVBar>, sigs: seq<BarSignal>,
                                              i: nat)
    requires env.spec.kind == Grid(g) && i < |bars| == |sigs| && PositiveBuys(sigs) && SignalsOnGrid(g, sigs)
    ensures var point, a := GridCurve(env, g, bars, sigs)[i], GridRun(env, g, bars, sigs, i + 1);
      point == env.config.initialCash + if i + 1 < |bars|
        then SumPnl(a.trades) + HeldValue(a.filled, bars[i].close) - Total(Costs(a))
        else SumPnl(GridFinal(env, g, bars, sigs).trades)
  {
    hide *;
    LevelCount(env, g);
    if i + 1 < |bars| {
      PointBefore(env, g, bars, sigs, i);
      RunBooks(env, g, bars, sigs, i + 1);
    } else {
      PointAtEnd(env, g, bars, sigs, i);
      GridConservation(env, g, bars, sigs);
    }
  }
}

/** The account of a grid strategy: one lot per level, bought at the level and sold at the next level up. */
module GridEngine {
  import opened Domain
  import opened FillModel
  import opened Sorting

  datatype GridEntry = GridEntry(time: int, price: real, fee: real, barIndex: int)

  /** `filled` maps a level to the size bought there, `entries` to how it was bought. */
  datatype GridAccount = GridAccount(
    cash: real, filled: map<real, real>, entries: map<real, GridEntry>, trades: seq<Trade>,
    realized: real, feesPaid: real)
  {
    ghost predicate Valid() {
      filled.Keys == entries.Keys
    }
  }

  function NewGridAccount(env: Env): GridAccount {
    GridAccount(env.config.initialCash, map[], map[], [], 0.0, 0.0)
  }

  function Step(g: GridConfig): real
    requires 2 <= g.levels
  {
    (g.upper - g.lower) / (g.levels - 1) as real
  }

  function GridLevels(g: GridConfig): seq<real>
    requires 2 <= g.levels
  {
    seq(g.levels, i requires 0 <= i => g.lower + Step(g) * i as real)
  }

  /** The next level strictly above `level`, if any. */
  function GridTarget(levels: seq<real>, level: real): (target: Option<real>)
    ensures target.None? <==> forall i | 0 <= i < |levels| :: levels[i] <= level
    ensures target.Some? ==> target.value in levels && level < target.value
    ensures target.Some? ==> forall i | 0 <= i < |levels| :: levels[i] <= level || target.value <= levels[i]
  {
    if levels == [] then None else
      var above := GridTarget(levels[1..], level);
      if levels[0] > level && (above.None? || levels[0] < above.value) then Some(levels[0]) else above
  }

  function PerLevelNotional(env: Env, g: GridConfig): real
    requires 2 <= g.levels
  {
    env.config.initialCash * (g.allocationPct / 100.0) / g.levels as real
  }

  predicate PositiveLevels(levels: seq<real>) {
    forall i | 0 <= i < |levels| :: 0.0 < levels[i]
  }

  lemma PositiveSplit(levels: seq<real>)
    requires levels != [] && PositiveLevels(levels)
    ensures 0.0 < levels[0] && PositiveLevels(levels[1..])
  {
  }

  /** Buys the level's lot unless the level already holds one. */
  function Buy(env: Env, g: GridConfig, a: GridAccount, level: real, now: int, idx: int): (r: GridAccount)
    requires 2 <= g.levels && 0.0 < level
    ensures a.Valid() ==> r.Valid()
    ensures r.filled.Keys == a.filled.Keys + {level}
  {
    if level in a.filled then a else
      BuyPricePositive(env, level);
      var px := Slip(env.config, level, false);
      var size := PerLevelNotional(env, g) / px;
      var fee := px * size * env.spec.taker;
      a.(cash := a.cash - (px * size + fee),
         filled := a.filled[level := size],
         entries := if level in a.entries then a.entries else a.entries[level := GridEntry(now, px, fee, idx)],
         feesPaid := a.feesPaid + fee)
  }

  lemma BuyHeld(env: Env, g: GridConfig, a: GridAccount, level: real, now: int, idx: int)
    requires 2 <= g.levels && 0.0 < level && level in a.filled
    ensures Buy(env, g, a, level, now, idx) == a
  {
  }

  function BuyAll(env: Env, g: GridConfig, a: GridAccount, levels: seq<real>, now: int, idx: int): (r: GridAccount)
    requires 2 <= g.levels && PositiveLevels(levels)
    ensures a.Valid() ==> r.Valid()
    ensures forall l :: l in r.filled <==> l in a.filled || l in levels
    decreases |levels|
  {
    if levels == [] then a
    else BuyAll(env, g, Buy(env, g, a, levels[0], now, idx), levels[1..], now, idx)
  }

  /** The round trip of a lot of `size` bought as `e` and sold for `px`. */
  function LotSold(env: Env, size: real, e: GridEntry, px: real, now: int, idx: int, reason: ExitReason): Trade {
    var exitFee := px * size * env.spec.taker;
    var pnl := (px - e.price) * size - e.fee - exitFee;
    Trade(Long, e.time, now, e.price, px, size, pnl, PnlPct(pnl, e.price * size),
          e.fee + exitFee, 0.0, idx - e.barIndex, reason)
  }

  /** Sells the lot held at `level` for `px`. */
  function Sell(env: Env, a: GridAccount, level: real, px: real, now: int, idx: int,
                reason: ExitReason): (r: GridAccount)
    requires a.Valid() && level in a.filled
    ensures r.Valid() && r.filled.Keys == a.filled.Keys - {level}
  {
    var size := a.filled[level];
    var exitFee := px * size * env.spec.taker;
    var t := LotSold(env, size, a.entries[level], px, now, idx, reason);
    GridAccount(a.cash + (px * size - exitFee), a.filled - {level}, a.entries - {level}, a.trades + [t],
                a.realized + t.pnl, a.feesPaid + exitFee)
  }

  predicate Reached(levels: seq<real>, level: real, close: real) {
    var target := GridTarget(levels, level);
    target.Some? && close >= target.value
  }

  ghost predicate AllHeld(a: GridAccount, keys: seq<real>) {
    && a.Valid()
    && (forall k | k in keys :: k in a.filled)
    && (forall i, j | 0 <= i < j < |keys| :: keys[i] != keys[j])
  }

  /** Takes profit on the lot at `level` if the close has reached its target. */
  function SellIfReached(env: Env, g: GridConfig, a: GridAccount, level: real, close: real, now: int,
                         idx: int): (r: GridAccount)
    requires 2 <= g.levels && a.Valid() && level in a.filled
    ensures r.Valid()
    ensures r.filled.Keys == if Reached(GridLevels(g), level, close) then a.filled.Keys - {level} else a.filled.Keys
  {
    if Reached(GridLevels(g), level, close) then
      Sell(env, a, level, Slip(env.config, GridTarget(GridLevels(g), level).value, true), now, idx, TakeProfit)
    else a
  }

  lemma StillHeld(a: GridAccount, b: GridAccount, keys: seq<real>)
    requires keys != [] && AllHeld(a, keys) && b.Valid()
    requires a.filled.Keys - {keys[0]} <= b.filled.Keys
    ensures AllHeld(b, keys[1..])
  {
    forall k | k in keys[1..]
      ensures k in b.filled
    {
      assert k in keys && k in a.filled.Keys - {keys[0]};
    }
  }

  lemma FirstHeld(a: GridAccount, keys: seq<real>)
    requires keys != [] && AllHeld(a, keys)
    ensures a.Valid() && keys[0] in a.filled
  {
  }

  lemma SortedHeld(a: GridAccount)
    requires a.Valid()
    ensures AllHeld(a, Sorted(a.filled.Keys))
  {
    SortedIs(a.filled.Keys);
  }

  /** Takes profit on the held levels `keys`, in order. */
  function SellReached(env: Env, g: GridConfig, a: GridAccount, keys: seq<real>, close: real, now: int,
                       idx: int): (r: GridAccount)
    requires 2 <= g.levels && AllHeld(a, keys)
    ensures r.Valid()
    decreases |keys|
  {
    if keys == [] then a
    else
      var b := SellIfReached(env, g, a, keys[0], close, now, idx);
      StillHeld(a, b, keys);
      SellReached(env, g, b, keys[1..], close, now, idx)
  }

  /** Takes profit wherever this bar's close allows, lowest level first. */
  function SellTargets(env: Env, g: GridConfig, a: GridAccount, close: real, now: int, idx: int): (r: GridAccount)
    requires 2 <= g.levels && a.Valid()
    ensures r.Valid()
  {
    SortedHeld(a);
    SellReached(env, g, a, Sorted(a.filled.Keys), close, now, idx)
  }

  /** One bar: the pending buys, then the take-profits at this bar's close. */
  function AfterGridBar(env: Env, g: GridConfig, a: GridAccount, buys: seq<real>, bar: OHLCVBar,
                        idx: int): (r: GridAccount)
    requires 2 <= g.levels && a.Valid() && PositiveLevels(buys)
    ensures r.Valid()
  {
    SellTargets(env, g, BuyAll(env, g, a, buys, bar.time, idx), bar.close, bar.time, idx)
  }

  /** Sells every lot in `keys` at the slipped last close. */
  function SellAll(env: Env, a: GridAccount, keys: seq<real>, close: real, now: int, idx: int): (r: GridAccount)
    requires AllHeld(a, keys)
    ensures r.Valid()
    ensures forall l :: l in r.filled <==> l in a.filled && l !in keys
    decreases |keys|
  {
    if keys == [] then a
    else
      var b := Sell(env, a, keys[0], Slip(env.config, close, true), now, idx, EndOfData);
      StillHeld(a, b, keys);
      SellAll(env, b, keys[1..], close, now, idx)
  }

  function GridLiquidated(env: Env, a: GridAccount, last: OHLCVBar, idx: int): (r: GridAccount)
    requires a.Valid()
    ensures r.filled == map[] && r.entries == map[]
  {
    SortedHeld(a);
    var r := SellAll(env, a, Sorted(a.filled.Keys), last.close, last.time, idx);
    SortedIs(a.filled.Keys);
    assert r.filled.Keys == {};
    r
  }

  /** The sum of a dictionary's values. */
  function Total(m: map<real, real>): real
    decreases |m|
  {
    if m == map[] then 0.0 else
      assert m.Keys != {};
      var k := Least(m.Keys);
      assert (m - {k}).Keys == m.Keys - {k};
      m[k] + Total(m - {k})
  }

  /** Market value of the inventory. */
  function HeldValue(filled: map<real, real>, mark: real): real {
    Total(map l | l in filled :: filled[l] * mark)
  }

  function GridEquity(a: GridAccount, mark: real): real {
    a.cash + HeldValue(a.filled, mark)
  }

  predicate PositiveBuys(sigs: seq<BarSignal>) {
    forall i | 0 <= i < |sigs| :: PositiveLevels(sigs[i].gridBuyLevels)
  }

  /** The levels bought on bar `i`: those triggered on bar `i - 1`. */
  function PendingBuys(sigs: seq<BarSignal>, i: nat): (buys: seq<real>)
    requires i <= |sigs| && PositiveBuys(sigs)
    ensures PositiveLevels(buys)
  {
    if i == 0 then [] else sigs[i - 1].gridBuyLevels
  }

  /** The account after the first `n` bars; bar `i` acts on the levels triggered on bar `i - 1`. */
  function GridRun(env: Env, g: GridConfig, bars: seq<OHLCVBar>, sigs: seq<BarSignal>, n: nat): (r: GridAccount)
    requires 2 <= g.levels && n <= |bars| == |sigs| && PositiveBuys(sigs)
    ensures r.Valid()
  {
    if n == 0 then NewGridAccount(env)
    else
      AfterGridBar(env, g, GridRun(env, g, bars, sigs, n - 1), PendingBuys(sigs, n - 1), bars[n - 1], n - 1)
  }

  lemma GridRunStep(env: Env, g: GridConfig, bars: seq<OHLCVBar>, sigs: seq<BarSignal>, i: nat)
    requires 2 <= g.levels && i < |bars| == |sigs| && PositiveBuys(sigs)
    ensures GridRun(env, g, bars, sigs, i + 1) ==
            AfterGridBar(env, g, GridRun(env, g, bars, sigs, i), PendingBuys(sigs, i), bars[i], i)
  {
  }

  function GridFinal(env: Env, g: GridConfig, bars: seq<OHLCVBar>, sigs: seq<BarSignal>): GridAccount
    requires 2 <= g.levels && |bars| == |sigs| && PositiveBuys(sigs)
  {
    if bars == [] then NewGridAccount(env)
    else GridLiquidated(env, GridRun(env, g, bars, sigs, |bars|), bars[|bars| - 1], |bars| - 1)
  }

  lemma GridFinalIs(env: Env, g: GridConfig, bars: seq<OHLCVBar>, sigs: seq<BarSignal>)
    requires 2 <= g.levels && 0 < |bars| == |sigs| && PositiveBuys(sigs)
    ensures GridFinal(env, g, bars, sigs) ==
            GridLiquidated(env, GridRun(env, g, bars, sigs, |bars|), bars[|bars| - 1], |bars| - 1)
  {
  }

  function GridPoint(env: Env, g: GridConfig, bars: seq<OHLCVBar>, sigs: seq<BarSignal>, i: nat): real
    requires 2 <= g.levels && i < |bars| == |sigs| && PositiveBuys(sigs)
  {
    if i == |bars| - 1 then GridFinal(env, g, bars, sigs).cash
    else GridEquity(GridRun(env, g, bars, sigs, i + 1), bars[i].close)
  }

  function GridCurve(env: Env, g: GridConfig, bars: seq<OHLCVBar>, sigs: seq<BarSignal>): seq<real>
    requires 2 <= g.levels && |bars| == |sigs| && PositiveBuys(sigs)
  {
    seq(|bars|, i requires 0 <= i < |bars| => GridPoint(env, g, bars, sigs, i))
  }
}

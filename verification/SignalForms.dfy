/** What grid and DCA signals say, in plain numbers. */
module SignalForms {
  import opened Domain
  import opened RealArithmetic
  import opened RuleEvaluator
  import opened RuleSemantics
  import opened GridEngine
  import opened GridForms
  import opened Interpreters
  import opened SpecInterpreters

  // ---- grid ----

  /** `lvl` is one of the grid's levels. */
  ghost predicate OnGrid(g: GridConfig, lvl: real) {
    exists j: nat :: LevelIs(g, j, lvl)
  }

  lemma LevelUnique(g: GridConfig, j: nat, l: real, m: real)
    requires SoundGrid(g) && LevelIs(g, j, l) && LevelIs(g, j, m)
    ensures l == m
  {
    var n := (g.levels - 1) as real;
    if l < m { MulStrict(l - g.lower, m - g.lower, n); }
    if m < l { MulStrict(m - g.lower, l - g.lower, n); }
  }

  lemma OnGridIff(g: GridConfig, lvl: real)
    requires SoundGrid(g)
    ensures lvl in GridLevels(g) <==> OnGrid(g, lvl)
  {
    GridLevelsAre(g);
    var levels := GridLevels(g);
    hide LevelIs, GridLevels;
    if OnGrid(g, lvl) {
      var j: nat :| LevelIs(g, j, lvl);
      LevelInRange(g, j, lvl);
      LevelUnique(g, j, lvl, levels[j]);
    }
    if lvl in levels {
      var j: nat :| j < |levels| && levels[j] == lvl;
      assert LevelIs(g, j, levels[j]);
    }
  }

  lemma LevelInRange(g: GridConfig, j: nat, lvl: real)
    requires LevelIs(g, j, lvl)
    ensures j < g.levels
  {
  }

  ghost predicate LowReaches(f: Frame, t: nat, lvl: real) {
    var low := f.Cell("low", t);
    low.Fin? && low.v <= lvl
  }

  ghost predicate LowAbove(f: Frame, t: nat, lvl: real) {
    var low := f.Cell("low", t);
    low.Fin? && lvl < low.v
  }

  /**
   A bar asks for a level exactly when the level divides the grid's range evenly, the bar's low reached it and the low
   before, if there is one, was above it; an undefined low reaches nothing, and nothing is below one.
   */
  lemma GridSignalIs(g: GridConfig, f: Frame, t: nat, lvl: real)
    requires SoundGrid(g)
    ensures lvl in GridSignalAt(g, f, t).gridBuyLevels <==>
      OnGrid(g, lvl) && LowReaches(f, t, lvl) && (t == 0 || LowAbove(f, t - 1, lvl))
  {
    OnGridIff(g, lvl);
    TriggeredIff(GridLevels(g), f.Cell("low", t), if t == 0 then None else Some(f.Cell("low", t - 1)), lvl);
    hide GridLevels, OnGrid, Triggered;
  }

  // ---- dca ----

  /** `time` lies in the `k`-th bucket of the timeframe, counted from the epoch. */
  ghost predicate InBucket(tfMs: int, k: int, time: int) {
    k * tfMs <= time < (k + 1) * tfMs
  }

  ghost predicate FiresIn(d: DCAConfig, tfMs: int, k: int, fires: bool)
    requires 0 < tfMs && 0 < d.intervalBars
  {
    forall time | InBucket(tfMs, k, time) :: DcaFires(d, tfMs, time) == fires
  }

  /** Bucket `j` asks for a purchase exactly if it is the `k`-th. */
  ghost predicate FiresIfIs(d: DCAConfig, tfMs: int, j: int, k: int)
    requires 0 < tfMs && 0 < d.intervalBars
  {
    FiresIn(d, tfMs, j, j == k)
  }

  /** Of the `intervalBars` buckets from `b` on, bucket `k` asks for a purchase and the others do not. */
  ghost predicate FiresOnlyIn(d: DCAConfig, tfMs: int, b: int, k: int)
    requires 0 < tfMs && 0 < d.intervalBars
  {
    b <= k < b + d.intervalBars && forall j | b <= j < b + d.intervalBars :: FiresIfIs(d, tfMs, j, k)
  }

  lemma {:induction false} NextMultiple(p: int, q: int, n: int)
    requires 0 < n
    ensures p < q ==> p * n + n <= q * n
    decreases q - p
  {
    if p < q {
      NextMultiple(p, q - 1, n);
      assert q * n == (q - 1) * n + n;
    }
  }

  lemma BucketIs(tfMs: int, k: int, time: int)
    requires 0 < tfMs && InBucket(tfMs, k, time)
    ensures time / tfMs == k
  {
    var q := time / tfMs;
    NextMultiple(q, k, tfMs);
    NextMultiple(k, q, tfMs);
  }

  lemma FiresByBucket(d: DCAConfig, tfMs: int, k: int)
    requires 0 < tfMs && 0 < d.intervalBars
    ensures FiresIn(d, tfMs, k, k % d.intervalBars == 0)
  {
    forall time | InBucket(tfMs, k, time)
      ensures DcaFires(d, tfMs, time) == (k % d.intervalBars == 0)
    {
      BucketIs(tfMs, k, time);
    }
  }

  /** A window of `n` consecutive numbers holds one multiple of `n`. */
  lemma OneMultiple(b: int, n: int) returns (k: int)
    requires 0 < n
    ensures b <= k < b + n && k % n == 0
    ensures forall j | b <= j < b + n && j != k :: j % n != 0
  {
    var q := (b + n - 1) / n;
    k := q * n;
    IsMultiple(k, q, n);
    forall j | b <= j < b + n && j != k
      ensures j % n != 0
    {
      NextMultiple(j / n, q, n);
      NextMultiple(q, j / n, n);
    }
  }

  lemma IsMultiple(k: int, q: int, n: int)
    requires 0 < n && k == q * n
    ensures k % n == 0
  {
    NextMultiple(k / n, q, n);
    NextMultiple(q, k / n, n);
  }

  /** Among any `intervalBars` consecutive buckets exactly one asks for a purchase; the epoch's bucket does. */
  lemma DcaCadence(d: DCAConfig, tfMs: int, b: int)
    requires 0 < tfMs && 0 < d.intervalBars
    ensures FiresIn(d, tfMs, 0, true)
    ensures exists k :: FiresOnlyIn(d, tfMs, b, k)
  {
    FiresByBucket(d, tfMs, 0);
    var k := OneMultiple(b, d.intervalBars);
    hide FiresIn;
    forall j | b <= j < b + d.intervalBars
      ensures FiresIfIs(d, tfMs, j, k)
    {
      FiresByBucket(d, tfMs, j);
    }
    assert FiresOnlyIn(d, tfMs, b, k);
  }
}

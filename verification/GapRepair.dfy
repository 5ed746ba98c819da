/** What a gap-repair pass adds: with an honest exchange every missing bar, and never more rows than were missing. */
module GapRepairs {
  import opened Domain
  import opened Timeline
  import opened Quality
  import opened OhlcvStores
  import opened SyncModel
  import opened SyncProofs

  // ---- an honest exchange fills the gap ----

  /** Paging through a gap until it is covered stores all the exchange's bars inside it. */
  lemma {:induction false} GapFilled(ex: Exchange, world: Series, step: int, gap: Gap, base: Series, cursor: int,
                                     store: Series, calls: nat, pages: nat)
    requires 0 < step && OnSteps(world, step) && Honest(ex, world)
    requires gap.start <= cursor && store == Covered(base, world, gap.start, Min(gap.end, cursor - 1))
    ensures var r := RepairGap(ex, step, gap, cursor, store, calls, pages);
      && calls <= r.calls
      && (r.ended.Complete? && pages + (r.calls - calls) < MAX_PAGES
        ==> r.store == Covered(base, world, gap.start, gap.end))
    decreases gap.end - cursor
  {
    hide Overlay, Within, LastStamp, HonestPage, OnSteps, Covered;
    if cursor <= gap.end && pages < MAX_PAGES {
      match ex(calls, cursor)
      case Page(bars) =>
        assert HonestPage(world, cursor, bars);
        if bars == [] {
          EmptyPageCovers(world, base, gap.start, cursor, gap.end);
        } else {
          PageCovers(world, step, base, gap.start, cursor, Some(gap.start), gap.end, bars);
          GapFilled(ex, world, step, gap, base, LastStamp(bars) + step,
                    Overlay(store, Within(bars, Some(gap.start), Some(gap.end))), calls + 1, pages + 1);
        }
      case _ =>
    }
  }

  lemma NothingCoveredYet(base: Series, world: Series, gap: Gap)
    ensures Covered(base, world, gap.start, Min(gap.end, gap.start - 1)) == base
  {
    assert Slice(world, gap.start, Min(gap.end, gap.start - 1)) == map[];
  }

  /** Every bar of `world` inside a gap is in `m`. */
  ghost predicate Fills(gaps: seq<Gap>, world: Series, m: Series) {
    forall k | k in world && InGaps(gaps, k) :: k in m
  }

  lemma {:induction false} GapsFilled(ex: Exchange, world: Series, step: int, gaps: seq<Gap>, store: Series, calls: nat)
    requires 0 < step && OnSteps(world, step) && Honest(ex, world)
    ensures var r := RepairAll(ex, step, gaps, store, calls);
      && calls <= r.calls && store.Keys <= r.store.Keys
      && (r.ended.Complete? && r.calls - calls < MAX_PAGES ==> Fills(gaps, world, r.store))
    decreases |gaps|
  {
    hide RepairGap, OnSteps, HonestPage;
    if gaps != [] {
      var gap := gaps[0];
      NothingCoveredYet(store, world, gap);
      GapFilled(ex, world, step, gap, store, gap.start, store, calls, 0);
      RepairGapGrows(ex, step, gap, gap.start, store, calls, 0);
      var r := RepairGap(ex, step, gap, gap.start, store, calls, 0);
      if r.ended.Complete? {
        GapsFilled(ex, world, step, gaps[1..], r.store, r.calls);
        var all := RepairAll(ex, step, gaps[1..], r.store, r.calls);
        if all.ended.Complete? && all.calls - calls < MAX_PAGES {
          FillsBoth(gaps, world, store, r.store, all.store);
        }
      }
    }
  }

  lemma FillsBoth(gaps: seq<Gap>, world: Series, store: Series, first: Series, all: Series)
    requires gaps != [] && first == Covered(store, world, gaps[0].start, gaps[0].end)
    requires first.Keys <= all.Keys && Fills(gaps[1..], world, all)
    ensures Fills(gaps, world, all)
  {
    forall k | k in world && InGaps(gaps, k)
      ensures k in all
    {
      var i :| 0 <= i < |gaps| && gaps[i].start <= k <= gaps[i].end;
      if i == 0 {
        assert k in first.Keys;
      } else {
        assert gaps[1..][i - 1] == gaps[i];
        assert InGaps(gaps[1..], k);
      }
    }
  }

  lemma {:induction false} RepairGapGrows(ex: Exchange, step: int, gap: Gap, cursor: int, store: Series, calls: nat,
                                          pages: nat)
    requires 0 < step
    ensures store.Keys <= RepairGap(ex, step, gap, cursor, store, calls, pages).store.Keys
    decreases gap.end - cursor
  {
    hide Overlay, Within, LastStamp;
    if cursor <= gap.end && pages < MAX_PAGES {
      match ex(calls, cursor)
      case Page(bars) =>
        if bars != [] {
          OverlayGrows(store, Within(bars, Some(gap.start), Some(gap.end)));
          if LastStamp(bars) + step > cursor {
            RepairGapGrows(ex, step, gap, LastStamp(bars) + step,
              Overlay(store, Within(bars, Some(gap.start), Some(gap.end))), calls + 1, pages + 1);
          }
        }
      case _ =>
    }
  }

  lemma ListedAligned(m: Series, step: int)
    requires 0 < step && Stamped(m) && OnSteps(m, step)
    ensures StepAligned(Listed(m), step)
  {
    ListedIs(m);
    hide Listed;
  }

  /** `lo` and `hi` are the ends of `keys`. */
  ghost predicate EndsAt(keys: set<int>, lo: int, hi: int) {
    lo in keys && hi in keys && forall k | k in keys :: lo <= k <= hi
  }

  lemma FirstAndLast(m: Series)
    requires Stamped(m) && m != map[]
    ensures var x := Listed(m); x != [] && EndsAt(m.Keys, x[0].time, x[|x| - 1].time)
  {
    ListedIs(m);
    hide Listed;
    assert |m| > 0;
    forall k | k in m
      ensures Listed(m)[0].time <= k <= Listed(m)[|m| - 1].time
    {
      var i :| 0 <= i < |m| && Listed(m)[i] == m[k];
    }
  }

  lemma SpannedByWindow(window: Series, world: Series, step: int, a: int, b: int, t: int)
    requires 0 < step && OnSteps(world, step) && Stamped(window) && window.Keys <= world.Keys
    requires a in window && b in window && a <= t <= b && t in world
    ensures var bars := Listed(window);
      bars != [] && bars[0].time <= t <= bars[|bars| - 1].time && (t - bars[0].time) % step == 0
  {
    hide Listed, Stamped;
    FirstAndLast(window);
    assert Listed(window)[0].time in window.Keys;
  }

  /**
   A completed repair of no more gaps than one run takes on, against an honest exchange, leaves no hole: every bar the
   exchange has between the first and the last cached bar of the window is cached.
   */
  lemma RepairLeavesNoHole(ex: Exchange, world: Series, step: int, since: int, until: int, store: Series, calls: nat,
                           t: int)
    requires 0 < step && OnSteps(world, step) && Honest(ex, world)
    requires Stamped(store) && store.Keys <= world.Keys
    requires |WindowGaps(store, since, until, step)| <= MAX_GAP_REPAIRS
    requires var r := RepairAll(ex, step, FirstGaps(WindowGaps(store, since, until, step)), store, calls);
      r.ended.Complete? && r.calls - calls < MAX_PAGES
    requires t in world
    requires exists a, b :: a in store && b in store && since <= a <= t <= b <= until
    ensures t in RepairAll(ex, step, FirstGaps(WindowGaps(store, since, until, step)), store, calls).store
  {
    var window, gaps := Slice(store, since, until), WindowGaps(store, since, until, step);
    var r := RepairAll(ex, step, gaps, store, calls);
    GapsFilled(ex, world, step, gaps, store, calls);
    hide RepairAll;
    var a, b :| a in store && b in store && since <= a <= t <= b <= until;
    assert a in world.Keys && b in world.Keys;
    assert OnSteps(window, step) by {
      forall x, y | x in window && y in window
        ensures (y - x) % step == 0
      {
        assert x in world.Keys && y in world.Keys;
      }
    }
    ListedAligned(window, step);
    SpannedByWindow(window, world, step, a, b, t);
    hide OnSteps, Listed, GapsOf, StepAligned;
    if t !in store {
      ListedPresent(window, t);
      GapsCoverMissing(Listed(window), step, t);
    } else {
      assert t in store.Keys;
    }
  }

  // ---- rows added are bars no longer missing ----

  /** How many bars of the step grid the window lacks between its first and its last cached bar. */
  function MissingIn(store: Series, since: int, until: int, step: int): int
    requires 0 < step
  {
    TotalMissing(WindowGaps(store, since, until, step))
  }

  lemma MissingIsExpectedMinusActual(m: Series, step: int)
    requires 0 < step && Stamped(m) && OnSteps(m, step)
    ensures TotalMissing(GapsOf(Listed(m), step)) == ExpectedBarCount(Listed(m), step) - |m|
  {
    ListedAligned(m, step);
    ListedIs(m);
    GapsSumToMissing(Listed(m), step);
  }

  /** Keys added strictly between others leave the ends where they are. */
  lemma SameEnds(m: set<int>, n: set<int>, lo: int, hi: int, first: int, last: int)
    requires m <= n && EndsAt(m, lo, hi) && EndsAt(n, first, last)
    requires forall k | k in n && k !in m :: exists a, b :: a in m && b in m && a < k < b
    ensures first == lo && last == hi
  {
    assert lo in n && hi in n;
  }

  lemma SameEndsSameExpected(m: Series, n: Series, step: int)
    requires 0 < step && Stamped(m) && Stamped(n) && m.Keys <= n.Keys
    requires forall k | k in n && k !in m :: exists a, b :: a in m && b in m && a < k < b
    ensures ExpectedBarCount(Listed(m), step) == ExpectedBarCount(Listed(n), step)
  {
    if m == map[] {
      assert forall k :: k !in n;
      assert n == m;
    } else {
      hide Listed, Stamped;
      var x, y := Listed(m), Listed(n);
      FirstAndLast(m);
      assert x[0].time in n;
      FirstAndLast(n);
      SameEnds(m.Keys, n.Keys, x[0].time, x[|x| - 1].time, y[0].time, y[|y| - 1].time);
    }
  }

  lemma RowsOutsideGaps(store: Series, after: Series, since: int, until: int, step: int, k: int)
    requires 0 < step && Stamped(store) && OnlyInGaps(WindowGaps(store, since, until, step), store, after)
    requires k in after && k !in store
    ensures since <= k <= until
    ensures exists a, b :: a in Slice(store, since, until) && b in Slice(store, since, until) && a < k < b
  {
    var window := Slice(store, since, until);
    var bars := Listed(window);
    ListedIs(window);
    GapsMissStore(store, since, until, step, k);
    GapsAvoidBars(bars, step, k);
    hide Listed, GapsOf;
    assert bars[0].time in window && bars[|bars| - 1].time in window;
  }

  lemma KeepsKeys(gaps: seq<Gap>, before: Series, after: Series)
    requires OnlyInGaps(gaps, before, after)
    ensures before.Keys <= after.Keys
  {
    forall k | k in before.Keys
      ensures k in after.Keys
    {
      assert k in before;
    }
  }

  lemma SubsetOnSteps(m: Series, n: Series, step: int)
    requires 0 < step && OnSteps(n, step) && m.Keys <= n.Keys
    ensures OnSteps(m, step)
  {
    forall x, y | x in m && y in m
      ensures (y - x) % step == 0
    {
      assert x in n.Keys && y in n.Keys;
    }
  }

  lemma OnlyInGapsAccounts(store: Series, after: Series, since: int, until: int, step: int)
    requires 0 < step && Stamped(store) && Stamped(after)
    requires OnlyInGaps(WindowGaps(store, since, until, step), store, after)
    requires OnSteps(Slice(after, since, until), step)
    ensures MissingIn(after, since, until, step) == MissingIn(store, since, until, step) - (|after| - |store|)
  {
    KeepsKeys(WindowGaps(store, since, until, step), store, after);
    hide OnlyInGaps, WindowGaps, MissingIn, OnSteps, Listed, ExpectedBarCount;
    var x, y := Slice(store, since, until), Slice(after, since, until);
    forall k | k in after && k !in store
      ensures since <= k <= until && exists a, b :: a in x && b in x && a < k < b
    {
      RowsOutsideGaps(store, after, since, until, step, k);
    }
    AddedInWindow(store, after, since, until);
    SubsetOnSteps(x, y, step);
    SameEndsSameExpected(x, y, step);
    WindowMissing(store, since, until, step);
    WindowMissing(after, since, until, step);
  }

  // ---- bars that a repair may add ----

  ghost predicate AllAre(bars: seq<OHLCVBar>, good: OHLCVBar -> bool) {
    forall i | 0 <= i < |bars| :: good(bars[i])
  }

  ghost predicate PagesAre(ex: Exchange, good: OHLCVBar -> bool) {
    forall n, since :: ex(n, since).Page? ==> AllAre(ex(n, since).bars, good)
  }

  /** Whatever `after` holds that `before` does not is good. */
  ghost predicate GrowsBy(before: Series, after: Series, good: OHLCVBar -> bool) {
    forall k | k in after :: (k in before && after[k] == before[k]) || (after[k].time == k && good(after[k]))
  }

  lemma {:induction false} LastAtIs(bars: seq<OHLCVBar>, good: OHLCVBar -> bool, k: int)
    requires AllAre(bars, good)
    ensures LastAt(bars, k).Some? ==> LastAt(bars, k).value.time == k && good(LastAt(bars, k).value)
  {
    if bars != [] {
      assert good(bars[|bars| - 1]);
      LastAtIs(bars[..|bars| - 1], good, k);
    }
  }

  lemma OverlayGrowsBy(m: Series, bars: seq<OHLCVBar>, good: OHLCVBar -> bool)
    requires AllAre(bars, good)
    ensures GrowsBy(m, Overlay(m, bars), good)
  {
    hide Overlay, LastAt, AllAre;
    forall k | k in Overlay(m, bars)
      ensures var after := Overlay(m, bars);
        (k in m && after[k] == m[k]) || (after[k].time == k && good(after[k]))
    {
      OverlayAt(m, bars, k);
      LastAtIs(bars, good, k);
    }
  }

  lemma {:induction false} WithinAre(bars: seq<OHLCVBar>, lo: Option<int>, hi: Option<int>, good: OHLCVBar -> bool)
    requires AllAre(bars, good)
    ensures AllAre(Within(bars, lo, hi), good)
  {
    if bars != [] {
      assert good(bars[|bars| - 1]);
      WithinAre(bars[..|bars| - 1], lo, hi, good);
    }
  }

  lemma GrowsTransitive(a: Series, b: Series, c: Series, good: OHLCVBar -> bool)
    requires GrowsBy(a, b, good) && GrowsBy(b, c, good)
    ensures GrowsBy(a, c, good)
  {
  }

  lemma {:induction false} RepairGapGrowsBy(ex: Exchange, step: int, gap: Gap, cursor: int, store: Series, calls: nat,
                                            pages: nat, good: OHLCVBar -> bool)
    requires 0 < step && PagesAre(ex, good)
    ensures GrowsBy(store, RepairGap(ex, step, gap, cursor, store, calls, pages).store, good)
    decreases gap.end - cursor
  {
    hide Overlay, Within, LastStamp, AllAre;
    if cursor <= gap.end && pages < MAX_PAGES {
      match ex(calls, cursor)
      case Page(bars) =>
        if bars != [] {
          var fill := Within(bars, Some(gap.start), Some(gap.end));
          WithinAre(bars, Some(gap.start), Some(gap.end), good);
          OverlayGrowsBy(store, fill, good);
          var next := LastStamp(bars) + step;
          if next > cursor {
            RepairGapGrowsBy(ex, step, gap, next, Overlay(store, fill), calls + 1, pages + 1, good);
            GrowsTransitive(store, Overlay(store, fill),
                            RepairGap(ex, step, gap, next, Overlay(store, fill), calls + 1, pages + 1).store, good);
          }
        }
      case _ =>
    }
  }

  lemma {:induction false} RepairGrowsBy(ex: Exchange, step: int, gaps: seq<Gap>, store: Series, calls: nat,
                                         good: OHLCVBar -> bool)
    requires 0 < step && PagesAre(ex, good)
    ensures GrowsBy(store, RepairAll(ex, step, gaps, store, calls).store, good)
    decreases |gaps|
  {
    hide RepairGap, PagesAre;
    if gaps != [] {
      var r := RepairGap(ex, step, gaps[0], gaps[0].start, store, calls, 0);
      RepairGapGrowsBy(ex, step, gaps[0], gaps[0].start, store, calls, 0, good);
      if r.ended.Complete? {
        RepairGrowsBy(ex, step, gaps[1..], r.store, r.calls, good);
        GrowsTransitive(store, r.store, RepairAll(ex, step, gaps[1..], r.store, r.calls).store, good);
      }
    }
  }

  // ---- bars on the grid ----

  /** The bars stamped whole steps from `phase`. */
  function GridBar(step: int, phase: int): OHLCVBar -> bool
    requires 0 < step
  {
    (b: OHLCVBar) => (b.time - phase) % step == 0
  }

  ghost predicate OnGrid(m: Series, step: int, phase: int)
    requires 0 < step
  {
    forall k | k in m :: m[k].time == k && GridBar(step, phase)(m[k])
  }

  lemma GridOnSteps(m: Series, step: int, phase: int)
    requires 0 < step && OnGrid(m, step, phase)
    ensures OnSteps(m, step) && Stamped(m)
  {
    forall s, t | s in m && t in m
      ensures (t - s) % step == 0
    {
      assert m[s].time == s && m[t].time == t;
      WholeSteps(s - phase, t - phase, step);
      assert t - phase - (s - phase) == t - s;
    }
  }

  lemma WindowOnGrid(store: Series, after: Series, since: int, until: int, step: int, phase: int)
    requires 0 < step && GrowsBy(store, after, GridBar(step, phase)) && OnGrid(Slice(store, since, until), step, phase)
    ensures OnGrid(Slice(after, since, until), step, phase)
  {
    hide GridBar;
    forall k | k in Slice(after, since, until)
      ensures after[k].time == k && GridBar(step, phase)(after[k])
    {
      if k in store && after[k] == store[k] { assert k in Slice(store, since, until); }
    }
  }

  /**
   On a cached window and pages that lie on the grid, a repair pass leaves the window on the grid and lowers the number
   of missing bars by exactly the rows it adds.
   */
  lemma RepairAccountsForRows(ex: Exchange, step: int, phase: int, since: int, until: int, store: Series, calls: nat)
    requires 0 < step && Stamped(store)
    requires PagesAre(ex, GridBar(step, phase)) && OnGrid(Slice(store, since, until), step, phase)
    ensures var r := RepairAll(ex, step, FirstGaps(WindowGaps(store, since, until, step)), store, calls);
      && OnGrid(Slice(r.store, since, until), step, phase)
      && MissingIn(r.store, since, until, step) == MissingIn(store, since, until, step) - (|r.store| - |store|)
  {
    hide RepairAll, WindowGaps, MissingIn, OnSteps, OnlyInGaps, GridBar, PagesAre;
    var gaps := WindowGaps(store, since, until, step);
    var r := RepairAll(ex, step, FirstGaps(gaps), store, calls);
    RepairOnlyInGaps(ex, step, FirstGaps(gaps), gaps, store, calls);
    RepairGrowsBy(ex, step, FirstGaps(gaps), store, calls, GridBar(step, phase));
    WindowOnGrid(store, r.store, since, until, step, phase);
    GridOnSteps(Slice(r.store, since, until), step, phase);
    OnlyInGapsAccounts(store, r.store, since, until, step);
  }

  lemma WindowMissing(m: Series, since: int, until: int, step: int)
    requires 0 < step && Stamped(m) && OnSteps(Slice(m, since, until), step)
    ensures MissingIn(m, since, until, step)
        == ExpectedBarCount(Listed(Slice(m, since, until)), step) - |Slice(m, since, until)|
  {
    MissingIsExpectedMinusActual(Slice(m, since, until), step);
  }

  lemma AddedInWindow(m: Series, n: Series, since: int, until: int)
    requires m.Keys <= n.Keys && forall k | k in n && k !in m :: since <= k <= until
    ensures |Slice(n, since, until)| - |Slice(m, since, until)| == |n| - |m|
  {
    var added := n.Keys - m.Keys;
    assert n.Keys == m.Keys + added && |n.Keys| == |n| && |m.Keys| == |m|;
    var x, y := Slice(m, since, until), Slice(n, since, until);
    assert y.Keys == x.Keys + added;
    assert |y.Keys| == |y| && |x.Keys| == |x|;
  }
}

/** What a completed sync with repair leaves uncached, and what it then reports, in terms of the exchange's own bars. */
module Backfill {
  import opened Domain
  import opened Timeline
  import opened Quality
  import opened OhlcvStores
  import opened SyncModel
  import opened SyncProofs
  import opened GapRepairs
  import opened GapCounts

  /** The run was cut short by no error, and reached none of its caps. */
  ghost predicate Thorough(ex: Exchange, step: int, since: int, until: int, store: Series)
    requires 0 < step
  {
    var main := MainPass(ex, step, until, StartCursor(store, since, step), store, [], 0);
    var gaps := WindowGaps(StoredBy(main), since, until, step);
    var r := RepairAll(ex, step, FirstGaps(gaps), StoredBy(main), main.pages);
    && main.ended.Complete? && main.pages < MAX_PAGES
    && |gaps| <= MAX_GAP_REPAIRS
    && r.ended.Complete? && r.calls - main.pages < MAX_PAGES
  }

  /** Every cached bar is the exchange's. */
  ghost predicate CachesSome(world: Series, store: Series) {
    forall k | k in store :: k in world && store[k] == world[k]
  }

  /** The exchange's bars between two bars of `window`. */
  ghost predicate Between(window: set<int>, k: int) {
    exists a, b | a in window && b in window :: a <= k <= b
  }

  /** The window's stamps once the main pass is over: the old ones, and the exchange's from the resume cursor on. */
  function Downloaded(world: Series, step: int, since: int, until: int, store: Series): set<int> {
    WindowKeys(Covered(store, world, StartCursor(store, since, step), until), since, until)
  }

  /** The bars the exchange's pages hold. */
  function WorldBar(world: Series): OHLCVBar -> bool {
    (b: OHLCVBar) => b.time in world && world[b.time] == b
  }

  lemma HonestPagesAre(ex: Exchange, world: Series)
    requires Honest(ex, world)
    ensures PagesAre(ex, WorldBar(world))
  {
  }

  lemma GrowsFromWorld(world: Series, before: Series, after: Series)
    requires CachesSome(world, before) && GrowsBy(before, after, WorldBar(world))
    ensures CachesSome(world, after)
  {
  }

  lemma CoveredFromWorld(world: Series, store: Series, from: int, to: int)
    requires CachesSome(world, store) && Stamped(world)
    ensures CachesSome(world, Covered(store, world, from, to)) && Stamped(Covered(store, world, from, to))
  {
  }

  lemma KeysFromWorld(world: Series, m: Series)
    requires CachesSome(world, m)
    ensures m.Keys <= world.Keys
  {
    forall k | k in m.Keys
      ensures k in world.Keys
    {
      assert k in m;
    }
  }

  /** What the repair leaves in the window: the exchange's bars between the first and the last one downloaded. */
  lemma RepairedWindow(ex: Exchange, world: Series, step: int, since: int, until: int, stored: Series, calls: nat,
                       k: int)
    requires 0 < step && OnSteps(world, step) && Stamped(stored) && Honest(ex, world) && CachesSome(world, stored)
    requires |WindowGaps(stored, since, until, step)| <= MAX_GAP_REPAIRS && since <= k <= until
    requires var r := RepairAll(ex, step, FirstGaps(WindowGaps(stored, since, until, step)), stored, calls);
      r.ended.Complete? && r.calls - calls < MAX_PAGES
    ensures var r := RepairAll(ex, step, FirstGaps(WindowGaps(stored, since, until, step)), stored, calls);
      && CachesSome(world, r.store)
      && (k in r.store <==> k in world && Between(WindowKeys(stored, since, until), k))
  {
    var gaps := WindowGaps(stored, since, until, step);
    var r := RepairAll(ex, step, FirstGaps(gaps), stored, calls);
    HonestPagesAre(ex, world);
    RepairGrowsBy(ex, step, FirstGaps(gaps), stored, calls, WorldBar(world));
    GrowsFromWorld(world, stored, r.store);
    RepairOnlyInGaps(ex, step, FirstGaps(gaps), gaps, stored, calls);
    KeysFromWorld(world, stored);
    hide RepairAll, WindowGaps, OnSteps, Stamped, OnlyInGaps, WorldBar, PagesAre, GrowsBy, HonestPage;
    if k in r.store {
      InRepairedWindow(world, stored, r.store, since, until, step, k);
    }
    if k in world && Between(WindowKeys(stored, since, until), k) {
      BetweenCached(stored, since, until, k);
      RepairLeavesNoHole(ex, world, step, since, until, stored, calls, k);
    }
  }

  lemma BetweenCached(stored: Series, since: int, until: int, k: int)
    requires Between(WindowKeys(stored, since, until), k)
    ensures exists a, b :: a in stored && b in stored && since <= a <= k <= b <= until
  {
    var a, b :| a in WindowKeys(stored, since, until) && b in WindowKeys(stored, since, until) && a <= k <= b;
    assert a in stored && b in stored && since <= a <= k <= b <= until;
  }

  lemma InRepairedWindow(world: Series, stored: Series, after: Series, since: int, until: int, step: int, k: int)
    requires 0 < step && Stamped(stored) && OnlyInGaps(WindowGaps(stored, since, until, step), stored, after)
    requires CachesSome(world, after) && k in after && since <= k <= until
    ensures k in world && Between(WindowKeys(stored, since, until), k)
  {
    var window := WindowKeys(stored, since, until);
    hide OnlyInGaps, WindowGaps, Stamped;
    if k in stored {
      assert k in window;
    } else {
      RowsOutsideGaps(stored, after, since, until, step, k);
      var a, b :| a in Slice(stored, since, until) && b in Slice(stored, since, until) && a < k < b;
      assert a in window && b in window && a <= k <= b;
    }
  }

  lemma ThoroughCompletes(ex: Exchange, step: int, since: int, until: int, store: Series)
    requires 0 < step && Thorough(ex, step, since, until, store)
    ensures var stored, run := AfterMainPass(ex, step, since, until, store),
        SyncRun(ex, step, since, until, true, store);
      && run.ended.Complete?
      && run.store == RepairAll(ex, step, FirstGaps(WindowGaps(stored, since, until, step)), stored, run.pages).store
  {
    hide MainPass, StoredBy, WindowGaps, StartCursor;
  }

  lemma DownloadedIs(world: Series, step: int, since: int, until: int, store: Series)
    requires 0 < step
    ensures Downloaded(world, step, since, until, store)
         == WindowKeys(Covered(store, world, StartCursor(store, since, step), until), since, until)
  {
  }

  /** What a thorough run leaves is the repair of what its main pass covered. */
  lemma ThoroughRun(ex: Exchange, world: Series, step: int, since: int, until: int, store: Series)
    requires 0 < step && OnSteps(world, step) && Honest(ex, world) && Thorough(ex, step, since, until, store)
    ensures var stored, run := Covered(store, world, StartCursor(store, since, step), until),
        SyncRun(ex, step, since, until, true, store);
      var r := RepairAll(ex, step, FirstGaps(WindowGaps(stored, since, until, step)), stored, run.pages);
      && AfterMainPass(ex, step, since, until, store) == stored
      && |WindowGaps(stored, since, until, step)| <= MAX_GAP_REPAIRS
      && run.ended.Complete? && run.store == r.store && r.ended.Complete? && r.calls - run.pages < MAX_PAGES
  {
    ThoroughCompletes(ex, step, since, until, store);
    CompletePassStoresAll(ex, world, step, since, until, store);
    RunStores(ex, step, since, until, true, store);
    hide MainPass, StoredBy, SyncRun, Covered, WindowGaps, StartCursor, RepairAll, OnSteps;
  }

  /**
   A thorough run caches, of the window, exactly the exchange's bars between the first and the last one downloaded.
   */
  lemma RunFillsWindow(ex: Exchange, world: Series, step: int, since: int, until: int, store: Series, k: int)
    requires 0 < step && OnSteps(world, step) && Stamped(world) && Honest(ex, world) && CachesSome(world, store)
    requires Thorough(ex, step, since, until, store) && since <= k <= until
    ensures var run := SyncRun(ex, step, since, until, true, store);
      && run.ended.Complete? && CachesSome(world, run.store)
      && (k in run.store <==> k in world && Between(Downloaded(world, step, since, until, store), k))
  {
    ThoroughRun(ex, world, step, since, until, store);
    hide *;
    var stored := Covered(store, world, StartCursor(store, since, step), until);
    CoveredFromWorld(world, store, StartCursor(store, since, step), until);
    RepairedWindow(ex, world, step, since, until, stored, SyncRun(ex, step, since, until, true, store).pages, k);
    assert Downloaded(world, step, since, until, store) == WindowKeys(stored, since, until) by {
      DownloadedIs(world, step, since, until, store);
    }
  }

  /**
   What a thorough sync leaves out, exactly: the range is complete afterwards if and only if each of the exchange's bars
   in it lies between two bars that were cached in the range or downloaded by the main pass.
   */
  lemma HistoryCompleteIff(ex: Exchange, world: Series, step: int, since: int, until: int, store: Series)
    requires 0 < step && OnSteps(world, step) && Stamped(world) && Honest(ex, world) && CachesSome(world, store)
    requires Thorough(ex, step, since, until, store)
    ensures var run := SyncRun(ex, step, since, until, true, store);
      && run.ended.Complete?
      && ((forall k | k in world && since <= k <= until :: k in run.store && run.store[k] == world[k]) <==>
          (forall k | k in world && since <= k <= until :: Between(Downloaded(world, step, since, until, store), k)))
  {
    var run := SyncRun(ex, step, since, until, true, store);
    hide SyncRun, Thorough, OnSteps, HonestPage, Between, Downloaded;
    forall k | k in world && since <= k <= until
      ensures k in run.store <==> Between(Downloaded(world, step, since, until, store), k)
      ensures k in run.store ==> run.store[k] == world[k]
    {
      RunFillsWindow(ex, world, step, since, until, store, k);
    }
    ThoroughCompletes(ex, step, since, until, store);
  }

  /**
   A bar older than everything cached is never asked for, whatever the exchange: one bar is cached, and stays alone.
   */
  lemma OlderBarStaysMissing(ex: Exchange, later: OHLCVBar, step: int)
    requires 0 < step && later.time == step
    ensures SyncRun(ex, step, 0, step, true, map[step := later]).store == map[step := later]
  {
    var store := map[step := later];
    assert step in store && LastTime(store) == Some(step);
    var window := Slice(store, 0, step);
    assert window == store;
    ListedIs(store);
    assert |store| == 1;
    assert GapsOf(Listed(store), step) == [];
    assert MainPass(ex, step, step, 2 * step, store, [], 0) == Pass(store, [], 0, Complete);
    hide Listed, GapsOf, LastTime;
  }

  /** A bar between cached ones is fetched, although the main pass resumes after it. */
  lemma BarBetweenIsFetched(ex: Exchange, world: Series, step: int, store: Series, last: int)
    requires 0 < step && OnSteps(world, step) && Stamped(world) && Honest(ex, world) && CachesSome(world, store)
    requires Thorough(ex, step, 0, last, store) && step in world && 0 in store && last in store && step < last
    ensures step in SyncRun(ex, step, 0, last, true, store).store
  {
    var cursor := StartCursor(store, 0, step);
    var covered, window := Covered(store, world, cursor, last), Downloaded(world, step, 0, last, store);
    assert 0 in covered && last in covered;
    assert 0 in window && last in window;
    assert Between(window, step);
    hide SyncRun, Thorough, OnSteps, HonestPage, Downloaded, CachesSome;
    RunFillsWindow(ex, world, step, 0, last, store, step);
  }

  // ---- the reported count ----

  /** The exchange's bars that a thorough run leaves in the window. */
  ghost function Filled(world: Series, step: int, since: int, until: int, store: Series): set<int> {
    set k | k in world && since <= k <= until && Between(Downloaded(world, step, since, until, store), k)
  }

  lemma WorldOnGrid(ex: Exchange, world: Series, step: int, phase: int, store: Series)
    requires 0 < step && Honest(ex, world) && OnGrid(world, step, phase) && CachesSome(world, store)
    ensures PagesAre(ex, GridBar(step, phase)) && OnGrid(store, step, phase)
  {
    hide GridBar;
  }

  lemma WindowFilled(ex: Exchange, world: Series, step: int, since: int, until: int, store: Series)
    requires 0 < step && OnSteps(world, step) && Stamped(world) && Honest(ex, world) && CachesSome(world, store)
    requires Thorough(ex, step, since, until, store)
    ensures WindowKeys(SyncRun(ex, step, since, until, true, store).store, since, until)
         == Filled(world, step, since, until, store)
  {
    var run := SyncRun(ex, step, since, until, true, store);
    hide SyncRun, Thorough, OnSteps, Between, Downloaded, Stamped, CachesSome, Honest;
    forall k
      ensures k in WindowKeys(run.store, since, until) <==> k in Filled(world, step, since, until, store)
    {
      if since <= k <= until { RunFillsWindow(ex, world, step, since, until, store, k); }
    }
  }

  /** Against an honest exchange the reported count can be read from its bars before the run. */
  lemma HonestGapsRepaired(ex: Exchange, world: Series, step: int, phase: int, since: int, until: int, store: Series)
    requires 0 < step && OnGrid(world, step, phase) && Honest(ex, world) && CachesSome(world, store)
    requires Thorough(ex, step, since, until, store)
    ensures var x, y := Downloaded(world, step, since, until, store), Filled(world, step, since, until, store);
      SyncRun(ex, step, since, until, true, store).gapsRepaired == |StartsFilled(x, y, step)| - |LooseEnds(x, y, step)|
  {
    WorldOnGrid(ex, world, step, phase, store);
    GridOnSteps(world, step, phase);
    GridOnSteps(store, step, phase);
    ThoroughRun(ex, world, step, since, until, store);
    hide *;
    GapsRepairedIs(ex, step, phase, since, until, true, store);
    DownloadedIs(world, step, since, until, store);
    WindowFilled(ex, world, step, since, until, store);
  }

  /** An exchange with three bars, answering each request with the first of them that it covers. */
  function ThreeBars(a: OHLCVBar, mid: OHLCVBar, b: OHLCVBar): Exchange {
    (n: nat, since: int) =>
      if since <= a.time then Page([a]) else if since <= mid.time then Page([mid])
        else if since <= b.time then Page([b]) else Page([])
  }

  lemma ThreeBarsHonest(a: OHLCVBar, mid: OHLCVBar, b: OHLCVBar)
    requires a.time < mid.time < b.time
    ensures Honest(ThreeBars(a, mid, b), map[a.time := a, mid.time := mid, b.time := b])
  {
    var ex := ThreeBars(a, mid, b);
    forall n, since
      ensures HonestPage(map[a.time := a, mid.time := mid, b.time := b], since, ex(n, since).bars)
    {
      var page := ex(n, since).bars;
      if page != [] {
        assert page == [page[0]] && LastStamp(page) == page[0].time;
        assert Present(page, page[0].time);
      }
    }
  }

  lemma TwoBarGap(a: OHLCVBar, b: OHLCVBar, step: int)
    requires 0 < step && a.time == 0 && b.time == 4 * step
    ensures WindowGaps(map[0 := a, 4 * step := b], 0, 4 * step, step) == [Gap(step, 3 * step, 3)]
  {
    var store := map[0 := a, 4 * step := b];
    var none: seq<OHLCVBar> := [];
    assert [a, b][..1] == [a] && [a][..0] == none;
    assert Overlay(map[], none) == map[] && Overlay(map[], [a]) == map[0 := a];
    assert Overlay(map[], [a, b]) == store == Slice(store, 0, 4 * step);
    ListedOverlay([a, b]);
    QuotientIs(4 * step, step, 4);
    assert GapsOf([a], step) == [];
    assert GapBetween(0, 4 * step, step) == Some(Gap(step, 3 * step, 3));
    hide Listed, Overlay;
  }

  lemma MiddleBarRepairs(a: OHLCVBar, mid: OHLCVBar, b: OHLCVBar, step: int, store: Series)
    requires 0 < step && a.time == 0 && mid.time == 2 * step && b.time == 4 * step
    ensures var r := RepairAll(ThreeBars(a, mid, b), step, [Gap(step, 3 * step, 3)], store, 0);
      r.ended.Complete? && r.calls == 2
  {
    var ex, gap := ThreeBars(a, mid, b), Gap(step, 3 * step, 3);
    assert ex(0, step) == Page([mid]) && ex(1, 3 * step) == Page([b]);
    assert LastStamp([mid]) == 2 * step && LastStamp([b]) == 4 * step;
    hide Overlay, Within, LastStamp, ThreeBars;
    var filled := Overlay(store, Within([mid], Some(step), Some(3 * step)));
    var again := Overlay(filled, Within([b], Some(step), Some(3 * step)));
    assert RepairGap(ex, step, gap, 5 * step, again, 2, 2) == Repair(again, 2, Complete);
    assert RepairGap(ex, step, gap, 3 * step, filled, 1, 1) == Repair(again, 2, Complete);
    assert RepairGap(ex, step, gap, step, store, 0, 0) == Repair(again, 2, Complete);
    hide RepairGap;
    assert [gap][1..] == [];
    assert RepairAll(ex, step, [], again, 2) == Repair(again, 2, Complete);
  }

  lemma MiddleBarThorough(a: OHLCVBar, mid: OHLCVBar, b: OHLCVBar, step: int)
    requires 0 < step && a.time == 0 && mid.time == 2 * step && b.time == 4 * step
    ensures var store := map[0 := a, 4 * step := b];
      StartCursor(store, 0, step) == 5 * step && Thorough(ThreeBars(a, mid, b), step, 0, 4 * step, store)
  {
    var ex, store := ThreeBars(a, mid, b), map[0 := a, 4 * step := b];
    assert 4 * step in store && LastTime(store) == Some(4 * step);
    assert MainPass(ex, step, 4 * step, 5 * step, store, [], 0) == Pass(store, [], 0, Complete);
    OverlayNothing(store);
    hide MainPass, RepairAll, WindowGaps, LastTime, Overlay;
    TwoBarGap(a, b, step);
    MiddleBarRepairs(a, mid, b, step, store);
  }

  lemma MiddleBarWindows(a: OHLCVBar, mid: OHLCVBar, b: OHLCVBar, step: int)
    requires 0 < step && a.time == 0 && mid.time == 2 * step && b.time == 4 * step
    requires StartCursor(map[0 := a, 4 * step := b], 0, step) == 5 * step
    ensures var store, world := map[0 := a, 4 * step := b], map[0 := a, 2 * step := mid, 4 * step := b];
      && Downloaded(world, step, 0, 4 * step, store) == {0, 4 * step}
      && Filled(world, step, 0, 4 * step, store) == {0, 2 * step, 4 * step}
  {
    var store, world := map[0 := a, 4 * step := b], map[0 := a, 2 * step := mid, 4 * step := b];
    hide StartCursor;
    var x := Downloaded(world, step, 0, 4 * step, store);
    assert x == {0, 4 * step};
    hide Downloaded;
    assert Between(x, 0) && Between(x, 2 * step) && Between(x, 4 * step);
  }

  /**
   One gap of three bars, of which the exchange has only the middle one: the run adds that bar, leaves two gaps where
   there was one, and reports minus one gap repaired.
   */
  lemma SplitGapReportsMinusOne(a: OHLCVBar, mid: OHLCVBar, b: OHLCVBar, step: int)
    requires 0 < step && a.time == 0 && mid.time == 2 * step && b.time == 4 * step
    ensures SyncRun(ThreeBars(a, mid, b), step, 0, 4 * step, true, map[0 := a, 4 * step := b]).gapsRepaired == -1
  {
    var ex, store, until := ThreeBars(a, mid, b), map[0 := a, 4 * step := b], 4 * step;
    var world := map[0 := a, 2 * step := mid, 4 * step := b];
    WorldOfThree(a, mid, b, step);
    hide SyncRun, Thorough, OnGrid, Downloaded, Filled, HonestPage, StartCursor, ThreeBars, CachesSome;
    ThreeBarsHonest(a, mid, b);
    MiddleBarThorough(a, mid, b, step);
    MiddleBarWindows(a, mid, b, step);
    HonestGapsRepaired(ex, world, step, 0, 0, until, store);
    MiddleBarCounts(step);
    hide StartsFilled, LooseEnds;
  }

  lemma WorldOfThree(a: OHLCVBar, mid: OHLCVBar, b: OHLCVBar, step: int)
    requires 0 < step && a.time == 0 && mid.time == 2 * step && b.time == 4 * step
    ensures var store, world := map[0 := a, 4 * step := b], map[0 := a, 2 * step := mid, 4 * step := b];
      OnGrid(world, step, 0) && CachesSome(world, store)
  {
    MultiplesOnGrid(step);
  }

  lemma MiddleBarCounts(step: int)
    requires 0 < step
    ensures |StartsFilled({0, 4 * step}, {0, 2 * step, 4 * step}, step)| == 0
    ensures |LooseEnds({0, 4 * step}, {0, 2 * step, 4 * step}, step)| == 1
  {
    assert StartsFilled({0, 4 * step}, {0, 2 * step, 4 * step}, step) == {};
    assert LooseEnds({0, 4 * step}, {0, 2 * step, 4 * step}, step) == {2 * step};
  }

  lemma MultiplesOnGrid(step: int)
    requires 0 < step
    ensures 0 % step == 0 && (2 * step) % step == 0 && (4 * step) % step == 0
  {
    QuotientIs(0, step, 0);
    QuotientIs(2 * step, step, 2);
    QuotientIs(4 * step, step, 4);
  }
}

/** What a run reports as `gaps_repaired`: gap starts filled, less the loose ends its own rows leave. */
module GapCounts {
  import opened Domain
  import opened Timeline
  import opened Quality
  import opened OhlcvStores
  import opened SyncModel
  import opened SyncProofs
  import opened GapRepairs

  // ---- gaps, counted by the bars before them ----

  /** The stamp after `k` is one of `keys`. */
  predicate Followed(keys: set<int>, k: int, step: int) {
    k + step in keys
  }

  /** The stamps without a successor: the last one, and one before each gap. */
  function Breaks(keys: set<int>, step: int): set<int> {
    set k | k in keys && !Followed(keys, k, step)
  }

  function Stamps(bars: seq<OHLCVBar>): set<int> {
    if bars == [] then {} else Stamps(bars[..|bars| - 1]) + {bars[|bars| - 1].time}
  }

  lemma {:induction false} StampsAre(bars: seq<OHLCVBar>, k: int)
    ensures k in Stamps(bars) <==> Present(bars, k)
  {
    if bars != [] {
      var n := |bars| - 1;
      StampsAre(bars[..n], k);
      if k in Stamps(bars[..n]) {
        var i :| 0 <= i < n && bars[..n][i].time == k;
        assert bars[i].time == k;
      } else if k == bars[n].time {
        assert Present(bars, k);
      }
      if Present(bars, k) && k != bars[n].time {
        var i :| 0 <= i < |bars| && bars[i].time == k;
        assert bars[..n][i].time == k;
      }
    }
  }

  lemma StampsUpTo(bars: seq<OHLCVBar>)
    requires Ascending(bars) && bars != []
    ensures bars[|bars| - 1].time in Stamps(bars)
    ensures forall k | k in Stamps(bars) :: k <= bars[|bars| - 1].time
  {
    forall k | k in Stamps(bars)
      ensures k <= bars[|bars| - 1].time
    {
      StampsAre(bars, k);
    }
  }

  /** One more stamp is a new break, and no longer leaves the previous last one a break if it follows at once. */
  lemma BreaksSnoc(keys: set<int>, prev: int, last: int, step: int)
    requires 0 < step && prev in keys && prev + step <= last && forall k | k in keys :: k <= prev
    ensures prev in Breaks(keys, step) && last !in Breaks(keys, step)
    ensures Breaks(keys + {last}, step)
         == (if last == prev + step then Breaks(keys, step) - {prev} else Breaks(keys, step)) + {last}
  {
  }

  lemma {:induction false} GapsAreBreaks(bars: seq<OHLCVBar>, step: int)
    requires 0 < step && StepAligned(bars, step) && bars != []
    ensures |GapsOf(bars, step)| + 1 == |Breaks(Stamps(bars), step)|
  {
    hide Breaks;
    var n := |bars| - 1;
    if n == 0 {
      assert Stamps(bars) == {bars[0].time};
      OneBreak(bars[0].time, step);
    } else {
      StepAlignedInit(bars, step);
      GapsAreBreaks(bars[..n], step);
      NextGapIff(bars, step);
      var init, prev, last := bars[..n], bars[n - 1].time, bars[n].time;
      StampsUpTo(init);
      hide StepAligned;
      BreaksSnoc(Stamps(init), prev, last, step);
    }
  }

  lemma OneBreak(k: int, step: int)
    requires 0 < step
    ensures Breaks({k}, step) == {k}
  {
  }

  lemma NextGapIff(bars: seq<OHLCVBar>, step: int)
    requires 0 < step && StepAligned(bars, step) && 2 <= |bars|
    ensures var prev, last := bars[|bars| - 2].time, bars[|bars| - 1].time;
      prev + step <= last && (GapBetween(prev, last, step).None? <==> last == prev + step)
  {
    var prev, last := bars[|bars| - 2].time, bars[|bars| - 1].time;
    WholeSteps(prev - bars[0].time, last - bars[0].time, step);
    assert last - bars[0].time - (prev - bars[0].time) == last - prev;
    NextGapSize(prev, last, step);
    WholeSteps(0, last - prev, step);
    if prev + step < last {
      QuotientIs(step, step, 1);
      WholeSteps(step, last - prev, step);
      PositiveMultiple((last - prev) / step - 1, step);
    }
  }

  /** An aligned window has one gap fewer than it has bars without a successor. */
  lemma GapsCounted(m: Series, step: int)
    requires 0 < step && Stamped(m) && OnSteps(m, step) && m != map[]
    ensures |GapsOf(Listed(m), step)| == |Breaks(m.Keys, step)| - 1
  {
    hide Breaks, OnSteps, StepAligned, GapsOf;
    ListedAligned(m, step);
    ListedIs(m);
    assert |m| > 0;
    hide Listed;
    GapsAreBreaks(Listed(m), step);
    forall k
      ensures k in m.Keys <==> k in Stamps(Listed(m))
    {
      ListedPresent(m, k);
      StampsAre(Listed(m), k);
    }
    assert m.Keys == Stamps(Listed(m));
  }

  // ---- what a run changes ----

  /** The gaps of `before` whose first bar `after` has: the bars before them. */
  function StartsFilled(before: set<int>, after: set<int>, step: int): set<int> {
    set k | k in before && !Followed(before, k, step) && Followed(after, k, step)
  }

  /** The bars added that have no successor of their own. */
  function LooseEnds(before: set<int>, after: set<int>, step: int): set<int> {
    set k | k in after && k !in before && !Followed(after, k, step)
  }

  lemma BreaksChange(before: set<int>, after: set<int>, step: int)
    requires before <= after
    ensures |Breaks(before, step)| - |Breaks(after, step)|
        == |StartsFilled(before, after, step)| - |LooseEnds(before, after, step)|
  {
    var kept := set k | k in before && !Followed(after, k, step);
    assert Breaks(before, step) == StartsFilled(before, after, step) + kept;
    assert Breaks(after, step) == LooseEnds(before, after, step) + kept;
  }

  lemma NothingChanged(keys: set<int>, step: int)
    ensures StartsFilled(keys, keys, step) == {} && LooseEnds(keys, keys, step) == {}
  {
  }

  lemma SameSizeSameKeys(m: Series, n: Series)
    requires m.Keys <= n.Keys && |m| == |n|
    ensures m.Keys == n.Keys
  {
    var added := n.Keys - m.Keys;
    assert n.Keys == m.Keys + added && |m.Keys| == |m| && |n.Keys| == |n|;
  }

  // ---- the main pass stays on the grid ----

  lemma {:induction false} MainPassOnGrid(ex: Exchange, step: int, phase: int, until: int, cursor: int, store: Series,
                                          buffer: seq<OHLCVBar>, pages: nat)
    requires 0 < step && PagesAre(ex, GridBar(step, phase))
    requires OnGrid(store, step, phase) && AllAre(buffer, GridBar(step, phase))
    ensures OnGrid(StoredBy(MainPass(ex, step, until, cursor, store, buffer, pages)), step, phase)
    decreases until - cursor
  {
    hide Overlay, Within, LastStamp, GridBar, OnGrid;
    OverlaidOnGrid(store, buffer, step, phase);
    if cursor <= until && pages < MAX_PAGES {
      match ex(pages, cursor)
      case Page(bars) =>
        if bars != [] {
          WithinAre(bars, None, Some(until), GridBar(step, phase));
          var next, full := LastStamp(bars) + step, Buffered(buffer, bars, until);
          OverlaidOnGrid(store, full, step, phase);
          OverlaidOnGrid(StoreAfter(store, full), BufferAfter(full), step, phase);
          if next > cursor {
            MainPassOnGrid(ex, step, phase, until, next, StoreAfter(store, full), BufferAfter(full), pages + 1);
          }
        }
      case _ => OverlayNothing(Overlay(store, buffer));
    }
  }

  lemma OverlaidOnGrid(m: Series, bars: seq<OHLCVBar>, step: int, phase: int)
    requires 0 < step && OnGrid(m, step, phase) && AllAre(bars, GridBar(step, phase))
    ensures OnGrid(Overlay(m, bars), step, phase)
  {
    OverlayGrowsBy(m, bars, GridBar(step, phase));
    hide Overlay, GridBar, AllAre;
  }

  // ---- the reported count ----

  /** The stamps cached inside the window. */
  function WindowKeys(m: Series, since: int, until: int): set<int> {
    Slice(m, since, until).Keys
  }

  lemma GapsDrop(before: Series, after: Series, since: int, until: int, step: int, phase: int)
    requires 0 < step && Stamped(before) && Stamped(after) && before.Keys <= after.Keys
    requires OnGrid(before, step, phase) && OnGrid(after, step, phase) && WindowGaps(before, since, until, step) != []
    ensures var x, y := WindowKeys(before, since, until), WindowKeys(after, since, until);
      |WindowGaps(before, since, until, step)| - |WindowGaps(after, since, until, step)|
        == |StartsFilled(x, y, step)| - |LooseEnds(x, y, step)|
  {
    var x, y := Slice(before, since, until), Slice(after, since, until);
    WindowNotEmpty(before, since, until, step);
    assert x.Keys <= y.Keys by {
      forall k | k in x.Keys
        ensures k in y.Keys
      {
        assert k in before.Keys;
      }
    }
    var k :| k in x.Keys;
    assert k in y.Keys;
    assert OnGrid(x, step, phase) && OnGrid(y, step, phase);
    hide OnGrid, GapsOf, Listed;
    GridOnSteps(x, step, phase);
    GridOnSteps(y, step, phase);
    hide OnSteps;
    GapsCounted(x, step);
    GapsCounted(y, step);
    BreaksChange(x.Keys, y.Keys, step);
  }

  lemma WindowNotEmpty(m: Series, since: int, until: int, step: int)
    requires 0 < step && Stamped(m) && WindowGaps(m, since, until, step) != []
    ensures Slice(m, since, until).Keys != {}
  {
    var x := Slice(m, since, until);
    ListedIs(x);
    hide Listed;
    assert |x| == |x.Keys|;
  }

  /** A repaired cache: nothing lost, nothing off the grid. */
  lemma RepairedOnGrid(ex: Exchange, step: int, phase: int, since: int, until: int, stored: Series, calls: nat)
    requires 0 < step && PagesAre(ex, GridBar(step, phase)) && OnGrid(stored, step, phase) && Stamped(stored)
    ensures var r := RepairAll(ex, step, FirstGaps(WindowGaps(stored, since, until, step)), stored, calls);
      Stamped(r.store) && OnGrid(r.store, step, phase) && stored.Keys <= r.store.Keys
  {
    var gaps := FirstGaps(WindowGaps(stored, since, until, step));
    RepairKeepsCached(ex, step, since, until, stored, calls);
    RepairGrowsBy(ex, step, gaps, stored, calls, GridBar(step, phase));
    hide RepairAll, WindowGaps, GridBar, PagesAre, Stamped;
    var r := RepairAll(ex, step, gaps, stored, calls);
    forall k | k in stored.Keys
      ensures k in r.store.Keys
    {
      assert k in stored;
    }
  }

  /**
   `gaps_repaired` on a grid, for every run that returns: the gaps whose first bar was filled in less the added bars
   left without a successor. So it is negative exactly when the loose ends outnumber the filled starts.
   */
  lemma GapsRepairedIs(ex: Exchange, step: int, phase: int, since: int, until: int, repairGaps: bool, store: Series)
    requires 0 < step && Stamped(store) && PagesAre(ex, GridBar(step, phase)) && OnGrid(store, step, phase)
    requires !SyncRun(ex, step, since, until, repairGaps, store).ended.Escaped?
    ensures var run := SyncRun(ex, step, since, until, repairGaps, store);
      var x := WindowKeys(AfterMainPass(ex, step, since, until, store), since, until);
      var y := WindowKeys(run.store, since, until);
      && run.gapsRepaired == |StartsFilled(x, y, step)| - |LooseEnds(x, y, step)|
      && (run.gapsRepaired < 0 <==> |StartsFilled(x, y, step)| < |LooseEnds(x, y, step)|)
  {
    var main := MainPass(ex, step, until, StartCursor(store, since, step), store, [], 0);
    var stored := AfterMainPass(ex, step, since, until, store);
    MainPassOnGrid(ex, step, phase, until, StartCursor(store, since, step), store, [], 0);
    var gaps, x := WindowGaps(stored, since, until, step), WindowKeys(stored, since, until);
    hide MainPass, RepairAll, StoredBy, WindowGaps, Stamped, StartCursor, OnGrid, PagesAre, StartsFilled, LooseEnds;
    if !repairGaps || gaps == [] || main.ended.Faulted? {
      NothingChanged(x, step);
    } else {
      var r := RepairAll(ex, step, FirstGaps(gaps), stored, main.pages);
      RepairedOnGrid(ex, step, phase, since, until, stored, main.pages);
      GapsDrop(stored, r.store, since, until, step, phase);
      if |r.store| == |stored| {
        SameSizeSameKeys(stored, r.store);
        assert x == WindowKeys(r.store, since, until);
        NothingChanged(x, step);
      }
    }
  }
}

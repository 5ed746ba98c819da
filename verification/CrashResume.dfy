/** However often a sync is cut short, the run that finally completes leaves what one uninterrupted run leaves. */
module CrashResume {
  import opened Domain
  import opened Timeline
  import opened Quality
  import opened OhlcvStores
  import opened SyncModel
  import opened SyncProofs

  /** The store holds exactly the exchange's bars from `since` up to some time, no later than `until`. */
  ghost predicate PrefixOf(world: Series, since: int, until: int, store: Series) {
    exists to :: to <= until && store == Slice(world, since, to)
  }

  lemma SlicePrefix(world: Series, since: int, until: int, to: int)
    requires to <= until
    ensures PrefixOf(world, since, until, Slice(world, since, to))
  {
  }

  /** Whatever a run adds after the last cached bar continues the same prefix. */
  lemma Continues(world: Series, step: int, since: int, to: int, more: int)
    requires 0 < step && OnSteps(world, step) && Stamped(world)
    ensures var store := Slice(world, since, to);
      Covered(store, world, StartCursor(store, since, step), more) == Slice(world, since, Max(to, more))
  {
    var store := Slice(world, since, to);
    var cursor := StartCursor(store, since, step);
    var x, y := Covered(store, world, cursor, more), Slice(world, since, Max(to, more));
    forall k
      ensures k in x <==> k in y
      ensures k in x ==> x[k] == y[k]
    {
      if k in world && since <= k < cursor {
        ResumesAfterLast(world, step, since, to, k);
      }
    }
    assert x == y;
  }

  /** Every bar before the resume cursor is cached. */
  lemma ResumesAfterLast(world: Series, step: int, since: int, to: int, k: int)
    requires 0 < step && OnSteps(world, step) && k in world
        && since <= k < StartCursor(Slice(world, since, to), since, step)
    ensures k <= to
  {
    var last := LastTime(Slice(world, since, to)).value;
    if last < k { NothingBetween(world, step, last, k); }
  }

  lemma RunContinues(world: Series, step: int, since: int, until: int, store: Series, stored: Series)
    requires 0 < step && OnSteps(world, step) && Stamped(world)
    requires PrefixOf(world, since, until, store)
    requires CoveredToSome(stored, store, world, StartCursor(store, since, step), until)
    ensures PrefixOf(world, since, until, stored)
  {
    var to :| to <= until && store == Slice(world, since, to);
    var more :| more <= until && stored == Covered(store, world, StartCursor(store, since, step), more);
    Continues(world, step, since, to, more);
    hide StartCursor, Covered, OnSteps;
    SlicePrefix(world, since, until, Max(to, more));
  }

  lemma RunFinishes(world: Series, step: int, since: int, until: int, store: Series)
    requires 0 < step && OnSteps(world, step) && Stamped(world)
    requires PrefixOf(world, since, until, store)
    ensures Covered(store, world, StartCursor(store, since, step), until) == Slice(world, since, until)
  {
    var to :| to <= until && store == Slice(world, since, to);
    Continues(world, step, since, to, until);
  }

  // ---- an honest exchange has nothing for the gaps of its own bars ----

  ghost predicate NothingIn(world: Series, gap: Gap) {
    forall k | k in world :: !(gap.start <= k <= gap.end)
  }

  lemma {:induction false} WithinNothing(page: seq<OHLCVBar>, lo: int, hi: int)
    requires forall i | 0 <= i < |page| :: !(lo <= page[i].time <= hi)
    ensures Within(page, Some(lo), Some(hi)) == []
  {
    if page != [] { WithinNothing(page[..|page| - 1], lo, hi); }
  }

  lemma {:induction false} GapStaysEmpty(ex: Exchange, world: Series, step: int, gap: Gap, cursor: int, store: Series,
                                         calls: nat, pages: nat)
    requires 0 < step && Honest(ex, world) && NothingIn(world, gap)
    ensures RepairGap(ex, step, gap, cursor, store, calls, pages).store == store
    decreases gap.end - cursor
  {
    hide LastStamp;
    if cursor <= gap.end && pages < MAX_PAGES {
      match ex(calls, cursor)
      case Page(bars) =>
        assert HonestPage(world, cursor, bars);
        WithinNothing(bars, gap.start, gap.end);
        if bars != [] && LastStamp(bars) + step > cursor {
          GapStaysEmpty(ex, world, step, gap, LastStamp(bars) + step, store, calls + 1, pages + 1);
        }
      case _ =>
    }
  }

  lemma {:induction false} GapsStayEmpty(ex: Exchange, world: Series, step: int, gaps: seq<Gap>, store: Series,
                                         calls: nat)
    requires 0 < step && Honest(ex, world)
    requires forall i | 0 <= i < |gaps| :: NothingIn(world, gaps[i])
    ensures RepairAll(ex, step, gaps, store, calls).store == store
    decreases |gaps|
  {
    hide RepairGap, HonestPage;
    if gaps != [] {
      GapStaysEmpty(ex, world, step, gaps[0], gaps[0].start, store, calls, 0);
      GapsStayEmpty(ex, world, step, gaps[1..], store,
        RepairGap(ex, step, gaps[0], gaps[0].start, store, calls, 0).calls);
    }
  }

  /** The gaps of a prefix of the exchange's bars are the exchange's own. */
  lemma PrefixGapsAreReal(world: Series, step: int, since: int, until: int, store: Series, i: nat)
    requires 0 < step && Stamped(world) && PrefixOf(world, since, until, store)
    requires i < |WindowGaps(store, since, until, step)|
    ensures NothingIn(world, WindowGaps(store, since, until, step)[i])
  {
    var gap := WindowGaps(store, since, until, step)[i];
    var to :| to <= until && store == Slice(world, since, to);
    forall k | k in world
      ensures !(gap.start <= k <= gap.end)
    {
      if gap.start <= k <= gap.end { OutsidePrefix(world, step, since, until, to, k); }
    }
  }

  lemma OutsidePrefix(world: Series, step: int, since: int, until: int, to: int, k: int)
    requires 0 < step && Stamped(world) && to <= until
    requires InGaps(WindowGaps(Slice(world, since, to), since, until, step), k)
    ensures k !in world
  {
    var store := Slice(world, since, to);
    var window := Slice(store, since, until);
    GapsMissStore(store, since, until, step, k);
    ListedIs(window);
    GapsAvoidBars(Listed(window), step, k);
    hide Listed, GapsOf;
    assert Listed(window)[|window| - 1].time in window;
  }

  lemma PrefixNeedsNoRepair(ex: Exchange, world: Series, step: int, since: int, until: int, store: Series, calls: nat)
    requires 0 < step && Stamped(world) && Honest(ex, world) && PrefixOf(world, since, until, store)
    ensures RepairAll(ex, step, FirstGaps(WindowGaps(store, since, until, step)), store, calls).store == store
  {
    var gaps := WindowGaps(store, since, until, step);
    hide WindowGaps, PrefixOf, NothingIn, HonestPage;
    forall i | 0 <= i < |gaps|
      ensures NothingIn(world, gaps[i])
    {
      PrefixGapsAreReal(world, step, since, until, store, i);
    }
    GapsStayEmpty(ex, world, step, FirstGaps(gaps), store, calls);
  }

  // ---- runs ----

  /** The run completed: no error cut it short and the page cap was not reached. */
  predicate Clean(run: Run) {
    run.ended.Complete? && run.pages < MAX_PAGES
  }

  lemma RunKeepsPrefix(ex: Exchange, world: Series, step: int, since: int, until: int, repairGaps: bool, store: Series)
    requires 0 < step && OnSteps(world, step) && Stamped(world) && Honest(ex, world)
    requires PrefixOf(world, since, until, store)
    ensures var run := SyncRun(ex, step, since, until, repairGaps, store);
      && PrefixOf(world, since, until, run.store)
      && (Clean(run) ==> run.store == Slice(world, since, until))
  {
    CompletePassStoresAll(ex, world, step, since, until, store);
    RunStores(ex, step, since, until, repairGaps, store);
    var main := MainPass(ex, step, until, StartCursor(store, since, step), store, [], 0);
    var stored := StoredBy(main);
    assert stored == AfterMainPass(ex, step, since, until, store);
    hide PrefixOf, OnSteps, HonestPage, WindowGaps, MainPass, RepairAll, CoveredToSome, Covered, StartCursor, StoredBy,
      Slice;
    hide SyncRun, AfterMainPass, FirstGaps;
    RunContinues(world, step, since, until, store, stored);
    RunFinishes(world, step, since, until, store);
    PrefixNeedsNoRepair(ex, world, step, since, until, stored, main.pages);
  }

  /** The store after one run after another over the same range, each against its own exchange behaviour. */
  function AfterRuns(exs: seq<Exchange>, step: int, since: int, until: int, repairGaps: bool, store: Series): Series
    requires 0 < step
  {
    if exs == [] then store
    else
      SyncRun(exs[|exs| - 1], step, since, until, repairGaps,
        AfterRuns(exs[..|exs| - 1], step, since, until, repairGaps, store)).store
  }

  lemma {:induction false} RunsKeepPrefix(exs: seq<Exchange>, world: Series, step: int, since: int, until: int,
                                          repairGaps: bool)
    requires 0 < step && OnSteps(world, step) && Stamped(world) && since <= until
    requires forall i | 0 <= i < |exs| :: Honest(exs[i], world)
    ensures PrefixOf(world, since, until, AfterRuns(exs, step, since, until, repairGaps, map[]))
  {
    if exs == [] {
      assert Slice(world, since, since - 1) == map[];
      SlicePrefix(world, since, until, since - 1);
    } else {
      var before := AfterRuns(exs[..|exs| - 1], step, since, until, repairGaps, map[]);
      RunsKeepPrefix(exs[..|exs| - 1], world, step, since, until, repairGaps);
      hide PrefixOf, OnSteps, HonestPage, SyncRun;
      RunKeepsPrefix(exs[|exs| - 1], world, step, since, until, repairGaps, before);
    }
  }

  /**
   Crash-resume: starting empty, after any number of runs that failed or were killed at any request, a run that
   completes leaves exactly the exchange's bars of the range, as a single uninterrupted run does.
   */
  lemma InterruptedRunsConverge(exs: seq<Exchange>, last: Exchange, single: Exchange, world: Series, step: int,
                                since: int, until: int, repairGaps: bool)
    requires 0 < step && OnSteps(world, step) && Stamped(world) && since <= until
    requires Honest(last, world) && Honest(single, world) && forall i | 0 <= i < |exs| :: Honest(exs[i], world)
    requires Clean(SyncRun(last, step, since, until, repairGaps, AfterRuns(exs, step, since, until, repairGaps, map[])))
    requires Clean(SyncRun(single, step, since, until, repairGaps, map[]))
    ensures var resumed :=
        SyncRun(last, step, since, until, repairGaps, AfterRuns(exs, step, since, until, repairGaps, map[]));
      && resumed.store == Slice(world, since, until)
      && resumed.store == SyncRun(single, step, since, until, repairGaps, map[]).store
  {
    hide SyncRun, OnSteps, HonestPage, PrefixOf, Slice;
    RunsKeepPrefix(exs, world, step, since, until, repairGaps);
    RunsKeepPrefix([], world, step, since, until, repairGaps);
    RunKeepsPrefix(last, world, step, since, until, repairGaps, AfterRuns(exs, step, since, until, repairGaps, map[]));
    RunKeepsPrefix(single, world, step, since, until, repairGaps, map[]);
  }
}

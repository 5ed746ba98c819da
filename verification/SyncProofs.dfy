/** Completeness, crash-resume and repair of the history sync. */
module SyncProofs {
  import opened Domain
  import opened Timeline
  import opened Quality
  import opened OhlcvStores
  import opened SyncModel

  // ---- an honest exchange ----

  /**
   `page` holds bars of `world` from `since` on, without a hole up to its last bar, and is empty only when none
   remain.
   */
  ghost predicate HonestPage(world: Series, since: int, page: seq<OHLCVBar>) {
    && (forall i | 0 <= i < |page| :: since <= page[i].time && page[i].time in world && world[page[i].time] == page[i])
    && (page == [] ==> forall t | t in world :: t < since)
    && (page != [] ==> forall t | t in world && since <= t <= LastStamp(page) :: Present(page, t))
  }

  /** Every page the exchange answers is honest about the same, unchanging bars; it may also fail at any request. */
  ghost predicate Honest(ex: Exchange, world: Series) {
    forall n, since :: ex(n, since).Page? ==> HonestPage(world, since, ex(n, since).bars)
  }

  /** All bars lie whole steps apart. */
  ghost predicate OnSteps(world: Series, step: int)
    requires 0 < step
  {
    forall s, t | s in world && t in world :: (t - s) % step == 0
  }

  lemma NothingBetween(world: Series, step: int, s: int, t: int)
    requires 0 < step && OnSteps(world, step) && s in world && t in world && s < t
    ensures s + step <= t
  {
    WholeSteps(0, t - s, step);
  }

  /** The last bar of an honest page at time `k` is the world's bar there, for every `k` up to the page's last. */
  lemma HonestLastAt(world: Series, since: int, page: seq<OHLCVBar>, k: int)
    requires page != [] && HonestPage(world, since, page)
    ensures LastAt(page, k) == if k in world && since <= k <= LastStamp(page) then Some(world[k]) else None
  {
    LastStampIs(page);
    NoneAt(page, k);
    if k in world && since <= k <= LastStamp(page) {
      var i :| 0 <= i < |page| && page[i].time == k;
      HonestLast(world, since, page, k);
    }
  }

  lemma {:induction false} HonestLast(world: Series, since: int, page: seq<OHLCVBar>, k: int)
    requires forall i | 0 <= i < |page| :: page[i].time in world && world[page[i].time] == page[i]
    ensures LastAt(page, k).Some? ==> k in world && LastAt(page, k).value == world[k]
  {
    if page != [] {
      assert world[page[|page| - 1].time] == page[|page| - 1];
      HonestLast(world, since, page[..|page| - 1], k);
    }
  }

  /** The old store with the world's bars from `from` through `to` written over it. */
  function Covered(base: Series, world: Series, from: int, to: int): Series {
    base + Slice(world, from, to)
  }

  lemma CoveredAt(base: Series, world: Series, from: int, to: int, k: int)
    ensures k in Covered(base, world, from, to) <==> k in base || (k in world && from <= k <= to)
    ensures k in Covered(base, world, from, to) ==>
      Covered(base, world, from, to)[k] == if k in world && from <= k <= to then world[k] else base[k]
  {
  }

  ghost predicate AgreeAt(a: Series, b: Series, k: int) {
    (k in a <==> k in b) && (k in a ==> a[k] == b[k])
  }

  lemma AgreeEverywhere(a: Series, b: Series)
    requires forall k :: AgreeAt(a, b, k)
    ensures a == b
  {
    forall k
      ensures k in a <==> k in b
      ensures k in a ==> a[k] == b[k]
    {
      assert AgreeAt(a, b, k);
    }
    assert a.Keys == b.Keys;
    assert a == b;
  }

  lemma PageCoversAt(world: Series, step: int, base: Series, from: int, cursor: int, lo: Option<int>, until: int,
                     page: seq<OHLCVBar>, k: int)
    requires 0 < step && OnSteps(world, step) && from <= cursor && (lo.Some? ==> lo.value <= cursor)
    requires page != [] && HonestPage(world, cursor, page) && LastStamp(page) in world && cursor <= LastStamp(page)
    ensures var before := Covered(base, world, from, Min(until, cursor - 1));
      var after := Overlay(before, Within(page, lo, Some(until)));
      var want := Covered(base, world, from, Min(until, LastStamp(page) + step - 1));
      AgreeAt(after, want, k)
  {
    hide Overlay, Within, LastAt, HonestPage, LastStamp, OnSteps, Covered;
    var last, before := LastStamp(page), Covered(base, world, from, Min(until, cursor - 1));
    OverlayAt(before, Within(page, lo, Some(until)), k);
    WithinLastAt(page, lo, Some(until), k);
    HonestLastAt(world, cursor, page, k);
    if k in world && last < k { NothingBetween(world, step, last, k); }
    CoveredAt(base, world, from, Min(until, cursor - 1), k);
    CoveredAt(base, world, from, Min(until, last + step - 1), k);
  }

  /** Adding an honest page at `cursor` covers everything up to one step past its last bar. */
  lemma PageCovers(world: Series, step: int, base: Series, from: int, cursor: int, lo: Option<int>, until: int,
                   page: seq<OHLCVBar>)
    requires 0 < step && OnSteps(world, step) && from <= cursor && (lo.Some? ==> lo.value <= cursor)
    requires page != [] && HonestPage(world, cursor, page)
    ensures cursor <= LastStamp(page)
    ensures Overlay(Covered(base, world, from, Min(until, cursor - 1)), Within(page, lo, Some(until)))
         == Covered(base, world, from, Min(until, LastStamp(page) + step - 1))
  {
    LastInWorld(world, cursor, page);
    hide *;
    var before, kept := Covered(base, world, from, Min(until, cursor - 1)), Within(page, lo, Some(until));
    var after, want := Overlay(before, kept), Covered(base, world, from, Min(until, LastStamp(page) + step - 1));
    forall k
      ensures AgreeAt(after, want, k)
    {
      PageCoversAt(world, step, base, from, cursor, lo, until, page, k);
    }
    AgreeEverywhere(after, want);
  }

  lemma LastInWorld(world: Series, since: int, page: seq<OHLCVBar>)
    requires page != [] && HonestPage(world, since, page)
    ensures LastStamp(page) in world && since <= LastStamp(page)
  {
    LastStampIs(page);
    var j :| 0 <= j < |page| && page[j].time == LastStamp(page);
  }

  /** Nothing remains from `cursor` on: what was covered so far is everything. */
  lemma EmptyPageCovers(world: Series, base: Series, from: int, cursor: int, until: int)
    requires HonestPage(world, cursor, [])
    ensures Covered(base, world, from, Min(until, cursor - 1)) == Covered(base, world, from, until)
  {
  }

  /** The store is the old one plus the world's bars from `from` up to some time, no later than `until`. */
  ghost predicate CoveredToSome(store: Series, base: Series, world: Series, from: int, until: int) {
    exists to :: to <= until && store == Covered(base, world, from, to)
  }

  ghost predicate Progress(base: Series, world: Series, from: int, cursor: int, until: int, store: Series,
                           buffer: seq<OHLCVBar>) {
    && from <= cursor
    && Overlay(store, buffer) == Covered(base, world, from, Min(until, cursor - 1))
    && CoveredToSome(store, base, world, from, until)
  }

  lemma PageProgress(world: Series, step: int, base: Series, from: int, cursor: int, until: int, store: Series,
                     buffer: seq<OHLCVBar>, page: seq<OHLCVBar>)
    requires 0 < step && OnSteps(world, step) && page != [] && HonestPage(world, cursor, page)
    requires Progress(base, world, from, cursor, until, store, buffer)
    ensures var next, full := LastStamp(page) + step, Buffered(buffer, page, until);
      && cursor < next
      && Progress(base, world, from, next, until, store, full)
      && Progress(base, world, from, next, until, Overlay(store, full), [])
  {
    hide Within, LastStamp, HonestPage, Covered, CoveredToSome, Overlay, OnSteps;
    PageCovers(world, step, base, from, cursor, None, until, page);
    OverlayConcat(store, buffer, Within(page, None, Some(until)));
    var next, full := LastStamp(page) + step, Buffered(buffer, page, until);
    assert Overlay(store, full) == Covered(base, world, from, Min(until, next - 1));
    CoveredTo(base, world, from, until, Min(until, next - 1));
    OverlayNothing(Overlay(store, full));
  }

  lemma CoveredTo(base: Series, world: Series, from: int, until: int, to: int)
    requires to <= until
    ensures CoveredToSome(Covered(base, world, from, to), base, world, from, until)
  {
  }

  /**
   The main pass against an honest exchange: however it ends, the store holds the old bars and the exchange's from the
   cursor up to some point; a pass that completes within the page cap holds them through `until`.
   */
  lemma {:induction false} MainPassCovers(ex: Exchange, world: Series, step: int, base: Series, from: int, until: int,
                                          cursor: int, store: Series, buffer: seq<OHLCVBar>, pages: nat)
    requires 0 < step && OnSteps(world, step) && Honest(ex, world)
    requires Progress(base, world, from, cursor, until, store, buffer)
    ensures var p := MainPass(ex, step, until, cursor, store, buffer, pages);
      && CoveredToSome(StoredBy(p), base, world, from, until)
      && (p.ended.Complete? && p.pages < MAX_PAGES ==> StoredBy(p) == Covered(base, world, from, until))
    decreases until - cursor
  {
    hide Overlay, Within, LastStamp, HonestPage, OnSteps;
    if cursor <= until && pages < MAX_PAGES {
      match ex(pages, cursor)
      case Page(bars) =>
        assert HonestPage(world, cursor, bars);
        if bars == [] {
          EmptyPageCovers(world, base, from, cursor, until);
        } else {
          PageProgress(world, step, base, from, cursor, until, store, buffer, bars);
          var next, full := LastStamp(bars) + step, Buffered(buffer, bars, until);
          if |full| >= FLUSH_EVERY_BARS {
            MainPassCovers(ex, world, step, base, from, until, next, Overlay(store, full), [], pages + 1);
          } else {
            MainPassCovers(ex, world, step, base, from, until, next, store, full, pages + 1);
          }
        }
      case _ => OverlayNothing(Overlay(store, buffer));
    }
  }

  /**
   Completeness: an "ok" main pass leaves the old store overlaid with all the exchange's bars from the resume cursor
   through `until`.
   */
  lemma CompletePassStoresAll(ex: Exchange, world: Series, step: int, since: int, until: int, store: Series)
    requires 0 < step && OnSteps(world, step) && Honest(ex, world)
    ensures var cursor := StartCursor(store, since, step);
      var p := MainPass(ex, step, until, cursor, store, [], 0);
      && CoveredToSome(StoredBy(p), store, world, cursor, until)
      && (p.ended.Complete? && p.pages < MAX_PAGES ==> StoredBy(p) == Covered(store, world, cursor, until))
  {
    var cursor := StartCursor(store, since, step);
    var to := Min(until, cursor - 1);
    assert Slice(world, cursor, to) == map[];
    assert Covered(store, world, cursor, to) == store;
    OverlayNothing(store);
    MainPassCovers(ex, world, step, store, cursor, until, cursor, store, [], 0);
    hide MainPass, StoredBy;
  }

  /**
   A completed pass has backfilled the whole range if and only if the old store already held the world's earlier bars.
   */
  lemma BackfilledIff(world: Series, store: Series, since: int, until: int, step: int)
    requires 0 < step
    ensures var cursor := StartCursor(store, since, step);
      var result := Covered(store, world, cursor, until);
      (forall t | t in world && since <= t <= until :: t in result && result[t] == world[t]) <==>
      (forall t | t in world && since <= t <= until && t < cursor :: t in store && store[t] == world[t])
  {
    var cursor := StartCursor(store, since, step);
    var result := Covered(store, world, cursor, until);
    assert forall t | t in world && since <= t <= until && t < cursor ::
      (t in result <==> t in store) && (t in store ==> result[t] == store[t]);
    hide StartCursor;
  }

  // ---- repair, whatever the exchange answers ----

  /** `after` differs from `before` only at timestamps inside the gaps, and drops nothing. */
  ghost predicate OnlyInGaps(gaps: seq<Gap>, before: Series, after: Series) {
    && (forall k | k in before :: k in after)
    && (forall k | k in after && !InGaps(gaps, k) :: k in before && after[k] == before[k])
  }

  lemma FillOnlyInGap(gap: Gap, gaps: seq<Gap>, store: Series, page: seq<OHLCVBar>)
    requires gap in gaps
    ensures OnlyInGaps(gaps, store, Overlay(store, Within(page, Some(gap.start), Some(gap.end))))
  {
    var fill := Within(page, Some(gap.start), Some(gap.end));
    var i :| 0 <= i < |gaps| && gaps[i] == gap;
    hide Overlay, Within, LastAt;
    forall k
      ensures k in store ==> k in Overlay(store, fill)
      ensures k in Overlay(store, fill) && !InGaps(gaps, k) ==> k in store && Overlay(store, fill)[k] == store[k]
    {
      OverlayAt(store, fill, k);
      WithinLastAt(page, Some(gap.start), Some(gap.end), k);
    }
  }

  lemma OnlyInGapsTransitive(gaps: seq<Gap>, a: Series, b: Series, c: Series)
    requires OnlyInGaps(gaps, a, b) && OnlyInGaps(gaps, b, c)
    ensures OnlyInGaps(gaps, a, c)
  {
  }

  lemma {:induction false} RepairGapOnlyInGaps(ex: Exchange, step: int, gap: Gap, gaps: seq<Gap>, cursor: int,
                                               store: Series, calls: nat, pages: nat)
    requires 0 < step && gap in gaps && Stamped(store)
    ensures var r := RepairGap(ex, step, gap, cursor, store, calls, pages);
      OnlyInGaps(gaps, store, r.store) && Stamped(r.store)
    decreases gap.end - cursor
  {
    hide OnlyInGaps, Overlay, Within, LastStamp, Stamped;
    assert OnlyInGaps(gaps, store, store) by { Unchanged(gaps, store); }
    if cursor <= gap.end && pages < MAX_PAGES {
      match ex(calls, cursor)
      case Page(bars) =>
        if bars != [] {
          var filled, next := Overlay(store, Within(bars, Some(gap.start), Some(gap.end))), LastStamp(bars) + step;
          FillOnlyInGap(gap, gaps, store, bars);
          OverlayStamped(store, Within(bars, Some(gap.start), Some(gap.end)));
          if next > cursor {
            RepairGapOnlyInGaps(ex, step, gap, gaps, next, filled, calls + 1, pages + 1);
            OnlyInGapsTransitive(gaps, store, filled,
              RepairGap(ex, step, gap, next, filled, calls + 1, pages + 1).store);
          }
        }
      case _ =>
    }
  }

  lemma Unchanged(gaps: seq<Gap>, m: Series)
    ensures OnlyInGaps(gaps, m, m)
  {
  }

  lemma {:induction false} RepairOnlyInGaps(ex: Exchange, step: int, rest: seq<Gap>, gaps: seq<Gap>, store: Series,
                                            calls: nat)
    requires 0 < step && Stamped(store)
    requires forall i | 0 <= i < |rest| :: rest[i] in gaps
    ensures var r := RepairAll(ex, step, rest, store, calls);
      OnlyInGaps(gaps, store, r.store) && Stamped(r.store)
    decreases |rest|
  {
    hide OnlyInGaps, RepairGap, Stamped;
    Unchanged(gaps, store);
    if rest != [] {
      var r := RepairGap(ex, step, rest[0], rest[0].start, store, calls, 0);
      assert rest[0] in gaps;
      RepairGapOnlyInGaps(ex, step, rest[0], gaps, rest[0].start, store, calls, 0);
      if r.ended.Complete? {
        RepairOnlyInGaps(ex, step, rest[1..], gaps, r.store, r.calls);
        OnlyInGapsTransitive(gaps, store, r.store, RepairAll(ex, step, rest[1..], r.store, r.calls).store);
      }
    }
  }

  lemma GapsMissStore(store: Series, since: int, until: int, step: int, t: int)
    requires 0 < step && Stamped(store) && InGaps(WindowGaps(store, since, until, step), t)
    ensures t !in store && since < t < until
  {
    var window := Slice(store, since, until);
    ListedIs(window);
    GapsAvoidBars(Listed(window), step, t);
    hide Listed, GapsOf;
    if t in store { ListedPresent(window, t); }
  }

  lemma ListedPresent(m: Series, t: int)
    requires Stamped(m)
    ensures t in m <==> Present(Listed(m), t)
  {
    ListedIs(m);
    hide Listed;
  }

  /** A repair pass never changes or drops a bar that was cached before it, whatever pages the exchange answers. */
  lemma RepairKeepsCached(ex: Exchange, step: int, since: int, until: int, store: Series, calls: nat)
    requires 0 < step && Stamped(store)
    ensures var r := RepairAll(ex, step, FirstGaps(WindowGaps(store, since, until, step)), store, calls);
      && Stamped(r.store)
      && forall k | k in store :: k in r.store && r.store[k] == store[k]
  {
    var gaps := WindowGaps(store, since, until, step);
    var r := RepairAll(ex, step, FirstGaps(gaps), store, calls);
    RepairOnlyInGaps(ex, step, FirstGaps(gaps), gaps, store, calls);
    hide RepairAll, WindowGaps, InGaps;
    forall k | k in store
      ensures k in r.store && r.store[k] == store[k]
    {
      if InGaps(gaps, k) { GapsMissStore(store, since, until, step, k); }
    }
  }
}

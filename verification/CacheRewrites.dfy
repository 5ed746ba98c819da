/** When a sync changes a bar that is already cached: the main pass keeps page bars from before its own cursor too. */
module CacheRewrites {
  import opened Domain
  import opened Timeline
  import opened OhlcvStores
  import opened SyncModel
  import opened SyncProofs

  /** Every page bar that the main pass keeps, in the order it comes. */
  function Kept(ex: Exchange, step: int, until: int, cursor: int, pages: nat): seq<OHLCVBar>
    requires 0 < step
    decreases until - cursor
  {
    if cursor > until || pages >= MAX_PAGES || !ex(pages, cursor).Page? || ex(pages, cursor).bars == [] then []
    else
      var bars := ex(pages, cursor).bars;
      var next := LastStamp(bars) + step;
      Within(bars, None, Some(until)) + if next <= cursor then [] else Kept(ex, step, until, next, pages + 1)
  }

  /** However it is batched, a pass that no exception ends writes exactly the bars it keeps over the store. */
  lemma {:induction false} PassOverlays(ex: Exchange, step: int, until: int, cursor: int, store: Series,
                                        buffer: seq<OHLCVBar>, pages: nat)
    requires 0 < step
    ensures var p := MainPass(ex, step, until, cursor, store, buffer, pages);
      !p.ended.Escaped? ==> StoredBy(p) == Overlay(store, buffer + Kept(ex, step, until, cursor, pages))
    decreases until - cursor
  {
    hide Overlay, Within, LastStamp;
    assert buffer + [] == buffer;
    OverlayNothing(Overlay(store, buffer));
    if cursor <= until && pages < MAX_PAGES && ex(pages, cursor).Page? && ex(pages, cursor).bars != [] {
      var bars := ex(pages, cursor).bars;
      var next, full := LastStamp(bars) + step, Buffered(buffer, bars, until);
      OverlayNothing(Overlay(store, full));
      assert full + [] == full;
      if next > cursor {
        var rest := Kept(ex, step, until, next, pages + 1);
        PassOverlays(ex, step, until, next, StoreAfter(store, full), BufferAfter(full), pages + 1);
        assert buffer + (Within(bars, None, Some(until)) + rest) == full + rest && [] + rest == rest;
        OverlayConcat(store, full, rest);
      } else {
        assert buffer + (Within(bars, None, Some(until)) + []) == full;
      }
    }
  }

  /** The bars that the main pass of a run keeps. */
  function KeptByRun(ex: Exchange, step: int, since: int, until: int, store: Series): seq<OHLCVBar>
    requires 0 < step
  {
    Kept(ex, step, until, StartCursor(store, since, step), 0)
  }

  lemma MainPassOnCached(ex: Exchange, step: int, since: int, until: int, store: Series, k: int)
    requires 0 < step && Stamped(store) && k in store
    requires !MainPass(ex, step, until, StartCursor(store, since, step), store, [], 0).ended.Escaped?
    ensures var stored, last := AfterMainPass(ex, step, since, until, store),
        LastAt(KeptByRun(ex, step, since, until, store), k);
      Stamped(stored) && k in stored && stored[k] == if last.Some? then last.value else store[k]
  {
    var cursor, kept := StartCursor(store, since, step), KeptByRun(ex, step, since, until, store);
    hide StartCursor, Overlay, LastAt, Stamped, MainPass, Kept;
    PassOverlays(ex, step, until, cursor, store, [], 0);
    assert [] + kept == kept;
    OverlayStamped(store, kept);
    OverlayAt(store, kept, k);
  }

  /** The main pass writes what it keeps, and the repair changes nothing of that. */
  lemma RunOnCached(ex: Exchange, step: int, since: int, until: int, repairGaps: bool, store: Series, k: int)
    requires 0 < step && Stamped(store) && k in store
    requires !SyncRun(ex, step, since, until, repairGaps, store).ended.Escaped?
    ensures var run := SyncRun(ex, step, since, until, repairGaps, store);
      var last := LastAt(KeptByRun(ex, step, since, until, store), k);
      k in run.store && run.store[k] == if last.Some? then last.value else store[k]
  {
    hide *;
    var main := MainPass(ex, step, until, StartCursor(store, since, step), store, [], 0);
    RunStores(ex, step, since, until, repairGaps, store);
    MainPassOnCached(ex, step, since, until, store, k);
    RepairKeepsCached(ex, step, since, until, AfterMainPass(ex, step, since, until, store), main.pages);
  }

  /**
   A run that returns leaves every cached bar as it was if and only if, of each cached timestamp, the last page bar that
   its main pass kept, if any, is the cached one.
   */
  lemma CachedKeptIff(ex: Exchange, step: int, since: int, until: int, repairGaps: bool, store: Series)
    requires 0 < step && Stamped(store)
    requires !SyncRun(ex, step, since, until, repairGaps, store).ended.Escaped?
    ensures var run, kept := SyncRun(ex, step, since, until, repairGaps, store),
        KeptByRun(ex, step, since, until, store);
      && (forall k | k in store :: k in run.store)
      && ((forall k | k in store :: run.store[k] == store[k]) <==>
          (forall k | k in store :: LastAt(kept, k) in {None, Some(store[k])}))
  {
    forall k | k in store
      ensures var run := SyncRun(ex, step, since, until, repairGaps, store);
        var last := LastAt(KeptByRun(ex, step, since, until, store), k);
        k in run.store && run.store[k] == if last.Some? then last.value else store[k]
    {
      RunOnCached(ex, step, since, until, repairGaps, store, k);
    }
    hide SyncRun, KeptByRun, LastAt;
  }

  /** An exchange that answers every request with the same two bars. */
  function Repeating(x: OHLCVBar, y: OHLCVBar): Exchange {
    (n: nat, since: int) => Page([x, y])
  }

  lemma PairKept(x: OHLCVBar, y: OHLCVBar, step: int)
    requires 0 < step && x.time == 0 && y.time == step
    ensures Kept(Repeating(x, y), step, step, step, 0) == [x, y]
    ensures LastAt([x, y], 0) == Some(x)
  {
    var none: seq<OHLCVBar> := [];
    assert [x, y][..1] == [x] && [x][..0] == none;
    assert LastStamp([x]) == 0 && LastStamp([x, y]) == step;
    assert Within(none, None, Some(step)) == none && none + [x] == [x] && [x] + [y] == [x, y];
    assert Within([x], None, Some(step)) == [x];
    assert Within([x, y], None, Some(step)) == [x, y];
    assert Kept(Repeating(x, y), step, step, 2 * step, 1) == none && [x, y] + none == [x, y];
    assert LastAt([x], 0) == Some(x);
  }

  /** A page that overshoots its request backwards rewrites a cached bar, although the cursor is past it. */
  lemma PageRewritesCached(cached: OHLCVBar, x: OHLCVBar, y: OHLCVBar, step: int)
    requires 0 < step && cached.time == x.time == 0 && y.time == step && cached != x
    ensures var store := map[0 := cached];
      var run := SyncRun(Repeating(x, y), step, 0, step, false, store);
      && StartCursor(store, 0, step) == step && run.ended.Complete?
      && 0 in run.store && run.store[0] == x != store[0]
  {
    var store, ex := map[0 := cached], Repeating(x, y);
    assert 0 in store && LastTime(store) == Some(0);
    PairKept(x, y, step);
    var p := MainPass(ex, step, step, 2 * step, StoreAfter(store, Buffered([], [x, y], step)),
      BufferAfter(Buffered([], [x, y], step)), 1);
    assert p.ended.Complete?;
    assert LastStamp([x, y]) == step by { assert [x, y][..1] == [x] && LastStamp([x]) == 0; }
    hide LastTime, Kept, LastAt, LastStamp;
    assert SyncRun(ex, step, 0, step, false, store).ended.Complete?;
    RunOnCached(ex, step, 0, step, false, store, 0);
  }
}

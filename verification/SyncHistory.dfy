/** The history sync itself: loops over a store and an exchange, refining the model of a run. */
module HistorySync {
  import opened Domain
  import opened Timeline
  import opened Quality
  import opened OhlcvStores
  import opened SyncModel

  datatype Status = Ok | Partial | Empty

  datatype SyncResult = SyncResult(
    barsAdded: int, barsTotal: nat, start: Option<int>, end: Option<int>,
    gapsDetected: nat, gapsRepaired: int, pagesFetched: nat, status: Status, note: Option<Note>)

  /** `Thrown` is an exception that the sync does not handle. */
  datatype SyncOutcome = Synced(result: SyncResult) | Thrown | Rejected(error: DataError)

  /** What a run that was not cut short reports. */
  function ResultOf(run: Run, before: Series): SyncResult {
    SyncResult(|run.store| - |before|, |run.store|, FirstTime(run.store), LastTime(run.store),
               run.gapsDetected, run.gapsRepaired, run.pages,
               if run.ended.Faulted? then Partial else if |run.store| == 0 then Empty else Ok, run.note)
  }

  /** Writes the buffer, if there is anything in it, and returns the rows added. */
  method Flush(store: OHLCVStore, buffer: seq<OHLCVBar>) returns (added: int)
    requires store.Valid() && store.timeframe in TIMEFRAME_MS
    modifies store`bars
    ensures store.Valid() && store.bars == Overlay(old(store.bars), buffer)
    ensures added == |store.bars| - |old(store.bars)|
  {
    added := 0;
    if buffer != [] {
      var r := store.UpsertBars(buffer);
      added := r.value;
    }
  }

  /** Takes a page into the buffer, and flushes the buffer once it is full. */
  method BufferPage(store: OHLCVStore, buffer: seq<OHLCVBar>, page: seq<OHLCVBar>, until: int)
    returns (left: seq<OHLCVBar>, added: int)
    requires store.Valid() && store.timeframe in TIMEFRAME_MS
    modifies store`bars
    ensures store.Valid()
    ensures var full := Buffered(buffer, page, until);
      store.bars == StoreAfter(old(store.bars), full) && left == BufferAfter(full)
    ensures added == |store.bars| - |old(store.bars)|
  {
    left, added := Buffered(buffer, page, until), 0;
    if |left| >= FLUSH_EVERY_BARS {
      added := Flush(store, left);
      left := [];
    }
  }

  /** The main pass: page by page from the cursor, buffering, flushing and advancing. */
  method FetchPages(store: OHLCVStore, ex: Exchange, step: int, until: int, start: int)
    returns (pages: nat, ended: Ended, added: int)
    requires store.Valid() && store.timeframe in TIMEFRAME_MS && 0 < step
    modifies store`bars
    ensures store.Valid()
    ensures var p := MainPass(ex, step, until, start, old(store.bars), [], 0);
      store.bars == StoredBy(p) && pages == p.pages && ended == p.ended
    ensures added == |store.bars| - |old(store.bars)|
  {
    hide Overlay, Buffered, StoreAfter, BufferAfter, LastStamp, Listed, Stamped;
    ghost var all := MainPass(ex, step, until, start, store.bars, [], 0);
    var cursor, buffer: seq<OHLCVBar> := start, [];
    pages, ended, added := 0, Complete, 0;
    while cursor <= until && pages < MAX_PAGES
      invariant store.Valid()
      invariant MainPass(ex, step, until, cursor, store.bars, buffer, pages) == all
      invariant added == |store.bars| - |old(store.bars)|
      decreases until - cursor
    {
      match ex(pages, cursor) {
        case Fault =>
          var rows := Flush(store, buffer);
          OverlayNothing(store.bars);
          return pages, Faulted, added + rows;
        case Crash =>
          return pages, Escaped, added;
        case Page(bars) =>
          pages := pages + 1;
          if bars == [] { break; }
          var rows;
          buffer, rows := BufferPage(store, buffer, bars, until);
          added := added + rows;
          var next := LastStamp(bars) + step;
          if next <= cursor { break; }
          cursor := next;
      }
    }
    assert StoredBy(all) == Overlay(store.bars, buffer) && all.pages == pages && all.ended.Complete?;
    var rows := Flush(store, buffer);
    added := added + rows;
  }

  /** Pages through one gap, upserting what falls inside it. */
  method FillGap(store: OHLCVStore, ex: Exchange, step: int, gap: Gap, firstCall: nat)
    returns (calls: nat, ended: Ended, added: int)
    requires store.Valid() && store.timeframe in TIMEFRAME_MS && 0 < step
    modifies store`bars
    ensures store.Valid()
    ensures RepairGap(ex, step, gap, gap.start, old(store.bars), firstCall, 0) == Repair(store.bars, calls, ended)
    ensures added == |store.bars| - |old(store.bars)|
  {
    hide Overlay, Within, LastStamp, Listed, Stamped;
    ghost var all := RepairGap(ex, step, gap, gap.start, store.bars, firstCall, 0);
    calls, ended, added := firstCall, Complete, 0;
    var cursor, pages := gap.start, 0;
    while cursor <= gap.end && pages < MAX_PAGES
      invariant store.Valid()
      invariant RepairGap(ex, step, gap, cursor, store.bars, calls, pages) == all
      invariant added == |store.bars| - |old(store.bars)|
      decreases gap.end - cursor
    {
      match ex(calls, cursor) {
        case Fault =>
          return calls + 1, Faulted, added;
        case Crash =>
          return calls + 1, Escaped, added;
        case Page(bars) =>
          calls, pages := calls + 1, pages + 1;
          if bars == [] { return; }
          var fill := Within(bars, Some(gap.start), Some(gap.end));
          var rows := Flush(store, fill);
          added := added + rows;
          var next := LastStamp(bars) + step;
          if next <= cursor { return; }
          cursor := next;
      }
    }
  }

  /** Repairs the gaps in turn, until an error stops the pass. */
  method RepairGaps(store: OHLCVStore, ex: Exchange, step: int, gaps: seq<Gap>, firstCall: nat)
    returns (ended: Ended, added: int)
    requires store.Valid() && store.timeframe in TIMEFRAME_MS && 0 < step
    modifies store`bars
    ensures store.Valid()
    ensures var r := RepairAll(ex, step, gaps, old(store.bars), firstCall);
      store.bars == r.store && ended == r.ended
    ensures added == |store.bars| - |old(store.bars)|
  {
    hide RepairGap, Stamped;
    ghost var all := RepairAll(ex, step, gaps, store.bars, firstCall);
    var rest, calls := gaps, firstCall;
    added := 0;
    while rest != []
      invariant store.Valid()
      invariant RepairAll(ex, step, rest, store.bars, calls) == all
      invariant added == |store.bars| - |old(store.bars)|
      decreases |rest|
    {
      var rows;
      calls, ended, rows := FillGap(store, ex, step, rest[0], calls);
      added := added + rows;
      if !ended.Complete? { return; }
      rest := rest[1..];
    }
    ended := Complete;
  }

  /** Downloads and caches the bars from `since` through `until`, then repairs the gaps it finds. */
  method SyncHistory(store: OHLCVStore, ex: Exchange, since: int, until: int, pageLimit: int, repairGaps: bool,
                     now: int)
    returns (r: SyncOutcome)
    requires store.Valid()
    modifies store
    ensures store.Valid()
    ensures store.timeframe !in TIMEFRAME_MS ==> r == Rejected(UnsupportedTimeframe)
    ensures store.timeframe in TIMEFRAME_MS && pageLimit <= 0 ==> r == Rejected(InvalidPageLimit)
    ensures store.timeframe in TIMEFRAME_MS && 0 < pageLimit && until <= since ==> r == Rejected(InvalidRange)
    ensures r.Rejected? ==> store.bars == old(store.bars)
    ensures store.lastSynced == if r.Synced? && !r.result.status.Partial? then Some(now) else old(store.lastSynced)
    ensures !r.Rejected? ==>
      && store.timeframe in TIMEFRAME_MS
      && var run := SyncRun(ex, TIMEFRAME_MS[store.timeframe], since, until, repairGaps, old(store.bars));
      && store.bars == run.store
      && r == if run.ended.Escaped? then Thrown else Synced(ResultOf(run, old(store.bars)))
  {
    if store.timeframe !in TIMEFRAME_MS { return Rejected(UnsupportedTimeframe); }
    if pageLimit <= 0 { return Rejected(InvalidPageLimit); }
    if until <= since { return Rejected(InvalidRange); }
    hide SyncRun, ResultOf;
    r := SyncRange(store, ex, TIMEFRAME_MS[store.timeframe], since, until, repairGaps);
    if r.Synced? && !r.result.status.Partial? { store.MarkSynced(now); }
  }

  /** The run over an accepted range: the main pass, then gap detection and repair, then the report. */
  method SyncRange(store: OHLCVStore, ex: Exchange, step: int, since: int, until: int, repairGaps: bool)
    returns (r: SyncOutcome)
    requires store.Valid() && store.timeframe in TIMEFRAME_MS && step == TIMEFRAME_MS[store.timeframe] && 0 < step
    modifies store`bars
    ensures store.Valid()
    ensures var run := SyncRun(ex, step, since, until, repairGaps, old(store.bars));
      && store.bars == run.store
      && r == if run.ended.Escaped? then Thrown else Synced(ResultOf(run, old(store.bars)))
  {
    hide MainPass, RepairAll, Listed, GapsOf, StoredBy, Stamped, LastTime, FirstTime, WindowGaps, FirstGaps, Overlay;
    ghost var before := store.bars;
    var last := store.LastTimestamp();
    var cursor := if last.Some? && last.value + step > since then last.value + step else since;
    assert cursor == StartCursor(store.bars, since, step);
    hide StartCursor;
    var pages, ended, added := FetchPages(store, ex, step, until, cursor);
    if ended.Escaped? { return Thrown; }
    var note := if ended.Faulted? then Some(StoppedAfter(pages)) else None;
    ghost var stored := store.bars;
    var gaps := FindGaps(store, since, until, step);
    var repaired := 0;
    if repairGaps && gaps != [] && !ended.Faulted? {
      var rows;
      ended, rows := RepairGaps(store, ex, step, FirstGaps(gaps), pages);
      if ended.Escaped? { return Thrown; }
      if ended.Faulted? { note := Some(RepairInterrupted); }
      added := added + rows;
      if rows != 0 {
        var remaining := FindGaps(store, since, until, step);
        repaired := |gaps| - |remaining|;
      }
    }
    assert added == |store.bars| - |before|;
    var status := if ended.Faulted? then Partial else if |store.bars| == 0 then Empty else Ok;
    var info := store.DatasetInfo();
    r := Synced(SyncResult(added, info.0, info.1, info.2, |gaps|, repaired, pages, status, note));
  }

  /** The gaps of the cached window, normalized first. */
  method FindGaps(store: OHLCVStore, since: int, until: int, step: int) returns (gaps: seq<Gap>)
    requires store.Valid() && store.timeframe in TIMEFRAME_MS && step == TIMEFRAME_MS[store.timeframe] && 0 < step
    ensures gaps == WindowGaps(store.bars, since, until, step)
  {
    hide Listed, GapsOf, Overlay, Within;
    var cached := store.ReadBars(Some(since), Some(until), None);
    WindowedRead(store.bars, since, until);
    ListedIs(Slice(store.bars, since, until));
    ListedOverlay(cached);
    var normalized := Normalize(cached, store.timeframe);
    var found := DetectGaps(normalized.value.0, store.timeframe);
    gaps := found.value;
  }
}

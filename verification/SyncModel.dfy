/** The paginated, resumable download as a function of what the exchange answers, and what it guarantees. */
module SyncModel {
  import opened Domain
  import opened Timeline
  import opened Quality
  import opened OhlcvStores

  /** One answer of the exchange: a page, an adapter error that the sync handles, or an exception that it does not. */
  datatype Fetched = Page(bars: seq<OHLCVBar>) | Fault | Crash

  /** What the exchange answers to the n-th request of a run, for bars from a time on. */
  type Exchange = (nat, int) -> Fetched

  const MAX_PAGES: nat := 100_000
  const MAX_GAP_REPAIRS: nat := 500
  const FLUSH_EVERY_BARS: nat := 5000

  datatype Ended = Complete | Faulted | Escaped

  /** The latest timestamp of a page, in whatever order it came. */
  function LastStamp(page: seq<OHLCVBar>): int
    requires page != []
  {
    var b := page[|page| - 1];
    if |page| == 1 then b.time else
      var rest := LastStamp(page[..|page| - 1]);
      if b.time > rest then b.time else rest
  }

  lemma {:induction false} LastStampIs(page: seq<OHLCVBar>)
    requires page != []
    ensures Present(page, LastStamp(page)) && forall i | 0 <= i < |page| :: page[i].time <= LastStamp(page)
  {
    var n := |page| - 1;
    if n == 0 {
      assert page[0].time == LastStamp(page);
    } else {
      LastStampIs(page[..n]);
      var i :| 0 <= i < n && page[..n][i].time == LastStamp(page[..n]);
      assert page[i].time == LastStamp(page[..n]);
      forall j | 0 <= j < |page|
        ensures page[j].time <= LastStamp(page)
      {
        if j < n { assert page[..n][j] == page[j]; }
      }
      assert page[n].time == LastStamp(page) || page[i].time == LastStamp(page);
    }
  }

  // ---- the main pass ----

  /** Where the main pass stands: what is stored, what is buffered, and how many pages were fetched. */
  datatype Pass = Pass(store: Series, buffer: seq<OHLCVBar>, pages: nat, ended: Ended)

  function Buffered(buffer: seq<OHLCVBar>, page: seq<OHLCVBar>, until: int): seq<OHLCVBar> {
    buffer + Within(page, None, Some(until))
  }

  /** A buffer that has reached its limit is flushed. */
  function StoreAfter(store: Series, buffer: seq<OHLCVBar>): Series {
    if |buffer| >= FLUSH_EVERY_BARS then Overlay(store, buffer) else store
  }

  function BufferAfter(buffer: seq<OHLCVBar>): seq<OHLCVBar> {
    if |buffer| >= FLUSH_EVERY_BARS then [] else buffer
  }

  /** Fetch, buffer, flush a full buffer, and move past the last bar fetched, until the range is covered. */
  function MainPass(ex: Exchange, step: int, until: int, cursor: int, store: Series, buffer: seq<OHLCVBar>,
                    pages: nat): Pass
    requires 0 < step
    decreases until - cursor
  {
    if cursor > until || pages >= MAX_PAGES then Pass(store, buffer, pages, Complete)
    else
      match ex(pages, cursor)
      case Fault => Pass(Overlay(store, buffer), [], pages, Faulted)
      case Crash => Pass(store, buffer, pages, Escaped)
      case Page(bars) =>
        if bars == [] then Pass(store, buffer, pages + 1, Complete)
        else
          var next := LastStamp(bars) + step;
          var full := Buffered(buffer, bars, until);
          if next <= cursor then Pass(StoreAfter(store, full), BufferAfter(full), pages + 1, Complete)
          else MainPass(ex, step, until, next, StoreAfter(store, full), BufferAfter(full), pages + 1)
  }

  /** What is stored once the pass is over: the remaining buffer is flushed unless an exception escaped. */
  function StoredBy(p: Pass): Series {
    if p.ended.Escaped? then p.store else Overlay(p.store, p.buffer)
  }

  /** The resumable cursor: one step past the last cached bar, but not before the requested start. */
  function StartCursor(store: Series, since: int, step: int): int {
    var last := LastTime(store);
    if last.Some? && last.value + step > since then last.value + step else since
  }

  // ---- gap repair ----

  datatype Repair = Repair(store: Series, calls: nat, ended: Ended)

  function RepairGap(ex: Exchange, step: int, gap: Gap, cursor: int, store: Series, calls: nat, pages: nat): Repair
    requires 0 < step
    decreases gap.end - cursor
  {
    if cursor > gap.end || pages >= MAX_PAGES then Repair(store, calls, Complete)
    else
      match ex(calls, cursor)
      case Fault => Repair(store, calls + 1, Faulted)
      case Crash => Repair(store, calls + 1, Escaped)
      case Page(bars) =>
        if bars == [] then Repair(store, calls + 1, Complete)
        else
          var next := LastStamp(bars) + step;
          var filled := Overlay(store, Within(bars, Some(gap.start), Some(gap.end)));
          if next <= cursor then Repair(filled, calls + 1, Complete)
          else RepairGap(ex, step, gap, next, filled, calls + 1, pages + 1)
  }

  function RepairAll(ex: Exchange, step: int, gaps: seq<Gap>, store: Series, calls: nat): Repair
    requires 0 < step
    decreases |gaps|
  {
    if gaps == [] then Repair(store, calls, Complete)
    else
      var r := RepairGap(ex, step, gaps[0], gaps[0].start, store, calls, 0);
      if !r.ended.Complete? then r else RepairAll(ex, step, gaps[1..], r.store, r.calls)
  }

  // ---- a whole run ----

  /** Why a run is partial: the main pass stopped after so many pages, or the repair was interrupted. */
  datatype Note = StoppedAfter(pages: nat) | RepairInterrupted

  datatype Run = Run(store: Series, ended: Ended, pages: nat, gapsDetected: nat, gapsRepaired: int, note: Option<Note>)

  function WindowGaps(store: Series, since: int, until: int, step: int): seq<Gap>
    requires 0 < step
  {
    GapsOf(Listed(Slice(store, since, until)), step)
  }

  /** At most `MAX_GAP_REPAIRS` gaps are re-fetched in one run. */
  function FirstGaps(gaps: seq<Gap>): seq<Gap> {
    if |gaps| > MAX_GAP_REPAIRS then gaps[..MAX_GAP_REPAIRS] else gaps
  }

  function SyncRun(ex: Exchange, step: int, since: int, until: int, repairGaps: bool, store: Series): Run
    requires 0 < step
  {
    var main := MainPass(ex, step, until, StartCursor(store, since, step), store, [], 0);
    var stored := StoredBy(main);
    if main.ended.Escaped? then Run(stored, Escaped, main.pages, 0, 0, None)
    else
      var gaps := WindowGaps(stored, since, until, step);
      if main.ended.Faulted? then Run(stored, Faulted, main.pages, |gaps|, 0, Some(StoppedAfter(main.pages)))
      else if !repairGaps || gaps == [] then Run(stored, Complete, main.pages, |gaps|, 0, None)
      else
        var r := RepairAll(ex, step, FirstGaps(gaps), stored, main.pages);
        var note := if r.ended.Faulted? then Some(RepairInterrupted) else None;
        if r.ended.Escaped? || |r.store| == |stored| then Run(r.store, r.ended, main.pages, |gaps|, 0, note)
        else Run(r.store, r.ended, main.pages, |gaps|, |gaps| - |WindowGaps(r.store, since, until, step)|, note)
  }

  /** The cache when the main pass is over and the gaps are looked for. */
  function AfterMainPass(ex: Exchange, step: int, since: int, until: int, store: Series): Series
    requires 0 < step
  {
    StoredBy(MainPass(ex, step, until, StartCursor(store, since, step), store, [], 0))
  }

  /** A run leaves what its main pass stored, or what the repair makes of that. */
  lemma RunStores(ex: Exchange, step: int, since: int, until: int, repairGaps: bool, store: Series)
    requires 0 < step
    ensures var main := MainPass(ex, step, until, StartCursor(store, since, step), store, [], 0);
      var stored := AfterMainPass(ex, step, since, until, store);
      var run := SyncRun(ex, step, since, until, repairGaps, store);
      && run.pages == main.pages
      && (run.store == stored
          || run.store
            == RepairAll(ex, step, FirstGaps(WindowGaps(stored, since, until, step)), stored, main.pages).store)
      && (main.ended.Escaped? ==> run.ended.Escaped?) && (run.ended.Complete? ==> main.ended.Complete?)
  {
    hide MainPass, StoredBy, StartCursor, WindowGaps, RepairAll;
  }
}

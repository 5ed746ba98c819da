/** What a sync's status and note report: which answer of the exchange stopped it, if one did. */
module SyncStatus {
  import opened Domain
  import opened Timeline
  import opened OhlcvStores
  import opened SyncModel
  import opened HistorySync

  /** The `n`-th answer, to a request at `cursor`, is a page that moves the cursor on to `next`. */
  ghost predicate MovesOn(ex: Exchange, step: int, n: nat, cursor: int, next: int) {
    && ex(n, cursor).Page? && ex(n, cursor).bars != []
    && next == LastStamp(ex(n, cursor).bars) + step && cursor < next
  }

  /** The cursors of successive requests, the first of them the `n`-th: each answer moves on to the next cursor. */
  ghost predicate Requested(ex: Exchange, step: int, until: int, cursors: seq<int>, n: nat) {
    && cursors != [] && n + |cursors| <= MAX_PAGES
    && (forall i | 0 <= i < |cursors| :: cursors[i] <= until)
    && (forall i | 0 <= i < |cursors| - 1 :: MovesOn(ex, step, n + i, cursors[i], cursors[i + 1]))
  }

  /** What the last of these requests was answered with. */
  ghost function LastAnswer(ex: Exchange, cursors: seq<int>, n: nat): Fetched
    requires cursors != []
  {
    ex(n + |cursors| - 1, cursors[|cursors| - 1])
  }

  /** How an answer ends the pass, unless it is a page. */
  ghost predicate EndedBy(ended: Ended, answer: Fetched) {
    match ended
    case Complete => false
    case Faulted => answer.Fault?
    case Escaped => answer.Crash?
  }

  /** The requests of a pass that was stopped. */
  lemma {:induction false} StoppedAt(ex: Exchange, step: int, until: int, cursor: int, store: Series,
                                     buffer: seq<OHLCVBar>, n: nat) returns (cursors: seq<int>)
    requires 0 < step && !MainPass(ex, step, until, cursor, store, buffer, n).ended.Complete?
    ensures Requested(ex, step, until, cursors, n) && cursors[0] == cursor
    ensures var p := MainPass(ex, step, until, cursor, store, buffer, n);
      EndedBy(p.ended, LastAnswer(ex, cursors, n)) && p.pages == n + |cursors| - 1
    decreases until - cursor
  {
    hide Overlay, Buffered, StoreAfter, BufferAfter, LastStamp;
    if ex(n, cursor).Page? {
      var bars := ex(n, cursor).bars;
      var full, next := Buffered(buffer, bars, until), LastStamp(bars) + step;
      var rest := StoppedAt(ex, step, until, next, StoreAfter(store, full), BufferAfter(full), n + 1);
      cursors := [cursor] + rest;
      assert MovesOn(ex, step, n, cursors[0], cursors[1]);
      forall i | 0 <= i < |cursors| - 1
        ensures MovesOn(ex, step, n + i, cursors[i], cursors[i + 1])
      {
        if i > 0 { assert MovesOn(ex, step, n + 1 + (i - 1), rest[i - 1], rest[i]); }
      }
    } else {
      cursors := [cursor];
    }
  }

  /** Requests that end in anything but a page stop the pass. */
  lemma {:induction false} Stops(ex: Exchange, step: int, until: int, store: Series, buffer: seq<OHLCVBar>, n: nat,
                                 cursors: seq<int>)
    requires 0 < step && Requested(ex, step, until, cursors, n) && !LastAnswer(ex, cursors, n).Page?
    ensures var p := MainPass(ex, step, until, cursors[0], store, buffer, n);
      EndedBy(p.ended, LastAnswer(ex, cursors, n)) && p.pages == n + |cursors| - 1
    decreases |cursors|
  {
    hide Overlay, Buffered, StoreAfter, BufferAfter, LastStamp;
    if |cursors| > 1 {
      assert MovesOn(ex, step, n + 0, cursors[0], cursors[1]);
      var rest, full := cursors[1..], Buffered(buffer, ex(n, cursors[0]).bars, until);
      forall i | 0 <= i < |rest| - 1
        ensures MovesOn(ex, step, n + 1 + i, rest[i], rest[i + 1])
      {
        assert MovesOn(ex, step, n + (i + 1), cursors[i + 1], cursors[i + 2]);
      }
      Stops(ex, step, until, StoreAfter(store, full), BufferAfter(full), n + 1, rest);
    }
  }

  /** A run resumes at the requested start or one step after the last cached bar, whichever is later. */
  lemma ResumesAfterCached(store: Series, since: int, step: int)
    ensures var cursor := StartCursor(store, since, step);
      && since <= cursor && (forall k | k in store :: k + step <= cursor)
      && (cursor == since || cursor - step in store)
  {
    hide LastTime;
    assert store != map[] ==> LastTime(store).Some?;
  }

  /** The main pass of a run that starts with `store` makes these requests, and the last one fails. */
  ghost predicate FaultAfter(ex: Exchange, step: int, since: int, until: int, store: Series, cursors: seq<int>) {
    && Requested(ex, step, until, cursors, 0) && cursors[0] == StartCursor(store, since, step)
    && LastAnswer(ex, cursors, 0).Fault?
  }

  lemma MainFaultIff(ex: Exchange, step: int, since: int, until: int, store: Series)
    requires 0 < step
    ensures var main := MainPass(ex, step, until, StartCursor(store, since, step), store, [], 0);
      && (main.ended.Faulted? <==> exists cursors :: FaultAfter(ex, step, since, until, store, cursors))
      && (forall cursors | FaultAfter(ex, step, since, until, store, cursors) :: main.pages == |cursors| - 1)
  {
    var start := StartCursor(store, since, step);
    hide MainPass, Requested, StartCursor;
    if MainPass(ex, step, until, start, store, [], 0).ended.Faulted? {
      var cursors := StoppedAt(ex, step, until, start, store, [], 0);
      assert FaultAfter(ex, step, since, until, store, cursors);
    }
    forall cursors | FaultAfter(ex, step, since, until, store, cursors)
      ensures var main := MainPass(ex, step, until, start, store, [], 0);
        main.ended.Faulted? && main.pages == |cursors| - 1
    {
      Stops(ex, step, until, store, [], 0, cursors);
    }
  }

  /** A run's note, by how its main pass and its repair ended. */
  lemma NoteIs(ex: Exchange, step: int, since: int, until: int, repairGaps: bool, store: Series)
    requires 0 < step && !SyncRun(ex, step, since, until, repairGaps, store).ended.Escaped?
    ensures var main := MainPass(ex, step, until, StartCursor(store, since, step), store, [], 0);
      var run := SyncRun(ex, step, since, until, repairGaps, store);
      && (run.note.Some? <==> run.ended.Faulted?)
      && (main.ended.Faulted? ==> run.note == Some(StoppedAfter(main.pages)))
      && (!main.ended.Faulted? && run.note.Some? ==>
            run.note.value == RepairInterrupted && repairGaps && run.gapsDetected > 0)
  {
    hide MainPass, StoredBy, StartCursor, WindowGaps, RepairAll;
  }

  /**
   What a returned run reports. It is partial, with a note, exactly when a fault stopped it: in the main pass, after the
   pages that the note counts, or else in the repair, and without repair only in the main pass. Otherwise it is empty
   exactly when the cache is.
   */
  lemma StatusIs(ex: Exchange, step: int, since: int, until: int, repairGaps: bool, store: Series)
    requires 0 < step && !SyncRun(ex, step, since, until, repairGaps, store).ended.Escaped?
    ensures var run := SyncRun(ex, step, since, until, repairGaps, store);
      var r := ResultOf(run, store);
      && (r.status.Partial? <==> run.ended.Faulted?) && (r.status.Partial? <==> r.note.Some?)
      && (r.status.Empty? <==> !run.ended.Faulted? && run.store == map[])
      && r.barsTotal == |run.store| && r.barsAdded == |run.store| - |store|
      && (forall cursors | FaultAfter(ex, step, since, until, store, cursors) ::
            r.note == Some(StoppedAfter(|cursors| - 1)))
      && (r.note.Some? && r.note != Some(RepairInterrupted) ==>
            exists cursors :: FaultAfter(ex, step, since, until, store, cursors))
      && (r.note == Some(RepairInterrupted) ==> repairGaps && r.gapsDetected > 0)
  {
    MainFaultIff(ex, step, since, until, store);
    NoteIs(ex, step, since, until, repairGaps, store);
    hide MainPass, FaultAfter, StartCursor, SyncRun;
  }
}

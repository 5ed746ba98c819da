/** The local bar cache of one dataset, and the algebra of writing to it. */
module OhlcvStores {
  import opened Domain
  import opened Timeline
  import opened Quality

  // ---- reading ----

  predicate InWindow(t: int, since: Option<int>, until: Option<int>) {
    (since.Some? ==> since.value <= t) && (until.Some? ==> t <= until.value)
  }

  function Within(bars: seq<OHLCVBar>, since: Option<int>, until: Option<int>): seq<OHLCVBar> {
    if bars == [] then [] else
      var b := bars[|bars| - 1];
      Within(bars[..|bars| - 1], since, until) + if InWindow(b.time, since, until) then [b] else []
  }

  /** `bars[:limit]`: a negative limit drops bars from the end. */
  function Limited(bars: seq<OHLCVBar>, limit: Option<int>): seq<OHLCVBar> {
    if limit.None? || limit.value >= |bars| then bars
    else if limit.value >= 0 then bars[..limit.value]
    else if -limit.value <= |bars| then bars[..|bars| + limit.value]
    else []
  }

  function ReadOf(m: Series, since: Option<int>, until: Option<int>, limit: Option<int>): seq<OHLCVBar> {
    Limited(Within(Listed(m), since, until), limit)
  }

  lemma {:induction false} WithinAscends(bars: seq<OHLCVBar>, since: Option<int>, until: Option<int>)
    requires Ascending(bars)
    ensures Ascending(Within(bars, since, until))
    ensures forall i | 0 <= i < |Within(bars, since, until)| ::
        bars != [] && Within(bars, since, until)[i].time <= bars[|bars| - 1].time
  {
    if bars != [] {
      var n := |bars| - 1;
      assert Ascending(bars[..n]);
      WithinAscends(bars[..n], since, until);
      assert n > 0 ==> bars[..n][n - 1].time < bars[n].time;
    }
  }

  lemma LastAtSnoc(bars: seq<OHLCVBar>, b: OHLCVBar, k: int)
    ensures LastAt(bars + [b], k) == if b.time == k then Some(b) else LastAt(bars, k)
  {
    assert (bars + [b])[..|bars|] == bars;
  }

  /** A window keeps the last bar of every timestamp inside it. */
  lemma {:induction false} WithinLastAt(bars: seq<OHLCVBar>, since: Option<int>, until: Option<int>, k: int)
    ensures LastAt(Within(bars, since, until), k) == if InWindow(k, since, until) then LastAt(bars, k) else None
  {
    if bars != [] {
      var n := |bars| - 1;
      var b, rest := bars[n], Within(bars[..n], since, until);
      assert bars == bars[..n] + [b];
      WithinLastAt(bars[..n], since, until, k);
      LastAtSnoc(bars[..n], b, k);
      LastAtSnoc(rest, b, k);
      assert Within(bars, since, until) == if InWindow(b.time, since, until) then rest + [b] else rest;
      hide LastAt, InWindow, Within;
    }
  }

  /** A windowed read is the window of the series, in order. */
  lemma WindowedRead(m: Series, lo: int, hi: int)
    requires Stamped(m)
    ensures ReadOf(m, Some(lo), Some(hi), None) == Listed(Slice(m, lo, hi))
  {
    var r := Within(Listed(m), Some(lo), Some(hi));
    ListedIs(m);
    ListedIs(Slice(m, lo, hi));
    WithinAscends(Listed(m), Some(lo), Some(hi));
    hide Within, Listed, LastAt;
    forall k
      ensures LastAt(r, k) == LastAt(Listed(Slice(m, lo, hi)), k)
    {
      WithinLastAt(Listed(m), Some(lo), Some(hi), k);
      ListedLastAt(m, k);
      ListedLastAt(Slice(m, lo, hi), k);
    }
    AscendingSeriesUnique(r, Listed(Slice(m, lo, hi)));
  }

  lemma {:induction false} WithinAll(bars: seq<OHLCVBar>)
    ensures Within(bars, None, None) == bars
  {
    if bars != [] {
      WithinAll(bars[..|bars| - 1]);
      assert bars == bars[..|bars| - 1] + [bars[|bars| - 1]];
    }
  }

  lemma NoLimit(bars: seq<OHLCVBar>)
    ensures Limited(bars, None) == bars
  {
  }

  lemma {:induction false} WithinMembers(bars: seq<OHLCVBar>, since: Option<int>, until: Option<int>, b: OHLCVBar)
    ensures b in Within(bars, since, until) <==>
      b in bars && (since.Some? ==> since.value <= b.time) && (until.Some? ==> b.time <= until.value)
  {
    if bars != [] {
      var n := |bars| - 1;
      WithinMembers(bars[..n], since, until, b);
      assert bars == bars[..n] + [bars[n]];
      assert b in bars <==> b in bars[..n] || b == bars[n];
    }
  }

  lemma ListedMembers(m: Series, b: OHLCVBar)
    requires Stamped(m)
    ensures b in Listed(m) <==> b.time in m && m[b.time] == b
  {
    ListedIs(m);
    hide Listed;
    if b.time in m && m[b.time] == b {
      var i :| 0 <= i < |m| && Listed(m)[i] == m[b.time];
      assert Listed(m)[i] in Listed(m);
    }
  }

  /** `b` is cached and lies in the window, its ends included. */
  ghost predicate CachedInWindow(m: Series, since: Option<int>, until: Option<int>, b: OHLCVBar) {
    && b.time in m && m[b.time] == b
    && (since.Some? ==> since.value <= b.time) && (until.Some? ==> b.time <= until.value)
  }

  /**
   A read returns the cached bars of the window in ascending order, and with a limit the earliest of them: that many,
   or, below zero, all but that many.
   */
  lemma ReadIs(m: Series, since: Option<int>, until: Option<int>, limit: Option<int>)
    requires Stamped(m)
    ensures var r, all := ReadOf(m, since, until, limit), ReadOf(m, since, until, None);
      && Ascending(all) && (forall b :: b in all <==> CachedInWindow(m, since, until, b))
      && r <= all
      && |r| == if limit.None? then |all| else if 0 <= limit.value then Min(limit.value, |all|)
                else Max(|all| + limit.value, 0)
  {
    var all := ReadOf(m, since, until, None);
    ListedIs(m);
    NoLimit(Within(Listed(m), since, until));
    WithinAscends(Listed(m), since, until);
    hide Listed, Within;
    forall b
      ensures b in all <==> CachedInWindow(m, since, until, b)
    {
      WithinMembers(Listed(m), since, until, b);
      ListedMembers(m, b);
    }
  }

  /** The latest cached timestamp. */
  function LastTime(m: Series): (r: Option<int>)
    ensures r.None? <==> m == map[]
    ensures r.Some? ==> r.value in m && forall k | k in m :: k <= r.value
  {
    OrderedIs(m.Keys);
    var keys := Ordered(m.Keys);
    if |keys| == 0 then
      assert m.Keys == {};
      None
    else Some(keys[|keys| - 1])
  }

  /** The earliest cached timestamp. */
  function FirstTime(m: Series): (r: Option<int>)
    ensures r.None? <==> m == map[]
    ensures r.Some? ==> r.value in m && forall k | k in m :: r.value <= k
  {
    OrderedIs(m.Keys);
    var keys := Ordered(m.Keys);
    if |keys| == 0 then
      assert m.Keys == {};
      None
    else Some(keys[0])
  }

  lemma ReadAll(m: Series)
    ensures ReadOf(m, None, None, None) == Listed(m)
  {
    WithinAll(Listed(m));
    NoLimit(Listed(m));
    hide Listed, Within, Limited;
  }

  /** Reading everything, appending and normalizing writes the overlay. */
  lemma UpsertIs(m: Series, incoming: seq<OHLCVBar>)
    requires Stamped(m)
    ensures var existing := ReadOf(m, None, None, None);
      var merged := Normalized(existing + incoming);
      && Overlay(map[], merged) == Overlay(m, incoming) && Stamped(Overlay(m, incoming))
      && |merged| == |Overlay(m, incoming)| && |existing| == |m|
  {
    ReadAll(m);
    OverlayListed(m);
    ListedIs(m);
    OverlayConcat(map[], Listed(m), incoming);
    OverlayStamped(m, incoming);
    OverlayListed(Overlay(m, incoming));
    ListedIs(Overlay(m, incoming));
    hide Overlay, Listed, Stamped, ReadOf;
  }

  // ---- the store ----

  class OHLCVStore {
    const timeframe: string
    var bars: Series
    /** When a sync last succeeded. */
    var lastSynced: Option<int>

    ghost predicate Valid()
      reads this
    {
      Stamped(bars)
    }

    constructor (timeframe: string)
      ensures Valid() && this.timeframe == timeframe && bars == map[] && lastSynced == None
    {
      this.timeframe := timeframe;
      bars := map[];
      lastSynced := None;
    }

    method ReadBars(since: Option<int>, until: Option<int>, limit: Option<int>) returns (r: seq<OHLCVBar>)
      ensures r == ReadOf(bars, since, until, limit)
    {
      var rows := Listed(bars);
      r := [];
      var i := 0;
      while i < |rows|
        invariant i <= |rows| && r == Within(rows[..i], since, until)
      {
        assert rows[..i + 1][..i] == rows[..i];
        if InWindow(rows[i].time, since, until) { r := r + [rows[i]]; }
        i := i + 1;
      }
      assert rows[..|rows|] == rows;
      r := Limited(r, limit);
    }

    /** Merges `incoming`: on a duplicate timestamp the incoming bar wins. Returns the number of new timestamps. */
    method UpsertBars(incoming: seq<OHLCVBar>) returns (r: Checked<int>)
      requires Valid()
      modifies this`bars
      ensures Valid()
      ensures timeframe !in TIMEFRAME_MS ==> r == Refused(UnsupportedTimeframe) && bars == old(bars)
      ensures timeframe in TIMEFRAME_MS ==> r == Accepted(|bars| - |old(bars)|) && bars == Overlay(old(bars), incoming)
    {
      UpsertIs(bars, incoming);
      hide *;
      var existing := ReadBars(None, None, None);
      var merged := Normalize(existing + incoming, timeframe);
      if merged.Refused? { return Refused(merged.error); }
      bars := Overlay(map[], merged.value.0);
      r := Accepted(|merged.value.0| - |existing|);
    }

    method MarkSynced(when: int)
      modifies this`lastSynced
      ensures lastSynced == Some(when)
    {
      lastSynced := Some(when);
    }

    /** The row count and the first and last timestamps. */
    method DatasetInfo() returns (r: (nat, Option<int>, Option<int>))
      ensures r == (|bars|, FirstTime(bars), LastTime(bars))
    {
      r := (|bars|, FirstTime(bars), LastTime(bars));
    }

    method LastTimestamp() returns (r: Option<int>)
      ensures r == LastTime(bars)
    {
      r := LastTime(bars);
    }
  }

  // ---- upsert algebra ----

  /** The series after upserting each batch in turn. */
  function AfterBatches(m: Series, batches: seq<seq<OHLCVBar>>): Series {
    if batches == [] then m else Overlay(AfterBatches(m, batches[..|batches| - 1]), batches[|batches| - 1])
  }

  /** The rows that those upserts report as added. */
  function AddedBy(m: Series, batches: seq<seq<OHLCVBar>>): int {
    if batches == [] then 0
    else AddedBy(m, batches[..|batches| - 1]) + |AfterBatches(m, batches)| - |AfterBatches(m, batches[..|batches| - 1])|
  }

  function Stream(batches: seq<seq<OHLCVBar>>): seq<OHLCVBar> {
    if batches == [] then [] else Stream(batches[..|batches| - 1]) + batches[|batches| - 1]
  }

  lemma {:induction false} BatchesAreStream(m: Series, batches: seq<seq<OHLCVBar>>)
    ensures AfterBatches(m, batches) == Overlay(m, Stream(batches))
    ensures AddedBy(m, batches) == |AfterBatches(m, batches)| - |m|
  {
    if batches != [] {
      BatchesAreStream(m, batches[..|batches| - 1]);
      OverlayConcat(m, Stream(batches[..|batches| - 1]), batches[|batches| - 1]);
    }
  }

  /** However a stream of bars is cut into batches, the cache and the rows reported added come out the same. */
  lemma BatchingIndependent(m: Series, a: seq<seq<OHLCVBar>>, b: seq<seq<OHLCVBar>>)
    requires Stream(a) == Stream(b)
    ensures AfterBatches(m, a) == AfterBatches(m, b) && AddedBy(m, a) == AddedBy(m, b)
  {
    BatchesAreStream(m, a);
    BatchesAreStream(m, b);
  }

  /** Upserting the same bars a second time changes nothing and adds no row. */
  lemma UpsertIdempotent(m: Series, batch: seq<OHLCVBar>)
    ensures AfterBatches(m, [batch, batch]) == AfterBatches(m, [batch])
    ensures AddedBy(m, [batch, batch]) == AddedBy(m, [batch])
  {
    OverlayAgain(m, batch);
    assert [batch, batch][..1] == [batch] && [batch][..0] == [];
    BatchesAreStream(m, [batch, batch]);
    BatchesAreStream(m, [batch]);
    assert AfterBatches(m, [batch]) == Overlay(m, batch);
  }
}

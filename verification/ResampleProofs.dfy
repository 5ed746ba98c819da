/** Resampling does not depend on the order of its input, conserves volume, and composes. */
module ResampleProofs {
  import opened Domain
  import opened Timeline
  import opened Quality
  import opened Resampling

  // ---- ascending input, candle by candle ----

  function Fresh(b: OHLCVBar, dst: int): OHLCVBar
    requires 0 < dst
  {
    OHLCVBar(BucketOf(b.time, dst), b.open, b.high, b.low, b.close, b.volume)
  }

  /** A candle continued by a later bar. */
  function Merged(c: OHLCVBar, b: OHLCVBar): OHLCVBar {
    OHLCVBar(c.time, c.open, if b.high > c.high then b.high else c.high, if b.low < c.low then b.low else c.low,
             b.close, c.volume + b.volume)
  }

  /** The candles after one more bar, later than all before it: it continues the last candle or starts the next. */
  function Extended(out: seq<OHLCVBar>, b: OHLCVBar, dst: int): seq<OHLCVBar>
    requires 0 < dst
  {
    if out != [] && out[|out| - 1].time == BucketOf(b.time, dst) then out[..|out| - 1] + [Merged(out[|out| - 1], b)]
    else out + [Fresh(b, dst)]
  }

  /** Resampling a bar at a time, for ascending input. */
  function Streamed(bars: seq<OHLCVBar>, dst: int): seq<OHLCVBar>
    requires 0 < dst
  {
    if bars == [] then [] else Extended(Streamed(bars[..|bars| - 1], dst), bars[|bars| - 1], dst)
  }

  lemma BucketBounds(t: int, dst: int)
    requires 0 < dst
    ensures BucketOf(t, dst) <= t < BucketOf(t, dst) + dst && BucketOf(t, dst) % dst == 0
  {
    QuotientIs(BucketOf(t, dst), dst, t / dst);
  }

  lemma BucketMonotone(s: int, t: int, dst: int)
    requires 0 < dst && s <= t
    ensures BucketOf(s, dst) <= BucketOf(t, dst)
  {
    BucketBounds(s, dst);
    BucketBounds(t, dst);
    var p, q := s / dst, t / dst;
    PositiveMultiple(q - p, dst);
    var gap := (q - p) * dst;
    assert gap == q * dst - p * dst;
  }

  /** `out` lists the candles of the buckets, which hold no stamp later than `last`; the last candle is its bucket's. */
  ghost predicate Lists(out: seq<OHLCVBar>, buckets: map<int, Agg>, last: int, dst: int)
    requires 0 < dst
  {
    && Ascending(out)
    && Overlay(map[], out) == Candles(buckets)
    && (forall k | k in buckets :: buckets[k].openTs <= buckets[k].closeTs <= last && k <= BucketOf(last, dst))
    && out != [] && out[|out| - 1].time == BucketOf(last, dst)
  }

  ghost predicate StreamedIs(bars: seq<OHLCVBar>, dst: int)
    requires 0 < dst
  {
    bars == [] || Lists(Streamed(bars, dst), Buckets(bars, dst), bars[|bars| - 1].time, dst)
  }

  lemma OverlaySnoc(bars: seq<OHLCVBar>, b: OHLCVBar)
    ensures Overlay(map[], bars + [b]) == Overlay(map[], bars)[b.time := b]
  {
    assert (bars + [b])[..|bars|] == bars;
  }

  /** A later bar of the last bucket continues its candle. */
  lemma ContinuesBucket(out: seq<OHLCVBar>, buckets: map<int, Agg>, last: int, b: OHLCVBar, dst: int)
    requires 0 < dst && Lists(out, buckets, last, dst) && last < b.time && BucketOf(last, dst) == BucketOf(b.time, dst)
    ensures Lists(Extended(out, b, dst), WithBar(buckets, b, dst), b.time, dst)
  {
    var n, k := |out| - 1, BucketOf(b.time, dst);
    hide Overlay, BucketOf, Candles;
    CandlesWith(buckets, b, dst);
    CandleAt(out, buckets, n);
    assert out == out[..n] + [out[n]];
    OverlaySnoc(out[..n], out[n]);
    OverlaySnoc(out[..n], Merged(out[n], b));
    assert Merged(out[n], b) == Candle(k, Added(buckets[k], b));
    assert Overlay(map[], Extended(out, b, dst)) == Candles(buckets)[k := Merged(out[n], b)];
  }

  lemma AscendingSnoc(out: seq<OHLCVBar>, b: OHLCVBar)
    requires Ascending(out) && forall i | 0 <= i < |out| :: out[i].time < b.time
    ensures Ascending(out + [b])
  {
  }

  /** A bar past the last bucket starts a candle. */
  lemma StartsBucket(out: seq<OHLCVBar>, buckets: map<int, Agg>, last: int, b: OHLCVBar, dst: int)
    requires 0 < dst && last < b.time && Lists(out, buckets, last, dst) && BucketOf(last, dst) < BucketOf(b.time, dst)
    ensures Lists(Extended(out, b, dst), WithBar(buckets, b, dst), b.time, dst)
  {
    var k, c := BucketOf(b.time, dst), Fresh(b, dst);
    assert k !in buckets;
    hide Overlay, BucketOf, Candles, Ascending;
    CandlesWith(buckets, b, dst);
    NewBucket(out, buckets, k);
    OverlaySnoc(out, c);
    AscendingSnoc(out, c);
    assert c == Candle(k, Started(b));
    assert Extended(out, b, dst) == out + [c];
    assert Overlay(map[], out + [c]) == Candles(WithBar(buckets, b, dst));
  }

  lemma StartsFirst(b: OHLCVBar, dst: int)
    requires 0 < dst
    ensures Lists(Extended([], b, dst), WithBar(map[], b, dst), b.time, dst)
  {
    CandlesWith(map[], b, dst);
    EmptyCandles();
    OverlaySnoc([], Fresh(b, dst));
    assert [] + [Fresh(b, dst)] == [Fresh(b, dst)];
    hide Overlay, BucketOf, Candles;
  }

  lemma NothingYet(dst: int)
    requires 0 < dst
    ensures Buckets([], dst) == map[] && Streamed([], dst) == []
  {
  }

  lemma EmptyCandles()
    ensures Candles(map[]) == map[] == Overlay(map[], [])
  {
  }

  lemma StreamedStep(bars: seq<OHLCVBar>, b: OHLCVBar, dst: int)
    requires 0 < dst && StreamedIs(bars, dst) && (bars != [] ==> bars[|bars| - 1].time < b.time)
    ensures StreamedIs(bars + [b], dst)
  {
    var all := bars + [b];
    assert all[..|bars|] == bars;
    var before, out := Buckets(bars, dst), Streamed(bars, dst);
    assert Buckets(all, dst) == WithBar(before, b, dst) && Streamed(all, dst) == Extended(out, b, dst);
    hide Buckets, Streamed, BucketOf, Lists, WithBar, Extended;
    if bars == [] {
      NothingYet(dst);
      StartsFirst(b, dst);
    } else {
      var last := bars[|bars| - 1].time;
      BucketMonotone(last, b.time, dst);
      if BucketOf(last, dst) == BucketOf(b.time, dst) {
        ContinuesBucket(out, before, last, b, dst);
      } else {
        StartsBucket(out, before, last, b, dst);
      }
    }
  }

  lemma CandlesWith(buckets: map<int, Agg>, b: OHLCVBar, dst: int)
    requires 0 < dst
    ensures var k := BucketOf(b.time, dst);
      Candles(WithBar(buckets, b, dst)) ==
        Candles(buckets)[k := Candle(k, if k in buckets then Added(buckets[k], b) else Started(b))]
  {
    hide BucketOf;
  }

  lemma CandleAt(out: seq<OHLCVBar>, buckets: map<int, Agg>, i: nat)
    requires Ascending(out) && Overlay(map[], out) == Candles(buckets) && i < |out|
    ensures out[i].time in buckets && out[i] == Candle(out[i].time, buckets[out[i].time])
  {
    OverlayAt(map[], out, out[i].time);
    LastOfAscending(out, i);
    assert out[i].time in Candles(buckets);
  }

  /** A bucket not yet open comes after all the candles so far. */
  lemma NewBucket(out: seq<OHLCVBar>, buckets: map<int, Agg>, k: int)
    requires Ascending(out) && Overlay(map[], out) == Candles(buckets) && k !in buckets
    requires forall j | j in buckets :: j <= k
    ensures forall i | 0 <= i < |out| :: out[i].time < k
  {
    forall i | 0 <= i < |out|
      ensures out[i].time < k
    {
      CandleAt(out, buckets, i);
    }
  }

  lemma LastOff(bars: seq<OHLCVBar>) returns (init: seq<OHLCVBar>, b: OHLCVBar)
    requires bars != [] && Ascending(bars)
    ensures bars == init + [b] && Ascending(init) && (init != [] ==> init[|init| - 1].time < b.time)
  {
    init, b := bars[..|bars| - 1], bars[|bars| - 1];
  }

  lemma {:induction false} StreamedCorrect(bars: seq<OHLCVBar>, dst: int)
    requires 0 < dst && Ascending(bars)
    ensures StreamedIs(bars, dst)
    decreases |bars|
  {
    if bars == [] {
    } else {
      hide *;
      var init, b := LastOff(bars);
      StreamedCorrect(init, dst);
      StreamedStep(init, b, dst);
    }
  }

  /** On ascending bars the bucket dictionary and the streamed form agree. */
  lemma ResampleStreams(bars: seq<OHLCVBar>, dst: int)
    requires 0 < dst && Ascending(bars)
    ensures ResampleOf(bars, dst) == Streamed(bars, dst) && Ascending(Streamed(bars, dst))
  {
    StreamedCorrect(bars, dst);
    EmptyCandles();
    ListedOverlay(Streamed(bars, dst));
  }

  // ---- composition ----

  lemma CoarserBucket(t: int, mid: int, dst: int)
    requires 0 < mid && 0 < dst && dst % mid == 0
    ensures BucketOf(BucketOf(t, mid), dst) == BucketOf(t, dst)
  {
    var m, d := BucketOf(t, mid), BucketOf(t, dst);
    BucketBounds(t, mid);
    BucketBounds(t, dst);
    MultipleIsMultiple(d, dst, mid);
    WholeSteps(m, d, mid);
    WholeSteps(m, d + dst, mid);
    QuotientIs(m, dst, t / dst);
  }

  lemma MultipleIsMultiple(d: int, dst: int, mid: int)
    requires 0 < mid && 0 < dst && dst % mid == 0 && d % dst == 0
    ensures d % mid == 0 && (d + dst) % mid == 0
  {
    var p, q := d / dst, dst / mid;
    assert d == p * dst && dst == q * mid;
    assert d == p * (q * mid) == (p * q) * mid;
    QuotientIs(d, mid, p * q);
    assert d + dst == (p * q + q) * mid;
    QuotientIs(d + dst, mid, p * q + q);
  }

  /** Merging candle by candle is merging bar by bar. */
  lemma MergeAssociates(out: seq<OHLCVBar>, c: OHLCVBar, b: OHLCVBar, dst: int)
    requires 0 < dst && BucketOf(c.time, dst) == BucketOf(b.time, dst)
    ensures Extended(out, Merged(c, b), dst) == Extended(Extended(out, c, dst), b, dst)
  {
    hide BucketOf;
    var k := BucketOf(c.time, dst);
    var first := Extended(out, c, dst);
    var n := |first| - 1;
    assert first[n].time == k;
    assert first[..n] == if out != [] && out[|out| - 1].time == k then out[..|out| - 1] else out;
    assert Merged(first[n], b) == Extended(out, Merged(c, b), dst)[n];
  }

  lemma StreamedSnoc(bars: seq<OHLCVBar>, b: OHLCVBar, dst: int)
    requires 0 < dst
    ensures Streamed(bars + [b], dst) == Extended(Streamed(bars, dst), b, dst)
  {
    assert (bars + [b])[..|bars|] == bars;
  }

  /** Only a bar's bucket and prices matter to the candles. */
  lemma ExtendedByFresh(out: seq<OHLCVBar>, b: OHLCVBar, mid: int, dst: int)
    requires 0 < mid && 0 < dst && dst % mid == 0
    ensures Extended(out, Fresh(b, mid), dst) == Extended(out, b, dst)
  {
    CoarserBucket(b.time, mid, dst);
  }

  lemma {:induction false} StreamedComposes(bars: seq<OHLCVBar>, mid: int, dst: int)
    requires 0 < mid && 0 < dst && dst % mid == 0
    ensures Streamed(Streamed(bars, mid), dst) == Streamed(bars, dst)
  {
    if bars != [] {
      var init, b := bars[..|bars| - 1], bars[|bars| - 1];
      StreamedComposes(init, mid, dst);
      var r := Streamed(init, mid);
      assert Streamed(bars, mid) == Extended(r, b, mid) && Streamed(bars, dst) == Extended(Streamed(init, dst), b, dst);
      hide Extended, BucketOf, Fresh;
      if r != [] && r[|r| - 1].time == BucketOf(b.time, mid) {
        var rest, c := r[..|r| - 1], r[|r| - 1];
        assert r == rest + [c];
        StreamedSnoc(rest, c, dst);
        StreamedSnoc(rest, Merged(c, b), dst);
        CoarserBucket(b.time, mid, dst);
        CoarserBucket(c.time, mid, dst);
        SameBucketOfStart(b.time, mid);
        MergeAssociates(Streamed(rest, dst), c, b, dst);
        ExtendedMerges(r, b, mid);
      } else {
        StreamedSnoc(r, Fresh(b, mid), dst);
        ExtendedByFresh(Streamed(r, dst), b, mid, dst);
        ExtendedStarts(r, b, mid);
      }
    }
  }

  lemma SameBucketOfStart(t: int, mid: int)
    requires 0 < mid
    ensures BucketOf(BucketOf(t, mid), mid) == BucketOf(t, mid)
  {
    BucketBounds(t, mid);
    QuotientIs(BucketOf(t, mid), mid, t / mid);
  }

  lemma ExtendedMerges(out: seq<OHLCVBar>, b: OHLCVBar, dst: int)
    requires 0 < dst && out != [] && out[|out| - 1].time == BucketOf(b.time, dst)
    ensures Extended(out, b, dst) == out[..|out| - 1] + [Merged(out[|out| - 1], b)]
  {
  }

  lemma ExtendedStarts(out: seq<OHLCVBar>, b: OHLCVBar, dst: int)
    requires 0 < dst && !(out != [] && out[|out| - 1].time == BucketOf(b.time, dst))
    ensures Extended(out, b, dst) == out + [Fresh(b, dst)]
  {
  }

  // ---- order independence ----

  ghost predicate DistinctStamps(bars: seq<OHLCVBar>) {
    forall i, j | 0 <= i < j < |bars| :: bars[i].time != bars[j].time
  }

  lemma BucketsSnoc(bars: seq<OHLCVBar>, b: OHLCVBar, dst: int)
    requires 0 < dst
    ensures Buckets(bars + [b], dst) == WithBar(Buckets(bars, dst), b, dst)
  {
    assert (bars + [b])[..|bars|] == bars;
  }

  /** Two bars at different times enter the buckets in either order. */
  lemma WithBarCommutes(buckets: map<int, Agg>, b: OHLCVBar, c: OHLCVBar, dst: int)
    requires 0 < dst && b.time != c.time
    ensures WithBar(WithBar(buckets, b, dst), c, dst) == WithBar(WithBar(buckets, c, dst), b, dst)
  {
    hide BucketOf;
    if BucketOf(b.time, dst) == BucketOf(c.time, dst) {
      var k := BucketOf(b.time, dst);
      if k in buckets {
        assert Added(Added(buckets[k], b), c) == Added(Added(buckets[k], c), b);
      } else {
        assert Added(Started(b), c) == Added(Started(c), b);
      }
    }
  }

  /** A bar may be moved to the end past bars at other times. */
  lemma {:induction false} BucketsMove(x: seq<OHLCVBar>, b: OHLCVBar, y: seq<OHLCVBar>, dst: int)
    requires 0 < dst && forall i | 0 <= i < |y| :: y[i].time != b.time
    ensures Buckets(x + [b] + y, dst) == Buckets(x + y + [b], dst)
    decreases |y|
  {
    if y == [] {
      assert x + [b] + y == x + y + [b];
    } else {
      var n := |y| - 1;
      var rest, c := y[..n], y[n];
      BucketsMove(x, b, rest, dst);
      assert x + [b] + y == (x + [b] + rest) + [c];
      assert x + y + [b] == (x + rest + [c]) + [b];
      assert x + y == x + rest + [c];
      hide Buckets, WithBar;
      BucketsSnoc(x + [b] + rest, c, dst);
      BucketsSnoc(x + rest, b, dst);
      BucketsSnoc(x + rest, c, dst);
      BucketsSnoc(x + rest + [c], b, dst);
      WithBarCommutes(Buckets(x + rest, dst), b, c, dst);
    }
  }

  /** Where a bar at a new time belongs among ascending bars. */
  function PlaceOf(bars: seq<OHLCVBar>, t: int): (i: nat)
    ensures i <= |bars|
  {
    if bars == [] then 0
    else if bars[|bars| - 1].time < t then |bars|
    else PlaceOf(bars[..|bars| - 1], t)
  }

  lemma {:induction false} PlaceIs(bars: seq<OHLCVBar>, t: int)
    requires Ascending(bars) && forall i | 0 <= i < |bars| :: bars[i].time != t
    ensures forall i | 0 <= i < |bars| :: if i < PlaceOf(bars, t) then bars[i].time < t else t < bars[i].time
  {
    if bars != [] && t <= bars[|bars| - 1].time {
      var n := |bars| - 1;
      assert Ascending(bars[..n]);
      PlaceIs(bars[..n], t);
      forall i | 0 <= i < |bars|
        ensures if i < PlaceOf(bars, t) then bars[i].time < t else t < bars[i].time
      {
        if i < n { assert bars[..n][i] == bars[i]; }
      }
    }
  }

  function Inserted(bars: seq<OHLCVBar>, b: OHLCVBar): seq<OHLCVBar> {
    var i := PlaceOf(bars, b.time);
    bars[..i] + [b] + bars[i..]
  }

  lemma InsertedAscends(bars: seq<OHLCVBar>, b: OHLCVBar)
    requires Ascending(bars) && forall i | 0 <= i < |bars| :: bars[i].time != b.time
    ensures Ascending(Inserted(bars, b))
  {
    var i := PlaceOf(bars, b.time);
    PlaceIs(bars, b.time);
    var out := Inserted(bars, b);
    hide PlaceOf;
    assert forall j | 0 <= j < |out| :: out[j] == if j < i then bars[j] else if j == i then b else bars[j - 1];
  }

  lemma InsertedIs(bars: seq<OHLCVBar>, b: OHLCVBar)
    requires Ascending(bars) && forall i | 0 <= i < |bars| :: bars[i].time != b.time
    ensures Ascending(Inserted(bars, b))
    ensures Overlay(map[], Inserted(bars, b)) == Overlay(map[], bars + [b])
  {
    InsertedAscends(bars, b);
    var i, end := PlaceOf(bars, b.time), bars + [b];
    var out := Inserted(bars, b);
    hide PlaceOf, Overlay, LastAt, Ascending;
    forall k
      ensures k in Overlay(map[], out) <==> k in Overlay(map[], end)
      ensures k in Overlay(map[], out) ==> Overlay(map[], out)[k] == Overlay(map[], end)[k]
    {
      OverlayAt(map[], out, k);
      OverlayAt(map[], end, k);
      SameLast(bars, b, i, k);
    }
    assert Overlay(map[], out) == Overlay(map[], end);
  }

  lemma SameLast(bars: seq<OHLCVBar>, b: OHLCVBar, i: nat, k: int)
    requires i <= |bars| && Ascending(bars) && Ascending(bars[..i] + [b] + bars[i..])
    requires forall j | 0 <= j < |bars| :: bars[j].time != b.time
    ensures LastAt(bars[..i] + [b] + bars[i..], k) == LastAt(bars + [b], k)
  {
    var out, end := bars[..i] + [b] + bars[i..], bars + [b];
    NoneAt(out, k);
    NoneAt(end, k);
    hide LastAt;
    if j :| 0 <= j < |end| && end[j].time == k {
      var at := if j == |bars| then i else if j < i then j else j + 1;
      assert out[at] == end[j];
      LastOfAscending(out, at);
      LastAtIndex(end, j);
    } else {
      forall j | 0 <= j < |out|
        ensures out[j].time != k
      {
        assert out[j] == if j < i then end[j] else if j == i then end[|bars|] else end[j - 1];
      }
    }
  }

  function TotalVolume(bars: seq<OHLCVBar>): real {
    if bars == [] then 0.0 else TotalVolume(bars[..|bars| - 1]) + bars[|bars| - 1].volume
  }

  lemma {:induction false} TotalVolumeConcat(a: seq<OHLCVBar>, b: seq<OHLCVBar>)
    ensures TotalVolume(a + b) == TotalVolume(a) + TotalVolume(b)
  {
    if b == [] {
      assert a + b == a;
    } else {
      TotalVolumeConcat(a, b[..|b| - 1]);
      assert (a + b)[..|a + b| - 1] == a + b[..|b| - 1];
    }
  }

  lemma InsertedVolume(bars: seq<OHLCVBar>, b: OHLCVBar)
    ensures TotalVolume(Inserted(bars, b)) == TotalVolume(bars + [b])
  {
    hide TotalVolume, PlaceOf;
    var i := PlaceOf(bars, b.time);
    var x, y := bars[..i], bars[i..];
    assert bars == x + y;
    TotalVolumeConcat(x + [b], y);
    TotalVolumeConcat(x, [b]);
    TotalVolumeConcat(x, y);
    TotalVolumeConcat(bars, [b]);
  }

  lemma InsertedBuckets(sorted: seq<OHLCVBar>, b: OHLCVBar, dst: int)
    requires 0 < dst && forall i | 0 <= i < |sorted| :: sorted[i].time != b.time
    ensures Buckets(Inserted(sorted, b), dst) == Buckets(sorted + [b], dst)
  {
    hide Buckets, PlaceOf;
    var i := PlaceOf(sorted, b.time);
    BucketsMove(sorted[..i], b, sorted[i..], dst);
    assert sorted[..i] + sorted[i..] == sorted;
  }

  /** Bars at distinct times fill the buckets as their normal form does. */
  lemma {:induction false} BucketsOfNormalized(bars: seq<OHLCVBar>, dst: int)
    requires 0 < dst && DistinctStamps(bars)
    ensures Buckets(bars, dst) == Buckets(Normalized(bars), dst)
    ensures TotalVolume(bars) == TotalVolume(Normalized(bars))
  {
    if bars == [] {
      ListedIs(map[]);
      assert Normalized(bars) == [];
    } else {
      var n := |bars| - 1;
      var init, b := bars[..n], bars[n];
      var sorted := Normalized(init);
      BucketsOfNormalized(init, dst);
      NormalizedSnoc(init, b);
      hide Buckets, Normalized, TotalVolume, Inserted;
      assert bars == init + [b];
      InsertedBuckets(sorted, b, dst);
      BucketsSnoc(sorted, b, dst);
      BucketsSnoc(init, b, dst);
      InsertedVolume(sorted, b);
      TotalVolumeConcat(sorted, [b]);
      TotalVolumeConcat(init, [b]);
    }
  }

  /** Adding a bar at a new time to a normalized series inserts it. */
  lemma NormalizedSnoc(init: seq<OHLCVBar>, b: OHLCVBar)
    requires forall i | 0 <= i < |init| :: init[i].time != b.time
    ensures Normalized(init + [b]) == Inserted(Normalized(init), b)
    ensures forall i | 0 <= i < |Normalized(init)| :: Normalized(init)[i].time != b.time
  {
    var sorted := Normalized(init);
    NormalizedKeepsLast(init);
    hide Overlay, Listed, LastAt;
    NoneAt(init, b.time);
    NoneAt(sorted, b.time);
    InsertedIs(sorted, b);
    OverlayStamped(map[], init);
    OverlayListed(Overlay(map[], init));
    OverlaySnoc(sorted, b);
    OverlaySnoc(init, b);
    ListedOverlay(Inserted(sorted, b));
  }

  /** For bars at distinct times, in any order, resampling is resampling their normal form. */
  lemma ResampleNormalizes(bars: seq<OHLCVBar>, dst: int)
    requires 0 < dst && DistinctStamps(bars)
    ensures ResampleOf(bars, dst) == ResampleOf(Normalized(bars), dst) == Streamed(Normalized(bars), dst)
  {
    BucketsOfNormalized(bars, dst);
    NormalizedKeepsLast(bars);
    ResampleStreams(Normalized(bars), dst);
  }

  // ---- the results ----

  /** Two orders of the same bars, at distinct times, resample alike. */
  lemma OrderIndependent(a: seq<OHLCVBar>, b: seq<OHLCVBar>, dst: int)
    requires 0 < dst && DistinctStamps(a) && DistinctStamps(b)
    requires Overlay(map[], a) == Overlay(map[], b)
    ensures ResampleOf(a, dst) == ResampleOf(b, dst)
  {
    ResampleNormalizes(a, dst);
    ResampleNormalizes(b, dst);
    hide ResampleOf, Overlay;
  }

  lemma {:induction false} StreamedVolume(bars: seq<OHLCVBar>, dst: int)
    requires 0 < dst
    ensures TotalVolume(Streamed(bars, dst)) == TotalVolume(bars)
  {
    if bars != [] {
      var init, b := bars[..|bars| - 1], bars[|bars| - 1];
      StreamedVolume(init, dst);
      var r := Streamed(init, dst);
      hide BucketOf;
      TotalVolumeConcat(r, [Fresh(b, dst)]);
      if r != [] {
        TotalVolumeConcat(r[..|r| - 1], [Merged(r[|r| - 1], b)]);
      }
    }
  }

  lemma {:induction false} StreamedAligned(bars: seq<OHLCVBar>, dst: int)
    requires 0 < dst
    ensures forall i | 0 <= i < |Streamed(bars, dst)| :: Streamed(bars, dst)[i].time % dst == 0
  {
    if bars != [] {
      StreamedAligned(bars[..|bars| - 1], dst);
      BucketBounds(bars[|bars| - 1].time, dst);
      hide BucketOf;
    }
  }

  /** The resampled stamps are strictly ascending and epoch-aligned, and the total volume is conserved. */
  lemma ResampleShape(bars: seq<OHLCVBar>, dst: int)
    requires 0 < dst && DistinctStamps(bars)
    ensures var out := ResampleOf(bars, dst);
      && Ascending(out)
      && (forall i | 0 <= i < |out| :: out[i].time % dst == 0)
      && TotalVolume(out) == TotalVolume(bars)
  {
    ResampleNormalizes(bars, dst);
    NormalizedKeepsLast(bars);
    ResampleStreams(Normalized(bars), dst);
    StreamedAligned(Normalized(bars), dst);
    StreamedVolume(Normalized(bars), dst);
    BucketsOfNormalized(bars, dst);
    hide ResampleOf, Streamed, Normalized;
  }

  /** Resampling composes: through an intermediate timeframe or directly, the candles are the same in every field. */
  lemma ResampleComposes(bars: seq<OHLCVBar>, mid: int, dst: int)
    requires 0 < mid && 0 < dst && dst % mid == 0 && DistinctStamps(bars)
    ensures ResampleOf(ResampleOf(bars, mid), dst) == ResampleOf(bars, dst)
  {
    ResampleNormalizes(bars, mid);
    ResampleNormalizes(bars, dst);
    NormalizedKeepsLast(bars);
    ResampleStreams(Normalized(bars), mid);
    ResampleStreams(Streamed(Normalized(bars), mid), dst);
    StreamedComposes(Normalized(bars), mid, dst);
    hide ResampleOf, Streamed, Normalized;
  }
}

/** Resampling a series of bars to a coarser timeframe. */
module Resampling {
  import opened Domain
  import opened RealArithmetic
  import opened Timeline

  /** Buckets are aligned to the epoch. */
  function BucketOf(time: int, dst: int): int
    requires 0 < dst
  {
    time / dst * dst
  }

  /** What a bucket has accumulated: the prices at its earliest and latest timestamp, its extremes and its volume. */
  datatype Agg = Agg(openTs: int, open: real, closeTs: int, close: real, high: real, low: real, volume: real)

  function Started(b: OHLCVBar): Agg {
    Agg(b.time, b.open, b.time, b.close, b.high, b.low, b.volume)
  }

  function Added(a: Agg, b: OHLCVBar): Agg {
    Agg(if b.time < a.openTs then b.time else a.openTs, if b.time < a.openTs then b.open else a.open,
        if b.time > a.closeTs then b.time else a.closeTs, if b.time > a.closeTs then b.close else a.close,
        MaxOf(a.high, b.high), MinOf(a.low, b.low), a.volume + b.volume)
  }

  function WithBar(buckets: map<int, Agg>, b: OHLCVBar, dst: int): map<int, Agg>
    requires 0 < dst
  {
    var k := BucketOf(b.time, dst);
    buckets[k := if k in buckets then Added(buckets[k], b) else Started(b)]
  }

  function Buckets(bars: seq<OHLCVBar>, dst: int): map<int, Agg>
    requires 0 < dst
  {
    if bars == [] then map[] else WithBar(Buckets(bars[..|bars| - 1], dst), bars[|bars| - 1], dst)
  }

  function Candle(k: int, a: Agg): OHLCVBar {
    OHLCVBar(k, a.open, a.high, a.low, a.close, a.volume)
  }

  function Candles(buckets: map<int, Agg>): Series {
    map k | k in buckets :: Candle(k, buckets[k])
  }

  /** The bars of the coarser timeframe, in order, each stamped at its bucket's start. */
  function ResampleOf(bars: seq<OHLCVBar>, dst: int): seq<OHLCVBar>
    requires 0 < dst
  {
    Listed(Candles(Buckets(bars, dst)))
  }

  // ---- the pass over mutable buckets ----

  class Bucket {
    var openTs: int
    var open: real
    var closeTs: int
    var close: real
    var high: real
    var low: real
    var volume: real

    function View(): Agg
      reads this
    {
      Agg(openTs, open, closeTs, close, high, low, volume)
    }

    constructor (b: OHLCVBar)
      ensures View() == Started(b)
    {
      openTs, open, closeTs, close := b.time, b.open, b.time, b.close;
      high, low, volume := b.high, b.low, b.volume;
    }

    method Add(tsMs: int, b: OHLCVBar)
      requires tsMs == b.time
      modifies this
      ensures View() == Added(old(View()), b)
    {
      if tsMs < openTs {
        openTs, open := tsMs, b.open;
      }
      if tsMs > closeTs {
        closeTs, close := tsMs, b.close;
      }
      high := MaxOf(high, b.high);
      low := MinOf(low, b.low);
      volume := volume + b.volume;
    }
  }

  /** No two keys share a bucket object. */
  ghost predicate Separate(buckets: map<int, Bucket>) {
    forall j, k | j in buckets && k in buckets && j != k :: buckets[j] != buckets[k]
  }

  ghost predicate Shows(buckets: map<int, Bucket>, model: map<int, Agg>)
    reads buckets.Values
  {
    && buckets.Keys == model.Keys
    && forall k | k in buckets :: buckets[k].View() == model[k]
  }

  method FillBuckets(bars: seq<OHLCVBar>, dst: int) returns (buckets: map<int, Bucket>)
    requires 0 < dst
    ensures Shows(buckets, Buckets(bars, dst))
  {
    buckets := map[];
    var i := 0;
    while i < |bars|
      invariant i <= |bars| && Separate(buckets)
      invariant forall k | k in buckets :: fresh(buckets[k])
      invariant Shows(buckets, Buckets(bars[..i], dst))
    {
      assert bars[..i + 1][..i] == bars[..i];
      var bar := bars[i];
      var key := BucketOf(bar.time, dst);
      if key in buckets {
        buckets[key].Add(bar.time, bar);
      } else {
        var bucket := new Bucket(bar);
        buckets := buckets[key := bucket];
      }
      i := i + 1;
    }
    assert bars[..|bars|] == bars;
  }

  lemma ResampledNothing(dst: int)
    requires 0 < dst
    ensures ResampleOf([], dst) == []
  {
    assert Candles(Buckets([], dst)) == map[];
    ListedIs(map[]);
  }

  lemma ResampledIs(bars: seq<OHLCVBar>, dst: int, keys: seq<int>, out: seq<OHLCVBar>)
    requires 0 < dst && keys == Ordered(Buckets(bars, dst).Keys) && |out| == |keys|
    requires forall j | 0 <= j < |keys| ::
      keys[j] in Buckets(bars, dst) && out[j] == Candle(keys[j], Buckets(bars, dst)[keys[j]])
    ensures out == ResampleOf(bars, dst)
  {
    hide Ordered, Buckets, Candle;
    assert Candles(Buckets(bars, dst)).Keys == Buckets(bars, dst).Keys;
  }

  method Resample(bars: seq<OHLCVBar>, srcTf: string, dstTf: string) returns (r: Checked<seq<OHLCVBar>>)
    ensures r.Refused? && r.error.UnsupportedTimeframe? <==> srcTf !in TIMEFRAME_MS || dstTf !in TIMEFRAME_MS
    ensures srcTf in TIMEFRAME_MS && dstTf in TIMEFRAME_MS ==>
      var src, dst := TIMEFRAME_MS[srcTf], TIMEFRAME_MS[dstTf];
      && 0 < src && 0 < dst
      && r == if dst < src then Refused(ResampleFiner)
              else if dst % src != 0 then Refused(ResampleMisaligned)
              else Accepted(ResampleOf(bars, dst))
  {
    if srcTf !in TIMEFRAME_MS || dstTf !in TIMEFRAME_MS { return Refused(UnsupportedTimeframe); }
    var src, dst := TIMEFRAME_MS[srcTf], TIMEFRAME_MS[dstTf];
    assert 0 < src && 0 < dst;
    if dst < src { return Refused(ResampleFiner); }
    if dst % src != 0 { return Refused(ResampleMisaligned); }
    if bars == [] {
      ResampledNothing(dst);
      return Accepted([]);
    }
    var buckets := FillBuckets(bars, dst);
    var out: seq<OHLCVBar> := [];
    OrderedIs(buckets.Keys);
    var keys := Ordered(buckets.Keys);
    hide Ordered, Buckets, Separate, ResampleOf;
    var i := 0;
    while i < |keys|
      invariant i <= |keys| && |out| == i
      invariant forall j | 0 <= j < i :: out[j] == Candle(keys[j], Buckets(bars, dst)[keys[j]])
    {
      var agg := buckets[keys[i]];
      out := out + [OHLCVBar(keys[i], agg.open, agg.high, agg.low, agg.close, agg.volume)];
      i := i + 1;
    }
    ResampledIs(bars, dst, keys, out);
    r := Accepted(out);
  }
}

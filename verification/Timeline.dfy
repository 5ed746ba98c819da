/** Bar series keyed by timestamp: what a list of bars means once the last bar of every timestamp has won. */
module Timeline {
  import opened Domain
  import opened Sorting

  type Series = map<int, OHLCVBar>

  /** Every bar sits at its own timestamp. */
  ghost predicate Stamped(m: Series) {
    forall k | k in m :: m[k].time == k
  }

  // ---- timestamps in order ----

  function AsReals(keys: set<int>): set<real> {
    set k | k in keys :: k as real
  }

  lemma {:induction false} AsRealsSize(keys: set<int>)
    ensures |AsReals(keys)| == |keys|
  {
    if keys != {} {
      var k := PickOne(keys);
      AsRealsSize(keys - {k});
      forall x
        ensures x in AsReals(keys) <==> x in AsReals(keys - {k}) + {k as real}
      {
        if x in AsReals(keys) {
          var j :| j in keys && j as real == x;
          assert j == k || j in keys - {k};
        }
      }
      assert AsReals(keys) == AsReals(keys - {k}) + {k as real};
    }
  }

  function Ordered(keys: set<int>): seq<int> {
    var r := Sorted(AsReals(keys));
    seq(|r|, i requires 0 <= i < |r| => r[i].Floor)
  }

  /** The timestamps of `keys`, each once, ascending. */
  lemma OrderedIs(keys: set<int>)
    ensures |Ordered(keys)| == |keys|
    ensures forall i, j | 0 <= i < j < |keys| :: Ordered(keys)[i] < Ordered(keys)[j]
    ensures forall i | 0 <= i < |keys| :: Ordered(keys)[i] in keys
    ensures forall k | k in keys :: exists i :: 0 <= i < |keys| && Ordered(keys)[i] == k
  {
    var r := Sorted(AsReals(keys));
    SortedIs(AsReals(keys));
    AsRealsSize(keys);
    hide Sorted;
    forall i | 0 <= i < |r|
      ensures Ordered(keys)[i] in keys && Ordered(keys)[i] as real == r[i]
    {
      assert r[i] in AsReals(keys);
    }
    forall k | k in keys
      ensures exists i :: 0 <= i < |keys| && Ordered(keys)[i] == k
    {
      assert k as real in AsReals(keys);
      var i :| 0 <= i < |r| && r[i] == k as real;
      assert Ordered(keys)[i] == k;
    }
  }

  /** The bars of a series in ascending order. */
  function Listed(m: Series): seq<OHLCVBar> {
    OrderedIs(m.Keys);
    var keys := Ordered(m.Keys);
    seq(|keys|, i requires 0 <= i < |keys| => m[keys[i]])
  }

  lemma ListedIs(m: Series)
    requires Stamped(m)
    ensures |Listed(m)| == |m| && Ascending(Listed(m))
    ensures forall i | 0 <= i < |m| :: Listed(m)[i].time in m && m[Listed(m)[i].time] == Listed(m)[i]
    ensures forall k | k in m :: exists i :: 0 <= i < |m| && Listed(m)[i] == m[k]
  {
    OrderedIs(m.Keys);
    hide Ordered;
    forall k | k in m
      ensures exists i :: 0 <= i < |m| && Listed(m)[i] == m[k]
    {
      var i :| 0 <= i < |m.Keys| && Ordered(m.Keys)[i] == k;
      assert Listed(m)[i] == m[k];
    }
  }

  // ---- overlaying bars on a series ----

  /** `bars` written over `m` one by one: of each timestamp, the last bar wins. */
  function Overlay(m: Series, bars: seq<OHLCVBar>): Series {
    if bars == [] then m else
      var b := bars[|bars| - 1];
      Overlay(m, bars[..|bars| - 1])[b.time := b]
  }

  lemma OverlayNothing(m: Series)
    ensures Overlay(m, []) == m
  {
  }

  /** The last bar at time `k`, if any. */
  function LastAt(bars: seq<OHLCVBar>, k: int): Option<OHLCVBar> {
    if bars == [] then None
    else if bars[|bars| - 1].time == k then Some(bars[|bars| - 1])
    else LastAt(bars[..|bars| - 1], k)
  }

  lemma {:induction false} NoneAt(bars: seq<OHLCVBar>, k: int)
    ensures LastAt(bars, k).None? <==> forall i | 0 <= i < |bars| :: bars[i].time != k
  {
    if bars != [] { NoneAt(bars[..|bars| - 1], k); }
  }

  /** A bar later in the list than any other at its time is the last at that time. */
  lemma {:induction false} LastAtIndex(bars: seq<OHLCVBar>, i: nat)
    requires i < |bars| && forall j | i < j < |bars| :: bars[j].time != bars[i].time
    ensures LastAt(bars, bars[i].time) == Some(bars[i])
  {
    if i < |bars| - 1 {
      assert bars[..|bars| - 1][i] == bars[i];
      LastAtIndex(bars[..|bars| - 1], i);
    }
  }

  lemma {:induction false} OverlayAt(m: Series, bars: seq<OHLCVBar>, k: int)
    ensures k in Overlay(m, bars) <==> k in m || LastAt(bars, k).Some?
    ensures LastAt(bars, k).Some? ==> Overlay(m, bars)[k] == LastAt(bars, k).value
    ensures LastAt(bars, k).None? && k in m ==> Overlay(m, bars)[k] == m[k]
  {
    if bars != [] {
      OverlayAt(m, bars[..|bars| - 1], k);
    }
  }

  lemma {:induction false} OverlayConcat(m: Series, a: seq<OHLCVBar>, b: seq<OHLCVBar>)
    ensures Overlay(m, a + b) == Overlay(Overlay(m, a), b)
  {
    if b == [] {
      assert a + b == a;
    } else {
      OverlayConcat(m, a, b[..|b| - 1]);
      assert (a + b)[..|a + b| - 1] == a + b[..|b| - 1];
    }
  }

  lemma {:induction false} OverlayStamped(m: Series, bars: seq<OHLCVBar>)
    requires Stamped(m)
    ensures Stamped(Overlay(m, bars))
  {
    if bars != [] { OverlayStamped(m, bars[..|bars| - 1]); }
  }

  lemma {:induction false} OverlayGrows(m: Series, bars: seq<OHLCVBar>)
    ensures m.Keys <= Overlay(m, bars).Keys && |m| <= |Overlay(m, bars)|
    ensures |Overlay(m, bars)| <= |m| + |bars|
  {
    if bars != [] {
      OverlayGrows(m, bars[..|bars| - 1]);
      var before, b := Overlay(m, bars[..|bars| - 1]), bars[|bars| - 1];
      assert before[b.time := b].Keys == before.Keys + {b.time};
      assert |m.Keys| == |m|;
    }
  }

  /** In a list with one bar per timestamp, each bar is the last at its own. */
  lemma LastOfAscending(bars: seq<OHLCVBar>, i: nat)
    requires Ascending(bars) && i < |bars|
    ensures LastAt(bars, bars[i].time) == Some(bars[i])
  {
    LastAtIndex(bars, i);
  }

  /** Writing a series out in order and reading it back gives the series. */
  lemma OverlayListed(m: Series)
    requires Stamped(m)
    ensures Overlay(map[], Listed(m)) == m
  {
    ListedIs(m);
    hide Listed, Overlay, LastAt;
    forall k
      ensures k in Overlay(map[], Listed(m)) <==> k in m
      ensures k in m ==> Overlay(map[], Listed(m))[k] == m[k]
    {
      OverlayAt(map[], Listed(m), k);
      NoneAt(Listed(m), k);
      if k in m {
        var i :| 0 <= i < |m| && Listed(m)[i] == m[k];
        LastOfAscending(Listed(m), i);
      }
    }
  }

  /** Writing the same bars again changes nothing. */
  lemma OverlayAgain(m: Series, bars: seq<OHLCVBar>)
    ensures Overlay(Overlay(m, bars), bars) == Overlay(m, bars)
  {
    hide Overlay, LastAt;
    var once, twice := Overlay(m, bars), Overlay(Overlay(m, bars), bars);
    forall k
      ensures k in twice <==> k in once
      ensures k in once ==> twice[k] == once[k]
    {
      OverlayAt(m, bars, k);
      OverlayAt(once, bars, k);
    }
  }

  /** The bars of `m` from time `lo` through `hi`. */
  function Slice(m: Series, lo: int, hi: int): Series {
    map k | k in m && lo <= k <= hi :: m[k]
  }

  function StampsOf(bars: seq<OHLCVBar>): seq<real> {
    seq(|bars|, i requires 0 <= i < |bars| => bars[i].time as real)
  }

  lemma StampIn(bars: seq<OHLCVBar>, k: int)
    ensures k as real in StampsOf(bars) <==> LastAt(bars, k).Some?
  {
    NoneAt(bars, k);
    if k as real in StampsOf(bars) {
      var i :| 0 <= i < |bars| && StampsOf(bars)[i] == k as real;
    }
    if LastAt(bars, k).Some? {
      var i :| 0 <= i < |bars| && bars[i].time == k;
      assert StampsOf(bars)[i] == k as real;
    }
  }

  /** Two ascending lists that agree at every timestamp are equal. */
  lemma AscendingSeriesUnique(a: seq<OHLCVBar>, b: seq<OHLCVBar>)
    requires Ascending(a) && Ascending(b)
    requires forall k :: LastAt(a, k) == LastAt(b, k)
    ensures a == b
  {
    forall x
      ensures x in StampsOf(a) <==> x in StampsOf(b)
    {
      if x in StampsOf(a) {
        var i :| 0 <= i < |a| && StampsOf(a)[i] == x;
        StampIn(a, a[i].time);
        StampIn(b, a[i].time);
      }
      if x in StampsOf(b) {
        var i :| 0 <= i < |b| && StampsOf(b)[i] == x;
        StampIn(a, b[i].time);
        StampIn(b, b[i].time);
      }
    }
    AscendingUnique(StampsOf(a), StampsOf(b));
    hide LastAt;
    assert |a| == |StampsOf(a)| == |b|;
    forall i | 0 <= i < |a|
      ensures a[i] == b[i]
    {
      assert StampsOf(a)[i] == StampsOf(b)[i];
      LastOfAscending(a, i);
      LastOfAscending(b, i);
    }
  }

  lemma ListedLastAt(m: Series, k: int)
    requires Stamped(m)
    ensures LastAt(Listed(m), k) == if k in m then Some(m[k]) else None
  {
    OverlayListed(m);
    OverlayAt(map[], Listed(m), k);
  }

  /** An ascending list is its own normal form. */
  lemma ListedOverlay(bars: seq<OHLCVBar>)
    requires Ascending(bars)
    ensures Listed(Overlay(map[], bars)) == bars
  {
    var m := Overlay(map[], bars);
    OverlayStamped(map[], bars);
    ListedIs(m);
    hide Overlay, Listed, LastAt;
    forall k
      ensures LastAt(Listed(m), k) == LastAt(bars, k)
    {
      ListedLastAt(m, k);
      OverlayAt(map[], bars, k);
    }
    AscendingSeriesUnique(Listed(m), bars);
  }

  // ---- refusals ----

  datatype DataError = UnsupportedTimeframe | InvalidPageLimit | InvalidRange | ResampleFiner | ResampleMisaligned

  datatype Checked<+T> = Accepted(value: T) | Refused(error: DataError)
}

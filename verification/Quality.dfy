/** Normalizing a series of bars, and accounting for the bars it is missing. */
module Quality {
  import opened Domain
  import opened Timeline

  // ---- normalize ----

  /** Ascending, one bar per timestamp, the last one given. */
  function Normalized(bars: seq<OHLCVBar>): seq<OHLCVBar> {
    Listed(Overlay(map[], bars))
  }

  /** One pass over a dictionary by timestamp; `duplicates` counts the bars that replaced another. */
  method Normalize(bars: seq<OHLCVBar>, timeframe: string) returns (r: Checked<(seq<OHLCVBar>, nat)>)
    ensures timeframe !in TIMEFRAME_MS ==> r == Refused(UnsupportedTimeframe)
    ensures timeframe in TIMEFRAME_MS ==>
      r.Accepted? && r.value.0 == Normalized(bars) && r.value.1 == |bars| - |Normalized(bars)|
  {
    if timeframe !in TIMEFRAME_MS { return Refused(UnsupportedTimeframe); }
    var byTs: Series := map[];
    var duplicates := 0;
    var i := 0;
    while i < |bars|
      invariant i <= |bars|
      invariant byTs == Overlay(map[], bars[..i])
      invariant duplicates == i - |byTs|
    {
      assert bars[..i + 1][..i] == bars[..i];
      var bar := bars[i];
      if bar.time in byTs {
        duplicates := duplicates + 1;
        assert byTs[bar.time := bar].Keys == byTs.Keys;
        assert |byTs[bar.time := bar]| == |byTs[bar.time := bar].Keys| == |byTs.Keys| == |byTs|;
      }
      byTs := byTs[bar.time := bar];
      i := i + 1;
    }
    assert bars[..|bars|] == bars;
    OverlayStamped(map[], bars);
    ListedIs(byTs);
    r := Accepted((Listed(byTs), duplicates));
  }

  /** The normal form is strictly ascending and holds, for exactly the timestamps given, the last bar given. */
  lemma NormalizedKeepsLast(bars: seq<OHLCVBar>)
    ensures Ascending(Normalized(bars)) && |Normalized(bars)| <= |bars|
    ensures forall k :: LastAt(Normalized(bars), k) == LastAt(bars, k)
  {
    var m := Overlay(map[], bars);
    OverlayStamped(map[], bars);
    OverlayGrows(map[], bars);
    ListedIs(m);
    hide Overlay, Listed, LastAt;
    forall k
      ensures LastAt(Listed(m), k) == LastAt(bars, k)
    {
      OverlayAt(map[], bars, k);
      ListedLastAt(m, k);
    }
  }

  /** Normalizing twice is normalizing once. */
  lemma NormalizedIdempotent(bars: seq<OHLCVBar>)
    ensures Normalized(Normalized(bars)) == Normalized(bars)
  {
    NormalizedKeepsLast(bars);
    ListedOverlay(Normalized(bars));
  }

  // ---- monotonicity ----

  predicate IsMonotonic(bars: seq<OHLCVBar>) {
    forall i | 0 <= i && i + 1 < |bars| :: bars[i].time < bars[i + 1].time
  }

  /** Looking at neighbours is enough. */
  lemma {:induction false} MonotonicIffAscending(bars: seq<OHLCVBar>)
    ensures IsMonotonic(bars) <==> Ascending(bars)
  {
    if Ascending(bars) {
      assert forall i | 0 <= i && i + 1 < |bars| :: bars[i].time < bars[i + 1].time;
    } else if |bars| > 1 {
      var n := |bars| - 1;
      MonotonicIffAscending(bars[..n]);
      if IsMonotonic(bars) {
        assert forall i | 0 <= i && i + 1 < n :: bars[..n][i].time < bars[..n][i + 1].time;
        assert Ascending(bars[..n]);
        forall i, j | 0 <= i < j < |bars|
          ensures bars[i].time < bars[j].time
        {
          assert bars[..n][i] == bars[i];
          if j < n { assert bars[..n][j] == bars[j]; } else {
            assert bars[n - 1].time < bars[n - 1 + 1].time;
            assert i < n - 1 ==> bars[..n][i].time < bars[..n][n - 1].time;
          }
        }
      }
    }
  }

  // ---- gaps ----

  /** A run of missing bars: the open times of the first and the last of them, and how many there are. */
  datatype Gap = Gap(start: int, end: int, missing: int)

  function GapBetween(prev: int, cur: int, step: int): Option<Gap>
    requires 0 < step
  {
    var delta := cur - prev;
    if delta <= step then None
    else
      var missing := delta / step - 1;
      if missing <= 0 then None else Some(Gap(prev + step, cur - step, missing))
  }

  function GapsOf(bars: seq<OHLCVBar>, step: int): seq<Gap>
    requires 0 < step
  {
    if |bars| < 2 then [] else
      var n := |bars|;
      var gap := GapBetween(bars[n - 2].time, bars[n - 1].time, step);
      GapsOf(bars[..n - 1], step) + if gap.Some? then [gap.value] else []
  }

  method DetectGaps(bars: seq<OHLCVBar>, timeframe: string) returns (r: Checked<seq<Gap>>)
    ensures r == if timeframe in TIMEFRAME_MS then Accepted(GapsOf(bars, TIMEFRAME_MS[timeframe]))
        else Refused(UnsupportedTimeframe)
  {
    if timeframe !in TIMEFRAME_MS { return Refused(UnsupportedTimeframe); }
    var step := TIMEFRAME_MS[timeframe];
    assert 0 < step;
    var gaps: seq<Gap> := [];
    var i := 1;
    while i < |bars|
      invariant 1 <= i
      invariant gaps == if i <= |bars| then GapsOf(bars[..i], step) else []
      invariant i > |bars| ==> |bars| == 0
    {
      assert bars[..i + 1][..i] == bars[..i];
      var gap := GapBetween(bars[i - 1].time, bars[i].time, step);
      if gap.Some? { gaps := gaps + [gap.value]; }
      i := i + 1;
    }
    assert bars == [] || bars[..i] == bars;
    r := Accepted(gaps);
  }

  /** How many bars a dense series holds from the first to the last timestamp. */
  function ExpectedBarCount(bars: seq<OHLCVBar>, step: int): int
    requires 0 < step
  {
    if bars == [] then 0 else (bars[|bars| - 1].time - bars[0].time) / step + 1
  }

  function TotalMissing(gaps: seq<Gap>): int {
    if gaps == [] then 0 else TotalMissing(gaps[..|gaps| - 1]) + gaps[|gaps| - 1].missing
  }

  lemma {:induction false} TotalMissingConcat(a: seq<Gap>, b: seq<Gap>)
    ensures TotalMissing(a + b) == TotalMissing(a) + TotalMissing(b)
  {
    if b == [] {
      assert a + b == a;
    } else {
      TotalMissingConcat(a, b[..|b| - 1]);
      assert (a + b)[..|a + b| - 1] == a + b[..|b| - 1];
    }
  }

  /** A normalized series whose timestamps are whole steps apart. */
  ghost predicate StepAligned(bars: seq<OHLCVBar>, step: int)
    requires 0 < step
  {
    Ascending(bars) && forall i | 0 <= i < |bars| :: (bars[i].time - bars[0].time) % step == 0
  }

  lemma StepAlignedInit(bars: seq<OHLCVBar>, step: int)
    requires 0 < step && StepAligned(bars, step) && bars != []
    ensures StepAligned(bars[..|bars| - 1], step)
  {
  }

  lemma PositiveMultiple(k: int, step: int)
    requires 0 < step
    ensures 0 < k ==> step <= k * step
    ensures k < 0 ==> k * step <= -step
  {
  }

  lemma QuotientIs(n: int, step: int, k: int)
    requires 0 < step && k * step <= n < k * step + step
    ensures n / step == k && n % step == n - k * step
  {
    var q := n / step;
    assert q * step + n % step == n;
    PositiveMultiple(q - k, step);
    assert (q - k) * step == q * step - k * step;
  }

  /** `a` and `b` being whole steps, so is their difference, and the quotients subtract. */
  lemma WholeSteps(a: int, b: int, step: int)
    requires 0 < step && a % step == 0 && b % step == 0
    ensures (b - a) % step == 0 && (b - a) / step == b / step - a / step
    ensures a < b ==> a + step <= b
  {
    var p, q := a / step, b / step;
    assert a == p * step && b == q * step;
    assert (q - p) * step == q * step - p * step;
    QuotientIs(b - a, step, q - p);
    PositiveMultiple(q - p, step);
  }

  /** The gaps of an aligned series account for every bar it lacks. */
  lemma {:induction false} GapsSumToMissing(bars: seq<OHLCVBar>, step: int)
    requires 0 < step && StepAligned(bars, step)
    ensures TotalMissing(GapsOf(bars, step)) == ExpectedBarCount(bars, step) - |bars|
  {
    var n := |bars|;
    if n >= 2 {
      StepAlignedInit(bars, step);
      GapsSumToMissing(bars[..n - 1], step);
      var first, prev, cur := bars[0].time, bars[n - 2].time, bars[n - 1].time;
      WholeSteps(prev - first, cur - first, step);
      assert cur - first - (prev - first) == cur - prev;
      NextGapSize(prev, cur, step);
      var gap := GapBetween(prev, cur, step);
      TotalMissingConcat(GapsOf(bars[..n - 1], step), if gap.Some? then [gap.value] else []);
      assert TotalMissing([]) == 0;
      if gap.Some? { assert [gap.value][..0] == []; }
    }
  }

  lemma NextGapSize(prev: int, cur: int, step: int)
    requires 0 < step && prev < cur && (cur - prev) % step == 0
    ensures var gap := GapBetween(prev, cur, step);
      (if gap.Some? then gap.value.missing else 0) == (cur - prev) / step - 1
  {
    WholeSteps(0, cur - prev, step);
    if cur - prev == step { QuotientIs(step, step, 1); }
  }

  ghost predicate InGaps(gaps: seq<Gap>, t: int) {
    exists i :: 0 <= i < |gaps| && gaps[i].start <= t <= gaps[i].end
  }

  ghost predicate Present(bars: seq<OHLCVBar>, t: int) {
    exists i :: 0 <= i < |bars| && bars[i].time == t
  }

  /** Each gap lies strictly between two neighbouring bars, so no bar lies in a gap. */
  lemma {:induction false} GapsAvoidBars(bars: seq<OHLCVBar>, step: int, t: int)
    requires 0 < step && Ascending(bars) && InGaps(GapsOf(bars, step), t)
    ensures !Present(bars, t) && |bars| >= 2 && bars[0].time < t < bars[|bars| - 1].time
  {
    var n, gaps := |bars|, GapsOf(bars, step);
    var i :| 0 <= i < |gaps| && gaps[i].start <= t <= gaps[i].end;
    var before := GapsOf(bars[..n - 1], step);
    if i < |before| {
      assert before[i] == gaps[i];
      GapsAvoidBars(bars[..n - 1], step, t);
      assert bars[n - 2].time < bars[n - 1].time;
      forall j | 0 <= j < n
        ensures bars[j].time != t
      {
        if j < n - 1 { assert bars[..n - 1][j].time != t; }
      }
    } else {
      assert bars[n - 2].time < t < bars[n - 1].time;
      assert forall j | 0 <= j < n :: bars[j].time <= bars[n - 2].time || j == n - 1;
    }
  }

  /** On an aligned series the gaps cover exactly the timestamps of the grid that have no bar. */
  lemma {:induction false} GapsCoverMissing(bars: seq<OHLCVBar>, step: int, t: int)
    requires 0 < step && StepAligned(bars, step) && bars != []
    requires bars[0].time <= t <= bars[|bars| - 1].time && (t - bars[0].time) % step == 0
    ensures InGaps(GapsOf(bars, step), t) <==> !Present(bars, t)
  {
    var n, gaps := |bars|, GapsOf(bars, step);
    if InGaps(gaps, t) {
      GapsAvoidBars(bars, step, t);
    } else if n >= 2 {
      StepAlignedInit(bars, step);
      var before := GapsOf(bars[..n - 1], step);
      assert before <= gaps;
      if t <= bars[n - 2].time {
        assert !InGaps(before, t) by {
          assert forall i | 0 <= i < |before| :: before[i] == gaps[i];
        }
        GapsCoverMissing(bars[..n - 1], step, t);
        var i :| 0 <= i < n - 1 && bars[..n - 1][i].time == t;
        assert bars[i].time == t;
      } else if t < bars[n - 1].time {
        LastGapHolds(bars, step, t);
      }
    }
  }

  lemma LastGapHolds(bars: seq<OHLCVBar>, step: int, t: int)
    requires 0 < step && StepAligned(bars, step) && |bars| >= 2
    requires bars[|bars| - 2].time < t < bars[|bars| - 1].time && (t - bars[0].time) % step == 0
    ensures InGaps(GapsOf(bars, step), t)
  {
    var n, gaps := |bars|, GapsOf(bars, step);
    var first, prev, cur := bars[0].time, bars[n - 2].time, bars[n - 1].time;
    WholeSteps(prev - first, t - first, step);
    WholeSteps(t - first, cur - first, step);
    WholeSteps(prev - first, cur - first, step);
    assert cur - first - (prev - first) == cur - prev;
    NextGapSize(prev, cur, step);
    TwoSteps(cur - prev, step);
    assert gaps[|gaps| - 1].start <= t <= gaps[|gaps| - 1].end;
  }

  lemma TwoSteps(d: int, step: int)
    requires 0 < step && 2 * step <= d
    ensures d / step >= 2
  {
  }
}

/** How long a capped bar buffer must be for the live path to decide as the backtest does. */
module FiniteBuffers {
  import opened Domain
  import opened GridEngine
  import opened StrategyRuntimes
  import opened RuleSyntax
  import opened RuleEvaluator
  import opened RuleSemantics
  import opened RuleLocality
  import opened Interpreters
  import opened EndToEnd

  /**
   Over bars `lo` to `hi` alone the outputs are those over all bars, wherever they have seen `m` bars or everything.
   */
  ghost predicate WindowAgrees(ind: Indicators, m: nat, bars: seq<OHLCVBar>, lo: nat, hi: nat)
    requires lo <= hi <= |bars|
  {
    var whole, part := ind(bars), ind(bars[lo..hi]);
    && part.Keys == whole.Keys
    && forall id | id in part && id in whole ::
         && |part[id]| == hi - lo && |whole[id]| == |bars|
         && forall j | lo <= j < hi && (lo == 0 || lo + m <= j + 1) :: part[id][j - lo] == whole[id][j]
  }

  /** Indicators that look at the last `m` bars only, such as a moving average of length `m`. */
  ghost predicate FiniteWindow(ind: Indicators, m: nat) {
    forall bars, lo, hi | 0 <= lo <= hi <= |bars| :: WindowAgrees(ind, m, bars, lo, hi)
  }

  lemma NoIndicatorsFinite()
    ensures FiniteWindow(NO_INDICATORS, 1)
  {
  }

  lemma OhlcvCells(bars: seq<OHLCVBar>, id: string)
    requires id in OHLCV_COLUMNS
    ensures id in OhlcvColumns(bars) && |OhlcvColumns(bars)[id]| == |bars|
  {
  }

  lemma WindowCell(ind: Indicators, m: nat, bars: seq<OHLCVBar>, lo: nat, hi: nat, id: string, j: nat)
    requires lo <= j < hi <= |bars| && WindowAgrees(ind, m, bars, lo, hi) && (lo == 0 || lo + m <= j + 1)
    ensures Prepare(ind, bars[lo..hi]).frame.Cell(id, j - lo) == Prepare(ind, bars).frame.Cell(id, j)
  {
    assert OhlcvColumns(bars).Keys == OhlcvColumns(bars[lo..hi]).Keys == OHLCV_COLUMNS;
    if id !in ind(bars) && id in OHLCV_COLUMNS {
      assert id !in ind(bars).Keys && id !in ind(bars[lo..hi]);
      OhlcvSlice(bars, lo, hi, id);
      OhlcvCells(bars, id);
      OhlcvCells(bars[lo..hi], id);
    } else if id in ind(bars) {
      assert id in ind(bars).Keys && id in ind(bars[lo..hi]);
    } else {
      assert id !in ind(bars).Keys && id !in ind(bars[lo..hi]);
    }
    hide OhlcvColumns, OHLCV_COLUMNS;
  }

  lemma ShiftedTail(f: Frame, t: nat, g: Frame, lo: nat, d: nat)
    requires lo <= t && (lo == 0 || d <= t - lo)
    requires forall id, j | lo <= j <= t && t - d <= j :: f.Cell(id, j) == g.Cell(id, j - lo)
    ensures SameTail(f, t, g, t - lo, d)
  {
    hide Frame.Cell;
    forall id, j | 0 <= j <= t && t - d <= j
      ensures f.Cell(id, j) == g.Cell(id, j + (t - lo) - t)
    {
      assert j + (t - lo) - t == j - lo;
    }
  }

  /** A window that reaches `d` rows further back than the indicators look ends in the same `d` + 1 rows. */
  lemma WindowTail(ind: Indicators, m: nat, bars: seq<OHLCVBar>, lo: nat, i: nat, d: nat)
    requires lo <= i < |bars| && FiniteWindow(ind, m) && (lo == 0 || (d + m <= i + 1 - lo && d <= i - lo))
    ensures SameTail(Prepare(ind, bars).frame, i, Prepare(ind, bars[lo..i + 1]).frame, i - lo, d)
  {
    var f, g := Prepare(ind, bars).frame, Prepare(ind, bars[lo..i + 1]).frame;
    assert WindowAgrees(ind, m, bars, lo, i + 1);
    hide Prepare, FiniteWindow, WindowAgrees, Frame.Cell, SameTail;
    forall id, j | lo <= j <= i && i - d <= j
      ensures f.Cell(id, j) == g.Cell(id, j - lo)
    {
      WindowCell(ind, m, bars, lo, i + 1, id, j);
    }
    ShiftedTail(f, i, g, lo, d);
  }

  lemma WindowReady(spec: Spec, rules: Rules, ind: Indicators, m: nat, bars: seq<OHLCVBar>, lo: nat, hi: nat)
    requires Sound(spec, rules, ind, bars) && FiniteWindow(ind, m) && lo <= hi <= |bars|
    ensures Ready(spec, rules, Prepare(ind, bars[lo..hi]))
  {
    assert WindowAgrees(ind, m, bars, lo, hi);
    assert OhlcvColumns(bars).Keys == OhlcvColumns(bars[lo..hi]).Keys == OHLCV_COLUMNS;
    assert Prepare(ind, bars).frame.columns.Keys == Prepare(ind, bars[lo..hi]).frame.columns.Keys;
    hide RulesTyped;
    PrepareValid(ind, bars[lo..hi]);
  }

  lemma WindowRows(ind: Indicators, bars: seq<OHLCVBar>, lo: nat, i: nat)
    requires lo <= i < |bars|
    ensures var p, q := Prepare(ind, bars), Prepare(ind, bars[lo..i + 1]);
      q.frame.rows == |q.times| == i + 1 - lo && |p.times| == |bars| && q.times[i - lo] == p.times[i]
  {
  }

  lemma SignalOnWindow(spec: Spec, rules: Rules, ind: Indicators, m: nat, bars: seq<OHLCVBar>, lo: nat, i: nat)
    requires Sound(spec, rules, ind, bars) && FiniteWindow(ind, m) && lo <= i < |bars|
    requires lo == 0 || (Lookback(spec, rules) + m <= i + 1 - lo && Lookback(spec, rules) <= i - lo)
    ensures |Prepare(ind, bars).times| == |bars|
    ensures SignalAt(spec, rules, Prepare(ind, bars[lo..i + 1])) == Ok(Wanted(spec, rules, Prepare(ind, bars), i))
  {
    var p, q := Prepare(ind, bars), Prepare(ind, bars[lo..i + 1]);
    hide Prepare, Signals, SignalAt, Wanted, Ready, SameTail, Sound, FiniteWindow, Lookback;
    WindowRows(ind, bars, lo, i);
    WindowTail(ind, m, bars, lo, i, Lookback(spec, rules));
    WantedTail(spec, rules, p, i, q, i - lo);
    WindowReady(spec, rules, ind, m, bars, lo, i + 1);
    SignalsAreWanted(spec, rules, q);
    SignalAtIsLast(spec, rules, q);
  }

  lemma DecideOnWindow(spec: Spec, rules: Rules, ind: Indicators, m: nat, bars: seq<OHLCVBar>, lo: nat, i: nat)
    requires Sound(spec, rules, ind, bars) && FiniteWindow(ind, m) && lo <= i < |bars|
    requires lo == 0 || (Lookback(spec, rules) + m <= i + 1 - lo && Lookback(spec, rules) <= i - lo)
    ensures |BatchSignals(spec, rules, ind, bars)| == |bars|
    ensures Decide(spec, rules, ind, bars[lo..i + 1]) == BatchSignals(spec, rules, ind, bars)[i]
  {
    hide Prepare, Signals, SignalAt, Wanted, Sound, FiniteWindow, Lookback, BatchSignals, PositiveLevels;
    SignalOnWindow(spec, rules, ind, m, bars, lo, i);
    BatchSignalsAre(spec, rules, ind, bars);
    assert PositiveLevels(BatchSignals(spec, rules, ind, bars)[i].gridBuyLevels);
  }

  lemma BufferedDecision(spec: Spec, rules: Rules, ind: Indicators, m: nat, size: nat, bars: seq<OHLCVBar>, i: nat)
    requires Sound(spec, rules, ind, bars) && FiniteWindow(ind, m)
    requires Lookback(spec, rules) + m <= size && Lookback(spec, rules) < size && MinSignalBars(spec) <= size
    requires i < |bars| == |BatchSignals(spec, rules, ind, bars)|
    ensures |LiveSignals(spec, rules, ind, Some(size), bars)| == |bars|
    ensures LiveSignals(spec, rules, ind, Some(size), bars)[i]
        == if i < Warmup(spec) then NO_SIGNAL else BatchSignals(spec, rules, ind, bars)[i]
  {
    var lo := if size < i + 1 then i + 1 - size else 0;
    var w := Window(bars[..i + 1], Some(size));
    assert w == bars[lo..i + 1] && |w| == i + 1 - lo;
    GateOpens(spec, i);
    hide LiveSignals, Decide, BatchSignals, Sound, Lookback, Window, MinSignalBars, Warmup, FiniteWindow;
    DecideOnWindow(spec, rules, ind, m, bars, lo, i);
    LiveSignalAt(spec, rules, ind, Some(size), bars, i);
  }

  /**
   With indicators that look at the last `m` bars, a buffer of `m` bars more than the spec looks back, and no shorter
   than the gate, decides what the unbounded buffer decides: the backtest's signals, except on the gated first bars.
   */
  lemma FiniteBufferSuffices(spec: Spec, rules: Rules, ind: Indicators, m: nat, size: nat, bars: seq<OHLCVBar>)
    requires Sound(spec, rules, ind, bars) && FiniteWindow(ind, m)
    requires Lookback(spec, rules) + m <= size && Lookback(spec, rules) < size && MinSignalBars(spec) <= size
    ensures |BatchSignals(spec, rules, ind, bars)| == |bars|
    ensures LiveSignals(spec, rules, ind, Some(size), bars) == Gate(BatchSignals(spec, rules, ind, bars), Warmup(spec))
    ensures LiveSignals(spec, rules, ind, Some(size), bars) == LiveSignals(spec, rules, ind, None, bars)
  {
    BatchSignalsAre(spec, rules, ind, bars);
    LiveSignalsAreGated(spec, rules, ind, bars);
    var live, signals := LiveSignals(spec, rules, ind, Some(size), bars), BatchSignals(spec, rules, ind, bars);
    assert |live| == |bars|;
    hide LiveSignals, BatchSignals, Sound, Lookback, FiniteWindow, MinSignalBars, Warmup;
    forall i: nat | i < |bars|
      ensures live[i] == if i < Warmup(spec) then NO_SIGNAL else signals[i]
    {
      BufferedDecision(spec, rules, ind, m, size, bars, i);
    }
    assert live == Gate(signals, Warmup(spec));
  }

  /** Without indicators nothing is gated, and one more bar than the spec looks back is enough. */
  lemma BareBufferSuffices(spec: Spec, rules: Rules, size: nat, bars: seq<OHLCVBar>)
    requires spec.indicatorParams == [] && Sound(spec, rules, NO_INDICATORS, bars)
    requires Lookback(spec, rules) < size
    ensures LiveSignals(spec, rules, NO_INDICATORS, Some(size), bars) == BatchSignals(spec, rules, NO_INDICATORS, bars)
  {
    NoIndicatorsFinite();
    assert Warmup(spec) == 0 && MinSignalBars(spec) == 1;
    hide LiveSignals, BatchSignals, Sound, Lookback, FiniteWindow;
    FiniteBufferSuffices(spec, rules, NO_INDICATORS, 1, size, bars);
    var signals := BatchSignals(spec, rules, NO_INDICATORS, bars);
    assert Gate(signals, 0) == signals;
  }

  // ---- a finite-window indicator ----

  /** A single indicator with a single output. */
  function Single(id: string, column: seq<OHLCVBar> -> seq<Float>): Indicators {
    (bars: seq<OHLCVBar>) => map[id := column(bars)]
  }

  /** The average of the last two closes, undefined on the first bar. */
  function Averages(bars: seq<OHLCVBar>): seq<Float> {
    seq(|bars|, i requires 0 <= i < |bars| =>
      if i == 0 then NaN else Fin((bars[i - 1].close + bars[i].close) / 2.0))
  }

  lemma AveragesOver(bars: seq<OHLCVBar>, lo: nat, hi: nat)
    requires lo <= hi <= |bars|
    ensures |Averages(bars[lo..hi])| == hi - lo && |Averages(bars)| == |bars|
    ensures forall j | lo <= j < hi && (lo == 0 || lo + 2 <= j + 1) ::
      Averages(bars[lo..hi])[j - lo] == Averages(bars)[j]
  {
  }

  lemma AveragesFinite()
    ensures FiniteWindow(Single("ma", Averages), 2)
  {
    var ind := Single("ma", Averages);
    forall bars, lo, hi | 0 <= lo <= hi <= |bars|
      ensures WindowAgrees(ind, 2, bars, lo, hi)
    {
      assert ind(bars[lo..hi]).Keys == {"ma"} == ind(bars).Keys;
      AveragesOver(bars, lo, hi);
      hide Averages;
    }
  }
}

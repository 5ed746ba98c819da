/** The batch broker trades on the prepared frame, the session on the bars: when both see the same prices. */
module FramePrices {
  import opened Domain
  import opened FillModel
  import opened RuleEngine
  import opened GridEngine
  import opened PaperModel
  import opened RiskInvariants
  import opened RuleEvaluator
  import opened RuleSemantics
  import opened Interpreters

  ghost predicate SameTimes(bars: seq<OHLCVBar>, seen: seq<OHLCVBar>) {
    |seen| == |bars| && forall i | 0 <= i < |bars| :: seen[i].time == bars[i].time
  }

  /** The price columns of the prepared frame hold a number in every row. */
  ghost predicate PricesDefined(ind: Indicators, bars: seq<OHLCVBar>) {
    forall i | 0 <= i < |bars| ::
      var f := Prepare(ind, bars).frame;
      f.Cell("open", i).Fin? && f.Cell("high", i).Fin? && f.Cell("low", i).Fin? && f.Cell("close", i).Fin?
  }

  /** The bars as the batch broker reads them back from the prepared frame. */
  function PreparedBars(ind: Indicators, bars: seq<OHLCVBar>): (seen: seq<OHLCVBar>)
    requires PricesDefined(ind, bars)
    ensures SameTimes(bars, seen)
  {
    var f := Prepare(ind, bars).frame;
    seq(|bars|, i requires 0 <= i < |bars| =>
      OHLCVBar(bars[i].time, f.Cell("open", i).v, f.Cell("high", i).v, f.Cell("low", i).v, f.Cell("close", i).v,
               bars[i].volume))
  }

  /** The batch broker reads the bars themselves exactly when no output changed a price. */
  lemma PreparedBarsKept(ind: Indicators, bars: seq<OHLCVBar>)
    requires PricesDefined(ind, bars)
    ensures PreparedBars(ind, bars) == bars <==> KeepsPrices(ind, bars)
  {
    hide Prepare;
    var seen := PreparedBars(ind, bars);
    if seen == bars {
      forall i | 0 <= i < |bars|
        ensures var f := Prepare(ind, bars).frame;
          && f.Cell("open", i) == Fin(bars[i].open) && f.Cell("high", i) == Fin(bars[i].high)
          && f.Cell("low", i) == Fin(bars[i].low) && f.Cell("close", i) == Fin(bars[i].close)
      {
        assert seen[i] == bars[i];
      }
    }
  }

  /** An indicator whose output is named `close` replaces every close that the batch broker marks and liquidates at. */
  lemma OutputReplacesClose(ind: Indicators, bars: seq<OHLCVBar>, i: nat)
    requires Causal(ind) && PricesDefined(ind, bars) && "close" in ind(bars) && i < |bars|
    ensures |ind(bars)["close"]| == |bars| && Fin(PreparedBars(ind, bars)[i].close) == ind(bars)["close"][i]
  {
    assert Prepare(ind, bars).frame.Cell("close", i) == ind(bars)["close"][i];
  }

  lemma KeptPricesDefined(ind: Indicators, bars: seq<OHLCVBar>)
    requires KeepsPrices(ind, bars)
    ensures PricesDefined(ind, bars) && PreparedBars(ind, bars) == bars
  {
    PreparedBarsKept(ind, bars);
    hide Prepare;
  }

  // ---- specs without a stop and a target ----

  predicate NoLevels(env: Env) {
    env.spec.stopLossPct.None? && env.spec.takeProfitPct.None?
  }

  lemma NoRiskExit(env: Env, a: Account, bar: OHLCVBar)
    requires NoLevels(env) && (a.pos.Some? ==> FromEntry(env, a.pos.value))
    ensures AfterRisk(env, a, bar) == a
  {
  }

  lemma DecisionFromEntry(env: Env, a: Account, d: Decision, bar: OHLCVBar)
    requires Applicable(d, SideOf(a.pos)) && (a.pos.Some? ==> FromEntry(env, a.pos.value))
    ensures var b := AfterDecision(env, a, d, bar); b.pos.Some? ==> FromEntry(env, b.pos.value)
  {
    hide Slip, TargetSize, StopPrice, TakePrice, Closed;
  }
}

/** The drawdown that a solvent run reports. */
module RunDrawdown {
  import opened Domain
  import opened RuleEngine
  import opened ParityConditions
  import opened Solvency
  import Drawdown

  /** Nothing is pending before the first bar, so the curve starts at the initial cash. */
  lemma CurveStarts(env: Env, bars: seq<OHLCVBar>, drv: Driver)
    requires 0 < |bars| == |drv.signals|
    ensures Curve(env, bars, drv)[0] == env.config.initialCash
  {
    assert Run(env, bars, drv, 0) == NewAccount(env);
    assert DecisionAt(env, bars, drv, 0) == IDLE;
    assert Run(env, bars, drv, 1) == NewAccount(env);
  }

  /**
   The maximum drawdown reported for a long-only unfunded run whose entries never outspend its cash is the worst fall
   between any two points of its equity curve, and lies between 0 and 100 percent.
   */
  lemma SolventRunDrawdown(env: Env, bars: seq<OHLCVBar>, drv: Driver)
    requires UnfundedPercent(env) && Outlay(env) <= 1.0
    requires AllPositive(bars) && 0 < |bars| == |drv.signals| && OneSided(Long, drv.signals)
    ensures Drawdown.IsWorst(Curve(env, bars, drv), Drawdown.MaxDrawdownPct(Curve(env, bars, drv)) / 100.0)
    ensures 0.0 <= Drawdown.MaxDrawdownPct(Curve(env, bars, drv)) <= 100.0
  {
    CurveStarts(env, bars, drv);
    RunNeverNegative(env, bars, drv);
    hide Curve, Run, Outlay;
    assert |Curve(env, bars, drv)| == |bars| by { CurveLength(env, bars, drv); }
    Drawdown.MaxDrawdownIsWorstPair(Curve(env, bars, drv));
  }

  lemma CurveLength(env: Env, bars: seq<OHLCVBar>, drv: Driver)
    requires |bars| == |drv.signals|
    ensures |Curve(env, bars, drv)| == |bars|
  {
  }
}

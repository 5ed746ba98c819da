/** Solvency of long-only strategies that pay perp funding: whatever they stake, holding on long enough ruins them. */
module FundedLongs {
  import opened Domain
  import opened RealArithmetic
  import opened FillModel
  import opened RuleEngine
  import opened ParityConditions
  import opened Funding
  import opened Fillability
  import opened PriceParity
  import opened Solvency

  ghost predicate Ones(marks: seq<real>) {
    forall i | 0 <= i < |marks| :: marks[i] == 1.0
  }

  lemma NoCharges(env: Env)
    ensures ChargesBy(env, 0) == 0
  {
    assert 0 as real * env.BarHours() == 0.0;
    IntervalsStep(env, 0.0);
    hide Intervals;
  }

  lemma DueSplits(env: Env, p: Position, a: int, b: int)
    ensures Due(env, p, a, 1.0) + Due(env, p, b - a, 1.0) == Due(env, p, b, 1.0)
  {
    assert (b - a) as real == b as real - a as real;
    DistributeSub(Charge(env, p, 1.0), b as real, a as real);
    hide Charge;
  }

  /** At a flat mark the charges add up to their number times one of them. */
  lemma {:induction false} FlatFunding(env: Env, p: Position, marks: seq<real>)
    requires Ones(marks)
    ensures FundingDue(env, p, marks) == Due(env, p, ChargesBy(env, |marks|), 1.0)
  {
    var n := |marks|;
    if n == 0 {
      NoCharges(env);
      assert 0 as real * Charge(env, p, 1.0) == 0.0;
    } else {
      FlatFunding(env, p, marks[..n - 1]);
      DueSplits(env, p, ChargesBy(env, n - 1), ChargesBy(env, n));
      hide ChargesBy, Due;
    }
  }

  /** The number of bars after which `charges` charges have fallen due. */
  lemma BarsFor(env: Env, charges: nat) returns (n: nat)
    ensures 1 <= n && charges <= ChargesBy(env, n)
  {
    BarHoursPositive(env);
    var iv, bh := env.config.fundingIntervalHours, env.BarHours();
    n := (charges as real * iv / bh).Floor + 1;
    Enough(charges as real * iv, bh, n - 1);
    MulNonneg(charges as real, iv);
    QuotientBetween(charges as real * iv, bh, 0.0, charges as real * iv / bh);
    hide Env.BarHours;
    var hours := n as real * bh;
    AtLeastWhole(hours, iv, charges);
  }

  lemma Enough(x: real, d: real, k: int)
    requires 0.0 < d && k == (x / d).Floor
    ensures x < (k + 1) as real * d
  {
    FloorOfQuotient(x, d, k);
    Distribute(d, k as real, 1.0);
  }

  lemma AtLeastWhole(x: real, d: real, k: int)
    requires 0.0 < d && k as real * d <= x
    ensures k <= (x / d).Floor
  {
    var m := (x / d).Floor;
    FloorOfQuotient(x, d, m);
    if m < k {
      MulMono(m as real + 1.0, k as real, d);
      Distribute(d, m as real, 1.0);
    }
  }

  // ---- held at a flat price ----

  /** The only entry of these runs, at a price of 1. */
  function FirstLong(env: Env): Position {
    Opened(env, Long, env.config.initialCash, 1.0, 1)
  }

  lemma NeverExits(env: Env, n: nat, m: nat)
    requires !AlwaysStopsOut(env) && 2 <= n && m <= n
    ensures EntryAt(env, FlatBars(n), 1, Long) == FirstLong(env) && StillOpen(env, FlatBars(n), 1, Long, m)
  {
    EntryHolds(env, FirstLong(env));
    hide AlwaysStopsOut, Opened, RiskExit;
  }

  lemma FirstLongSized(env: Env)
    requires !AlwaysStopsOut(env)
    ensures var p := FirstLong(env);
      && 0.0 < p.size && 1.0 <= p.entryPrice && p.side.Long? && 0.0 <= p.entryFee
      && p.barsHeld == 0 && p.fundingPaid == 0.0 && p.hoursSinceFunding == 0.0
  {
    EntryHolds(env, FirstLong(env));
    var px := Slip(env.config, 1.0, false);
    TargetSizePositive(env.spec, env.config.initialCash, px);
    MulNonneg(px, TargetSize(env.spec, env.config.initialCash, px));
    MulNonneg(px * TargetSize(env.spec, env.config.initialCash, px), env.spec.taker);
    hide AlwaysStopsOut, RiskExit, Slip, TargetSize, StopPrice, TakePrice;
  }

  /** The account of the run, and the funding it has been charged. */
  lemma HeldFlat(env: Env, n: nat, m: nat) returns (q: Position)
    requires PaysFunding(env) && !AlwaysStopsOut(env) && 1 < m <= n
    ensures var a := Run(env, FlatBars(n), Entering(n, 1, Long), m);
      a.cash == env.config.initialCash && a.pos == Some(q)
    ensures var p := FirstLong(env);
      && q.side == p.side && q.entryPrice == p.entryPrice && q.size == p.size && q.entryFee == p.entryFee
      && q.fundingPaid == Due(env, p, ChargesBy(env, m - 1), 1.0)
  {
    var bars, p := FlatBars(n), FirstLong(env);
    var marks := Marks(bars, 1, m);
    assert Ones(marks) && |marks| == m - 1;
    NeverExits(env, n, m);
    FirstLongSized(env);
    EntryRun(env, bars, 1, Long, m);
    HeldOverIs(env, p, marks);
    FlatFunding(env, p, marks);
    q := HeldOver(env, p, marks);
    hide FirstLong, HeldOver, ChargesBy, Due, Run, AlwaysStopsOut, StillOpen, FundingDue, FlatBars, Marks;
  }

  lemma HeldAtALoss(cash: real, q: Position)
    requires q.side.Long? && 1.0 <= q.entryPrice && 0.0 <= q.size && 0.0 <= q.entryFee && cash < q.fundingPaid
    ensures Equity(cash, Some(q), 1.0) < 0.0
  {
    MulNonneg(q.entryPrice - 1.0, q.size);
  }

  lemma PointIsEquity(env: Env, bars: seq<OHLCVBar>, drv: Driver, i: nat)
    requires i + 1 < |bars| == |drv.signals|
    ensures var a := Run(env, bars, drv, i + 1); Curve(env, bars, drv)[i] == Equity(a.cash, a.pos, bars[i].close)
  {
    hide Run, Equity;
  }

  lemma MoreCharges(charge: real, k: int, m: int, cash: real)
    requires 0.0 < charge && k <= m && cash < k as real * charge
    ensures cash < m as real * charge
  {
    MulMono(k as real, m as real, charge);
  }

  lemma NegativeAt(env: Env, n: nat, i: nat)
    requires PaysFunding(env) && !AlwaysStopsOut(env) && 1 <= i && i + 2 == n
    requires env.config.initialCash < Due(env, FirstLong(env), ChargesBy(env, i), 1.0)
    ensures Curve(env, FlatBars(n), Entering(n, 1, Long))[i] < 0.0
  {
    FirstLongSized(env);
    assert FlatBars(n)[i].close == 1.0 && |Entering(n, 1, Long).signals| == n;
    hide *;
    var q := HeldFlat(env, n, i + 1);
    HeldAtALoss(env.config.initialCash, q);
    PointIsEquity(env, FlatBars(n), Entering(n, 1, Long), i);
  }

  /**
   A swap that charges a positive rate: held at a flat price, a long of any size pays more than the cash in the end, so
   only a stop that closes every entry on its own bar keeps such runs solvent.
   */
  lemma FundingRuins(env: Env)
    requires PaysFunding(env) && 0.0 < env.config.fundingRate && !AlwaysStopsOut(env)
    ensures GoesNegative(env)
  {
    var p, cash := FirstLong(env), env.config.initialCash;
    FirstLongSized(env);
    PayerOfCharge(env, p, 1.0);
    hide FirstLong, AlwaysStopsOut, Charge, ChargesBy, PaysFunding, GoesNegative, Curve, Run;
    var charge := Charge(env, p, 1.0);
    var k := (cash / charge).Floor + 1;
    Enough(cash, charge, k - 1);
    QuotientBetween(cash, charge, 0.0, cash / charge);
    var i := BarsFor(env, k);
    MoreCharges(charge, k, ChargesBy(env, i), cash);
    NegativeAt(env, i + 2, i);
    HeldFeeds(i + 2);
    assert !NeverNegative(env, FlatBars(i + 2), Entering(i + 2, 1, Long));
    NegativeLongs(env, FlatBars(i + 2), EnterAt(i + 2, 1, Long));
  }

  lemma HeldFeeds(n: nat)
    ensures Ascending(FlatBars(n)) && AllPositive(FlatBars(n)) && OneSided(Long, EnterAt(n, 1, Long))
    ensures |EnterAt(n, 1, Long)| == n
  {
  }

  lemma NegativeLongs(env: Env, bars: seq<OHLCVBar>, signals: seq<BarSignal>)
    requires Ascending(bars) && AllPositive(bars) && |signals| == |bars| && OneSided(Long, signals)
    requires !NeverNegative(env, bars, Driver(Backtest, signals))
    ensures GoesNegative(env)
  {
  }

  /** Sized by percentage of equity, solvency then comes down to the stop. */
  lemma FundedSolvencyExact(env: Env)
    requires env.spec.sizingMode.PercentEquity? && PaysFunding(env) && 0.0 < env.config.fundingRate
    ensures AlwaysSolvent(env) <==> AlwaysStopsOut(env) && 0.0 <= Survives(env)
  {
    assert AlwaysStopsOut(env) ==> env.spec.stopLossPct.Some?;
    hide NeverNegative, AlwaysStopsOut, Survives, PaysFunding;
    if !AlwaysStopsOut(env) {
      FundingRuins(env);
    } else if Survives(env) < 0.0 {
      StopGoesNegative(env);
    } else {
      forall bars, signals | Ascending(bars) && AllPositive(bars) && |signals| == |bars| && OneSided(Long, signals)
        ensures NeverNegative(env, bars, Driver(Backtest, signals))
      {
        StoppedRunNeverNegative(env, bars, Driver(Backtest, signals));
      }
    }
  }
}

/** How much perp funding a position pays: one charge for every whole interval of the bars it was held. */
module Funding {
  import opened Domain
  import opened RealArithmetic
  import opened FillModel
  import opened RuleEngine
  import opened DecisionTrace

  /** The number of charges due after `bars` bars. */
  function ChargesBy(env: Env, bars: int): int {
    Intervals(env, bars as real * env.BarHours())
  }

  lemma BarHoursPositive(env: Env)
    ensures 0.0 < env.BarHours()
  {
    assert 0 < TIMEFRAME_MS[env.spec.timeframe];
  }

  /** `charges` funding intervals, in hours. */
  function Span(env: Env, charges: int): real {
    charges as real * env.config.fundingIntervalHours
  }

  /** What `charges` charges at `mark` cost. */
  function Due(env: Env, p: Position, charges: int, mark: real): real {
    charges as real * Charge(env, p, mark)
  }

  /** The loop charges once per whole interval and leaves the remainder. */
  lemma {:induction false} ChargedIs(env: Env, p: Position, mark: real)
    requires 0.0 <= p.hoursSinceFunding
    ensures var k := Intervals(env, p.hoursSinceFunding);
      Charged(env, p, mark) == p.(hoursSinceFunding := p.hoursSinceFunding - Span(env, k),
                                  fundingPaid := p.fundingPaid + Due(env, p, k, mark))
    decreases Intervals(env, p.hoursSinceFunding)
  {
    IntervalsStep(env, p.hoursSinceFunding);
    var k := Intervals(env, p.hoursSinceFunding);
    hide Intervals;
    if p.hoursSinceFunding >= env.config.fundingIntervalHours {
      var q := p.(hoursSinceFunding := p.hoursSinceFunding - env.config.fundingIntervalHours,
                  fundingPaid := p.fundingPaid + Charge(env, p, mark));
      assert Charge(env, q, mark) == Charge(env, p, mark);
      hide Charge;
      ChargedIs(env, q, mark);
      DistributeSub(env.config.fundingIntervalHours, k as real, 1.0);
      DistributeSub(Charge(env, p, mark), k as real, 1.0);
    }
  }

  /** The hours of `bars` bars that no charge has covered yet. */
  function Uncharged(env: Env, bars: int): real {
    bars as real * env.BarHours() - Span(env, ChargesBy(env, bars))
  }

  /** The funding falling due in the `n`-th bar held, at that bar's mark. */
  function DueIn(env: Env, p: Position, n: int, mark: real): real {
    Due(env, p, ChargesBy(env, n) - ChargesBy(env, n - 1), mark)
  }

  ghost predicate OnSchedule(env: Env, p: Position) {
    && 0 <= p.barsHeld
    && p.hoursSinceFunding == (if PaysFunding(env) then Uncharged(env, p.barsHeld) else 0.0)
    && (!PaysFunding(env) ==> p.fundingPaid == 0.0)
  }

  lemma WithinInterval(env: Env, n: int)
    ensures 0.0 <= Uncharged(env, n) < env.config.fundingIntervalHours
  {
    IntervalsStep(env, n as real * env.BarHours());
  }

  /** The intervals that a further bar completes, and what it leaves. */
  lemma ChargesNext(env: Env, n: int)
    ensures Intervals(env, Uncharged(env, n) + env.BarHours()) == ChargesBy(env, n + 1) - ChargesBy(env, n)
    ensures Uncharged(env, n) + env.BarHours() - Span(env, ChargesBy(env, n + 1) - ChargesBy(env, n))
         == Uncharged(env, n + 1)
  {
    var iv, bh := env.config.fundingIntervalHours, env.BarHours();
    var f, g := ChargesBy(env, n), ChargesBy(env, n + 1);
    Distribute(bh, n as real, 1.0);
    assert (n + 1) as real == n as real + 1.0;
    FloorOfQuotient((n + 1) as real * bh, iv, g);
    DistributeSub(iv, g as real, f as real);
    assert (g - f) as real == g as real - f as real;
    FloorOfQuotient(Uncharged(env, n) + bh, iv, g - f);
  }

  /** One more bar: it pays exactly the charges that fall due in it, at its mark. */
  lemma HeldIs(env: Env, p: Position, mark: real)
    requires OnSchedule(env, p)
    ensures var q := Held(env, p, mark);
      && OnSchedule(env, q)
      && q.barsHeld == p.barsHeld + 1
      && q == p.(barsHeld := q.barsHeld, fundingPaid := q.fundingPaid, hoursSinceFunding := q.hoursSinceFunding)
      && (PaysFunding(env) ==> q.fundingPaid == p.fundingPaid + DueIn(env, p, q.barsHeld, mark))
  {
    if PaysFunding(env) {
      var n := p.barsHeld;
      BarHoursPositive(env);
      WithinInterval(env, n);
      ChargesNext(env, n);
      var r := p.(barsHeld := n + 1, hoursSinceFunding := p.hoursSinceFunding + env.BarHours());
      ChargedIs(env, r, mark);
      assert forall k :: Due(env, r, k, mark) == Due(env, p, k, mark) by {
        assert Charge(env, r, mark) == Charge(env, p, mark);
      }
      hide ChargesBy, Intervals, Charged, Uncharged, PaysFunding, Due, Span, Env.BarHours;
    }
  }

  /** A position held over the bars with these closing marks. */
  function HeldOver(env: Env, p: Position, marks: seq<real>): Position {
    if marks == [] then p
    else Held(env, HeldOver(env, p, marks[..|marks| - 1]), marks[|marks| - 1])
  }

  /** The funding due over `marks`, charge by charge. */
  function FundingDue(env: Env, p: Position, marks: seq<real>): real {
    if marks == [] then 0.0
    else FundingDue(env, p, marks[..|marks| - 1]) + DueIn(env, p, |marks|, marks[|marks| - 1])
  }

  lemma FreshOnSchedule(env: Env, p: Position)
    requires p.barsHeld == 0 && p.fundingPaid == 0.0 && p.hoursSinceFunding == 0.0
    ensures OnSchedule(env, p)
  {
    assert 0 as real * env.BarHours() == 0.0;
    IntervalsStep(env, 0.0);
    hide Intervals;
    assert ChargesBy(env, 0) == 0;
  }

  lemma SameDue(env: Env, p: Position, q: Position, n: int, mark: real)
    requires q.side == p.side && q.size == p.size
    ensures DueIn(env, q, n, mark) == DueIn(env, p, n, mark)
  {
    assert Charge(env, q, mark) == Charge(env, p, mark);
    hide Charge, ChargesBy;
  }

  lemma {:induction false} HeldOverIs(env: Env, p: Position, marks: seq<real>)
    requires p.barsHeld == 0 && p.fundingPaid == 0.0 && p.hoursSinceFunding == 0.0
    ensures var q := HeldOver(env, p, marks);
      && OnSchedule(env, q) && q.barsHeld == |marks|
      && q == p.(barsHeld := q.barsHeld, fundingPaid := q.fundingPaid, hoursSinceFunding := q.hoursSinceFunding)
      && (PaysFunding(env) ==> q.fundingPaid == FundingDue(env, p, marks))
  {
    if marks == [] {
      FreshOnSchedule(env, p);
    } else {
      var n := |marks|;
      HeldOverIs(env, p, marks[..n - 1]);
      var q := HeldOver(env, p, marks[..n - 1]);
      HeldIs(env, q, marks[n - 1]);
      SameDue(env, p, q, n, marks[n - 1]);
      hide Held, DueIn, OnSchedule, PaysFunding;
    }
  }

  /**
   After `n` bars an open perp position has been charged floor(n * barHours / interval) times, each time its size times
   the mark times the rate, and has less than one interval left over.
   */
  lemma FundingClosedForm(env: Env, p: Position, marks: seq<real>)
    requires p.barsHeld == 0 && p.fundingPaid == 0.0 && p.hoursSinceFunding == 0.0
    requires PaysFunding(env)
    ensures var q, n := HeldOver(env, p, marks), |marks|;
      && q.barsHeld == n
      && Span(env, ChargesBy(env, n)) + q.hoursSinceFunding == n as real * env.BarHours()
      && 0.0 <= q.hoursSinceFunding < env.config.fundingIntervalHours
      && q.fundingPaid == FundingDue(env, p, marks)
  {
    HeldOverIs(env, p, marks);
    WithinInterval(env, |marks|);
    hide HeldOver, ChargesBy, FundingDue, PaysFunding, Span;
  }

  /** A charge costs the long, and pays the short, exactly when the rate is positive. */
  lemma PayerOfCharge(env: Env, p: Position, mark: real)
    requires 0.0 < mark && 0.0 < p.size
    ensures 0.0 < Charge(env, p, mark)
        <==> (if p.side.Long? then 0.0 < env.config.fundingRate else env.config.fundingRate < 0.0)
  {
    MulPositive(mark, p.size);
    var notional, rate := mark * p.size, env.config.fundingRate;
    if 0.0 < rate { MulPositive(notional, rate); }
    if rate < 0.0 { MulPositive(notional, -rate); }
    assert notional * (-rate) == -(notional * rate);
    assert rate == 0.0 ==> notional * rate == 0.0;
  }

  lemma DueMirrors(env: Env, long: Position, short: Position, n: int, mark: real)
    requires long.side.Long? && short.side.Short? && long.size == short.size
    ensures DueIn(env, long, n, mark) == -DueIn(env, short, n, mark)
  {
    assert Charge(env, long, mark) == -Charge(env, short, mark);
    hide Charge, ChargesBy;
  }

  /** A long and a short of the same size pay exactly opposite funding over the same marks. */
  lemma {:induction false} FundingMirrors(env: Env, long: Position, short: Position, marks: seq<real>)
    requires long.side.Long? && short.side.Short? && long.size == short.size
    ensures FundingDue(env, long, marks) == -FundingDue(env, short, marks)
  {
    if marks != [] {
      FundingMirrors(env, long, short, marks[..|marks| - 1]);
      DueMirrors(env, long, short, |marks|, marks[|marks| - 1]);
      hide DueIn;
    }
  }

  // ---- every position of a run ----

  /** The closing marks of bars `lo` to `hi`. */
  function Marks(bars: seq<OHLCVBar>, lo: nat, hi: nat): seq<real>
    requires lo <= hi <= |bars|
  {
    seq(hi - lo, k requires 0 <= k < hi - lo => bars[lo + k].close)
  }

  /** The position as it was opened. */
  function AtEntry(p: Position): Position {
    p.(barsHeld := 0, fundingPaid := 0.0, hoursSinceFunding := 0.0)
  }

  /** `p` is held over the last `p.barsHeld` of the first `n` bars, at their closes. */
  ghost predicate HeldSince(env: Env, bars: seq<OHLCVBar>, p: Position, n: nat)
    requires n <= |bars|
  {
    && 0 <= p.barsHeld <= n
    && p == HeldOver(env, AtEntry(p), Marks(bars, n - p.barsHeld, n))
    && (0 < p.barsHeld ==> p.entryTime == bars[n - p.barsHeld].time)
  }

  lemma HeldOneMore(env: Env, bars: seq<OHLCVBar>, p: Position, n: nat)
    requires n < |bars| && HeldSince(env, bars, p, n) && (p.barsHeld == 0 ==> p.entryTime == bars[n].time)
    ensures HeldSince(env, bars, Held(env, p, bars[n].close), n + 1)
  {
    var lo := n - p.barsHeld;
    var marks, q := Marks(bars, lo, n + 1), Held(env, p, bars[n].close);
    HeldOverIs(env, AtEntry(p), Marks(bars, lo, n));
    HeldIs(env, p, bars[n].close);
    assert marks[..n - lo] == Marks(bars, lo, n) && marks[n - lo] == bars[n].close;
    hide Held, OnSchedule;
    assert HeldOver(env, AtEntry(p), marks) == q;
  }

  lemma BarHolds(env: Env, bars: seq<OHLCVBar>, a: Account, d: Decision, n: nat)
    requires n < |bars| && Applicable(d, SideOf(a.pos)) && (a.pos.Some? ==> HeldSince(env, bars, a.pos.value, n))
    requires a.pos.Some? ==> 0 < a.pos.value.barsHeld
    ensures var b := AfterBar(env, a, d, bars[n]);
      b.pos.Some? ==> HeldSince(env, bars, b.pos.value, n + 1) && 0 < b.pos.value.barsHeld
  {
    var b := AfterDecision(env, a, d, bars[n]);
    if d.open.Some? {
      var p := b.pos.value;
      assert p.barsHeld == 0 && p == AtEntry(p) && Marks(bars, n, n) == [];
      assert HeldSince(env, bars, p, n) && p.entryTime == bars[n].time;
    }
    RiskShows(env, b, bars[n]);
    var c := AfterRisk(env, b, bars[n]);
    hide HeldSince, Held, CloseAt, AfterRisk, Opened;
    if c.pos.Some? {
      HeldOneMore(env, bars, c.pos.value, n);
      HeldCounts(env, c.pos.value, bars[n].close);
      assert 0 <= c.pos.value.barsHeld by { NotNegative(env, bars, c.pos.value, n); }
    }
  }

  lemma NotNegative(env: Env, bars: seq<OHLCVBar>, p: Position, n: nat)
    requires n <= |bars| && HeldSince(env, bars, p, n)
    ensures 0 <= p.barsHeld
  {
  }

  lemma HeldCounts(env: Env, p: Position, mark: real)
    ensures Held(env, p, mark).barsHeld == p.barsHeld + 1
  {
    if PaysFunding(env) {
      ChargedKeepsIdentity(env,
        p.(barsHeld := p.barsHeld + 1, hoursSinceFunding := p.hoursSinceFunding + env.BarHours()), mark);
    }
  }

  lemma {:induction false} RunHolds(env: Env, bars: seq<OHLCVBar>, drv: Driver, n: nat)
    requires n <= |bars| == |drv.signals|
    ensures var a := Run(env, bars, drv, n);
      a.pos.Some? ==> HeldSince(env, bars, a.pos.value, n) && 0 < a.pos.value.barsHeld
  {
    hide AfterBar, HeldSince;
    if n > 0 {
      RunHolds(env, bars, drv, n - 1);
      BarHolds(env, bars, Run(env, bars, drv, n - 1), DecisionAt(env, bars, drv, n - 1), n - 1);
    }
  }

  lemma {:induction false} DueIgnoresAge(env: Env, p: Position, q: Position, marks: seq<real>)
    requires q.side == p.side && q.size == p.size
    ensures FundingDue(env, q, marks) == FundingDue(env, p, marks)
  {
    if marks != [] {
      DueIgnoresAge(env, p, q, marks[..|marks| - 1]);
      SameDue(env, p, q, |marks|, marks[|marks| - 1]);
      hide DueIn;
    }
  }

  /**
   `p`, seen after `n` bars, was entered `p.barsHeld` bars ago; on a perp it has paid exactly the charges that fell due
   at the closes since, and less than one interval is left uncharged.
   */
  ghost predicate PaidUp(env: Env, bars: seq<OHLCVBar>, p: Position, n: nat)
    requires n <= |bars|
  {
    && 1 <= p.barsHeld <= n && p.entryTime == bars[n - p.barsHeld].time
    && p.fundingPaid == (if PaysFunding(env) then FundingDue(env, p, Marks(bars, n - p.barsHeld, n)) else 0.0)
    && (PaysFunding(env) ==>
          && Span(env, ChargesBy(env, p.barsHeld)) + p.hoursSinceFunding == p.barsHeld as real * env.BarHours()
          && 0.0 <= p.hoursSinceFunding < env.config.fundingIntervalHours)
  }

  lemma HeldPays(env: Env, bars: seq<OHLCVBar>, p: Position, n: nat)
    requires n <= |bars| && HeldSince(env, bars, p, n) && 0 < p.barsHeld
    ensures PaidUp(env, bars, p, n)
  {
    var marks := Marks(bars, n - p.barsHeld, n);
    DueIgnoresAge(env, p, AtEntry(p), marks);
    HeldOverIs(env, AtEntry(p), marks);
    hide HeldOver, FundingDue, ChargesBy, Span, PaysFunding, Env.BarHours, Uncharged;
    if PaysFunding(env) {
      FundingClosedForm(env, AtEntry(p), marks);
    }
  }

  /** Every position open in any rule run has paid its funding to the bar. */
  lemma RunOnSchedule(env: Env, bars: seq<OHLCVBar>, drv: Driver, n: nat)
    requires n <= |bars| == |drv.signals|
    ensures var a := Run(env, bars, drv, n); a.pos.Some? ==> PaidUp(env, bars, a.pos.value, n)
  {
    RunHolds(env, bars, drv, n);
    hide Run, HeldSince, PaidUp;
    if Run(env, bars, drv, n).pos.Some? {
      HeldPays(env, bars, Run(env, bars, drv, n).pos.value, n);
    }
  }
}

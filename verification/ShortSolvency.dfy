/** Solvency of short-only strategies, on spot or a swap: only a stop that every entry meets on its own bar gives it. */
module ShortSolvency {
  import opened Domain
  import opened RealArithmetic
  import opened FillModel
  import opened RuleEngine
  import opened DecisionTrace
  import opened ParityConditions
  import opened Fillability
  import opened Solvency

  /** The stop is so close, and slippage so large, that a short entry's own bar always reaches it. */
  predicate ShortStopsOut(env: Env) {
    && env.spec.stopLossPct.Some?
    && (1.0 - env.config.slippagePct / 100.0) * (1.0 + StopFraction(env)) <= 1.0
  }

  /** What a stopped short entry loses of its notional: the move to the stop and the fees of both fills. */
  function Toll(f: real, t: real): real {
    f + t + (1.0 + f) * t
  }

  /** The share of the cash that a percent-of-equity short entry, stopped out on its own bar, leaves. */
  function ShortSurvives(env: Env): real
    requires env.spec.stopLossPct.Some?
  {
    1.0 - Fraction(env) * Toll(StopFraction(env), env.spec.taker)
  }

  lemma TollPositive(f: real, t: real)
    requires 0.0 < f && 0.0 <= t
    ensures 0.0 < Toll(f, t)
  {
    MulNonneg(1.0 + f, t);
  }

  lemma ShortStopOf(env: Env, entry: real)
    requires env.spec.stopLossPct.Some?
    ensures StopPrice(env.spec, Short, entry).Some?
    ensures StopPrice(env.spec, Short, entry).value == entry + entry * StopFraction(env)
  {
  }

  lemma Scaled(x: real, down: real, f: real, e: real)
    requires 0.0 < x && e == x * down
    ensures down * (1.0 + f) <= 1.0 <==> e + e * f <= x
  {
    assert e + e * f == x * (down * (1.0 + f));
    if down * (1.0 + f) <= 1.0 { MulMono(down * (1.0 + f), 1.0, x); } else { MulStrict(1.0, down * (1.0 + f), x); }
  }

  lemma OpenedShort(env: Env, cash: real, open: real, now: int)
    ensures var p := Opened(env, Short, cash, open, now);
      && p.side.Short? && p.fundingPaid == 0.0
      && p.entryPrice == Slip(env.config, open, true) && p.size == TargetSize(env.spec, cash, p.entryPrice)
      && p.stopPrice == StopPrice(env.spec, Short, p.entryPrice)
  {
    hide Slip, TargetSize, StopPrice, TakePrice;
  }

  /** A short entry's own bar reaches its stop, whatever the bar, exactly when a flat one does. */
  lemma ShortStopReached(env: Env, cash: real, bar: OHLCVBar)
    requires ShortStopsOut(env) && PositivePrices(bar)
    ensures var p := Opened(env, Short, cash, bar.open, bar.time);
      && p.stopPrice == StopPrice(env.spec, Short, p.entryPrice) && p.stopPrice.Some?
      && RiskExit(p, bar.high, bar.low) == Some(RiskFill(p.stopPrice.value, StopLoss))
  {
    var down := 1.0 - env.config.slippagePct / 100.0;
    var e := Slip(env.config, bar.open, true);
    assert e == bar.open * down;
    ShortStopOf(env, e);
    Scaled(bar.open, down, StopFraction(env), e);
    OpenedShort(env, cash, bar.open, bar.time);
    hide Slip, StopPrice, Opened, StopFraction;
  }

  lemma StopCost(e: real, f: real, size: real, t: real, px: real)
    requires px == e + e * f
    ensures (e - px) * size - e * size * t - px * size * t == -(e * size * Toll(f, t))
  {
    var n := e * size;
    assert px * size == n + n * f;
    assert (e - px) * size == -(n * f);
    assert (n + n * f) * t == n * t + n * f * t;
    assert n * Toll(f, t) == n * f + n * t + (n * t + n * f * t);
  }

  lemma ShortEntryFee(env: Env, cash: real, open: real, now: int)
    ensures var p := Opened(env, Short, cash, open, now); p.entryFee == p.entryPrice * p.size * env.spec.taker
  {
    hide Slip, TargetSize, StopPrice, TakePrice;
  }

  lemma ShortStopPnl(env: Env, p: Position, px: real, now: int)
    requires env.spec.stopLossPct.Some? && p.side.Short? && p.fundingPaid == 0.0
    requires p.entryFee == p.entryPrice * p.size * env.spec.taker
    requires px == p.entryPrice + p.entryPrice * StopFraction(env)
    ensures Closed(env, p, px, now, StopLoss).pnl == -TollOn(env, p)
  {
    StopCost(p.entryPrice, StopFraction(env), p.size, env.spec.taker, px);
    hide Toll, StopFraction, PnlPct;
  }

  /** What a short entry is worth. */
  function Worth(p: Position): real {
    p.entryPrice * p.size
  }

  /** What it costs to be stopped out of it. */
  function TollOn(env: Env, p: Position): real
    requires env.spec.stopLossPct.Some?
  {
    Worth(p) * Toll(StopFraction(env), env.spec.taker)
  }

  /** An entry that its own bar stops out costs the toll on its worth. */
  lemma ShortStoppedOut(env: Env, a: Account, bar: OHLCVBar)
    requires ShortStopsOut(env) && PositivePrices(bar) && a.pos.None?
    ensures var p := Opened(env, Short, a.cash, bar.open, bar.time);
      var b := AfterRisk(env, OpenAt(env, a, Short, bar.open, bar.time), bar);
      && env.spec.stopLossPct.Some? && b.pos.None? && b.cash == a.cash - TollOn(env, p)
  {
    var p := Opened(env, Short, a.cash, bar.open, bar.time);
    ShortStopReached(env, a.cash, bar);
    OpenedShort(env, a.cash, bar.open, bar.time);
    ShortStopOf(env, p.entryPrice);
    ShortEntryFee(env, a.cash, bar.open, bar.time);
    ShortStopPnl(env, p, p.stopPrice.value, bar.time);
    hide Opened, Slip, StopPrice, RiskExit, TollOn, StopFraction, Closed, TargetSize;
  }

  // ---- solvent: percentages of the equity, every entry stopped out ----

  lemma ShortNotional(env: Env, cash: real, bar: OHLCVBar)
    requires env.spec.sizingMode.PercentEquity? && env.config.slippagePct < 100.0 && PositivePrices(bar)
    ensures Worth(Opened(env, Short, cash, bar.open, bar.time)) == Fraction(env) * cash
  {
    SlippedPrice(env, bar.open, true);
    OpenedShort(env, cash, bar.open, bar.time);
    NotionalIs(env, cash);
    var px := Slip(env.config, bar.open, true);
    DivMul(Notional(env.spec, cash), px);
    hide Slip, Opened, Notional, Fraction;
  }

  lemma LessShare(cash: real, notional: real, f: real, toll: real, survives: real)
    requires notional == f * cash && survives == 1.0 - f * toll
    ensures cash - notional * toll == Left(survives, cash)
  {
  }

  lemma TollOnShare(env: Env, p: Position, cash: real)
    requires env.spec.stopLossPct.Some? && Worth(p) == Fraction(env) * cash
    ensures cash - TollOn(env, p) == Left(ShortSurvives(env), cash)
  {
    hide Fraction, Worth, Toll, StopFraction;
    LessShare(cash, Worth(p), Fraction(env), Toll(StopFraction(env), env.spec.taker), ShortSurvives(env));
  }

  lemma ShortScalesCash(env: Env, a: Account, bar: OHLCVBar)
    requires env.spec.sizingMode.PercentEquity? && env.config.slippagePct < 100.0
    requires ShortStopsOut(env) && PositivePrices(bar) && a.pos.None?
    ensures var b := AfterRisk(env, OpenAt(env, a, Short, bar.open, bar.time), bar);
      b.pos.None? && b.cash == Left(ShortSurvives(env), a.cash)
  {
    hide *;
    var p := Opened(env, Short, a.cash, bar.open, bar.time);
    ShortStoppedOut(env, a, bar);
    assert a.cash - TollOn(env, p) == Left(ShortSurvives(env), a.cash) by {
      ShortNotional(env, a.cash, bar);
      TollOnShare(env, p, a.cash);
    }
  }

  lemma BarStaysOut(env: Env, a: Account, d: Decision, bar: OHLCVBar)
    requires env.spec.sizingMode.PercentEquity? && env.config.slippagePct < 100.0
    requires ShortStopsOut(env) && 0.0 <= ShortSurvives(env) && PositivePrices(bar)
    requires Applicable(d, SideOf(a.pos)) && d.open != Some(Long) && Flat(a)
    ensures Flat(AfterBar(env, a, d, bar))
  {
    assert env.spec.stopLossPct.Some?;
    hide ShortSurvives, ShortStopsOut, OpenAt, RiskExit, Left;
    if d.open.Some? {
      assert d.open.value == Short;
      ShortScalesCash(env, a, bar);
      LeftSign(ShortSurvives(env), a.cash);
    }
  }

  lemma {:induction false} RunStaysOut(env: Env, bars: seq<OHLCVBar>, drv: Driver, n: nat)
    requires env.spec.sizingMode.PercentEquity? && env.config.slippagePct < 100.0
    requires ShortStopsOut(env) && 0.0 <= ShortSurvives(env)
    requires AllPositive(bars) && n <= |bars| == |drv.signals| && OneSided(Short, drv.signals)
    ensures Flat(Run(env, bars, drv, n))
  {
    hide AfterBar, ShortStopsOut, ShortSurvives;
    if n > 0 {
      RunStaysOut(env, bars, drv, n - 1);
      assert PositivePrices(bars[n - 1]);
      BarStaysOut(env, Run(env, bars, drv, n - 1), DecisionAt(env, bars, drv, n - 1), bars[n - 1]);
    }
  }

  lemma StoppedShortsNeverNegative(env: Env, bars: seq<OHLCVBar>, drv: Driver)
    requires env.spec.sizingMode.PercentEquity? && env.config.slippagePct < 100.0
    requires ShortStopsOut(env) && 0.0 <= ShortSurvives(env)
    requires AllPositive(bars) && |bars| == |drv.signals| && OneSided(Short, drv.signals)
    ensures NeverNegative(env, bars, drv)
  {
    hide Run, ShortStopsOut, ShortSurvives;
    forall n: nat | n <= |bars|
      ensures Flat(Run(env, bars, drv, n))
    {
      RunStaysOut(env, bars, drv, n);
    }
  }

  // ---- runs that end in debt ----

  ghost predicate ShortGoesNegative(env: Env) {
    exists bars, signals ::
      && Ascending(bars) && AllPositive(bars) && |signals| == |bars| && OneSided(Short, signals)
      && !NeverNegative(env, bars, Driver(Backtest, signals))
  }

  lemma NegativeShort(env: Env, bars: seq<OHLCVBar>, signals: seq<BarSignal>, n: nat)
    requires Ascending(bars) && AllPositive(bars) && n <= |bars| == |signals| && OneSided(Short, signals)
    requires Run(env, bars, Driver(Backtest, signals), n).cash < 0.0
    ensures ShortGoesNegative(env)
  {
    hide Run, Curve, OneSided, AllPositive, Ascending;
    assert !NeverNegative(env, bars, Driver(Backtest, signals));
  }

  /** Entered on the second bar, at 1, which stays there; the third opens at `high`. */
  function SqueezeBars(high: real): seq<OHLCVBar> {
    [FlatBar(0, 1.0), FlatBar(1, 1.0), FlatBar(2, high)]
  }

  const SELL_THEN_COVER := [NO_SIGNAL.(enterShort := true), NO_SIGNAL.(exitShort := true), NO_SIGNAL]

  const SHORTER := Driver(Backtest, SELL_THEN_COVER)

  /** The first short, at a price of 1. */
  function FirstShort(env: Env): Position {
    Opened(env, Short, env.config.initialCash, 1.0, 1)
  }

  lemma FirstShortSized(env: Env)
    requires env.config.slippagePct < 100.0
    ensures var p := FirstShort(env);
      && 0.0 < p.size && p.side.Short? && p.entryPrice == 1.0 - env.config.slippagePct / 100.0 && 0.0 < p.entryPrice
  {
    OpenedShort(env, env.config.initialCash, 1.0, 1);
    TargetSizePositive(env.spec, env.config.initialCash, 1.0 - env.config.slippagePct / 100.0);
    hide Opened, TargetSize;
  }

  lemma TargetBelow(spec: Spec, entry: real)
    requires 0.0 < entry && spec.takeProfitPct.Some?
    ensures TakePrice(spec, Short, entry).value < entry
  {
    MulPositive(entry, spec.takeProfitPct.value / 100.0);
  }

  /** Unless an entry is always stopped out, one at a flat price of 1 is still held after its bar. */
  lemma ShortHolds(env: Env)
    requires !ShortStopsOut(env) && env.config.slippagePct < 100.0
    ensures RiskExit(FirstShort(env), 1.0, 1.0).None?
  {
    var e := 1.0 - env.config.slippagePct / 100.0;
    FirstShortSized(env);
    if env.spec.stopLossPct.Some? {
      ShortStopOf(env, e);
      Scaled(1.0, e, StopFraction(env), e);
    }
    if env.spec.takeProfitPct.Some? { TargetBelow(env.spec, e); }
    hide TargetSize, StopFraction, StopPrice, TakePrice;
  }

  lemma SqueezeStarts(env: Env, high: real)
    ensures Run(env, SqueezeBars(high), SHORTER, 1) == NewAccount(env)
    ensures DecisionAt(env, SqueezeBars(high), SHORTER, 1) == Decision(false, Some(Short))
  {
    assert Run(env, SqueezeBars(high), SHORTER, 0) == NewAccount(env);
    assert DecisionAt(env, SqueezeBars(high), SHORTER, 0) == IDLE;
  }

  lemma SqueezeHolds(env: Env, high: real)
    requires !ShortStopsOut(env) && env.config.slippagePct < 100.0
    ensures var a := Run(env, SqueezeBars(high), SHORTER, 2);
      a.cash == env.config.initialCash && a.pos == Some(Held(env, FirstShort(env), 1.0))
  {
    SqueezeStarts(env, high);
    ShortHolds(env);
    hide Opened, Held, RiskExit, ShortStopsOut, Run;
    RunStep(env, SqueezeBars(high), SHORTER, 1);
  }

  /** What covering position `p` at no price at all would leave. */
  function FreeCover(cash: real, p: Position): real {
    cash + Worth(p) - p.entryFee - p.fundingPaid
  }

  /** The same of the first short. */
  function Windfall(env: Env): real {
    FreeCover(env.config.initialCash, Held(env, FirstShort(env), 1.0))
  }

  /** What covering `size` at `px` costs, fee included. */
  function CoverCost(px: real, size: real, t: real): real {
    px * size + px * size * t
  }

  /** A price at which covering costs more than that. */
  function SqueezePrice(env: Env): real
    requires 0.0 < FirstShort(env).size
  {
    1.0 + MaxOf(Windfall(env), 0.0) / FirstShort(env).size
  }

  lemma QuotientNonneg(m: real, size: real)
    requires 0.0 <= m && 0.0 < size
    ensures 0.0 <= m / size
  {
    DivMul(m, size);
    var q := m / size;
    if q < 0.0 { MulStrict(q, 0.0, size); }
  }

  lemma Squeezed(windfall: real, size: real, high: real, px: real, t: real)
    requires 0.0 < size && high == 1.0 + MaxOf(windfall, 0.0) / size && high <= px && 0.0 <= t
    ensures 0.0 < high && windfall < CoverCost(px, size, t)
  {
    var m := MaxOf(windfall, 0.0);
    DivMul(m, size);
    QuotientNonneg(m, size);
    assert high * size == size + m;
    MulMono(high, px, size);
    MulNonneg(px, size);
    MulNonneg(px * size, t);
  }

  lemma CoverCash(env: Env, a: Account, p: Position, px: real, now: int)
    requires a.pos == Some(p) && p.side.Short?
    ensures CloseAt(env, a, px, now, Signal).cash
         == FreeCover(a.cash, p) - CoverCost(px, p.size, env.spec.taker)
  {
    DistributeSub(p.size, p.entryPrice, px);
    hide PnlPct;
  }

  lemma CoverOnly(env: Env, a: Account, bar: OHLCVBar)
    requires a.pos.Some? && a.pos.value.side.Short?
    ensures AfterBar(env, a, Decision(true, None), bar)
         == CloseAt(env, a, Slip(env.config, bar.open, false), bar.time, Signal)
  {
    hide Slip, Closed;
  }

  lemma BuysAtLeast(env: Env, price: real)
    requires 0.0 < price
    ensures price <= Slip(env.config, price, false)
  {
    var s := env.config.slippagePct / 100.0;
    MulNonneg(price, s);
    Distribute(price, 1.0, s);
  }

  /** What covering at a price leaves, the windfall less the purchase and its fee. */
  lemma SqueezeCovers(env: Env, high: real, px: real)
    requires !ShortStopsOut(env) && env.config.slippagePct < 100.0 && px == Slip(env.config, high, false)
    ensures var size := FirstShort(env).size;
      Run(env, SqueezeBars(high), SHORTER, 3).cash == Windfall(env) - CoverCost(px, size, env.spec.taker)
  {
    var p := FirstShort(env);
    OpenedShort(env, env.config.initialCash, 1.0, 1);
    HoldKeepsIdentity(env, NewAccount(env).(pos := Some(p)), FlatBar(1, 1.0));
    SqueezeHolds(env, high);
    var bars := SqueezeBars(high);
    var a := Run(env, bars, SHORTER, 2);
    hide FirstShort, Opened, Held, ShortStopsOut, Run, CloseAt, AfterBar, Slip, FreeCover, CoverCost;
    assert DecisionAt(env, bars, SHORTER, 2) == Decision(true, None);
    CoverCash(env, a, a.pos.value, px, 2);
    CoverOnly(env, a, bars[2]);
    RunStep(env, bars, SHORTER, 2);
  }

  /** A held short can be squeezed into debt, whatever its size. */
  lemma SqueezeGoesNegative(env: Env)
    requires !ShortStopsOut(env) && env.config.slippagePct < 100.0
    ensures ShortGoesNegative(env)
  {
    FirstShortSized(env);
    var size, high := FirstShort(env).size, SqueezePrice(env);
    var px := Slip(env.config, high, false);
    assert high == 1.0 + MaxOf(Windfall(env), 0.0) / size;
    hide FirstShort, ShortStopsOut, Run, ShortGoesNegative, Slip, Windfall, SqueezePrice, CoverCost, MaxOf;
    Squeezed(Windfall(env), size, high, high, 0.0);
    BuysAtLeast(env, high);
    Squeezed(Windfall(env), size, high, px, env.spec.taker);
    SqueezeCovers(env, high, px);
    SqueezeFeeds(high);
    NegativeShort(env, SqueezeBars(high), SELL_THEN_COVER, 3);
  }

  lemma SqueezeFeeds(high: real)
    requires 0.0 < high
    ensures Ascending(SqueezeBars(high)) && AllPositive(SqueezeBars(high)) && OneSided(Short, SELL_THEN_COVER)
    ensures |SqueezeBars(high)| == |SELL_THEN_COVER| == 3
  {
  }

  /** A stop that costs more than the cash takes one entry. */
  lemma TollGoesNegative(env: Env)
    requires env.spec.sizingMode.PercentEquity? && env.config.slippagePct < 100.0
    requires ShortStopsOut(env) && ShortSurvives(env) < 0.0
    ensures ShortGoesNegative(env)
  {
    var bars := SqueezeBars(1.0);
    SqueezeStarts(env, 1.0);
    assert env.spec.stopLossPct.Some?;
    ShortScalesCash(env, NewAccount(env), bars[1]);
    hide ShortStopsOut, ShortSurvives, OpenAt, RiskExit, ShortGoesNegative, Run, Left;
    RunStep(env, bars, SHORTER, 1);
    LeftSign(ShortSurvives(env), env.config.initialCash);
    SqueezeFeeds(1.0);
    NegativeShort(env, bars, SELL_THEN_COVER, 2);
  }

  // ---- fixed sizes pay the same toll over and over ----

  function ShortEveryBar(n: nat): (signals: seq<BarSignal>)
    ensures |signals| == n
  {
    seq(n, i => NO_SIGNAL.(enterShort := true))
  }

  /** What each of these entries costs. */
  function FlatToll(env: Env): real
    requires env.spec.stopLossPct.Some?
  {
    TollOn(env, FirstShort(env))
  }

  lemma FlatTollPositive(env: Env)
    requires env.config.slippagePct < 100.0 && env.spec.stopLossPct.Some?
    ensures 0.0 < FlatToll(env)
  {
    FirstShortSized(env);
    TollPositive(StopFraction(env), env.spec.taker);
    var p := FirstShort(env);
    hide FirstShort, Toll, StopFraction;
    MulPositive(p.entryPrice, p.size);
    MulPositive(Worth(p), Toll(StopFraction(env), env.spec.taker));
  }

  lemma FixedTarget(spec: Spec, a: real, b: real, px: real)
    requires !spec.sizingMode.PercentEquity?
    ensures TargetSize(spec, a, px) == TargetSize(spec, b, px)
  {
    assert Notional(spec, a) == Notional(spec, b) by { hide Leverage; }
    hide Notional, SizeFor;
  }

  lemma SameTollOn(env: Env, p: Position, q: Position)
    requires env.spec.stopLossPct.Some? && p.entryPrice == q.entryPrice && p.size == q.size
    ensures TollOn(env, p) == TollOn(env, q)
  {
    hide Toll, StopFraction;
  }

  lemma SameToll(env: Env, cash: real, now: int)
    requires !env.spec.sizingMode.PercentEquity? && env.spec.stopLossPct.Some?
    ensures TollOn(env, Opened(env, Short, cash, 1.0, now)) == FlatToll(env)
  {
    var p, q := Opened(env, Short, cash, 1.0, now), FirstShort(env);
    assert q == Opened(env, Short, env.config.initialCash, 1.0, 1) && FlatToll(env) == TollOn(env, q) by {
      hide Opened, TollOn;
    }
    hide *;
    OpenedShort(env, cash, 1.0, now);
    OpenedShort(env, env.config.initialCash, 1.0, 1);
    FixedTarget(env.spec, cash, env.config.initialCash, p.entryPrice);
    SameTollOn(env, p, q);
  }

  lemma PaysToll(env: Env, a: Account, now: int)
    requires !env.spec.sizingMode.PercentEquity? && ShortStopsOut(env) && a.pos.None?
    ensures var b := AfterBar(env, a, Decision(false, Some(Short)), FlatBar(now, 1.0));
      b.pos.None? && b.cash == a.cash - FlatToll(env)
  {
    assert env.spec.stopLossPct.Some?;
    hide ShortStopsOut, OpenAt, Opened, AfterRisk, TollOn, FlatToll;
    ShortStoppedOut(env, a, FlatBar(now, 1.0));
    SameToll(env, a.cash, now);
  }

  function Tolls(n: int, toll: real): real {
    n as real * toll
  }

  lemma OneMoreToll(n: int, toll: real)
    ensures Tolls(n, toll) + toll == Tolls(n + 1, toll)
  {
    Distribute(toll, n as real, 1.0);
  }

  lemma NoTolls(toll: real)
    ensures Tolls(0, toll) == 0.0
  {
  }

  lemma EntersEveryBar(env: Env, n: nat, k: nat)
    requires 1 <= k < n && Run(env, FlatBars(n), Driver(Backtest, ShortEveryBar(n)), k).pos.None?
    ensures DecisionAt(env, FlatBars(n), Driver(Backtest, ShortEveryBar(n)), k) == Decision(false, Some(Short))
    ensures FlatBars(n)[k] == FlatBar(k, 1.0)
  {
    hide Run;
  }

  lemma IdleStart(env: Env, bar: OHLCVBar)
    ensures AfterBar(env, NewAccount(env), IDLE, bar) == NewAccount(env)
  {
  }

  lemma FirstBarFlat(env: Env, n: nat)
    requires 1 <= n
    ensures var a := Run(env, FlatBars(n), Driver(Backtest, ShortEveryBar(n)), 1);
      a.pos.None? && a.cash == env.config.initialCash
  {
    var bars, drv := FlatBars(n), Driver(Backtest, ShortEveryBar(n));
    assert Run(env, bars, drv, 0) == NewAccount(env) && DecisionAt(env, bars, drv, 0) == IDLE;
    IdleStart(env, bars[0]);
    hide AfterBar;
  }

  lemma OneMoreEntry(env: Env, n: nat, k: nat)
    requires !env.spec.sizingMode.PercentEquity? && ShortStopsOut(env) && 1 <= k < n
    requires Run(env, FlatBars(n), Driver(Backtest, ShortEveryBar(n)), k).pos.None?
    ensures env.spec.stopLossPct.Some?
    ensures var drv := Driver(Backtest, ShortEveryBar(n));
      var a, b := Run(env, FlatBars(n), drv, k), Run(env, FlatBars(n), drv, k + 1);
      b.pos.None? && b.cash == a.cash - FlatToll(env)
  {
    assert env.spec.stopLossPct.Some?;
    hide *;
    var bars, drv := FlatBars(n), Driver(Backtest, ShortEveryBar(n));
    PaysToll(env, Run(env, bars, drv, k), k);
    EntersEveryBar(env, n, k);
    RunStep(env, bars, drv, k);
  }

  lemma {:induction false} TollsAddUp(env: Env, n: nat, k: nat)
    requires !env.spec.sizingMode.PercentEquity? && ShortStopsOut(env) && 1 <= k <= n
    ensures env.spec.stopLossPct.Some?
    ensures var a := Run(env, FlatBars(n), Driver(Backtest, ShortEveryBar(n)), k);
      a.pos.None? && a.cash == env.config.initialCash - Tolls(k - 1, FlatToll(env))
  {
    assert env.spec.stopLossPct.Some?;
    hide *;
    if k == 1 {
      FirstBarFlat(env, n);
      NoTolls(FlatToll(env));
    } else {
      TollsAddUp(env, n, k - 1);
      OneMoreEntry(env, n, k - 1);
      OneMoreToll(k - 2, FlatToll(env));
    }
  }

  lemma FixedTollsGoNegative(env: Env)
    requires !env.spec.sizingMode.PercentEquity? && env.config.slippagePct < 100.0 && ShortStopsOut(env)
    ensures ShortGoesNegative(env)
  {
    assert env.spec.stopLossPct.Some?;
    FlatTollPositive(env);
    hide ShortStopsOut, FlatToll, Run, ShortGoesNegative;
    var cash, toll := env.config.initialCash, FlatToll(env);
    var n := (cash / toll).Floor + 2;
    FloorOfQuotient(cash, toll, n - 2);
    QuotientNonneg(cash, toll);
    assert cash < Tolls(n - 1, toll);
    TollsAddUp(env, n, n);
    FlatFeeds(n);
    NegativeShort(env, FlatBars(n), ShortEveryBar(n), n);
  }

  lemma FlatFeeds(n: nat)
    ensures Ascending(FlatBars(n)) && AllPositive(FlatBars(n)) && OneSided(Short, ShortEveryBar(n))
    ensures |FlatBars(n)| == |ShortEveryBar(n)| == n
  {
  }

  ghost predicate ShortsAlwaysSolvent(env: Env) {
    forall bars, signals ::
      Ascending(bars) && AllPositive(bars) && |signals| == |bars| && OneSided(Short, signals) ==>
        NeverNegative(env, bars, Driver(Backtest, signals))
  }

  /**
   What solvency of short-only runs needs, exactly, for every sizing mode, on spot and on a swap, with funding or
   without: a percentage of the equity at stake, and a stop that closes every entry on its own bar and leaves something.
   Whatever else the spec says, some positive prices and short signals take a run below zero.
   */
  lemma ShortSolvencyExact(env: Env)
    requires env.config.slippagePct < 100.0
    ensures ShortsAlwaysSolvent(env) <==>
      env.spec.sizingMode.PercentEquity? && ShortStopsOut(env) && 0.0 <= ShortSurvives(env)
  {
    assert ShortStopsOut(env) ==> env.spec.stopLossPct.Some?;
    hide NeverNegative, ShortStopsOut, ShortSurvives;
    if !ShortStopsOut(env) {
      SqueezeGoesNegative(env);
    } else if !env.spec.sizingMode.PercentEquity? {
      FixedTollsGoNegative(env);
    } else if ShortSurvives(env) < 0.0 {
      TollGoesNegative(env);
    } else {
      forall bars, signals | Ascending(bars) && AllPositive(bars) && |signals| == |bars| && OneSided(Short, signals)
        ensures NeverNegative(env, bars, Driver(Backtest, signals))
      {
        StoppedShortsNeverNegative(env, bars, Driver(Backtest, signals));
      }
    }
  }
}

/** Maximum drawdown: one pass with a running peak against the worst fall between any two points of the curve. */
module Drawdown {
  import opened RealArithmetic

  /** The running peak at the end of the curve. */
  function Peak(eq: seq<real>): real
    requires eq != []
  {
    if |eq| == 1 then eq[0] else MaxOf(Peak(eq[..|eq| - 1]), eq[|eq| - 1])
  }

  /** How far `e` lies below `peak`, as a fraction of it. */
  function FallFrom(peak: real, e: real): real
    requires 0.0 < peak
  {
    1.0 - e / peak
  }

  /** The last point's fall from the running peak, as a fraction; none under a peak that is not positive. */
  function FallAtEnd(eq: seq<real>): real
    requires eq != []
  {
    if Peak(eq) > 0.0 then FallFrom(Peak(eq), eq[|eq| - 1]) else 0.0
  }

  function WorstFall(eq: seq<real>): real
    requires eq != []
  {
    if |eq| == 1 then FallAtEnd(eq) else MaxOf(WorstFall(eq[..|eq| - 1]), FallAtEnd(eq))
  }

  /** The largest peak-to-trough decline of the curve, in percent. */
  function MaxDrawdownPct(eq: seq<real>): real {
    if eq == [] then 0.0 else MaxOf(0.0, WorstFall(eq)) * 100.0
  }

  /** A curve that starts positive and never goes below zero. */
  ghost predicate Solvent(eq: seq<real>) {
    eq != [] && 0.0 < eq[0] && forall i | 0 <= i < |eq| :: 0.0 <= eq[i]
  }

  lemma SolventInit(eq: seq<real>)
    requires Solvent(eq) && |eq| > 1
    ensures Solvent(eq[..|eq| - 1])
  {
    assert eq[..|eq| - 1][0] == eq[0];
  }

  lemma {:induction false} PeakIs(eq: seq<real>)
    requires eq != []
    ensures forall i | 0 <= i < |eq| :: eq[i] <= Peak(eq)
    ensures exists i :: 0 <= i < |eq| && eq[i] == Peak(eq)
  {
    var n := |eq| - 1;
    if n == 0 {
      assert eq[0] == Peak(eq);
    } else {
      PeakIs(eq[..n]);
      var i :| 0 <= i < n && eq[..n][i] == Peak(eq[..n]);
      assert eq[i] == Peak(eq[..n]);
      assert eq[n] == Peak(eq) || eq[i] == Peak(eq);
      forall j | 0 <= j < |eq|
        ensures eq[j] <= Peak(eq)
      {
        if j < n { assert eq[..n][j] == eq[j]; }
      }
    }
  }

  /** How far point `j` lies below point `i`, as a fraction of `i`. */
  function Fall(eq: seq<real>, i: nat, j: nat): real
    requires i < |eq| && j < |eq| && eq[i] > 0.0
  {
    (eq[i] - eq[j]) / eq[i]
  }

  lemma FallIs(eq: seq<real>, i: nat, j: nat)
    requires i < |eq| && j < |eq| && eq[i] > 0.0
    ensures Fall(eq, i, j) == FallFrom(eq[i], eq[j])
  {
    DivMul(eq[j], eq[i]);
    QuotientUnique(eq[i] - eq[j], eq[i], 1.0 - eq[j] / eq[i]);
  }

  /** No point lies further than `w` below an earlier positive one. */
  ghost predicate NoWorse(eq: seq<real>, w: real) {
    forall i: nat, j: nat | i <= j < |eq| && eq[i] > 0.0 :: Fall(eq, i, j) <= w
  }

  ghost predicate Attained(eq: seq<real>, w: real) {
    exists i: nat, j: nat :: i <= j < |eq| && eq[i] > 0.0 && Fall(eq, i, j) == w
  }

  /** `w` is the worst fall from any positive point to any later one. */
  ghost predicate IsWorst(eq: seq<real>, w: real) {
    NoWorse(eq, w) && Attained(eq, w)
  }

  /** A higher base makes the fall to the same point larger. */
  lemma FallFromHigher(low: real, high: real, e: real)
    requires 0.0 < low <= high && 0.0 <= e
    ensures FallFrom(low, e) <= FallFrom(high, e)
  {
    var q := e / low;
    DivMul(e, low);
    MulMono(low, high, q) by { QuotientBetween(e, low, 0.0, q); }
    QuotientBetween(e, high, 0.0, q);
  }

  /** The last point falls `w` from some point, and no further from any. */
  ghost predicate WorstAtEnd(eq: seq<real>, w: real)
    requires eq != []
  {
    var n := |eq| - 1;
    && (forall i: nat | i <= n && eq[i] > 0.0 :: Fall(eq, i, n) <= w)
    && (exists i: nat :: i <= n && eq[i] > 0.0 && Fall(eq, i, n) == w)
  }

  /** Falling to the last point is worst from the peak. */
  lemma FallAtEndIsWorst(eq: seq<real>)
    requires Solvent(eq)
    ensures WorstAtEnd(eq, FallAtEnd(eq))
  {
    var n := |eq| - 1;
    PeakIs(eq);
    var top: nat :| top < |eq| && eq[top] == Peak(eq);
    FallIs(eq, top, n);
    hide Peak, Fall, FallFrom;
    forall i: nat | i <= n && eq[i] > 0.0
      ensures Fall(eq, i, n) <= FallAtEnd(eq)
    {
      FallIs(eq, i, n);
      FallFromHigher(eq[i], eq[top], eq[n]);
    }
  }

  lemma InitFall(eq: seq<real>, i: nat, j: nat)
    requires i <= j < |eq| - 1 && eq[i] > 0.0
    ensures Fall(eq[..|eq| - 1], i, j) == Fall(eq, i, j)
  {
  }

  lemma NoWorseThanBoth(eq: seq<real>, v: real, e: real, w: real)
    requires |eq| > 1 && NoWorse(eq[..|eq| - 1], v) && WorstAtEnd(eq, e) && v <= w && e <= w
    ensures NoWorse(eq, w)
  {
    var n := |eq| - 1;
    hide Fall;
    forall i: nat, j: nat | i <= j < |eq| && eq[i] > 0.0
      ensures Fall(eq, i, j) <= w
    {
      if j < n {
        assert Fall(eq[..n], i, j) <= v;
        InitFall(eq, i, j);
      }
    }
  }

  lemma AttainedByInit(eq: seq<real>, v: real)
    requires |eq| > 1 && Attained(eq[..|eq| - 1], v)
    ensures Attained(eq, v)
  {
    var init := eq[..|eq| - 1];
    var i: nat, j: nat :| i <= j < |init| && init[i] > 0.0 && Fall(init, i, j) == v;
    InitFall(eq, i, j);
    hide Fall;
  }

  lemma AttainedAtEnd(eq: seq<real>, w: real)
    requires eq != [] && WorstAtEnd(eq, w)
    ensures Attained(eq, w)
  {
    hide Fall;
  }

  lemma PairsOfInit(eq: seq<real>)
    requires |eq| > 1 && IsWorst(eq[..|eq| - 1], WorstFall(eq[..|eq| - 1])) && WorstAtEnd(eq, FallAtEnd(eq))
    ensures IsWorst(eq, WorstFall(eq))
  {
    var init := eq[..|eq| - 1];
    assert WorstFall(eq) == MaxOf(WorstFall(init), FallAtEnd(eq));
    hide WorstFall, FallAtEnd, NoWorse, Attained, WorstAtEnd;
    NoWorseThanBoth(eq, WorstFall(init), FallAtEnd(eq), WorstFall(eq));
    if WorstFall(eq) == FallAtEnd(eq) { AttainedAtEnd(eq, WorstFall(eq)); } else { AttainedByInit(eq, WorstFall(eq)); }
  }

  /** The one-pass running-peak result is the worst fall over all pairs of points. */
  lemma {:induction false} WorstFallIsWorst(eq: seq<real>)
    requires Solvent(eq)
    ensures IsWorst(eq, WorstFall(eq))
  {
    var n := |eq| - 1;
    FallAtEndIsWorst(eq);
    if n == 0 {
      AttainedAtEnd(eq, FallAtEnd(eq));
    } else {
      SolventInit(eq);
      WorstFallIsWorst(eq[..n]);
      PairsOfInit(eq);
    }
  }

  lemma FallRange(a: real, e: real)
    requires 0.0 < a && 0.0 <= e
    ensures FallFrom(a, e) <= 1.0
    ensures FallFrom(a, e) <= 0.0 <==> a <= e
  {
    QuotientNonneg(e, a);
    Below(e / a, 1.0, a, e, a) by { DivMul(e, a); }
  }

  lemma QuotientNonneg(e: real, a: real)
    requires 0.0 < a && 0.0 <= e
    ensures 0.0 <= e / a
  {
  }

  /** On a curve that never goes below zero the maximum drawdown is the worst fall between any two points, 0 to 100. */
  lemma MaxDrawdownIsWorstPair(eq: seq<real>)
    requires Solvent(eq)
    ensures IsWorst(eq, MaxDrawdownPct(eq) / 100.0)
    ensures 0.0 <= MaxDrawdownPct(eq) <= 100.0
  {
    WorstFallIsWorst(eq);
    var w := WorstFall(eq);
    hide WorstFall, Fall, FallFrom;
    assert Fall(eq, 0, 0) <= w;
    FallIs(eq, 0, 0);
    FallRange(eq[0], eq[0]);
    var i: nat, j: nat :| i <= j < |eq| && eq[i] > 0.0 && Fall(eq, i, j) == w;
    FallIs(eq, i, j);
    FallRange(eq[i], eq[j]);
  }

  ghost predicate NeverFalls(eq: seq<real>) {
    forall i, j | 0 <= i <= j < |eq| :: eq[i] <= eq[j]
  }

  /** It is zero exactly when the curve never falls. */
  lemma ZeroIffNeverFalls(eq: seq<real>)
    requires Solvent(eq)
    ensures MaxDrawdownPct(eq) == 0.0 <==> NeverFalls(eq)
  {
    MaxDrawdownIsWorstPair(eq);
    var w := MaxDrawdownPct(eq) / 100.0;
    hide MaxDrawdownPct, Fall, FallFrom;
    if w <= 0.0 {
      forall i, j | 0 <= i <= j < |eq|
        ensures eq[i] <= eq[j]
      {
        if eq[i] > 0.0 {
          assert Fall(eq, i, j) <= w;
          FallIs(eq, i, j);
          FallRange(eq[i], eq[j]);
        }
      }
    }
    if NeverFalls(eq) {
      var i: nat, j: nat :| i <= j < |eq| && eq[i] > 0.0 && Fall(eq, i, j) == w;
      FallIs(eq, i, j);
      FallRange(eq[i], eq[j]);
    }
  }

  function Scaled(eq: seq<real>, c: real): seq<real> {
    seq(|eq|, i requires 0 <= i < |eq| => Product(c, eq[i]))
  }

  lemma ScaledInit(eq: seq<real>, c: real)
    requires eq != []
    ensures Scaled(eq, c)[..|eq| - 1] == Scaled(eq[..|eq| - 1], c)
  {
    hide Product;
  }

  lemma {:induction false} PeakScales(eq: seq<real>, c: real)
    requires eq != [] && 0.0 < c
    ensures Peak(Scaled(eq, c)) == Product(c, Peak(eq))
  {
    var n := |eq| - 1;
    ScaledInit(eq, c);
    hide Product, MaxOf;
    if n > 0 {
      PeakScales(eq[..n], c);
      MaxScales(Peak(eq[..n]), eq[n], c);
      assert Scaled(eq, c)[n] == Product(c, eq[n]);
    }
  }

  lemma MaxScales(a: real, b: real, c: real)
    requires 0.0 < c
    ensures MaxOf(Product(c, a), Product(c, b)) == Product(c, MaxOf(a, b))
  {
    if a >= b { MulMono(b, a, c); } else { MulStrict(a, b, c); }
  }

  lemma RatioScales(e: real, a: real, c: real)
    requires 0.0 < a && 0.0 < c
    ensures 0.0 < c * a && (c * e) / (c * a) == e / a
  {
    MulPositive(c, a);
    var q := e / a;
    DivMul(e, a);
    assert q * (c * a) == c * (q * a);
    QuotientUnique(c * e, c * a, q);
  }

  lemma FallFromScales(a: real, e: real, c: real)
    requires 0.0 < c
    ensures 0.0 < Product(c, a) <==> 0.0 < a
    ensures 0.0 < a ==> FallFrom(Product(c, a), Product(c, e)) == FallFrom(a, e)
  {
    if 0.0 < a { RatioScales(e, a, c); } else { MulMono(a, 0.0, c); }
  }

  lemma FallScales(eq: seq<real>, c: real)
    requires eq != [] && 0.0 < c
    ensures FallAtEnd(Scaled(eq, c)) == FallAtEnd(eq)
  {
    hide Peak, Product, FallFrom;
    PeakScales(eq, c);
    FallFromScales(Peak(eq), eq[|eq| - 1], c);
  }

  /** Scaling a curve leaves its drawdown unchanged. */
  lemma {:induction false} WorstFallScales(eq: seq<real>, c: real)
    requires eq != [] && 0.0 < c
    ensures WorstFall(Scaled(eq, c)) == WorstFall(eq)
  {
    var n := |eq| - 1;
    FallScales(eq, c);
    hide FallAtEnd;
    if n > 0 {
      ScaledInit(eq, c);
      WorstFallScales(eq[..n], c);
    }
  }

  lemma MaxDrawdownScales(eq: seq<real>, c: real)
    requires 0.0 < c
    ensures MaxDrawdownPct(Scaled(eq, c)) == MaxDrawdownPct(eq)
  {
    if eq != [] { WorstFallScales(eq, c); }
  }
}

/** Facts about products and quotients of reals, named so that proofs can cite them. */
module RealArithmetic {
  /** A product as a term of its own, for proofs that need not open it. */
  function Product(a: real, b: real): real {
    a * b
  }

  function MaxOf(a: real, b: real): real {
    if a >= b then a else b
  }

  function MinOf(a: real, b: real): real {
    if a <= b then a else b
  }

  lemma MulMono(a: real, b: real, c: real)
    requires a <= b && 0.0 <= c
    ensures a * c <= b * c && c * a <= c * b
  {}

  lemma MulStrict(a: real, b: real, c: real)
    requires a < b && 0.0 < c
    ensures a * c < b * c && c * a < c * b
  {}

  lemma ProductGrows(x: real, y: real, factor: real)
    requires x < y && 0.0 < factor
    ensures Product(x, factor) < Product(y, factor)
  {
    MulStrict(x, y, factor);
  }

  lemma ProductNext(n: int, factor: real)
    ensures Product((n + 1) as real, factor) == Product(n as real, factor) + factor
  {
    assert (n + 1) as real == n as real + 1.0;
    Distribute(factor, n as real, 1.0);
  }

  lemma MulNonneg(a: real, b: real)
    requires 0.0 <= a && 0.0 <= b
    ensures 0.0 <= a * b
  {}

  lemma MulPositive(a: real, b: real)
    requires 0.0 < a && 0.0 < b
    ensures 0.0 < a * b
  {}

  lemma Distribute(a: real, b: real, c: real)
    ensures a * (b + c) == a * b + a * c && (b + c) * a == b * a + c * a
  {}

  lemma DistributeSub(a: real, b: real, c: real)
    ensures a * (b - c) == a * b - a * c && (b - c) * a == b * a - c * a
  {}

  lemma DivMul(a: real, b: real)
    requires b != 0.0
    ensures a / b * b == a
  {}

  lemma QuotientUnique(n: real, d: real, q: real)
    requires 0.0 < d && q * d == n
    ensures n / d == q
  {
    var p := n / d;
    DivMul(n, d);
    if q < p { MulStrict(q, p, d); }
    if p < q { MulStrict(p, q, d); }
  }

  lemma Below(q: real, k: real, d: real, n: real, m: real)
    requires 0.0 < d && n == q * d && m == k * d
    ensures k <= q <==> m <= n
  {
    if k <= q { MulMono(k, q, d); } else { MulStrict(q, k, d); }
  }

  lemma FloorBetween(n: real, d: real, q: real, k: int, m: real, m1: real)
    requires 0.0 < d && n == q * d && m == k as real * d && m1 == (k as real + 1.0) * d
    ensures q.Floor == k <==> m <= n < m1
  {
    Below(q, k as real, d, n, m);
    Below(q, k as real + 1.0, d, n, m1);
  }

  /** The quotient's floor is the number of whole `d`s in `n`. */
  lemma FloorOfQuotient(n: real, d: real, k: int)
    requires 0.0 < d
    ensures (n / d).Floor == k <==> k as real * d <= n < k as real * d + d
  {
    FloorBetween(n, d, n / d, k, k as real * d, (k as real + 1.0) * d);
    assert (k as real + 1.0) * d == k as real * d + d;
  }

  /** `lo <= n / d <= hi`, from the products. */
  lemma QuotientBetween(n: real, d: real, lo: real, hi: real)
    requires 0.0 < d && lo * d <= n <= hi * d
    ensures lo <= n / d <= hi
  {
    var q := n / d;
    DivMul(n, d);
    if q < lo { MulStrict(q, lo, d); }
    if hi < q { MulStrict(hi, q, d); }
  }
}

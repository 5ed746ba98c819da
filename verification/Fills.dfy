/** Fill events and their aggregation into an order's cumulative state. */
module Fills {
  import opened Domain
  import opened RealArithmetic

  datatype FillEvent = FillEvent(qty: real, price: real, fee: real) {
    /** The model's field constraints; building an event that fails them raises. */
    predicate Valid() {
      0.0 < qty && 0.0 < price && 0.0 <= fee
    }
  }

  type Fill = f: FillEvent | f.Valid() witness FillEvent(1.0, 1.0, 0.0)

  datatype OrderStatus = Open | PartiallyFilled | Filled | Canceled | Rejected

  datatype Aggregate = Aggregate(filled: real, remaining: real, average: Option<real>, fee: real, status: OrderStatus)

  function RawQty(fills: seq<Fill>): real {
    if fills == [] then 0.0 else fills[0].qty + RawQty(fills[1..])
  }

  function Notional(fills: seq<Fill>): real {
    if fills == [] then 0.0 else fills[0].qty * fills[0].price + Notional(fills[1..])
  }

  function TotalFee(fills: seq<Fill>): real {
    if fills == [] then 0.0 else fills[0].fee + TotalFee(fills[1..])
  }

  /** A remainder too small to rest: up to it an order counts as filled. */
  const DUST := 0.000000000001

  /** Reduces `fills` to the order's cumulative state, clamping the filled size to `amount`. */
  function AggregateFills(amount: real, fills: seq<Fill>): Aggregate {
    if fills == [] then
      Aggregate(0.0, amount, None, 0.0, Open)
    else
      var raw := RawQty(fills);
      var filled := if raw <= amount then raw else amount;
      var remaining := if amount - filled < 0.0 then 0.0 else amount - filled;
      var average := if raw > 0.0 then Some(Notional(fills) / raw) else None;
      var status :=
        if remaining <= DUST then Filled
        else if filled > 0.0 then PartiallyFilled
        else Open;
      Aggregate(filled, remaining, average, TotalFee(fills), status)
  }

  lemma {:induction false} RawQtyPositive(fills: seq<Fill>)
    ensures 0.0 <= RawQty(fills)
    ensures fills != [] ==> 0.0 < RawQty(fills)
  {
    if fills != [] {
      RawQtyPositive(fills[1..]);
    }
  }

  lemma SumsSplit(fills: seq<Fill>)
    requires fills != []
    ensures RawQty(fills) == fills[0].qty + RawQty(fills[1..])
    ensures Notional(fills) == fills[0].qty * fills[0].price + Notional(fills[1..])
  {
  }

  /** `notional` is worth between `lo` and `hi` a unit. */
  ghost predicate Priced(qty: real, notional: real, lo: real, hi: real) {
    lo * qty <= notional <= hi * qty
  }

  lemma WeighedBetween(qty: real, price: real, restQty: real, restNotional: real, lo: real, hi: real)
    requires 0.0 < qty && lo <= price <= hi && Priced(restQty, restNotional, lo, hi)
    ensures Priced(qty + restQty, qty * price + restNotional, lo, hi)
  {
    MulMono(lo, price, qty);
    MulMono(price, hi, qty);
    Distribute(lo, qty, restQty);
    Distribute(hi, qty, restQty);
  }

  lemma {:induction false} NotionalBetween(fills: seq<Fill>, lo: real, hi: real)
    requires forall i | 0 <= i < |fills| :: lo <= fills[i].price <= hi
    ensures Priced(RawQty(fills), Notional(fills), lo, hi)
  {
    if fills != [] {
      var f, rest := fills[0], fills[1..];
      SumsSplit(fills);
      hide RawQty, Notional, Priced;
      NotionalBetween(rest, lo, hi);
      WeighedBetween(f.qty, f.price, RawQty(rest), Notional(rest), lo, hi);
    }
  }

  /**
   No fill list can inflate an order: the two parts add up to the amount, and neither is negative. It is open exactly
   without fills, and filled exactly when they leave at most dust of the amount.
   */
  lemma FilledPlusRemaining(amount: real, fills: seq<Fill>)
    requires 0.0 < amount
    ensures var a := AggregateFills(amount, fills);
      && a.filled + a.remaining == amount
      && 0.0 <= a.filled <= amount
      && (a.filled == amount <==> amount <= RawQty(fills))
      && (a.status.Open? <==> fills == [])
      && (a.status.Filled? <==> fills != [] && amount - RawQty(fills) <= 0.000000000001)
      && (a.status.Filled? ==> a.remaining <= 0.000000000001)
  {
    RawQtyPositive(fills);
  }

  /** The average is a price actually paid or one between two of them. */
  lemma AverageBetween(amount: real, fills: seq<Fill>, lo: real, hi: real)
    requires fills != []
    requires forall i | 0 <= i < |fills| :: lo <= fills[i].price <= hi
    ensures var a := AggregateFills(amount, fills);
      a.average.Some? && lo <= a.average.value <= hi
  {
    RawQtyPositive(fills);
    NotionalBetween(fills, lo, hi);
    QuotientBetween(Notional(fills), RawQty(fills), lo, hi);
  }

  lemma {:induction false} SumsRemove(fills: seq<Fill>, k: nat)
    requires k < |fills|
    ensures var rest := fills[..k] + fills[k + 1..];
      && RawQty(fills) == fills[k].qty + RawQty(rest)
      && Notional(fills) == fills[k].qty * fills[k].price + Notional(rest)
      && TotalFee(fills) == fills[k].fee + TotalFee(rest)
  {
    var rest := fills[..k] + fills[k + 1..];
    if k == 0 {
      assert rest == fills[1..];
    } else {
      SumsRemove(fills[1..], k - 1);
      assert rest[0] == fills[0];
      assert rest[1..] == fills[1..][..k - 1] + fills[1..][k..];
    }
  }

  lemma {:induction false} SumsIgnoreOrder(a: seq<Fill>, b: seq<Fill>)
    requires multiset(a) == multiset(b)
    ensures RawQty(a) == RawQty(b) && Notional(a) == Notional(b) && TotalFee(a) == TotalFee(b)
    decreases |a|
  {
    if a == [] {
      assert |b| == |multiset(b)| == 0;
    } else {
      var k := WithoutHead(a, b);
      SumsIgnoreOrder(a[1..], b[..k] + b[k + 1..]);
      SumsRemove(b, k);
    }
  }

  lemma WithoutHead(a: seq<Fill>, b: seq<Fill>) returns (k: nat)
    requires a != [] && multiset(a) == multiset(b)
    ensures k < |b| && b[k] == a[0]
    ensures multiset(a[1..]) == multiset(b[..k] + b[k + 1..])
  {
    assert a[0] in multiset(b);
    k :| 0 <= k < |b| && b[k] == a[0];
    assert b == b[..k] + [b[k]] + b[k + 1..];
    assert a == [a[0]] + a[1..];
    assert multiset(a[1..]) == multiset(a) - multiset{a[0]};
    assert multiset(b[..k] + b[k + 1..]) == multiset(b) - multiset{a[0]};
  }

  /** The exchange may report the fills of an order in any order. */
  lemma AggregateIgnoresOrder(amount: real, a: seq<Fill>, b: seq<Fill>)
    requires multiset(a) == multiset(b)
    ensures AggregateFills(amount, a) == AggregateFills(amount, b)
  {
    assert |a| == |multiset(a)| == |multiset(b)| == |b|;
    SumsIgnoreOrder(a, b);
  }

  /** The average prices the quantity executed at what was paid for it. */
  lemma AveragePays(amount: real, fills: seq<Fill>)
    requires fills != []
    ensures var a := AggregateFills(amount, fills);
      a.average.Some? && Product(a.average.value, RawQty(fills)) == Notional(fills)
  {
    RawQtyPositive(fills);
    DivMul(Notional(fills), RawQty(fills));
    hide RawQty, Notional, TotalFee;
  }

  lemma LastFill(fills: seq<Fill>, f: Fill)
    ensures var all := fills + [f];
      && RawQty(all) == RawQty(fills) + f.qty && TotalFee(all) == TotalFee(fills) + f.fee
      && Notional(all) == Notional(fills) + Product(f.price, f.qty)
  {
    var all := fills + [f];
    assert all[..|fills|] + all[|fills| + 1..] == fills && all[|fills|] == f;
    SumsRemove(all, |fills|);
    hide RawQty, Notional, TotalFee;
  }

  lemma FeeAndFilled(amount: real, fills: seq<Fill>)
    ensures AggregateFills(amount, fills).fee == TotalFee(fills)
    ensures fills != [] ==>
      AggregateFills(amount, fills).filled == if RawQty(fills) <= amount then RawQty(fills) else amount
    ensures fills == [] ==> RawQty(fills) == 0.0 && Notional(fills) == 0.0
  {
  }

  /**
   One fill more: the quantity grows by its own, clamped to the amount; the fee by its own; and the average weighs each
   price by the quantity executed at it.
   */
  lemma OneMoreFill(amount: real, fills: seq<Fill>, f: Fill)
    ensures var before, after := AggregateFills(amount, fills), AggregateFills(amount, fills + [f]);
      var qty := RawQty(fills) + f.qty;
      && (fills == [] ==> RawQty(fills) == 0.0) && RawQty(fills + [f]) == qty
      && after.filled == (if qty <= amount then qty else amount)
      && after.fee == before.fee + f.fee
      && after.average.Some? && (fills != [] ==> before.average.Some?)
      && Product(after.average.value, qty)
         == (if fills == [] then 0.0 else Product(before.average.value, RawQty(fills))) + Product(f.price, f.qty)
  {
    hide *;
    LastFill(fills, f);
    FeeAndFilled(amount, fills);
    FeeAndFilled(amount, fills + [f]);
    AveragePays(amount, fills + [f]);
    if fills != [] { AveragePays(amount, fills); }
  }

  /** A single fill of the whole amount is booked as it is: what both brokers do on every simulated close. */
  lemma AtomicFill(f: Fill)
    ensures var a := AggregateFills(f.qty, [f]);
      && a.filled == f.qty && a.remaining == 0.0 && a.average.Some? && a.average.value == f.price && a.fee == f.fee
      && a.status.Filled?
  {
    assert [] + [f] == [f];
    OneMoreFill(f.qty, [], f);
    var average := AggregateFills(f.qty, [f]).average.value;
    if average < f.price { ProductGrows(average, f.price, f.qty); }
    if f.price < average { ProductGrows(f.price, average, f.qty); }
    hide RawQty, Notional, TotalFee, Product;
  }

  lemma {:induction false} RawQtyConcat(a: seq<Fill>, b: seq<Fill>)
    ensures RawQty(a + b) == RawQty(a) + RawQty(b)
  {
    if a == [] {
      assert a + b == b;
    } else {
      assert (a + b)[1..] == a[1..] + b;
      RawQtyConcat(a[1..], b);
    }
  }

  function Progress(s: OrderStatus): int {
    match s
    case Open => 0
    case PartiallyFilled => 1
    case Filled => 2
    case _ => 3
  }

  /** Later cumulative lists never un-fill an order or move it backwards. */
  lemma AppendingFillsProgresses(amount: real, before: seq<Fill>, more: seq<Fill>)
    requires 0.0 < amount
    ensures var a, b := AggregateFills(amount, before), AggregateFills(amount, before + more);
      && a.filled <= b.filled
      && b.remaining <= a.remaining
      && Progress(a.status) <= Progress(b.status) <= 2
  {
    RawQtyPositive(before);
    RawQtyPositive(more);
    RawQtyPositive(before + more);
    RawQtyConcat(before, more);
    if before + more == [] {
      assert before == [];
    }
  }
}

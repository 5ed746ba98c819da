/** When evaluating a rule on one bar's scalars gives what the vectorized path gives in that row. */
module RuleScalars {
  import opened Domain
  import opened RuleSyntax
  import opened RuleEvaluator
  import opened RuleSemantics
  import opened RuleLocality

  /** The column form of `min`/`max` and Python's agree unless exactly one operand is NaN. */
  lemma PickAgreesIff(keep: Comparison, beats: Comparison, x: Float, y: Float)
    requires (keep.LtE? && beats.Lt?) || (keep.GtE? && beats.Gt?)
    ensures Picked(keep, x, y) == Picked(beats, y, x) <==> x.NaN? == y.NaN?
    ensures Picked(keep, y, x) == Picked(beats, y, x)
  {
  }

  predicate IsExtreme(func: Node) {
    func.Name? && (func.id == "min" || func.id == "max")
  }

  /**
   Row `t` reads the same as scalars: no crossing, and no `min`/`max` with a column on the left and exactly one NaN
   operand there.
   */
  predicate ScalarSafe(n: Node, f: Frame, t: nat)
    decreases n
  {
    match n
    case BoolOp(_, first, rest) => ScalarSafe(first, f, t) && AllScalarSafe(rest, f, t)
    case UnaryOp(_, operand) => ScalarSafe(operand, f, t)
    case BinOp(left, _, right) => ScalarSafe(left, f, t) && ScalarSafe(right, f, t)
    case Compare(subject, links) => ScalarSafe(subject, f, t) && LinksScalarSafe(links, f, t)
    case Call(func, args, _) =>
      && !IsCross(func) && AllScalarSafe(args, f, t)
      && (IsExtreme(func) && |args| == 2 && Columnar(args[0]) ==>
            NumberOf(args[0], f, t).NaN? == NumberOf(args[1], f, t).NaN?)
    case _ => true
  }

  predicate AllScalarSafe(ns: seq<Node>, f: Frame, t: nat)
    decreases ns
  {
    ns != [] ==> ScalarSafe(ns[0], f, t) && AllScalarSafe(ns[1..], f, t)
  }

  predicate LinksScalarSafe(links: Links, f: Frame, t: nat)
    decreases links
  {
    links.Then? ==> ScalarSafe(links.next, f, t) && LinksScalarSafe(links.more, f, t)
  }

  function ScalarOf(n: Node, f: Frame, t: nat): Value {
    Scalar(Meaning(n, f, t))
  }

  lemma Lift2Scalars(op: Binary, a: Atom, b: Atom, c: Atom)
    requires Apply2(op, a, b) == Ok(c)
    ensures Lift2(op, Scalar(a), Scalar(b)) == Ok(Scalar(c))
  {
  }

  lemma ArithmeticMeaning(left: Node, op: BinaryOperator, right: Node, f: Frame, t: nat)
    ensures Meaning(BinOp(left, op, right), f, t) == Num(Arith(op, NumberOf(left, f, t), NumberOf(right, f, t)))
  {
  }

  /** A crossing-free rule evaluates on one bar's scalars to its meaning in that bar's row. */
  lemma {:induction false} ScalarMeans(n: Node, f: Frame, t: nat)
    requires Typed(n, f.columns.Keys) && ScalarSafe(n, f, t)
    ensures EvalNode(n, RowScalars(f, t)) == Ok(ScalarOf(n, f, t))
    decreases n, 0
  {
    var names := f.columns.Keys;
    match n
    case BoolOp(op, first, rest) =>
      ScalarMeans(first, f, t);
      KindAllTyped(rest, Truth);
      AllScalarMean(rest, f, t);
      MeaningOfKind(first, f, t);
      FoldScalars(op, IsTrue(first, f, t), rest, f, t, EvalAll(rest, RowScalars(f, t)).value);
    case UnaryOp(op, operand) =>
      ScalarMeans(operand, f, t);
      MeaningOfKind(operand, f, t);
      UnaryMeaning(op, operand, f, t);
    case BinOp(left, op, right) =>
      ScalarMeans(left, f, t);
      ScalarMeans(right, f, t);
      MeaningOfKind(left, f, t);
      MeaningOfKind(right, f, t);
      ArithmeticMeaning(left, op, right, f, t);
      Lift2Scalars(Arithmetic(op), Meaning(left, f, t), Meaning(right, f, t), Meaning(n, f, t));
    case Compare(subject, links) =>
      ScalarMeans(subject, f, t);
      CompareScalars(subject, links, f, t);
    case Name(_) =>
    case Constant(_) =>
    case Call(func, args, _) =>
      KindAllTyped(args, Numeric);
      AllScalarMean(args, f, t);
      CallScalars(func, args, f, t);
  }

  lemma {:induction false} AllScalarMean(ns: seq<Node>, f: Frame, t: nat)
    requires AllTyped(ns) && ValidateAll(ns, f.columns.Keys).None? && AllScalarSafe(ns, f, t)
    ensures var r := EvalAll(ns, RowScalars(f, t));
      r.Ok? && |r.value| == |ns| && forall i | 0 <= i < |ns| :: r.value[i] == ScalarOf(ns[i], f, t)
    decreases ns, 0
  {
    if ns != [] {
      ScalarMeans(ns[0], f, t);
      AllScalarMean(ns[1..], f, t);
    }
  }

  lemma {:induction false} FoldScalars(op: BoolOperator, truth: bool, ns: seq<Node>, f: Frame, t: nat, vs: seq<Value>)
    requires AllOfKind(ns, Truth) && ValidateAll(ns, f.columns.Keys).None?
    requires |vs| == |ns| && forall i | 0 <= i < |ns| :: vs[i] == ScalarOf(ns[i], f, t)
    ensures FoldLogic(op, Scalar(Bool(truth)), vs) == Ok(Scalar(Bool(FoldCell(op, truth, ns, f, t))))
    decreases |ns|
  {
    if ns != [] {
      MeaningOfKind(ns[0], f, t);
      var next := Joined(op, truth, IsTrue(ns[0], f, t));
      Lift2Scalars(Logic(op), Bool(truth), Meaning(ns[0], f, t), Bool(next));
      FoldScalars(op, next, ns[1..], f, t, vs[1..]);
    }
  }

  lemma {:induction false} LinksScalars(left: Atom, truth: bool, links: Links, f: Frame, t: nat)
    requires !left.NoneAtom? && LinksTyped(links) && ValidateLinks(links, f.columns.Keys).None?
        && LinksScalarSafe(links, f, t)
    ensures EvalLinks(Scalar(left), Some(Scalar(Bool(truth))), links, RowScalars(f, t))
         == Ok(Scalar(Bool(truth && ChainHolds(AsFloat(left), links, f, t))))
    decreases links, 1
  {
    if links.Then? {
      ScalarMeans(links.next, f, t);
      MeaningOfKind(links.next, f, t);
      var right := Meaning(links.next, f, t);
      var c := Compares(links.cmp, AsFloat(left), AsFloat(right));
      hide Meaning, RowScalars;
      Lift2Scalars(Comparing(links.cmp), left, right, Bool(c));
      Lift2Scalars(Logic(And), Bool(truth), Bool(c), Bool(truth && c));
      LinksScalars(right, truth && c, links.more, f, t);
    }
  }

  lemma {:induction false} CompareScalars(subject: Node, links: Links, f: Frame, t: nat)
    requires Typed(Compare(subject, links), f.columns.Keys) && ScalarSafe(Compare(subject, links), f, t)
    requires EvalNode(subject, RowScalars(f, t)) == Ok(ScalarOf(subject, f, t))
    ensures EvalNode(Compare(subject, links), RowScalars(f, t)) == Ok(ScalarOf(Compare(subject, links), f, t))
    decreases links, 2
  {
    assert KindOf(subject).Some? && LinksTyped(links) && Validate(subject, f.columns.Keys).None?;
    assert ValidateLinks(links, f.columns.Keys).None? && LinksScalarSafe(links, f, t);
    ScalarMeans(links.next, f, t);
    MeaningOfKind(links.next, f, t);
    MeaningOfKind(subject, f, t);
    CompareMeaning(subject, links, f, t);
    var left, right := Meaning(subject, f, t), Meaning(links.next, f, t);
    var c := Compares(links.cmp, AsFloat(left), AsFloat(right));
    hide Meaning, RowScalars;
    Lift2Scalars(Comparing(links.cmp), left, right, Bool(c));
    LinksScalars(right, c, links.more, f, t);
    assert EvalLinks(Scalar(left), None, links, RowScalars(f, t))
        == EvalLinks(Scalar(right), Some(Scalar(Bool(c))), links.more, RowScalars(f, t));
  }

  /** Of two bare numbers the helpers take Python's `min` and `max`. */
  lemma ExtremeOfScalars(x: Float, y: Float)
    ensures CallHelper("min", [Scalar(Num(x)), Scalar(Num(y))]) == Ok(Scalar(Num(Picked(Lt, y, x))))
    ensures CallHelper("max", [Scalar(Num(x)), Scalar(Num(y))]) == Ok(Scalar(Num(Picked(Gt, y, x))))
  {
  }

  lemma CallScalars(func: Node, args: seq<Node>, f: Frame, t: nat)
    requires Typed(Call(func, args, 0), f.columns.Keys) && ScalarSafe(Call(func, args, 0), f, t)
    requires forall i | 0 <= i < |args| :: KindOf(args[i]) == Some(Numeric)
    requires var r := EvalAll(args, RowScalars(f, t));
      r.Ok? && |r.value| == |args| && forall i | 0 <= i < |args| :: r.value[i] == ScalarOf(args[i], f, t)
    ensures EvalNode(Call(func, args, 0), RowScalars(f, t)) == Ok(ScalarOf(Call(func, args, 0), f, t))
  {
    var values := EvalAll(args, RowScalars(f, t)).value;
    KindsAreTyped(args);
    EachValid(args, f.columns.Keys);
    MeaningOfKind(args[0], f, t);
    if func.id == "abs" {
      var x := NumberOf(args[0], f, t);
      assert values == [Scalar(Num(x))];
      assert CallHelper("abs", values) == Ok(Scalar(Num(AbsFloat(x))));
      assert Meaning(Call(func, args, 0), f, t) == Num(AbsFloat(x));
    } else {
      MeaningOfKind(args[1], f, t);
      var x, y := NumberOf(args[0], f, t), NumberOf(args[1], f, t);
      assert values == [Scalar(Num(x)), Scalar(Num(y))];
      assert func.id == "min" || func.id == "max";
      ExtremeOfScalars(x, y);
      hide CallHelper, EvalAll, RowScalars, ValidateAll, KindOf, AllOfKind;
      PickAgreesIff(LtE, Lt, x, y);
      PickAgreesIff(GtE, Gt, x, y);
      PickAgreesIff(LtE, Lt, y, x);
      PickAgreesIff(GtE, Gt, y, x);
    }
  }

  lemma {:induction false} KindsAreTyped(ns: seq<Node>)
    requires forall i | 0 <= i < |ns| :: KindOf(ns[i]) == Some(Numeric)
    ensures AllTyped(ns)
  {
    if ns != [] { KindsAreTyped(ns[1..]); }
  }

  /**
   Scalar/column agreement: for a rule without crossings, evaluating one bar's scalars gives the value that the
   vectorized path gives in that bar's row, division and modulo by zero, chains, `not` and constants included.
   */
  lemma ScalarAgreesWithColumn(n: Node, f: Frame, t: nat)
    requires Usable(f) && Typed(n, f.columns.Keys) && t < f.rows && ScalarSafe(n, f, t)
    ensures EvalNode(n, RowScalars(f, t)) == Ok(Scalar(ValueAt(n, f, t)))
  {
    ScalarMeans(n, f, t);
    ValueAtIsMeaning(n, f, t);
  }

  lemma PairTyped(a: Node, b: Node, f: Frame, t: nat)
    requires Typed(a, f.columns.Keys) && Typed(b, f.columns.Keys) && KindOf(a) == KindOf(b) == Some(Numeric)
    requires ScalarSafe(a, f, t) && ScalarSafe(b, f, t)
    ensures var ns := [a, b];
      ValidateAll(ns, f.columns.Keys).None? && AllTyped(ns) && AllOfKind(ns, Numeric) && AllScalarSafe(ns, f, t)
  {
    var names, rest := f.columns.Keys, [b];
    assert [a, b][1..] == rest && rest[1..] == [];
    assert ValidateAll(rest, names) == Earlier(Validate(rest[0], names), ValidateAll(rest[1..], names));
    assert AllTyped(rest) && AllOfKind(rest, Numeric) && AllScalarSafe(rest, f, t) && ValidateAll(rest, names).None?;
  }

  /**
   That exception is exact for `min` and for `max`, of any two numeric operands that agree themselves: the two modes
   agree in a row unless the left operand is a column and exactly one operand is NaN there.
   */
  lemma ExtremeAgreesIff(helper: string, a: Node, b: Node, f: Frame, t: nat)
    requires helper == "min" || helper == "max"
    requires Usable(f) && t < f.rows && Typed(a, f.columns.Keys) && Typed(b, f.columns.Keys)
    requires KindOf(a) == KindOf(b) == Some(Numeric) && ScalarSafe(a, f, t) && ScalarSafe(b, f, t)
    ensures var n := Call(Name(helper), [a, b], 0);
      && Typed(n, f.columns.Keys)
      && (EvalNode(n, RowScalars(f, t)) == Ok(Scalar(ValueAt(n, f, t))) <==>
            Columnar(a) ==> NumberOf(a, f, t).NaN? == NumberOf(b, f, t).NaN?)
  {
    var args := [a, b];
    var n := Call(Name(helper), args, 0);
    PairTyped(a, b, f, t);
    assert Typed(n, f.columns.Keys);
    AllScalarMean(args, f, t);
    ValueAtIsMeaning(n, f, t);
    MeaningOfKind(args[0], f, t);
    MeaningOfKind(args[1], f, t);
    var x, y := NumberOf(a, f, t), NumberOf(b, f, t);
    assert EvalAll(args, RowScalars(f, t)).value == [Scalar(Num(x)), Scalar(Num(y))];
    ExtremeOfScalars(x, y);
    hide ValueAt, ValidateAll, AllOfKind, EvalAll, RowScalars, Typed, ScalarSafe, CallHelper, KindOf;
    PickAgreesIff(LtE, Lt, x, y);
    PickAgreesIff(GtE, Gt, x, y);
    PickAgreesIff(LtE, Lt, y, x);
    PickAgreesIff(GtE, Gt, y, x);
  }
}

/** What an evaluated rule holds at a row, construct by construct, in plain arithmetic and logic. */
module RuleArithmetic {
  import opened Domain
  import opened RealArithmetic
  import opened RuleSyntax
  import opened RuleEvaluator
  import opened RuleSemantics
  import opened Interpreters

  /** Evaluated over the columns of `f`, the rule `n` holds `a` at row `t`. */
  ghost predicate Reads(n: Node, f: Frame, t: nat, a: Atom) {
    var r := Evaluate(n, Columns(f));
    r.Ok? && t < f.rows && Fits(r.value, f.rows) && At(r.value, t) == a
  }

  ghost predicate ReadsNumber(n: Node, f: Frame, t: nat, x: real) {
    Reads(n, f, t, Num(Fin(x)))
  }

  ghost predicate ReadsUndefined(n: Node, f: Frame, t: nat) {
    Reads(n, f, t, Num(NaN))
  }

  ghost predicate ReadsTruth(n: Node, f: Frame, t: nat, b: bool) {
    Reads(n, f, t, Bool(b))
  }

  /** A truth value compares as 0 or 1. */
  ghost predicate ComparesAs(n: Node, f: Frame, t: nat, x: real) {
    ReadsNumber(n, f, t, x) || (x == 1.0 && ReadsTruth(n, f, t, true)) || (x == 0.0 && ReadsTruth(n, f, t, false))
  }

  /** Of a well-typed rule over this frame, at this row. */
  ghost predicate Placed(n: Node, f: Frame, t: nat) {
    Usable(f) && t < f.rows && Typed(n, f.columns.Keys)
  }

  lemma ReadsIs(n: Node, f: Frame, t: nat, a: Atom)
    requires Placed(n, f, t)
    ensures Reads(n, f, t, a) <==> Meaning(n, f, t) == a
  {
    ColumnsMean(n, f);
    assert Columns(f).Keys == f.columns.Keys;
    assert Meanings(n, f)[t] == Meaning(n, f, t);
    hide Meaning, EvalNode, Validate, KindOf, Columnar;
  }

  lemma NameReads(id: string, f: Frame, t: nat)
    requires Placed(Name(id), f, t)
    ensures Reads(Name(id), f, t, Num(f.columns[id][t]))
  {
    ReadsIs(Name(id), f, t, Num(f.columns[id][t]));
  }

  lemma ConstantReads(f: Frame, t: nat, x: real, b: bool)
    requires Usable(f) && t < f.rows
    ensures ReadsNumber(Constant(Number(x)), f, t, x) && ReadsTruth(Constant(Boolean(b)), f, t, b)
  {
    ReadsIs(Constant(Number(x)), f, t, Num(Fin(x)));
    ReadsIs(Constant(Boolean(b)), f, t, Bool(b));
  }

  // ---- arithmetic ----

  lemma OperandsPlaced(l: Node, op: BinaryOperator, r: Node, f: Frame, t: nat)
    requires Placed(BinOp(l, op, r), f, t)
    ensures Placed(l, f, t) && Placed(r, f, t) && !op.OtherBinary?
  {
  }

  lemma BinaryReads(l: Node, op: BinaryOperator, r: Node, f: Frame, t: nat, x: Float, y: Float)
    requires Placed(BinOp(l, op, r), f, t) && Reads(l, f, t, Num(x)) && Reads(r, f, t, Num(y))
    ensures Reads(BinOp(l, op, r), f, t, Num(Arith(op, x, y)))
  {
    OperandsPlaced(l, op, r, f, t);
    ReadsIs(l, f, t, Num(x));
    ReadsIs(r, f, t, Num(y));
    ReadsIs(BinOp(l, op, r), f, t, Num(Arith(op, x, y)));
    hide Reads, Placed, Arith;
  }

  /** `x` and `m` are `k` divisors apart. */
  ghost predicate Apart(x: real, m: real, k: int, y: real) {
    x - m == k as real * y
  }

  /** `m` is the remainder of `x` by `y`: a whole number of divisors below `x`, and on the divisor's side of zero. */
  ghost predicate IsRemainder(x: real, y: real, m: real) {
    && (exists k :: Apart(x, m, k, y))
    && (if 0.0 < y then 0.0 <= m < y else y < m <= 0.0)
  }

  lemma RemainderIs(x: real, y: real)
    requires y != 0.0
    ensures SafeMod(Fin(x), Fin(y)).Fin? && IsRemainder(x, y, SafeMod(Fin(x), Fin(y)).v)
  {
    ModSign(x, y);
    var m := SafeMod(Fin(x), Fin(y)).v;
    assert Apart(x, m, (x / y).Floor, y);
  }

  lemma ArithIs(op: BinaryOperator, x: real, y: real)
    requires !op.OtherBinary? && ((op.Div? || op.Mod?) ==> y != 0.0)
    ensures var z := Arith(op, Fin(x), Fin(y));
      && z.Fin?
      && match op
         case Add => z.v == x + y
         case Sub => z.v == x - y
         case Mult => z.v == x * y
         case Div => z.v * y == x
         case Mod => IsRemainder(x, y, z.v)
         case _ => true
  {
    if y != 0.0 {
      DivMul(x, y);
      RemainderIs(x, y);
      hide SafeMod, IsRemainder;
    }
  }

  /** Two numbers: their sum, difference, product, quotient and remainder. */
  lemma ArithmeticReads(l: Node, op: BinaryOperator, r: Node, f: Frame, t: nat, x: real, y: real)
    requires Placed(BinOp(l, op, r), f, t) && ReadsNumber(l, f, t, x) && ReadsNumber(r, f, t, y)
    ensures var n := BinOp(l, op, r);
      match op
      case Add => ReadsNumber(n, f, t, x + y)
      case Sub => ReadsNumber(n, f, t, x - y)
      case Mult => ReadsNumber(n, f, t, x * y)
      case Div => if y == 0.0 then ReadsUndefined(n, f, t) else exists q :: q * y == x && ReadsNumber(n, f, t, q)
      case Mod => if y == 0.0 then ReadsUndefined(n, f, t)
        else exists m :: IsRemainder(x, y, m) && ReadsNumber(n, f, t, m)
      case _ => false
  {
    OperandsPlaced(l, op, r, f, t);
    BinaryReads(l, op, r, f, t, Fin(x), Fin(y));
    if (op.Div? || op.Mod?) && y == 0.0 {
      hide Reads, Placed;
    } else {
      ArithIs(op, x, y);
      hide Reads, Placed, IsRemainder, Arith;
      var z := Arith(op, Fin(x), Fin(y)).v;
      assert ReadsNumber(BinOp(l, op, r), f, t, z);
    }
  }

  lemma ArithmeticUndefined(l: Node, op: BinaryOperator, r: Node, f: Frame, t: nat, x: Float, y: Float)
    requires Placed(BinOp(l, op, r), f, t) && Reads(l, f, t, Num(x)) && Reads(r, f, t, Num(y))
    requires x == NaN || y == NaN
    ensures ReadsUndefined(BinOp(l, op, r), f, t)
  {
    BinaryReads(l, op, r, f, t, x, y);
    hide Reads, Placed;
  }

  /** The sign operators and `abs`. */
  lemma SignReads(operand: Node, f: Frame, t: nat, x: real)
    requires Placed(operand, f, t) && KindOf(operand) == Some(Numeric) && ReadsNumber(operand, f, t, x)
    ensures ReadsNumber(UnaryOp(USub, operand), f, t, 0.0 - x)
    ensures ReadsNumber(UnaryOp(UAdd, operand), f, t, x)
    ensures exists m :: ReadsNumber(Call(Name("abs"), [operand], 0), f, t, m) && 0.0 <= m && (m == x || m == 0.0 - x)
  {
    ReadsIs(operand, f, t, Num(Fin(x)));
    SignReadsAre(operand, f, t);
    SignIs(x);
    hide Reads, Placed, NegateFloat, AbsFloat;
    var m, z := AbsFloat(Fin(x)).v, NegateFloat(Fin(x)).v;
    assert ReadsNumber(Call(Name("abs"), [operand], 0), f, t, m);
    assert ReadsNumber(UnaryOp(USub, operand), f, t, z);
  }

  lemma SignIs(x: real)
    ensures NegateFloat(Fin(x)).Fin? && NegateFloat(Fin(x)).v == 0.0 - x
    ensures AbsFloat(Fin(x)).Fin? && 0.0 <= AbsFloat(Fin(x)).v
    ensures AbsFloat(Fin(x)).v == x || AbsFloat(Fin(x)).v == 0.0 - x
  {
  }

  lemma SignReadsAre(operand: Node, f: Frame, t: nat)
    requires Placed(operand, f, t) && KindOf(operand) == Some(Numeric)
    ensures var x := NumberOf(operand, f, t);
      && Reads(UnaryOp(USub, operand), f, t, Num(NegateFloat(x))) && Reads(UnaryOp(UAdd, operand), f, t, Num(x))
      && Reads(Call(Name("abs"), [operand], 0), f, t, Num(AbsFloat(x)))
  {
    var x, names := NumberOf(operand, f, t), f.columns.Keys;
    var abs := Call(Name("abs"), [operand], 0);
    AbsTyped(operand, names);
    assert Meaning(abs, f, t) == Num(AbsFloat(x));
    ReadsIs(UnaryOp(USub, operand), f, t, Num(NegateFloat(x)));
    MeaningOfKind(operand, f, t);
    ReadsIs(UnaryOp(UAdd, operand), f, t, Num(x));
    ReadsIs(abs, f, t, Num(AbsFloat(x)));
    hide Reads;
  }

  lemma AbsTyped(operand: Node, names: set<string>)
    requires Typed(operand, names) && KindOf(operand) == Some(Numeric)
    ensures Typed(Call(Name("abs"), [operand], 0), names)
  {
    var n := Call(Name("abs"), [operand], 0);
    assert [operand][1..] == [];
    assert "abs" != "crossover" && "abs" != "crossunder";
    assert "abs" in HELPER_ARITY && HELPER_ARITY["abs"] == 1;
    assert ValidateAll([operand], names) == Earlier(Validate(operand, names), ValidateAll([], names));
    assert Validate(n, names) == ValidateAll([operand], names);
    assert AllOfKind([operand], Numeric);
  }

  // ---- comparisons ----

  lemma ComparesAsIs(n: Node, f: Frame, t: nat, x: real)
    requires Placed(n, f, t) && ComparesAs(n, f, t, x)
    ensures NumberOf(n, f, t) == Fin(x)
  {
    ReadsIs(n, f, t, Num(Fin(x)));
    ReadsIs(n, f, t, Bool(true));
    ReadsIs(n, f, t, Bool(false));
    hide Reads, Placed, Meaning;
  }

  function Link(l: Node, op: Comparison, r: Node): Node {
    Compare(l, Then(op, r, NoMore))
  }

  /** The operands of a well-typed comparison are well typed, and so is the rest of the chain. */
  lemma LinkPlaced(l: Node, op: Comparison, m: Node, more: Links, f: Frame, t: nat)
    requires Placed(Compare(l, Then(op, m, more)), f, t)
    ensures Placed(l, f, t) && Placed(m, f, t) && !op.OtherComparison? && Placed(Link(l, op, m), f, t)
    ensures more.Then? ==> Placed(Compare(m, more), f, t)
  {
    var names, links := f.columns.Keys, Then(op, m, more);
    assert OperatorsAllowed(links) && OperatorsAllowed(more);
    assert Validate(l, names).None? && ValidateLinks(links, names).None?;
    assert Validate(m, names).None? && ValidateLinks(more, names).None?;
    assert KindOf(l).Some? && LinksTyped(links) && KindOf(m).Some? && LinksTyped(more);
    var one := Then(op, m, NoMore);
    assert OperatorsAllowed(NoMore) && ValidateLinks(NoMore, names).None? && LinksTyped(NoMore);
    assert OperatorsAllowed(one);
    assert ValidateLinks(one, names) == Earlier(Validate(m, names), ValidateLinks(NoMore, names));
    assert LinksTyped(one);
    assert Validate(Compare(l, one), names) == Earlier(Validate(l, names), ValidateLinks(one, names));
    assert KindOf(Compare(l, one)).Some?;
    if more.Then? { assert Validate(Compare(m, more), names).None? && KindOf(Compare(m, more)).Some?; }
  }

  lemma LinkReadsIs(l: Node, op: Comparison, r: Node, f: Frame, t: nat)
    requires Placed(Link(l, op, r), f, t)
    ensures Placed(l, f, t) && Placed(r, f, t) && !op.OtherComparison?
    ensures ReadsTruth(Link(l, op, r), f, t, Compares(op, NumberOf(l, f, t), NumberOf(r, f, t)))
  {
    LinkPlaced(l, op, r, NoMore, f, t);
    var x, y := NumberOf(l, f, t), NumberOf(r, f, t);
    assert ChainHolds(x, Then(op, r, NoMore), f, t) == Compares(op, x, y);
    ReadsIs(Link(l, op, r), f, t, Bool(Compares(op, NumberOf(l, f, t), NumberOf(r, f, t))));
    hide Reads, NumberOf, Compares;
  }

  /** A comparison of two numbers. */
  lemma ComparisonReads(l: Node, op: Comparison, r: Node, f: Frame, t: nat, x: real, y: real)
    requires Placed(Link(l, op, r), f, t)
    requires ComparesAs(l, f, t, x) && ComparesAs(r, f, t, y)
    ensures ReadsTruth(Link(l, op, r), f, t,
      match op
      case Lt => x < y
      case LtE => x <= y
      case Gt => x > y
      case GtE => x >= y
      case Eq => x == y
      case _ => x != y)
  {
    LinkReadsIs(l, op, r, f, t);
    ComparesAsIs(l, f, t, x);
    ComparesAsIs(r, f, t, y);
    hide Reads, Placed, NumberOf, ComparesAs;
  }

  /** With an undefined operand it is false, unless it is `!=`. */
  lemma ComparisonUndefined(l: Node, op: Comparison, r: Node, f: Frame, t: nat)
    requires Placed(Link(l, op, r), f, t) && (ReadsUndefined(l, f, t) || ReadsUndefined(r, f, t))
    ensures ReadsTruth(Link(l, op, r), f, t, op.NotEq?)
  {
    LinkReadsIs(l, op, r, f, t);
    ReadsIs(l, f, t, Num(NaN));
    ReadsIs(r, f, t, Num(NaN));
    hide Reads, Placed, Meaning;
  }

  /** A chain holds when its first link does and the rest of it does. */
  lemma ChainReads(l: Node, op: Comparison, m: Node, more: Links, f: Frame, t: nat, p: bool, q: bool)
    requires Placed(Compare(l, Then(op, m, more)), f, t) && more.Then?
    requires ReadsTruth(Link(l, op, m), f, t, p) && ReadsTruth(Compare(m, more), f, t, q)
    ensures ReadsTruth(Compare(l, Then(op, m, more)), f, t, p && q)
  {
    var n := Compare(l, Then(op, m, more));
    LinkPlaced(l, op, m, more, f, t);
    var x, y := NumberOf(l, f, t), NumberOf(m, f, t);
    assert ChainHolds(x, Then(op, m, NoMore), f, t) == Compares(op, x, y);
    ReadsIs(Link(l, op, m), f, t, Bool(p));
    ReadsIs(Compare(m, more), f, t, Bool(q));
    ReadsIs(n, f, t, Bool(p && q));
    hide Reads, Placed, NumberOf, Compares;
  }

  // ---- logic ----

  lemma NotReads(operand: Node, f: Frame, t: nat, p: bool)
    requires Placed(UnaryOp(Not, operand), f, t) && ReadsTruth(operand, f, t, p)
    ensures ReadsTruth(UnaryOp(Not, operand), f, t, !p)
  {
    assert Placed(operand, f, t);
    ReadsIs(operand, f, t, Bool(p));
    ReadsIs(UnaryOp(Not, operand), f, t, Bool(!p));
    hide Reads, Placed;
  }

  /** `and` and `or` of one operand, and of one more. */
  lemma LogicReads(op: BoolOperator, first: Node, rest: seq<Node>, f: Frame, t: nat, p: bool, q: bool)
    requires Placed(BoolOp(op, first, rest), f, t) && ReadsTruth(first, f, t, p)
    requires rest != [] ==> ReadsTruth(BoolOp(op, rest[0], rest[1..]), f, t, q)
    ensures ReadsTruth(BoolOp(op, first, rest), f, t,
                       if rest == [] then p else if op.And? then p && q else p || q)
  {
    var names := f.columns.Keys;
    assert Validate(first, names).None? && ValidateAll(rest, names).None? && AllOfKind(rest, Truth);
    assert Placed(first, f, t);
    if rest != [] {
      assert Validate(rest[0], names).None? && ValidateAll(rest[1..], names).None?;
      assert KindOf(rest[0]) == Some(Truth) && AllOfKind(rest[1..], Truth);
      assert KindOf(BoolOp(op, rest[0], rest[1..])) == Some(Truth);
      assert Placed(BoolOp(op, rest[0], rest[1..]), f, t);
    }
    ReadsIs(first, f, t, Bool(p));
    if rest != [] { ReadsIs(BoolOp(op, rest[0], rest[1..]), f, t, Bool(q)); }
    ReadsIs(BoolOp(op, first, rest), f, t,
            Bool(if rest == [] then p else if op.And? then p && q else p || q));
    hide Reads, Placed;
  }

  // ---- helpers ----

  function Helper(name: string, l: Node, r: Node): Node {
    RuleSyntax.Call(Name(name), [l, r], 0)
  }

  lemma HelperPlaced(name: string, l: Node, r: Node, f: Frame, t: nat)
    requires Placed(Helper(name, l, r), f, t)
    ensures Placed(l, f, t) && Placed(r, f, t)
  {
    var names := f.columns.Keys;
    assert [l, r][1..] == [r] && [r][1..] == [];
    assert ValidateAll([l, r], names).None?;
    assert Validate(l, names).None? && ValidateAll([r], names).None? && Validate(r, names).None?;
    assert AllTyped([l, r]) || AllOfKind([l, r], Numeric);
    assert AllOfKind([l, r], Numeric) ==> KindOf(l).Some? && AllOfKind([r], Numeric);
    assert AllTyped([l, r]) ==> KindOf(l).Some? && AllTyped([r]);
  }

  lemma OperandsAre(l: Node, r: Node, f: Frame, t: nat, x0: real, y0: real, x: real, y: real)
    requires 0 < t && Placed(l, f, t) && Placed(r, f, t)
    requires ComparesAs(l, f, t - 1, x0) && ComparesAs(r, f, t - 1, y0)
    requires ComparesAs(l, f, t, x) && ComparesAs(r, f, t, y)
    ensures NumberOf(l, f, t - 1) == Fin(x0) && NumberOf(r, f, t - 1) == Fin(y0)
    ensures NumberOf(l, f, t) == Fin(x) && NumberOf(r, f, t) == Fin(y)
  {
    assert Placed(l, f, t - 1) && Placed(r, f, t - 1);
    hide Reads, ComparesAs, NumberOf, Placed;
    ComparesAsIs(l, f, t - 1, x0);
    ComparesAsIs(r, f, t - 1, y0);
    ComparesAsIs(l, f, t, x);
    ComparesAsIs(r, f, t, y);
  }

  /** A crossing from at most to above, or from at least to below, between the previous row and this one. */
  lemma CrossingReads(name: string, l: Node, r: Node, f: Frame, t: nat, x0: real, y0: real, x: real, y: real)
    requires 0 < t && ComparesAs(l, f, t - 1, x0) && ComparesAs(r, f, t - 1, y0)
    requires ComparesAs(l, f, t, x) && ComparesAs(r, f, t, y)
    requires (name == "crossover" || name == "crossunder") && Placed(Helper(name, l, r), f, t)
    ensures ReadsTruth(Helper(name, l, r), f, t,
                       if name == "crossover" then x0 <= y0 && x > y else x0 >= y0 && x < y)
  {
    HelperPlaced(name, l, r, f, t);
    OperandsAre(l, r, f, t, x0, y0, x, y);
    var truth := if name == "crossover" then x0 <= y0 && x > y else x0 >= y0 && x < y;
    hide Reads, Placed, NumberOf, ComparesAs;
    assert Meaning(Helper(name, l, r), f, t) == Bool(truth);
    ReadsIs(Helper(name, l, r), f, t, Bool(truth));
  }

  /** The first row crosses nothing. */
  lemma FirstRowReads(name: string, l: Node, r: Node, f: Frame)
    requires name == "crossover" || name == "crossunder"
    requires Placed(Helper(name, l, r), f, 0)
    ensures ReadsTruth(Helper(name, l, r), f, 0, false)
  {
    ReadsIs(Helper(name, l, r), f, 0, Bool(false));
    hide Reads, Placed;
  }

  lemma ExtremeIs(xColumn: bool, yColumn: bool, x: real, y: real)
    ensures ExtremeOf(LtE, Lt, xColumn, yColumn, Fin(x), Fin(y)) == Fin(if x <= y then x else y)
    ensures ExtremeOf(GtE, Gt, xColumn, yColumn, Fin(x), Fin(y)) == Fin(if x <= y then y else x)
  {
  }

  lemma ExtremeMeans(l: Node, r: Node, f: Frame, t: nat)
    ensures Meaning(Helper("min", l, r), f, t)
         == Num(ExtremeOf(LtE, Lt, Columnar(l), Columnar(r), NumberOf(l, f, t), NumberOf(r, f, t)))
    ensures Meaning(Helper("max", l, r), f, t)
         == Num(ExtremeOf(GtE, Gt, Columnar(l), Columnar(r), NumberOf(l, f, t), NumberOf(r, f, t)))
  {
    hide Columnar, ExtremeOf, NumberOf;
  }

  lemma NumberReads(n: Node, f: Frame, t: nat, x: real)
    requires Placed(n, f, t) && ReadsNumber(n, f, t, x)
    ensures NumberOf(n, f, t) == Fin(x)
  {
    ReadsIs(n, f, t, Num(Fin(x)));
    hide Reads, Placed;
  }

  /** `min` and `max` of two numbers. */
  lemma ExtremeReads(name: string, l: Node, r: Node, f: Frame, t: nat, x: real, y: real)
    requires ReadsNumber(l, f, t, x) && ReadsNumber(r, f, t, y)
    requires (name == "min" || name == "max") && Placed(Helper(name, l, r), f, t)
    ensures ReadsNumber(Helper(name, l, r), f, t, if (name == "min") == (x <= y) then x else y)
  {
    hide *;
    HelperPlaced(name, l, r, f, t);
    NumberReads(l, f, t, x);
    NumberReads(r, f, t, y);
    ExtremeMeans(l, r, f, t);
    ExtremeIs(Columnar(l), Columnar(r), x, y);
    NumberRead(Helper(name, l, r), f, t, if (name == "min") == (x <= y) then x else y);
  }

  lemma NumberRead(n: Node, f: Frame, t: nat, x: real)
    requires Placed(n, f, t) && Meaning(n, f, t) == Num(Fin(x))
    ensures ReadsNumber(n, f, t, x)
  {
    ReadsIs(n, f, t, Num(Fin(x)));
    hide Reads, Placed, Meaning;
  }

  // ---- signals ----

  /** A rule that mentions a column fires where it reads true, or a number other than zero; undefined, it does not. */
  lemma FiringReads(n: Node, f: Frame, t: nat)
    requires Placed(n, f, t) && Columnar(n)
    ensures var r := EvalSeries(Some(n), f);
      && r.Ok? && |r.value| == f.rows
      && (r.value[t] <==> ReadsTruth(n, f, t, true) || exists x :: x != 0.0 && ReadsNumber(n, f, t, x))
  {
    EvalSeriesIs(Some(n), f);
    ReadsIs(n, f, t, Meaning(n, f, t));
    ReadsIs(n, f, t, Bool(true));
    forall x ensures ReadsNumber(n, f, t, x) <==> Meaning(n, f, t) == Num(Fin(x)) {
      ReadsIs(n, f, t, Num(Fin(x)));
    }
    hide Reads, EvalSeries, Meaning, Columnar;
    if Fires(Some(n), f, t) && Meaning(n, f, t).Num? {
      assert ReadsNumber(n, f, t, Meaning(n, f, t).num.v);
    }
  }

  /** A rule without columns fires on every bar unless it reads false, zero or none; undefined, it does fire. */
  lemma ConstantFiringReads(n: Node, f: Frame, t: nat)
    requires Placed(n, f, t) && !Columnar(n)
    ensures var r := EvalSeries(Some(n), f);
      && r.Ok? && |r.value| == f.rows
      && (r.value[t] <==> !(ReadsTruth(n, f, t, false) || ReadsNumber(n, f, t, 0.0) || Reads(n, f, t, NoneAtom)))
  {
    EvalSeriesIs(Some(n), f);
    ReadsIs(n, f, t, Bool(false));
    ReadsIs(n, f, t, Num(Fin(0.0)));
    ReadsIs(n, f, t, NoneAtom);
    hide Reads, EvalSeries, Meaning, Columnar;
  }

  /** `rule` fires at row `t` of a bar's frame; no rule fires nowhere. */
  ghost predicate FiresAt(rule: Option<Node>, f: Frame, t: nat) {
    rule.Some? && var r := EvalSeries(rule, f); r.Ok? && t < |r.value| && r.value[t]
  }

  lemma FiresAtIs(rule: Option<Node>, f: Frame, t: nat)
    requires Usable(f) && RuleTyped(rule, f.columns.Keys) && t < f.rows
    ensures FiresAt(rule, f, t) <==> Fires(rule, f, t)
  {
    EvalSeriesIs(rule, f);
    hide EvalSeries;
  }

  /** A rule spec's signals carry each rule under its own flag. */
  lemma SignalsCarryRules(spec: Spec, rules: Rules, p: Prepared, t: nat)
    requires spec.kind.Rule? && Ready(spec, rules, p) && t < p.frame.rows
    ensures var r := Signals(spec, rules, p);
      && r.Ok? && |r.value| == p.frame.rows
      && var s := r.value[t];
      && s.enterLong == FiresAt(rules.enterLong, p.frame, t) && s.enterShort == FiresAt(rules.enterShort, p.frame, t)
      && s.exitLong == FiresAt(rules.exitLong, p.frame, t) && s.exitShort == FiresAt(rules.exitShort, p.frame, t)
      && s.gridBuyLevels == [] && !s.dcaBuy
  {
    SignalsAreWanted(spec, rules, p);
    FiresAtIs(rules.enterLong, p.frame, t);
    FiresAtIs(rules.enterShort, p.frame, t);
    FiresAtIs(rules.exitLong, p.frame, t);
    FiresAtIs(rules.exitShort, p.frame, t);
    hide FiresAt, Fires, Signals, RuleTyped;
  }

  /** `close - open > 0`. */
  const RISING := Link(BinOp(Name("close"), Sub, Name("open")), Gt, Constant(Number(0.0)))

  lemma RisingTyped(names: set<string>)
    requires "close" in names && "open" in names
    ensures Typed(RISING, names) && Columnar(RISING)
  {
    assert "__"[0] == '_' && "close"[0] == 'c' && "open"[0] == 'o';
    var difference, zero := BinOp(Name("close"), Sub, Name("open")), Constant(Number(0.0));
    assert Validate(difference, names).None? && KindOf(difference) == Some(Numeric) && Columnar(difference);
    assert Validate(zero, names).None? && KindOf(zero) == Some(Numeric);
    var links := Then(Gt, zero, NoMore);
    assert OperatorsAllowed(links) && ValidateLinks(links, names).None? && LinksTyped(links);
  }

  /** It signals on exactly the bars that close above their open. */
  lemma RisingFires(f: Frame, t: nat, open: real, close: real)
    requires Usable(f) && t < f.rows && "open" in f.columns && "close" in f.columns
    requires f.columns["open"][t] == Fin(open) && f.columns["close"][t] == Fin(close)
    ensures var r := EvalSeries(Some(RISING), f); r.Ok? && |r.value| == f.rows && (r.value[t] <==> open < close)
  {
    RisingTyped(f.columns.Keys);
    var difference, zero := BinOp(Name("close"), Sub, Name("open")), Constant(Number(0.0));
    LinkPlaced(difference, Gt, zero, NoMore, f, t);
    OperandsPlaced(Name("close"), Sub, Name("open"), f, t);
    NameReads("close", f, t);
    NameReads("open", f, t);
    ConstantReads(f, t, 0.0, true);
    hide Reads, Placed, Usable, EvalSeries, Columnar;
    ArithmeticReads(Name("close"), Sub, Name("open"), f, t, close, open);
    ComparisonReads(difference, Gt, zero, f, t, close - open, 0.0);
    TruthFires(RISING, f, t, close - open > 0.0);
  }

  lemma TruthFires(n: Node, f: Frame, t: nat, b: bool)
    requires Placed(n, f, t) && Columnar(n) && ReadsTruth(n, f, t, b)
    ensures var r := EvalSeries(Some(n), f); r.Ok? && |r.value| == f.rows && r.value[t] == b
  {
    FiringReads(n, f, t);
    ReadsIs(n, f, t, Bool(b));
    ReadsIs(n, f, t, Bool(true));
    forall x ensures !ReadsNumber(n, f, t, x) {
      ReadsIs(n, f, t, Num(Fin(x)));
    }
    hide Reads, EvalSeries, Meaning, Columnar, Placed;
  }
}

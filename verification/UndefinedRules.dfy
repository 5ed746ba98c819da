/** What a rule does at a row where its operands are undefined: during warm-up, or at a ratio with a zero divisor. */
module UndefinedRules {
  import opened Domain
  import opened RuleSyntax
  import opened RuleEvaluator
  import opened RuleSemantics
  import opened RuleLocality
  import opened Interpreters

  // ---- the truth an undefined rule takes ----

  predicate AllNotEqual(links: Links) {
    links.Then? ==> links.cmp.NotEq? && AllNotEqual(links.more)
  }

  /** A chain of undefined comparisons is true when each of them is `!=`; a crossing is false; the rest is logic. */
  predicate UndefinedTruth(n: Node)
    decreases n
  {
    match n
    case BoolOp(op, first, rest) =>
      if op.And? then UndefinedTruth(first) && EachUndefinedTruth(rest)
      else UndefinedTruth(first) || SomeUndefinedTruth(rest)
    case UnaryOp(_, operand) => !UndefinedTruth(operand)
    case Compare(_, links) => AllNotEqual(links)
    case Constant(literal) => literal == Boolean(true)
    case _ => false
  }

  predicate EachUndefinedTruth(ns: seq<Node>)
    decreases ns
  {
    ns != [] ==> UndefinedTruth(ns[0]) && EachUndefinedTruth(ns[1..])
  }

  predicate SomeUndefinedTruth(ns: seq<Node>)
    decreases ns
  {
    ns != [] && (UndefinedTruth(ns[0]) || SomeUndefinedTruth(ns[1..]))
  }

  // ---- where it takes it ----

  /** Every comparison of the chain has an undefined operand at row `t`. */
  predicate ChainUndefined(left: Float, links: Links, f: Frame, t: nat)
    decreases links
  {
    links.Then? ==>
      var right := NumberOf(links.next, f, t);
      (left.NaN? || right.NaN?) && ChainUndefined(right, links.more, f, t)
  }

  /** A crossing reads its operands at the row and at the one before; the first row has none before. */
  predicate CrossUndefined(args: seq<Node>, f: Frame, t: nat) {
    t == 0 || exists a | a in args :: NumberOf(a, f, t).NaN? || NumberOf(a, f, t - 1).NaN?
  }

  /** No comparison of the rule, and no crossing, has all its operands defined at row `t`. */
  predicate NothingDefined(n: Node, f: Frame, t: nat)
    decreases n
  {
    match n
    case BoolOp(_, first, rest) => NothingDefined(first, f, t) && NothingDefinedIn(rest, f, t)
    case UnaryOp(_, operand) => NothingDefined(operand, f, t)
    case Compare(subject, links) => ChainUndefined(NumberOf(subject, f, t), links, f, t)
    case Call(_, args, _) => CrossUndefined(args, f, t)
    case _ => true
  }

  predicate NothingDefinedIn(ns: seq<Node>, f: Frame, t: nat)
    decreases ns
  {
    ns != [] ==> NothingDefined(ns[0], f, t) && NothingDefinedIn(ns[1..], f, t)
  }

  lemma {:induction false} ChainTruth(left: Float, links: Links, f: Frame, t: nat)
    requires ChainUndefined(left, links, f, t) && OperatorsAllowed(links)
    ensures ChainHolds(left, links, f, t) == AllNotEqual(links)
    decreases links
  {
    if links.Then? {
      ChainTruth(NumberOf(links.next, f, t), links.more, f, t);
      hide NumberOf;
    }
  }

  lemma CrossFalse(func: Node, args: seq<Node>, f: Frame, t: nat)
    requires IsCross(func) && |args| == 2 && CrossUndefined(args, f, t)
    ensures Meaning(Call(func, args, 0), f, t) == Bool(false)
  {
    if t > 0 {
      var a :| a in args && (NumberOf(a, f, t).NaN? || NumberOf(a, f, t - 1).NaN?);
      assert a == args[0] || a == args[1];
    }
    hide NumberOf;
  }

  lemma {:induction false} MeaningUndefined(n: Node, f: Frame, t: nat)
    requires Typed(n, f.columns.Keys) && KindOf(n) == Some(Truth) && NothingDefined(n, f, t)
    ensures Meaning(n, f, t) == Bool(UndefinedTruth(n))
    decreases n
  {
    match n
    case BoolOp(op, first, rest) =>
      MeaningUndefined(first, f, t);
      MeaningsUndefined(rest, f, t);
    case UnaryOp(op, operand) =>
      MeaningUndefined(operand, f, t);
      assert Meaning(n, f, t) == Bool(!IsTrue(operand, f, t));
    case Compare(subject, links) => ChainTruth(NumberOf(subject, f, t), links, f, t);
    case Call(func, args, keywords) =>
      assert keywords == 0 && |args| == 2;
      CrossFalse(func, args, f, t);
    case _ =>
  }

  lemma {:induction false} MeaningsUndefined(ns: seq<Node>, f: Frame, t: nat)
    requires ValidateAll(ns, f.columns.Keys).None? && AllOfKind(ns, Truth) && NothingDefinedIn(ns, f, t)
    ensures EachTrue(ns, f, t) == EachUndefinedTruth(ns) && SomeTrue(ns, f, t) == SomeUndefinedTruth(ns)
    decreases ns
  {
    if ns != [] {
      MeaningUndefined(ns[0], f, t);
      MeaningsUndefined(ns[1..], f, t);
    }
  }

  /** Nothing the rule asks for is defined: of a condition no comparison is, of a number the number is not. */
  predicate Undefined(n: Node, f: Frame, t: nat) {
    if KindOf(n) == Some(Truth) then NothingDefined(n, f, t) else Meaning(n, f, t) == Num(NaN)
  }

  /**
   Whether an undefined rule is a signal all the same: by the truth of its syntax, or as a number without a column.
   */
  predicate FiresUndefined(n: Node) {
    if KindOf(n) == Some(Truth) then UndefinedTruth(n) else !Columnar(n)
  }

  /**
   An undefined value is promised to be no signal. Of every well-typed rule, at every row where nothing it asks for is
   defined: it is no signal exactly when its syntax alone does not make it one.
   */
  lemma UndefinedFiresIff(n: Node, f: Frame, t: nat)
    requires Typed(n, f.columns.Keys) && Undefined(n, f, t)
    ensures Fires(Some(n), f, t) <==> FiresUndefined(n)
  {
    if KindOf(n) == Some(Truth) { MeaningUndefined(n, f, t); }
    hide Meaning, Columnar, UndefinedTruth, NothingDefined;
  }

  /** So a comparison with an undefined operand is a signal exactly when it is `!=`, and its negation when it is not. */
  lemma ComparisonFiresIff(a: Node, op: Comparison, b: Node, f: Frame, t: nat)
    requires var n := Compare(a, Then(op, b, NoMore)); Typed(n, f.columns.Keys)
    requires NumberOf(a, f, t).NaN? || NumberOf(b, f, t).NaN?
    ensures var n := Compare(a, Then(op, b, NoMore));
      && (Fires(Some(n), f, t) <==> op.NotEq?)
      && Typed(UnaryOp(Not, n), f.columns.Keys)
      && (Fires(Some(UnaryOp(Not, n)), f, t) <==> !op.NotEq?)
  {
    var links := Then(op, b, NoMore);
    var n := Compare(a, links);
    assert AllNotEqual(links) == op.NotEq? && ChainUndefined(NumberOf(a, f, t), links, f, t);
    assert KindOf(n) == Some(Truth) && NothingDefined(n, f, t) && UndefinedTruth(n) == op.NotEq?;
    assert NothingDefined(UnaryOp(Not, n), f, t) && UndefinedTruth(UnaryOp(Not, n)) == !op.NotEq?;
    assert KindOf(UnaryOp(Not, n)) == Some(Truth) && Validate(UnaryOp(Not, n), f.columns.Keys).None?;
    hide NumberOf, Meaning, Fires;
    UndefinedFiresIff(n, f, t);
    UndefinedFiresIff(UnaryOp(Not, n), f, t);
  }

  // ---- seen from the syntax ----

  /**
   The number `n` is undefined wherever the columns `bad` are: they reach it through arithmetic, or it divides by
   zero.
   */
  predicate Undefines(n: Node, bad: set<string>)
    decreases n
  {
    match n
    case Name(id) => id in bad
    case UnaryOp(op, operand) => !op.Not? && Undefines(operand, bad)
    case BinOp(left, op, right) =>
      || Undefines(left, bad) || Undefines(right, bad)
      || ((op.Div? || op.Mod?) && right == Constant(Number(0.0)))
    case Call(func, args, _) => func == Name("abs") && |args| == 1 && Undefines(args[0], bad)
    case _ => false
  }

  lemma {:induction false} UndefinesMeans(n: Node, bad: set<string>, f: Frame, t: nat)
    requires Undefines(n, bad)
    requires forall id | id in bad :: f.Cell(id, t).NaN?
    ensures Meaning(n, f, t) == Num(NaN)
    decreases n
  {
    match n
    case UnaryOp(_, operand) => UndefinesMeans(operand, bad, f, t);
    case BinOp(left, op, right) =>
      if Undefines(left, bad) {
        UndefinesMeans(left, bad, f, t);
      } else if Undefines(right, bad) {
        UndefinesMeans(right, bad, f, t);
      } else {
        assert NumberOf(right, f, t) == Fin(0.0);
      }
      assert Arith(op, NumberOf(left, f, t), NumberOf(right, f, t)) == NaN;
    case Call(_, args, _) => UndefinesMeans(args[0], bad, f, t);
    case _ =>
  }

  /** Each comparison and crossing of the rule has an operand that the columns `bad` undefine. */
  predicate NeverDefined(n: Node, bad: set<string>)
    decreases n
  {
    match n
    case BoolOp(_, first, rest) => NeverDefined(first, bad) && NeverDefinedIn(rest, bad)
    case UnaryOp(_, operand) => NeverDefined(operand, bad)
    case Compare(subject, links) => LinksNeverDefined(Undefines(subject, bad), links, bad)
    case Call(_, args, _) => exists i | 0 <= i < |args| :: Undefines(args[i], bad)
    case _ => true
  }

  predicate NeverDefinedIn(ns: seq<Node>, bad: set<string>)
    decreases ns
  {
    ns != [] ==> NeverDefined(ns[0], bad) && NeverDefinedIn(ns[1..], bad)
  }

  predicate LinksNeverDefined(left: bool, links: Links, bad: set<string>)
    decreases links
  {
    links.Then? ==>
      var right := Undefines(links.next, bad);
      (left || right) && LinksNeverDefined(right, links.more, bad)
  }

  lemma {:induction false} LinksUndefined(a: Node, links: Links, bad: set<string>, f: Frame, t: nat)
    requires LinksNeverDefined(Undefines(a, bad), links, bad) && forall id | id in bad :: f.Cell(id, t).NaN?
    ensures ChainUndefined(NumberOf(a, f, t), links, f, t)
    decreases links
  {
    if links.Then? {
      if Undefines(a, bad) { UndefinesMeans(a, bad, f, t); }
      if Undefines(links.next, bad) { UndefinesMeans(links.next, bad, f, t); }
      hide Meaning, Undefines;
      LinksUndefined(links.next, links.more, bad, f, t);
    }
  }

  lemma {:induction false} NeverDefinedMeans(n: Node, bad: set<string>, f: Frame, t: nat)
    requires NeverDefined(n, bad) && forall id | id in bad :: f.Cell(id, t).NaN?
    ensures NothingDefined(n, f, t)
    decreases n
  {
    hide NumberOf, Undefines;
    match n
    case BoolOp(_, first, rest) =>
      NeverDefinedMeans(first, bad, f, t);
      AllNeverDefined(rest, bad, f, t);
    case UnaryOp(_, operand) => NeverDefinedMeans(operand, bad, f, t);
    case Compare(subject, links) => LinksUndefined(subject, links, bad, f, t);
    case Call(_, args, _) =>
      var i :| 0 <= i < |args| && Undefines(args[i], bad);
      UndefinedNumber(args[i], bad, f, t);
      assert args[i] in args;
    case _ =>
  }

  lemma UndefinedNumber(n: Node, bad: set<string>, f: Frame, t: nat)
    requires Undefines(n, bad) && forall id | id in bad :: f.Cell(id, t).NaN?
    ensures NumberOf(n, f, t).NaN?
  {
    UndefinesMeans(n, bad, f, t);
    hide Meaning, Undefines;
  }

  lemma {:induction false} AllNeverDefined(ns: seq<Node>, bad: set<string>, f: Frame, t: nat)
    requires NeverDefinedIn(ns, bad) && forall id | id in bad :: f.Cell(id, t).NaN?
    ensures NothingDefinedIn(ns, f, t)
    decreases ns
  {
    if ns != [] {
      NeverDefinedMeans(ns[0], bad, f, t);
      AllNeverDefined(ns[1..], bad, f, t);
    }
  }

  /** A rule that the columns `bad` leave nothing defined of. */
  predicate Touched(n: Node, bad: set<string>) {
    if KindOf(n) == Some(Truth) then NeverDefined(n, bad) else Undefines(n, bad)
  }

  /** Read off the rule and the columns undefined at the row: whether it is a signal there. */
  lemma TouchedFiresIff(n: Node, bad: set<string>, f: Frame, t: nat)
    requires Typed(n, f.columns.Keys) && Touched(n, bad) && forall id | id in bad :: f.Cell(id, t).NaN?
    ensures Undefined(n, f, t)
    ensures Fires(Some(n), f, t) <==> FiresUndefined(n)
  {
    if KindOf(n) == Some(Truth) {
      NeverDefinedMeans(n, bad, f, t);
    } else {
      UndefinesMeans(n, bad, f, t);
    }
    hide Meaning, NothingDefined, NeverDefined, Undefines, Fires, FiresUndefined;
    UndefinedFiresIff(n, f, t);
  }

  // ---- undefined ratios that are signals ----

  const ZERO := Constant(Number(0.0))
  const ONE := Constant(Number(1.0))

  const ONE_OVER_ZERO := BinOp(ONE, Div, ZERO)

  /** `close / 0 != 1`. */
  const RATIO_IS_NOT_ONE := Compare(BinOp(CLOSE, Div, ZERO), Then(NotEq, ONE, NoMore))

  /** `not (close / 0 > 1)`. */
  const RATIO_IS_NOT_ABOVE := UnaryOp(Not, Compare(BinOp(CLOSE, Div, ZERO), Then(Gt, ONE, NoMore)))

  lemma ConstantsTyped(names: set<string>)
    ensures Typed(ZERO, names) && Typed(ONE, names) && Typed(ONE_OVER_ZERO, names)
  {
  }

  lemma RatioTyped(op: Comparison, names: set<string>)
    requires "close" in names && !op.OtherComparison?
    ensures var n := Compare(BinOp(CLOSE, Div, ZERO), Then(op, ONE, NoMore));
      Typed(n, names) && Typed(UnaryOp(Not, n), names)
  {
    var ratio := BinOp(CLOSE, Div, ZERO);
    assert "close"[0] == 'c' && "__"[0] == '_';
    assert Validate(CLOSE, names).None? && Validate(ratio, names).None? && KindOf(ratio) == Some(Numeric);
    assert ValidateLinks(NoMore, names).None? && ValidateLinks(Then(op, ONE, NoMore), names).None?;
    assert LinksTyped(NoMore) && LinksTyped(Then(op, ONE, NoMore)) && OperatorsAllowed(Then(op, ONE, NoMore));
    var n := Compare(ratio, Then(op, ONE, NoMore));
    assert Typed(n, names) && KindOf(n) == Some(Truth);
  }

  /** The series that a rule evaluates to is its firing, row by row. */
  lemma SeriesFires(n: Node, f: Frame, t: nat)
    requires Usable(f) && t < f.rows && Typed(n, f.columns.Keys) && Fires(Some(n), f, t)
    ensures var r := EvalSeries(Some(n), f); r.Ok? && |r.value| == f.rows && r.value[t]
  {
    EvalSeriesIs(Some(n), f);
    hide EvalSeries, Fires, Typed;
  }

  /** The rule `1 / 0` enters on every bar of every frame, where an undefined ratio is promised to be no signal. */
  lemma ConstantDivisionByZeroFires(f: Frame, t: nat)
    requires Usable(f) && t < f.rows
    ensures Typed(ONE_OVER_ZERO, f.columns.Keys)
    ensures var r := EvalSeries(Some(ONE_OVER_ZERO), f); r.Ok? && |r.value| == f.rows && r.value[t]
  {
    ConstantsTyped(f.columns.Keys);
    assert Touched(ONE_OVER_ZERO, {}) && FiresUndefined(ONE_OVER_ZERO);
    TouchedFiresIff(ONE_OVER_ZERO, {}, f, t);
    hide Fires, EvalSeries, Typed;
    SeriesFires(ONE_OVER_ZERO, f, t);
  }

  /** And so does an undefined ratio of a column compared by `!=`, or compared under `not`. */
  lemma UndefinedRatioFires(f: Frame, t: nat)
    requires Usable(f) && t < f.rows && "close" in f.columns
    ensures forall n | n in {RATIO_IS_NOT_ONE, RATIO_IS_NOT_ABOVE} ::
      && Typed(n, f.columns.Keys) && Columnar(n)
      && var r := EvalSeries(Some(n), f);
      && r.Ok? && |r.value| == f.rows && r.value[t]
  {
    RatioTyped(NotEq, f.columns.Keys);
    RatioTyped(Gt, f.columns.Keys);
    assert Columnar(CLOSE) && Columnar(BinOp(CLOSE, Div, ZERO));
    assert Undefines(BinOp(CLOSE, Div, ZERO), {});
    UndefinedNumber(BinOp(CLOSE, Div, ZERO), {}, f, t);
    hide Fires, EvalSeries, Meaning, Typed, Undefines;
    ComparisonFiresIff(BinOp(CLOSE, Div, ZERO), NotEq, ONE, f, t);
    ComparisonFiresIff(BinOp(CLOSE, Div, ZERO), Gt, ONE, f, t);
    SeriesFires(RATIO_IS_NOT_ONE, f, t);
    SeriesFires(RATIO_IS_NOT_ABOVE, f, t);
  }
}

/**
 The one rule evaluator. A context maps names to scalars (one bar) or to equal-length columns (a whole window); the
 same code serves both.
 */
module RuleEvaluator {
  import opened Domain
  import opened RealArithmetic
  import opened RuleSyntax

  /** A float: a number, or NaN. */
  datatype Float = Fin(v: real) | NaN

  datatype Atom = Num(num: Float) | Bool(truth: bool) | NoneAtom

  datatype Value = Scalar(atom: Atom) | Column(cells: seq<Atom>)

  datatype EvalError = TypeClash | UnboundName | UnknownHelper | WrongArity | Unsupported | Rejected(problem: Problem)

  datatype Result<+T> = Ok(value: T) | Err(error: EvalError)

  type Context = map<string, Value>

  // ---- arithmetic and comparison of atoms ----

  /** Division by zero, by NaN or of NaN is NaN. */
  function SafeDiv(a: Float, b: Float): Float {
    if a.NaN? || b.NaN? || b.v == 0.0 then NaN else Fin(a.v / b.v)
  }

  /** Floored modulo: the result has the divisor's sign. */
  function SafeMod(a: Float, b: Float): Float {
    if a.NaN? || b.NaN? || b.v == 0.0 then NaN else Fin(a.v - (a.v / b.v).Floor as real * b.v)
  }

  function Arith(op: BinaryOperator, a: Float, b: Float): Float {
    match op
    case Add => if a.NaN? || b.NaN? then NaN else Fin(a.v + b.v)
    case Sub => if a.NaN? || b.NaN? then NaN else Fin(a.v - b.v)
    case Mult => if a.NaN? || b.NaN? then NaN else Fin(a.v * b.v)
    case Div => SafeDiv(a, b)
    case _ => SafeMod(a, b)
  }

  /** Every comparison with NaN is false, except `!=`. */
  predicate Compares(op: Comparison, a: Float, b: Float) {
    if a.NaN? || b.NaN? then op.NotEq? || op.OtherComparison? else
    match op
    case Lt => a.v < b.v
    case LtE => a.v <= b.v
    case Gt => a.v > b.v
    case GtE => a.v >= b.v
    case Eq => a.v == b.v
    case _ => a.v != b.v
  }

  /** A boolean compares as 0 or 1. */
  function AsFloat(a: Atom): Float {
    match a
    case Num(x) => x
    case Bool(b) => Fin(if b then 1.0 else 0.0)
    case NoneAtom => NaN
  }

  // ---- the operations that work on scalars and columns ----

  datatype Unary = Negate | Keep | Absolute | NotScalar | NotColumn

  /**
   `Pick` keeps its first operand when the comparison holds (`a.where(a op b, b)`); `Prefer` is Python's `min`/`max`.
   */
  datatype Binary =
    | Arithmetic(aop: BinaryOperator)
    | Comparing(cop: Comparison)
    | Logic(lop: BoolOperator)
    | Pick(pop: Comparison)
    | Prefer(rop: Comparison)

  function NegateFloat(x: Float): Float {
    if x.NaN? then NaN else Fin(-x.v)
  }

  function AbsFloat(x: Float): Float {
    if x.NaN? then NaN else Fin(if x.v >= 0.0 then x.v else -x.v)
  }

  function Apply1(op: Unary, a: Atom): Result<Atom> {
    match op
    case Negate => if a.Num? then Ok(Num(NegateFloat(a.num))) else Err(TypeClash)
    case Keep => if a.Num? then Ok(a) else Err(TypeClash)
    case Absolute => if a.Num? then Ok(Num(AbsFloat(a.num))) else Err(TypeClash)
    case NotScalar => Ok(Bool(match a case Bool(b) => !b case Num(x) => x == Fin(0.0) case NoneAtom => true))
    case NotColumn => if a.Bool? then Ok(Bool(!a.truth)) else Err(TypeClash)
  }

  function Apply2(op: Binary, a: Atom, b: Atom): Result<Atom> {
    match op
    case Arithmetic(o) => if a.Num? && b.Num? then Ok(Num(Arith(o, a.num, b.num))) else Err(TypeClash)
    case Comparing(o) =>
      if !a.NoneAtom? && !b.NoneAtom? then Ok(Bool(Compares(o, AsFloat(a), AsFloat(b))))
      else if o.Lt? || o.LtE? || o.Gt? || o.GtE? then Err(TypeClash)
      else Ok(Bool((a == b) == o.Eq?))
    case Logic(o) =>
      if a.Bool? && b.Bool? then Ok(Bool(if o.And? then a.truth && b.truth else a.truth || b.truth)) else Err(TypeClash)
    case Pick(o) => if a.Num? && b.Num? then Ok(if Compares(o, a.num, b.num) then a else b) else Err(TypeClash)
    case Prefer(o) => if a.Num? && b.Num? then Ok(if Compares(o, b.num, a.num) then b else a) else Err(TypeClash)
  }

  /** Whether `v` can be read at every one of `n` rows. */
  predicate Fits(v: Value, n: nat) {
    v.Column? ==> |v.cells| == n
  }

  function At(v: Value, i: nat): Atom
    requires v.Column? ==> i < |v.cells|
  {
    if v.Scalar? then v.atom else v.cells[i]
  }

  /** All cells, or a clash if any of them clashed. */
  function Gather(rs: seq<Result<Atom>>): Result<Value> {
    if forall i | 0 <= i < |rs| :: rs[i].Ok? then Ok(Column(seq(|rs|, i requires 0 <= i < |rs| => rs[i].value)))
    else Err(TypeClash)
  }

  function Lift1(op: Unary, x: Value): Result<Value> {
    if x.Scalar? then
      var r := Apply1(op, x.atom);
      if r.Ok? then Ok(Scalar(r.value)) else Err(TypeClash)
    else
      Gather(seq(|x.cells|, i requires 0 <= i < |x.cells| => Apply1(op, x.cells[i])))
  }

  /** Element-wise, a scalar being broadcast against a column. */
  function Lift2(op: Binary, x: Value, y: Value): Result<Value> {
    if x.Scalar? && y.Scalar? then
      var r := Apply2(op, x.atom, y.atom);
      if r.Ok? then Ok(Scalar(r.value)) else Err(TypeClash)
    else
      var n := |if x.Column? then x.cells else y.cells|;
      if !Fits(x, n) || !Fits(y, n) then Err(TypeClash)
      else Gather(seq(n, i requires 0 <= i < n => Apply2(op, At(x, i), At(y, i))))
  }

  /** The previous bar's view of a column; a bare scalar has no history and stands for itself. */
  function ShiftPrev(x: Value): Value {
    if x.Scalar? || x.cells == [] then x else Column([Num(NaN)] + x.cells[..|x.cells| - 1])
  }

  /** `was` held on the previous bar and `now` holds on this one. */
  function Crossing(was: Comparison, now: Comparison, a: Value, b: Value): Result<Value> {
    var before := Lift2(Comparing(was), ShiftPrev(a), ShiftPrev(b));
    var after := Lift2(Comparing(now), a, b);
    if before.Err? then before else if after.Err? then after
    else Lift2(Logic(And), before.value, after.value)
  }

  /** The element-wise binary `min`/`max`; which of its three forms runs depends on which operand is a column. */
  function Extreme(keep: Comparison, beats: Comparison, a: Value, b: Value): Result<Value> {
    if a.Column? then Lift2(Pick(keep), a, b)
    else if b.Column? then Lift2(Pick(keep), b, a)
    else Lift2(Prefer(beats), a, b)
  }

  function CallHelper(name: string, args: seq<Value>): Result<Value> {
    if name !in HELPER_ARITY then Err(UnknownHelper)
    else if |args| != HELPER_ARITY[name] then Err(WrongArity)
    else if name == "crossover" then Crossing(LtE, Gt, args[0], args[1])
    else if name == "crossunder" then Crossing(GtE, Lt, args[0], args[1])
    else if name == "abs" then Lift1(Absolute, args[0])
    else if name == "min" then Extreme(LtE, Lt, args[0], args[1])
    else Extreme(GtE, Gt, args[0], args[1])
  }

  // ---- the evaluator ----

  function FoldLogic(op: BoolOperator, acc: Value, values: seq<Value>): Result<Value>
    decreases |values|
  {
    if values == [] then Ok(acc) else
      var r := Lift2(Logic(op), acc, values[0]);
      if r.Err? then r else FoldLogic(op, r.value, values[1..])
  }

  function EvalNode(n: Node, ctx: Context): Result<Value>
    decreases n
  {
    match n
    case BoolOp(op, first, rest) =>
      var v, vs := EvalNode(first, ctx), EvalAll(rest, ctx);
      if v.Err? then v else if vs.Err? then Err(vs.error) else FoldLogic(op, v.value, vs.value)
    case UnaryOp(op, operand) =>
      var v := EvalNode(operand, ctx);
      if v.Err? then v
      else if op.Not? then Lift1(if v.value.Column? then NotColumn else NotScalar, v.value)
      else Lift1(if op.USub? then Negate else Keep, v.value)
    case BinOp(left, op, right) =>
      var l, r := EvalNode(left, ctx), EvalNode(right, ctx);
      if l.Err? then l else if r.Err? then r else Lift2(Arithmetic(op), l.value, r.value)
    case Compare(subject, links) =>
      var v := EvalNode(subject, ctx);
      if v.Err? then v else EvalLinks(v.value, None, links, ctx)
    case Name(id) => if id in ctx then Ok(ctx[id]) else Err(UnboundName)
    case Constant(literal) =>
      (match literal
       case Number(x) => Ok(Scalar(Num(Fin(x))))
       case Boolean(b) => Ok(Scalar(Bool(b)))
       case NoneLiteral => Ok(Scalar(NoneAtom))
       case Text => Err(Unsupported))
    case Call(func, args, _) =>
      if !func.Name? then Err(Unsupported)
      else if func.id !in HELPER_ARITY then Err(UnknownHelper)
      else
        var vs := EvalAll(args, ctx);
        if vs.Err? then Err(vs.error) else CallHelper(func.id, vs.value)
    case Other(_) => Err(Unsupported)
  }

  function EvalAll(ns: seq<Node>, ctx: Context): (r: Result<seq<Value>>)
    ensures r.Ok? ==> |r.value| == |ns|
    decreases ns
  {
    if ns == [] then Ok([]) else
      var v, vs := EvalNode(ns[0], ctx), EvalAll(ns[1..], ctx);
      if v.Err? then Err(v.error) else if vs.Err? then vs else Ok([v.value] + vs.value)
  }

  /** A chained comparison: each link compares the previous operand with its own, and the results are conjoined. */
  function EvalLinks(left: Value, acc: Option<Value>, links: Links, ctx: Context): Result<Value>
    decreases links
  {
    match links
    case NoMore => Ok(if acc.Some? then acc.value else Scalar(NoneAtom))
    case Then(cmp, next, more) =>
      var right := EvalNode(next, ctx);
      if right.Err? then right else
        var c := Lift2(Comparing(cmp), left, right.value);
        if c.Err? then c
        else if acc.None? then EvalLinks(right.value, Some(c.value), more, ctx)
        else
          var both := Lift2(Logic(And), acc.value, c.value);
          if both.Err? then both else EvalLinks(right.value, Some(both.value), more, ctx)
  }

  /** `evaluate_expression`: validate against the context's names, then evaluate. */
  function Evaluate(n: Node, ctx: Context): Result<Value> {
    var problem := Validate(n, ctx.Keys);
    if problem.Some? then Err(Rejected(problem.value)) else EvalNode(n, ctx)
  }

  // ---- a validated rule can only clash ----

  ghost predicate OnlyClashes<T>(r: Result<T>) {
    r.Err? ==> r.error.TypeClash?
  }

  lemma {:induction false} FoldOnlyClashes(op: BoolOperator, acc: Value, values: seq<Value>)
    ensures OnlyClashes(FoldLogic(op, acc, values))
    decreases |values|
  {
    if values != [] {
      var r := Lift2(Logic(op), acc, values[0]);
      if r.Ok? {
        FoldOnlyClashes(op, r.value, values[1..]);
      }
    }
  }

  /** Once validated, a rule reaches no unbound name, no unknown helper, no wrong arity and no defensive raise. */
  lemma {:induction false} ValidatedOnlyClashes(n: Node, ctx: Context)
    requires Validate(n, ctx.Keys).None?
    ensures OnlyClashes(EvalNode(n, ctx))
    decreases n
  {
    hide Lift1, Lift2;
    match n
    case BoolOp(op, first, rest) =>
      ValidatedOnlyClashes(first, ctx);
      AllValidatedOnlyClash(rest, ctx);
      if EvalNode(first, ctx).Ok? && EvalAll(rest, ctx).Ok? {
        FoldOnlyClashes(op, EvalNode(first, ctx).value, EvalAll(rest, ctx).value);
      }
    case UnaryOp(_, operand) =>
      ValidatedOnlyClashes(operand, ctx);
      LiftsOnlyClash();
    case BinOp(left, _, right) =>
      ValidatedOnlyClashes(left, ctx);
      ValidatedOnlyClashes(right, ctx);
      LiftsOnlyClash();
    case Compare(subject, links) =>
      ValidatedOnlyClashes(subject, ctx);
      if EvalNode(subject, ctx).Ok? {
        LinksValidatedOnlyClash(EvalNode(subject, ctx).value, None, links, ctx);
      }
    case Call(func, args, _) =>
      AllValidatedOnlyClash(args, ctx);
      LiftsOnlyClash();
    case _ =>
  }

  lemma LiftsOnlyClash()
    ensures forall op, x :: OnlyClashes(Lift1(op, x))
    ensures forall op, x, y :: OnlyClashes(Lift2(op, x, y))
  {
  }

  lemma {:induction false} AllValidatedOnlyClash(ns: seq<Node>, ctx: Context)
    requires ValidateAll(ns, ctx.Keys).None?
    ensures OnlyClashes(EvalAll(ns, ctx))
    decreases ns
  {
    if ns != [] {
      ValidatedOnlyClashes(ns[0], ctx);
      AllValidatedOnlyClash(ns[1..], ctx);
    }
  }

  lemma {:induction false} LinksValidatedOnlyClash(left: Value, acc: Option<Value>, links: Links, ctx: Context)
    requires ValidateLinks(links, ctx.Keys).None?
    ensures OnlyClashes(EvalLinks(left, acc, links, ctx))
    decreases links
  {
    hide Lift2;
    if links.Then? {
      ValidatedOnlyClashes(links.next, ctx);
      LiftsOnlyClash();
      var right := EvalNode(links.next, ctx);
      if right.Ok? {
        var c := Lift2(Comparing(links.cmp), left, right.value);
        if c.Ok? {
          if acc.None? {
            LinksValidatedOnlyClash(right.value, Some(c.value), links.more, ctx);
          } else if Lift2(Logic(And), acc.value, c.value).Ok? {
            LinksValidatedOnlyClash(right.value, Some(Lift2(Logic(And), acc.value, c.value).value), links.more, ctx);
          }
        }
      }
    }
  }

  /** Evaluation of any rule in any context yields a value, the validator's problem, or an operand type clash. */
  lemma EvaluationOutcomes(n: Node, ctx: Context)
    ensures var r := Evaluate(n, ctx);
      || r.Ok? || r.error.TypeClash?
      || (r.error.Rejected? && Some(r.error.problem) == Validate(n, ctx.Keys))
  {
    if Validate(n, ctx.Keys).None? {
      ValidatedOnlyClashes(n, ctx);
    }
  }

  lemma FloorBelow(q: real)
    ensures q.Floor as real <= q < q.Floor as real + 1.0
  {
  }

  lemma ShareOf(rest: real, c: real)
    requires 0.0 <= rest < 1.0 && 0.0 < c
    ensures 0.0 <= rest * c < c
  {
    MulNonneg(rest, c);
    MulPositive(1.0 - rest, c);
    DistributeSub(c, 1.0, rest);
  }

  lemma RemainderIs(a: real, b: real, q: real, k: real, rest: real)
    requires q * b == a && rest == q - k && 0.0 <= rest < 1.0 && b != 0.0
    ensures if b > 0.0 then 0.0 <= a - k * b < b else b < a - k * b <= 0.0
  {
    DistributeSub(b, q, k);
    assert rest * b == a - k * b;
    if b > 0.0 {
      ShareOf(rest, b);
    } else {
      ShareOf(rest, -b);
      assert rest * (-b) == -(rest * b);
    }
  }

  /** The remainder lies between zero and the divisor, on the divisor's side. */
  lemma ModSign(a: real, b: real)
    requires b != 0.0
    ensures var r := SafeMod(Fin(a), Fin(b)).v;
      if b > 0.0 then 0.0 <= r < b else b < r <= 0.0
  {
    var q := a / b;
    FloorBelow(q);
    DivMul(a, b);
    RemainderIs(a, b, q, q.Floor as real, q - q.Floor as real);
  }
}

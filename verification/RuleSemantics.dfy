/** What a rule means at a row, and why evaluating it on columns, on windows and on scalars gives that meaning. */
module RuleSemantics {
  import opened Domain
  import opened RuleSyntax
  import opened RuleEvaluator

  /** A window of bars with its indicator columns. */
  datatype Frame = Frame(rows: nat, columns: map<string, seq<Float>>) {
    ghost predicate Valid() {
      forall id | id in columns :: |columns[id]| == rows
    }

    function Cell(id: string, t: int): Float {
      if id in columns && 0 <= t < |columns[id]| then columns[id][t] else NaN
    }
  }

  function Nums(xs: seq<Float>): seq<Atom> {
    seq(|xs|, i requires 0 <= i < |xs| => Num(xs[i]))
  }

  /** The context of the vectorized path: every name is a column. */
  function Columns(f: Frame): Context {
    map id | id in f.columns :: Column(Nums(f.columns[id]))
  }

  /** The context of a single bar: every name is a scalar. */
  function RowScalars(f: Frame, t: int): Context {
    map id | id in f.columns :: Scalar(Num(f.Cell(id, t)))
  }

  // ---- meaning ----

  /** Over columns, an expression is a column exactly when it mentions a name. */
  predicate Columnar(n: Node)
    decreases n
  {
    match n
    case BoolOp(_, first, rest) => Columnar(first) || AnyColumnar(rest)
    case UnaryOp(_, operand) => Columnar(operand)
    case BinOp(left, _, right) => Columnar(left) || Columnar(right)
    case Compare(subject, links) => Columnar(subject) || LinksColumnar(links)
    case Name(_) => true
    case Constant(_) => false
    case Call(_, args, _) => AnyColumnar(args)
    case Other(_) => false
  }

  predicate AnyColumnar(ns: seq<Node>)
    decreases ns
  {
    ns != [] && (Columnar(ns[0]) || AnyColumnar(ns[1..]))
  }

  predicate LinksColumnar(links: Links)
    decreases links
  {
    links.Then? && (Columnar(links.next) || LinksColumnar(links.more))
  }

  /** `where`'s choice between `x` and `y`: the left operand of the comparison must win it. */
  function Picked(op: Comparison, x: Float, y: Float): Float {
    if Compares(op, x, y) then x else y
  }

  /** The minimum or maximum of `x` and `y`, in the form that the shapes of the operands select. */
  function ExtremeOf(keep: Comparison, beats: Comparison, xColumn: bool, yColumn: bool, x: Float, y: Float): Float {
    if xColumn then Picked(keep, x, y) else if yColumn then Picked(keep, y, x) else Picked(beats, y, x)
  }

  /** `was` held between the previous values and `now` holds between the current ones. */
  predicate Crosses(was: Comparison, now: Comparison, x0: Float, y0: Float, x1: Float, y1: Float) {
    Compares(was, x0, y0) && Compares(now, x1, y1)
  }

  /** The meaning of a well-typed rule at row `t`: a number, or a truth value. */
  function Meaning(n: Node, f: Frame, t: nat): Atom
    decreases n, 0
  {
    match n
    case BoolOp(op, first, rest) =>
      Bool(if op.And? then IsTrue(first, f, t) && EachTrue(rest, f, t) else IsTrue(first, f, t) || SomeTrue(rest, f, t))
    case UnaryOp(op, operand) =>
      if op.Not? then Bool(!IsTrue(operand, f, t))
      else if op.USub? then Num(NegateFloat(NumberOf(operand, f, t)))
      else Num(NumberOf(operand, f, t))
    case BinOp(left, op, right) => Num(Arith(op, NumberOf(left, f, t), NumberOf(right, f, t)))
    case Compare(subject, links) => Bool(ChainHolds(NumberOf(subject, f, t), links, f, t))
    case Name(id) => Num(f.Cell(id, t))
    case Constant(literal) =>
      (match literal case Number(x) => Num(Fin(x)) case Boolean(b) => Bool(b) case _ => NoneAtom)
    case Call(func, args, _) =>
      if !func.Name? then NoneAtom
      else if func.id == "abs" && |args| == 1 then Num(AbsFloat(NumberOf(args[0], f, t)))
      else if |args| != 2 then NoneAtom
      else
        var a, b := args[0], args[1];
        var x, y := NumberOf(a, f, t), NumberOf(b, f, t);
        if func.id == "crossover" then
          Bool(t > 0 && Crosses(LtE, Gt, NumberOf(a, f, t - 1), NumberOf(b, f, t - 1), x, y))
        else if func.id == "crossunder" then
          Bool(t > 0 && Crosses(GtE, Lt, NumberOf(a, f, t - 1), NumberOf(b, f, t - 1), x, y))
        else if func.id == "min" then Num(ExtremeOf(LtE, Lt, Columnar(a), Columnar(b), x, y))
        else if func.id == "max" then Num(ExtremeOf(GtE, Gt, Columnar(a), Columnar(b), x, y))
        else NoneAtom
    case Other(_) => NoneAtom
  }

  predicate IsTrue(n: Node, f: Frame, t: nat)
    decreases n, 1
  {
    Meaning(n, f, t) == Bool(true)
  }

  /** A truth value counts as 0 or 1 where a number is compared. */
  function NumberOf(n: Node, f: Frame, t: nat): Float
    decreases n, 1
  {
    AsFloat(Meaning(n, f, t))
  }

  predicate EachTrue(ns: seq<Node>, f: Frame, t: nat)
    decreases ns, 0
  {
    ns != [] ==> IsTrue(ns[0], f, t) && EachTrue(ns[1..], f, t)
  }

  predicate SomeTrue(ns: seq<Node>, f: Frame, t: nat)
    decreases ns, 0
  {
    ns != [] && (IsTrue(ns[0], f, t) || SomeTrue(ns[1..], f, t))
  }

  predicate ChainHolds(left: Float, links: Links, f: Frame, t: nat)
    decreases links, 0
  {
    links.Then? ==>
      var right := NumberOf(links.next, f, t);
      Compares(links.cmp, left, right) && ChainHolds(right, links.more, f, t)
  }


  // ---- operand types ----

  datatype Kind = Numeric | Truth

  predicate OfKind(a: Atom, k: Kind) {
    if k.Numeric? then a.Num? else a.Bool?
  }

  /** The type of an expression whose names are numbers; none if some operand would clash. */
  function KindOf(n: Node): Option<Kind>
    decreases n
  {
    match n
    case BoolOp(_, first, rest) => if KindOf(first) == Some(Truth) && AllOfKind(rest, Truth) then Some(Truth) else None
    case UnaryOp(op, operand) => if KindOf(operand) == Some(if op.Not? then Truth else Numeric) then KindOf(operand)
      else None
    case BinOp(left, _, right) => if KindOf(left) == KindOf(right) == Some(Numeric) then Some(Numeric) else None
    case Compare(subject, links) => if KindOf(subject).Some? && links.Then? && LinksTyped(links) then Some(Truth)
      else None
    case Name(_) => Some(Numeric)
    case Constant(literal) => if literal.Number? then Some(Numeric) else if literal.Boolean? then Some(Truth) else None
    case Call(func, args, _) =>
      if !func.Name? then None
      else if func.id == "crossover" || func.id == "crossunder" then if AllTyped(args) then Some(Truth) else None
      else if AllOfKind(args, Numeric) then Some(Numeric) else None
    case Other(_) => None
  }

  predicate AllOfKind(ns: seq<Node>, k: Kind)
    decreases ns
  {
    ns != [] ==> KindOf(ns[0]) == Some(k) && AllOfKind(ns[1..], k)
  }

  predicate AllTyped(ns: seq<Node>)
    decreases ns
  {
    ns != [] ==> KindOf(ns[0]).Some? && AllTyped(ns[1..])
  }

  predicate LinksTyped(links: Links)
    decreases links
  {
    links.Then? ==> KindOf(links.next).Some? && LinksTyped(links.more)
  }

  /** A rule the validator accepts over `names` and whose operands are well typed. */
  ghost predicate Typed(n: Node, names: set<string>) {
    Validate(n, names).None? && KindOf(n).Some?
  }

  lemma MeaningOfKind(n: Node, f: Frame, t: nat)
    requires KindOf(n).Some? && Validate(n, f.columns.Keys).None?
    ensures OfKind(Meaning(n, f, t), KindOf(n).value)
  {
  }

  // ---- columns of meanings ----

  function Meanings(n: Node, f: Frame): seq<Atom> {
    seq(f.rows, t requires 0 <= t < f.rows => Meaning(n, f, t))
  }

  /** `v` is the column `cells`, or a scalar standing for equal cells. */
  ghost predicate Agrees(v: Value, columnar: bool, cells: seq<Atom>) {
    if columnar then v == Column(cells) else v.Scalar? && forall i | 0 <= i < |cells| :: cells[i] == v.atom
  }

  lemma Lift1Agrees(op: Unary, x: Value, columnar: bool, xs: seq<Atom>, zs: seq<Atom>)
    requires Agrees(x, columnar, xs) && |xs| == |zs| > 0
    requires forall i | 0 <= i < |xs| :: Apply1(op, xs[i]) == Ok(zs[i])
    ensures Lift1(op, x).Ok? && Agrees(Lift1(op, x).value, columnar, zs)
  {
    hide Apply1;
    if columnar {
      assert Lift1(op, x).value.cells == zs;
    } else {
      assert xs[0] == x.atom;
    }
  }

  lemma Lift2Agrees(op: Binary, x: Value, xc: bool, xs: seq<Atom>, y: Value, yc: bool, ys: seq<Atom>, zs: seq<Atom>)
    requires Agrees(x, xc, xs) && Agrees(y, yc, ys) && |xs| == |ys| == |zs| > 0
    requires forall i | 0 <= i < |zs| :: Apply2(op, xs[i], ys[i]) == Ok(zs[i])
    ensures Lift2(op, x, y).Ok? && Agrees(Lift2(op, x, y).value, xc || yc, zs)
  {
    hide Apply2;
    if xc || yc {
      assert forall i | 0 <= i < |zs| :: At(x, i) == xs[i] && At(y, i) == ys[i];
      assert Lift2(op, x, y).Ok?;
      assert Lift2(op, x, y).value.cells == zs;
    } else {
      assert xs[0] == x.atom && ys[0] == y.atom;
    }
  }

  function Previous(columnar: bool, xs: seq<Atom>): seq<Atom>
    requires xs != []
  {
    if columnar then [Num(NaN)] + xs[..|xs| - 1] else xs
  }

  lemma ShiftAgrees(x: Value, columnar: bool, xs: seq<Atom>)
    requires Agrees(x, columnar, xs) && xs != []
    ensures Agrees(ShiftPrev(x), columnar, Previous(columnar, xs)) && |Previous(columnar, xs)| == |xs|
  {
  }

  ghost predicate NoNones(xs: seq<Atom>) {
    forall i | 0 <= i < |xs| :: !xs[i].NoneAtom?
  }

  ghost predicate Opposite(was: Comparison, now: Comparison) {
    (was.LtE? && now.Gt?) || (was.GtE? && now.Lt?)
  }

  function CrossCell(was: Comparison, now: Comparison, xs: seq<Atom>, ys: seq<Atom>, i: nat): bool
    requires i < |xs| == |ys|
  {
    i > 0 && Crosses(was, now, AsFloat(xs[i - 1]), AsFloat(ys[i - 1]), AsFloat(xs[i]), AsFloat(ys[i]))
  }

  function CompareCells(op: Comparison, xs: seq<Atom>, ys: seq<Atom>): seq<Atom>
    requires |xs| == |ys|
  {
    seq(|xs|, i requires 0 <= i < |xs| => Bool(Compares(op, AsFloat(xs[i]), AsFloat(ys[i]))))
  }

  lemma ComparingAgrees(op: Comparison, x: Value, xc: bool, xs: seq<Atom>, y: Value, yc: bool, ys: seq<Atom>)
    requires NoNones(xs) && NoNones(ys)
    requires Agrees(x, xc, xs) && Agrees(y, yc, ys) && |xs| == |ys| > 0
    ensures Lift2(Comparing(op), x, y).Ok?
    ensures Agrees(Lift2(Comparing(op), x, y).value, xc || yc, CompareCells(op, xs, ys))
  {
    Lift2Agrees(Comparing(op), x, xc, xs, y, yc, ys, CompareCells(op, xs, ys));
  }

  /** Shifting and comparing each side gives, at each row, the crossing of that row. */
  lemma CrossCells(was: Comparison, now: Comparison, x: Value, xc: bool, xs: seq<Atom>, y: Value, yc: bool,
                   ys: seq<Atom>, i: nat)
    requires Opposite(was, now) && i < |xs| == |ys|
    requires Agrees(x, xc, xs) && Agrees(y, yc, ys)
    requires |Previous(xc, xs)| == |Previous(yc, ys)| == |xs|
    ensures CompareCells(was, Previous(xc, xs), Previous(yc, ys))[i].truth && CompareCells(now, xs, ys)[i].truth
        <==> CrossCell(was, now, xs, ys, i)
  {
    var ps, qs := Previous(xc, xs), Previous(yc, ys);
    if i > 0 {
      assert ps[i] == xs[i - 1] && qs[i] == ys[i - 1];
    } else if xc || yc {
      assert xc ==> ps[0] == Num(NaN);
      assert yc ==> qs[0] == Num(NaN);
    }
  }

  /** A crossing compares the previous rows one way and the current rows the other; the first row never crosses. */
  lemma CrossingAgrees(was: Comparison, now: Comparison, x: Value, xc: bool, xs: seq<Atom>, y: Value, yc: bool,
                       ys: seq<Atom>, zs: seq<Atom>)
    requires Opposite(was, now) && NoNones(xs) && NoNones(ys)
    requires Agrees(x, xc, xs) && Agrees(y, yc, ys) && |xs| == |ys| == |zs| > 0
    requires forall i | 0 <= i < |zs| :: zs[i] == Bool(CrossCell(was, now, xs, ys, i))
    ensures Crossing(was, now, x, y).Ok? && Agrees(Crossing(was, now, x, y).value, xc || yc, zs)
  {
    var ps, qs := Previous(xc, xs), Previous(yc, ys);
    ShiftAgrees(x, xc, xs);
    ShiftAgrees(y, yc, ys);
    ComparingAgrees(was, ShiftPrev(x), xc, ps, ShiftPrev(y), yc, qs);
    ComparingAgrees(now, x, xc, xs, y, yc, ys);
    var before, after := CompareCells(was, ps, qs), CompareCells(now, xs, ys);
    forall i | 0 <= i < |zs|
      ensures Apply2(Logic(And), before[i], after[i]) == Ok(zs[i])
    {
      CrossCells(was, now, x, xc, xs, y, yc, ys, i);
    }
    hide Lift2, ShiftPrev, Agrees, Previous, CompareCells, CrossCell, Apply2;
    Lift2Agrees(Logic(And), Lift2(Comparing(was), ShiftPrev(x), ShiftPrev(y)).value, xc || yc, before,
                Lift2(Comparing(now), x, y).value, xc || yc, after, zs);
  }

  ghost predicate AllNums(xs: seq<Atom>) {
    forall i | 0 <= i < |xs| :: xs[i].Num?
  }

  lemma ExtremeAgrees(keep: Comparison, beats: Comparison, x: Value, xc: bool, xs: seq<Atom>, y: Value, yc: bool,
                      ys: seq<Atom>, zs: seq<Atom>)
    requires AllNums(xs) && AllNums(ys)
    requires Agrees(x, xc, xs) && Agrees(y, yc, ys) && |xs| == |ys| == |zs| > 0
    requires forall i | 0 <= i < |zs| :: zs[i] == Num(ExtremeOf(keep, beats, xc, yc, xs[i].num, ys[i].num))
    ensures Extreme(keep, beats, x, y).Ok? && Agrees(Extreme(keep, beats, x, y).value, xc || yc, zs)
  {
    if xc {
      Lift2Agrees(Pick(keep), x, xc, xs, y, yc, ys, zs);
    } else if yc {
      Lift2Agrees(Pick(keep), y, yc, ys, x, xc, xs, zs);
    } else {
      Lift2Agrees(Prefer(beats), x, xc, xs, y, yc, ys, zs);
    }
  }

  // ---- the vectorized path means what the rule means, row by row ----

  ghost predicate Usable(f: Frame) {
    f.Valid() && f.rows > 0
  }

  /** `r` succeeded with the meanings of `n` in the rows of `f`. */
  ghost predicate Means(r: Result<Value>, n: Node, f: Frame) {
    r.Ok? && Agrees(r.value, Columnar(n), Meanings(n, f))
  }

  ghost predicate AllMean(vs: seq<Value>, ns: seq<Node>, f: Frame) {
    && |vs| == |ns|
    && forall k | 0 <= k < |ns| :: Agrees(vs[k], Columnar(ns[k]), Meanings(ns[k], f))
  }

  function FoldCell(op: BoolOperator, truth: bool, ns: seq<Node>, f: Frame, t: nat): bool {
    if op.And? then truth && EachTrue(ns, f, t) else truth || SomeTrue(ns, f, t)
  }

  function Joined(op: BoolOperator, a: bool, b: bool): bool {
    if op.And? then a && b else a || b
  }

  lemma FoldCellStep(op: BoolOperator, cell: Atom, ns: seq<Node>, f: Frame, t: nat)
    requires ns != [] && AllOfKind(ns, Truth) && ValidateAll(ns, f.columns.Keys).None?
    requires cell.Bool? && t < f.rows
    ensures var next := Bool(Joined(op, cell.truth, IsTrue(ns[0], f, t)));
      && Apply2(Logic(op), cell, Meanings(ns[0], f)[t]) == Ok(next)
      && FoldCell(op, next.truth, ns[1..], f, t) == FoldCell(op, cell.truth, ns, f, t)
  {
    MeaningOfKind(ns[0], f, t);
    hide Meaning;
  }

  lemma {:induction false} FoldMeans(op: BoolOperator, acc: Value, columnar: bool, cells: seq<Atom>, vs: seq<Value>,
                                     ns: seq<Node>, f: Frame, zs: seq<Atom>)
    requires Usable(f) && AllOfKind(ns, Truth) && ValidateAll(ns, f.columns.Keys).None? && AllMean(vs, ns, f)
    requires |cells| == |zs| == f.rows && Agrees(acc, columnar, cells)
    requires forall t | 0 <= t < f.rows :: cells[t].Bool? && zs[t] == Bool(FoldCell(op, cells[t].truth, ns, f, t))
    ensures var r := FoldLogic(op, acc, vs); r.Ok? && Agrees(r.value, columnar || AnyColumnar(ns), zs)
    decreases |ns|
  {
    if ns == [] {
      assert cells == zs;
    } else {
      var ms := Meanings(ns[0], f);
      var next := seq(f.rows, t requires 0 <= t < f.rows => Bool(Joined(op, cells[t].truth, IsTrue(ns[0], f, t))));
      forall t | 0 <= t < f.rows
        ensures Apply2(Logic(op), cells[t], ms[t]) == Ok(next[t])
        ensures zs[t] == Bool(FoldCell(op, next[t].truth, ns[1..], f, t))
      {
        FoldCellStep(op, cells[t], ns, f, t);
      }
      hide FoldCell, Joined, IsTrue, Meaning, Apply2, Lift2;
      Lift2Agrees(Logic(op), acc, columnar, cells, vs[0], Columnar(ns[0]), ms, next);
      var r := Lift2(Logic(op), acc, vs[0]);
      FoldMeans(op, r.value, columnar || Columnar(ns[0]), next, vs[1..], ns[1..], f, zs);
    }
  }

  lemma MeaningsAreNums(n: Node, f: Frame)
    requires KindOf(n) == Some(Numeric) && Validate(n, f.columns.Keys).None?
    ensures AllNums(Meanings(n, f))
  {
    forall t: nat | t < f.rows
      ensures Meanings(n, f)[t].Num?
    {
      MeaningOfKind(n, f, t);
    }
  }

  lemma MeaningsHaveNoNones(n: Node, f: Frame)
    requires KindOf(n).Some? && Validate(n, f.columns.Keys).None?
    ensures NoNones(Meanings(n, f))
  {
    forall t: nat | t < f.rows
      ensures !Meanings(n, f)[t].NoneAtom?
    {
      MeaningOfKind(n, f, t);
    }
  }

  lemma LinkStep(cmp: Comparison, left: Value, leftC: bool, lefts: seq<Atom>, right: Value, n: Node, f: Frame,
                 zs: seq<Atom>)
    requires Usable(f) && KindOf(n).Some? && Validate(n, f.columns.Keys).None?
    requires |lefts| == |zs| == f.rows && NoNones(lefts) && Agrees(left, leftC, lefts)
    requires Agrees(right, Columnar(n), Meanings(n, f))
    requires forall t | 0 <= t < f.rows :: zs[t] == Bool(Compares(cmp, AsFloat(lefts[t]), NumberOf(n, f, t)))
    ensures var c := Lift2(Comparing(cmp), left, right);
      c.Ok? && Agrees(c.value, leftC || Columnar(n), zs)
  {
    MeaningsHaveNoNones(n, f);
    ComparingAgrees(cmp, left, leftC, lefts, right, Columnar(n), Meanings(n, f));
    assert CompareCells(cmp, lefts, Meanings(n, f)) == zs;
  }

  /** The rest of a chained comparison, given the previous operand and the conjunction so far. */
  lemma {:induction false} LinksMean(left: Value, leftC: bool, lefts: seq<Atom>, acc: Value, accC: bool,
                                     accs: seq<Atom>, links: Links, f: Frame, zs: seq<Atom>)
    requires Usable(f) && LinksTyped(links) && ValidateLinks(links, f.columns.Keys).None?
    requires |lefts| == |accs| == |zs| == f.rows && NoNones(lefts)
    requires Agrees(left, leftC, lefts) && Agrees(acc, accC, accs) && (leftC ==> accC)
    requires forall t | 0 <= t < f.rows  ::
      accs[t].Bool? && zs[t] == Bool(accs[t].truth && ChainHolds(AsFloat(lefts[t]), links, f, t))
    ensures var r := EvalLinks(left, Some(acc), links, Columns(f));
      r.Ok? && Agrees(r.value, accC || LinksColumnar(links), zs)
    decreases links, 1
  {
    if links.NoMore? {
      assert accs == zs;
    } else {
      var n := links.next;
      ColumnsMean(n, f);
      hide Meaning, Lift2, Apply2, Columns;
      var right := EvalNode(n, Columns(f)).value;
      var cs := seq(f.rows,
        t requires 0 <= t < f.rows => Bool(Compares(links.cmp, AsFloat(lefts[t]), NumberOf(n, f, t))));
      LinkStep(links.cmp, left, leftC, lefts, right, n, f, cs);
      var c := Lift2(Comparing(links.cmp), left, right).value;
      var both := seq(f.rows, t requires 0 <= t < f.rows => Bool(accs[t].truth && cs[t].truth));
      AndAgrees(acc, accC, accs, c, leftC || Columnar(n), cs, both);
      MeaningsHaveNoNones(n, f);
      LinksMean(right, Columnar(n), Meanings(n, f),
                Lift2(Logic(And), acc, c).value, accC || Columnar(n), both, links.more, f, zs);
    }
  }

  lemma AndAgrees(x: Value, xc: bool, xs: seq<Atom>, y: Value, yc: bool, ys: seq<Atom>, zs: seq<Atom>)
    requires Agrees(x, xc, xs) && Agrees(y, yc, ys) && |xs| == |ys| == |zs| > 0
    requires forall i | 0 <= i < |zs| :: xs[i].Bool? && ys[i].Bool? && zs[i] == Bool(xs[i].truth && ys[i].truth)
    ensures Lift2(Logic(And), x, y).Ok? && Agrees(Lift2(Logic(And), x, y).value, xc || yc, zs)
  {
    Lift2Agrees(Logic(And), x, xc, xs, y, yc, ys, zs);
  }

  lemma {:induction false} CompareMeans(subject: Node, links: Links, f: Frame)
    requires Usable(f) && Typed(Compare(subject, links), f.columns.Keys)
    requires Means(EvalNode(subject, Columns(f)), subject, f)
    ensures Means(EvalNode(Compare(subject, links), Columns(f)), Compare(subject, links), f)
    decreases links, 2
  {
    assert KindOf(subject).Some? && LinksTyped(links) && Validate(subject, f.columns.Keys).None?;
    assert ValidateLinks(links, f.columns.Keys).None?;
    var n := links.next;
    ColumnsMean(n, f);
    hide Lift2, Apply2, Columns;
    var left, right := EvalNode(subject, Columns(f)).value, EvalNode(n, Columns(f)).value;
    var cs := seq(f.rows,
      t requires 0 <= t < f.rows => Bool(Compares(links.cmp, NumberOf(subject, f, t), NumberOf(n, f, t))));
    MeaningsHaveNoNones(subject, f);
    MeaningsHaveNoNones(n, f);
    LinkStep(links.cmp, left, Columnar(subject), Meanings(subject, f), right, n, f, cs);
    var c := Lift2(Comparing(links.cmp), left, right).value;
    forall t: nat | t < f.rows
      ensures Meaning(Compare(subject, links), f, t)
          == Bool(cs[t].truth && ChainHolds(NumberOf(n, f, t), links.more, f, t))
    {
      CompareMeaning(subject, links, f, t);
    }
    LinksMean(right, Columnar(n), Meanings(n, f),
              c, Columnar(subject) || Columnar(n), cs, links.more, f, Meanings(Compare(subject, links), f));
    assert EvalLinks(left, None, links, Columns(f)) == EvalLinks(right, Some(c), links.more, Columns(f));
    assert Columnar(Compare(subject, links)) == (Columnar(subject) || LinksColumnar(links));
  }

  lemma CompareMeaning(subject: Node, links: Links, f: Frame, t: nat)
    requires links.Then?
    ensures var right := NumberOf(links.next, f, t);
      Meaning(Compare(subject, links), f, t) ==
        Bool(Compares(links.cmp, NumberOf(subject, f, t), right) && ChainHolds(right, links.more, f, t))
  {
    hide NumberOf;
  }

  lemma {:induction false} AllColumnsMean(ns: seq<Node>, f: Frame)
    requires Usable(f) && AllTyped(ns) && ValidateAll(ns, f.columns.Keys).None?
    ensures EvalAll(ns, Columns(f)).Ok? && AllMean(EvalAll(ns, Columns(f)).value, ns, f)
    decreases ns
  {
    if ns != [] {
      ColumnsMean(ns[0], f);
      AllColumnsMean(ns[1..], f);
      hide Meanings, Columns;
    }
  }

  lemma {:induction false} KindAllTyped(ns: seq<Node>, k: Kind)
    requires AllOfKind(ns, k)
    ensures AllTyped(ns)
    ensures forall i | 0 <= i < |ns| :: KindOf(ns[i]) == Some(k)
    decreases |ns|
  {
    if ns != [] { KindAllTyped(ns[1..], k); }
  }

  lemma {:induction false} EachValid(ns: seq<Node>, names: set<string>)
    requires ValidateAll(ns, names).None? && AllTyped(ns)
    ensures forall i | 0 <= i < |ns| :: Validate(ns[i], names).None? && KindOf(ns[i]).Some?
    decreases |ns|
  {
    if ns != [] { EachValid(ns[1..], names); }
  }

  lemma CallMeans(func: Node, args: seq<Node>, f: Frame)
    requires Usable(f) && Typed(Call(func, args, 0), f.columns.Keys) && AllTyped(args)
    requires EvalAll(args, Columns(f)).Ok? && AllMean(EvalAll(args, Columns(f)).value, args, f)
    ensures Means(EvalNode(Call(func, args, 0), Columns(f)), Call(func, args, 0), f)
  {
    EachValid(args, f.columns.Keys);
    if func.id == "abs" {
      AbsMeans(func, args, f);
    } else if func.id == "crossover" || func.id == "crossunder" {
      CrossMeans(func, args, f);
    } else {
      KindAllTyped(args, Numeric);
      ExtremeMeans(func, args, f);
    }
  }

  lemma TwoColumnar(ns: seq<Node>)
    requires |ns| == 2
    ensures AnyColumnar(ns) == (Columnar(ns[0]) || Columnar(ns[1]))
  {
    assert AnyColumnar(ns[1..]) == (Columnar(ns[1..][0]) || AnyColumnar(ns[1..][1..]));
  }

  lemma AbsArgument(func: Node, args: seq<Node>, names: set<string>)
    requires Typed(Call(func, args, 0), names) && func.id == "abs"
    requires forall i | 0 <= i < |args| :: Validate(args[i], names).None?
    ensures |args| == 1 && KindOf(args[0]) == Some(Numeric) && Validate(args[0], names).None?
  {
    assert func.id != "crossover" && func.id != "crossunder";
    assert AllOfKind(args, Numeric);
  }

  /** A call to `abs` maps the value of its one argument. */
  lemma AbsLifts(func: Node, args: seq<Node>, f: Frame)
    requires func.Name? && func.id == "abs" && |args| == 1 && EvalAll(args, Columns(f)).Ok?
    requires |EvalAll(args, Columns(f)).value| == 1
    ensures EvalNode(Call(func, args, 0), Columns(f)) == Lift1(Absolute, EvalAll(args, Columns(f)).value[0])
    ensures Columnar(Call(func, args, 0)) == Columnar(args[0])
  {
    var vs := EvalAll(args, Columns(f)).value;
    assert func.id != "crossover" && func.id != "crossunder";
    assert CallHelper(func.id, vs) == Lift1(Absolute, vs[0]) by { hide Lift1, EvalAll; }
    assert args[1..] == [] && AnyColumnar(args) == Columnar(args[0]);
    hide Lift1, CallHelper;
  }

  lemma AbsMeaning(func: Node, args: seq<Node>, f: Frame, t: nat)
    requires Typed(Call(func, args, 0), f.columns.Keys) && func.id == "abs"
    requires |args| == 1 && KindOf(args[0]) == Some(Numeric) && Validate(args[0], f.columns.Keys).None?
    ensures Apply1(Absolute, Meaning(args[0], f, t)) == Ok(Meaning(Call(func, args, 0), f, t))
  {
    MeaningOfKind(args[0], f, t);
    assert Meaning(Call(func, args, 0), f, t) == Num(AbsFloat(NumberOf(args[0], f, t)));
  }

  lemma AbsMeans(func: Node, args: seq<Node>, f: Frame)
    requires Usable(f) && Typed(Call(func, args, 0), f.columns.Keys) && func.id == "abs"
    requires EvalAll(args, Columns(f)).Ok? && AllMean(EvalAll(args, Columns(f)).value, args, f)
    requires forall i | 0 <= i < |args| :: Validate(args[i], f.columns.Keys).None?
    ensures Means(EvalNode(Call(func, args, 0), Columns(f)), Call(func, args, 0), f)
  {
    AbsArgument(func, args, f.columns.Keys);
    var vs, n := EvalAll(args, Columns(f)).value, Call(func, args, 0);
    AbsLifts(func, args, f);
    hide EvalNode, EvalAll, Columnar, Lift1, Meaning, Typed, KindOf, Validate, Apply1;
    forall t: nat | t < f.rows
      ensures Apply1(Absolute, Meanings(args[0], f)[t]) == Ok(Meanings(n, f)[t])
    {
      AbsMeaning(func, args, f, t);
    }
    Lift1Agrees(Absolute, vs[0], Columnar(args[0]), Meanings(args[0], f), Meanings(n, f));
  }

  lemma CrossMeans(func: Node, args: seq<Node>, f: Frame)
    requires Usable(f) && Typed(Call(func, args, 0), f.columns.Keys)
        && (func.id == "crossover" || func.id == "crossunder")
    requires EvalAll(args, Columns(f)).Ok? && AllMean(EvalAll(args, Columns(f)).value, args, f)
    requires forall i | 0 <= i < |args| :: Validate(args[i], f.columns.Keys).None? && KindOf(args[i]).Some?
    ensures Means(EvalNode(Call(func, args, 0), Columns(f)), Call(func, args, 0), f)
  {
    var vs, n := EvalAll(args, Columns(f)).value, Call(func, args, 0);
    var was, now := if func.id == "crossover" then LtE else GtE, if func.id == "crossover" then Gt else Lt;
    var xs, ys, zs := Meanings(args[0], f), Meanings(args[1], f), Meanings(n, f);
    MeaningsHaveNoNones(args[0], f);
    MeaningsHaveNoNones(args[1], f);
    TwoColumnar(args);
    forall t: nat | t < f.rows
      ensures zs[t] == Bool(CrossCell(was, now, xs, ys, t))
    {
      CrossMeaning(n, f, t);
    }
    hide Meaning, Meanings, Crossing;
    CrossingAgrees(was, now, vs[0], Columnar(args[0]), xs, vs[1], Columnar(args[1]), ys, zs);
  }

  lemma CrossMeaning(n: Node, f: Frame, t: nat)
    requires n.Call? && n.func.Name? && (n.func.id == "crossover" || n.func.id == "crossunder") && |n.args| == 2
    requires t < f.rows
    ensures var was, now := if n.func.id == "crossover" then LtE else GtE, if n.func.id == "crossover" then Gt else Lt;
      Meaning(n, f, t) == Bool(CrossCell(was, now, Meanings(n.args[0], f), Meanings(n.args[1], f), t))
  {
  }

  lemma ExtremeMeans(func: Node, args: seq<Node>, f: Frame)
    requires Usable(f) && Typed(Call(func, args, 0), f.columns.Keys) && (func.id == "min" || func.id == "max")
    requires EvalAll(args, Columns(f)).Ok? && AllMean(EvalAll(args, Columns(f)).value, args, f)
    requires forall i | 0 <= i < |args| :: Validate(args[i], f.columns.Keys).None? && KindOf(args[i]) == Some(Numeric)
    ensures Means(EvalNode(Call(func, args, 0), Columns(f)), Call(func, args, 0), f)
  {
    var vs, n := EvalAll(args, Columns(f)).value, Call(func, args, 0);
    var keep, beats := if func.id == "min" then LtE else GtE, if func.id == "min" then Lt else Gt;
    var xc, yc := Columnar(args[0]), Columnar(args[1]);
    var xs, ys, zs := Meanings(args[0], f), Meanings(args[1], f), Meanings(n, f);
    MeaningsAreNums(args[0], f);
    MeaningsAreNums(args[1], f);
    TwoColumnar(args);
    forall t | 0 <= t < f.rows
      ensures zs[t] == Num(ExtremeOf(keep, beats, xc, yc, xs[t].num, ys[t].num))
    {
      assert Meaning(n, f, t) == Num(ExtremeOf(keep, beats, xc, yc, NumberOf(args[0], f, t), NumberOf(args[1], f, t)));
    }
    hide Meaning, Meanings, Extreme;
    ExtremeAgrees(keep, beats, vs[0], xc, xs, vs[1], yc, ys, zs);
  }

  /** Evaluating a well-typed rule on columns succeeds, and its value in each row is the rule's meaning there. */
  lemma {:induction false} ColumnsMean(n: Node, f: Frame)
    requires Usable(f) && Typed(n, f.columns.Keys)
    ensures Means(EvalNode(n, Columns(f)), n, f)
    decreases n, 0
  {
    match n
    case BoolOp(op, first, rest) =>
      KindAllTyped(rest, Truth);
      ColumnsMean(first, f);
      AllColumnsMean(rest, f);
      BoolMeans(op, first, rest, f);
    case UnaryOp(op, operand) =>
      ColumnsMean(operand, f);
      UnaryMeans(op, operand, f);
    case BinOp(left, op, right) =>
      ColumnsMean(left, f);
      ColumnsMean(right, f);
      ArithmeticMeans(left, op, right, f);
    case Compare(subject, links) =>
      ColumnsMean(subject, f);
      CompareMeans(subject, links, f);
    case Name(id) =>
      assert Nums(f.columns[id]) == Meanings(n, f);
    case Constant(_) =>
    case Call(func, args, _) =>
      if func.id != "crossover" && func.id != "crossunder" { KindAllTyped(args, Numeric); }
      AllColumnsMean(args, f);
      CallMeans(func, args, f);
  }

  lemma ArithmeticMeans(left: Node, op: BinaryOperator, right: Node, f: Frame)
    requires Usable(f) && Typed(BinOp(left, op, right), f.columns.Keys)
    requires Means(EvalNode(left, Columns(f)), left, f) && Means(EvalNode(right, Columns(f)), right, f)
    ensures Means(EvalNode(BinOp(left, op, right), Columns(f)), BinOp(left, op, right), f)
  {
    var n := BinOp(left, op, right);
    var xs, ys, zs := Meanings(left, f), Meanings(right, f), Meanings(n, f);
    MeaningsAreNums(left, f);
    MeaningsAreNums(right, f);
    forall t | 0 <= t < f.rows
      ensures Apply2(Arithmetic(op), xs[t], ys[t]) == Ok(zs[t])
    {
      assert Meaning(n, f, t) == Num(Arith(op, NumberOf(left, f, t), NumberOf(right, f, t)));
    }
    Lift2Agrees(Arithmetic(op), EvalNode(left, Columns(f)).value, Columnar(left), xs,
                EvalNode(right, Columns(f)).value, Columnar(right), ys, zs);
  }

  lemma BoolMeans(op: BoolOperator, first: Node, rest: seq<Node>, f: Frame)
    requires Usable(f) && Typed(BoolOp(op, first, rest), f.columns.Keys)
    requires Means(EvalNode(first, Columns(f)), first, f)
    requires EvalAll(rest, Columns(f)).Ok? && AllMean(EvalAll(rest, Columns(f)).value, rest, f)
    ensures Means(EvalNode(BoolOp(op, first, rest), Columns(f)), BoolOp(op, first, rest), f)
  {
    var n := BoolOp(op, first, rest);
    forall t: nat | t < f.rows
      ensures Meanings(first, f)[t].Bool?
      ensures Meanings(n, f)[t] == Bool(FoldCell(op, Meanings(first, f)[t].truth, rest, f, t))
    {
      MeaningOfKind(first, f, t);
      assert Meaning(n, f, t) == Bool(FoldCell(op, IsTrue(first, f, t), rest, f, t));
    }
    FoldMeans(op, EvalNode(first, Columns(f)).value, Columnar(first), Meanings(first, f),
              EvalAll(rest, Columns(f)).value, rest, f, Meanings(n, f));
  }

  lemma UnaryMeaning(op: UnaryOperator, operand: Node, f: Frame, t: nat)
    ensures Meaning(UnaryOp(op, operand), f, t) ==
      if op.Not? then Bool(!IsTrue(operand, f, t))
      else if op.USub? then Num(NegateFloat(NumberOf(operand, f, t)))
      else Num(NumberOf(operand, f, t))
  {
  }

  lemma UnaryMeans(op: UnaryOperator, operand: Node, f: Frame)
    requires Usable(f) && Typed(UnaryOp(op, operand), f.columns.Keys)
    requires Means(EvalNode(operand, Columns(f)), operand, f)
    ensures Means(EvalNode(UnaryOp(op, operand), Columns(f)), UnaryOp(op, operand), f)
  {
    var n, v, xs := UnaryOp(op, operand), EvalNode(operand, Columns(f)).value, Meanings(operand, f);
    var lift := if op.Not? then (if v.Column? then NotColumn else NotScalar) else if op.USub? then Negate else Keep;
    forall t: nat | t < f.rows
      ensures Apply1(lift, xs[t]) == Ok(Meanings(n, f)[t])
    {
      MeaningOfKind(operand, f, t);
      UnaryMeaning(op, operand, f, t);
    }
    Lift1Agrees(lift, v, Columnar(operand), xs, Meanings(n, f));
  }
}

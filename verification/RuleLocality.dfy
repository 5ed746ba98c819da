/**
 A rule looks back exactly as far as its crossings nest: its value at a row depends on no later row and on no row
 further back. So a window of that many rows decides as the full run does; and without crossings one bar's scalars do.
 */
module RuleLocality {
  import opened Domain
  import opened RuleSyntax
  import opened RuleEvaluator
  import opened RuleSemantics

  predicate IsCross(func: Node) {
    func.Name? && (func.id == "crossover" || func.id == "crossunder")
  }

  /** How deeply crossings nest. */
  function Depth(n: Node): nat
    decreases n
  {
    match n
    case BoolOp(_, first, rest) => Max(Depth(first), DepthOfAll(rest))
    case UnaryOp(_, operand) => Depth(operand)
    case BinOp(left, _, right) => Max(Depth(left), Depth(right))
    case Compare(subject, links) => Max(Depth(subject), DepthOfLinks(links))
    case Call(func, args, _) => DepthOfAll(args) + if IsCross(func) then 1 else 0
    case _ => 0
  }

  function DepthOfAll(ns: seq<Node>): nat
    decreases ns
  {
    if ns == [] then 0 else Max(Depth(ns[0]), DepthOfAll(ns[1..]))
  }

  function DepthOfLinks(links: Links): nat
    decreases links
  {
    match links
    case NoMore => 0
    case Then(_, next, more) => Max(Depth(next), DepthOfLinks(more))
  }

  /** Row `t` of `f` and row `u` of `g` end the same last `d` + 1 rows, or the same whole history. */
  ghost predicate SameTail(f: Frame, t: nat, g: Frame, u: nat, d: nat) {
    && (t == u || (d <= t && d <= u))
    && forall id, i | 0 <= i <= t && t - d <= i :: f.Cell(id, i) == g.Cell(id, i + u - t)
  }

  lemma ShorterTail(f: Frame, t: nat, g: Frame, u: nat, d: nat, e: nat)
    requires SameTail(f, t, g, u, d) && e <= d
    ensures SameTail(f, t, g, u, e)
  {
  }

  lemma EarlierTail(f: Frame, t: nat, g: Frame, u: nat, d: nat)
    requires SameTail(f, t, g, u, d + 1)
    ensures (t > 0) == (u > 0) && (t > 0 ==> SameTail(f, t - 1, g, u - 1, d))
  {
  }

  /** The value of an expression at a row depends only on that row and the `Depth` rows before it. */
  lemma {:induction false} MeaningLocal(n: Node, f: Frame, t: nat, g: Frame, u: nat)
    requires SameTail(f, t, g, u, Depth(n))
    ensures Meaning(n, f, t) == Meaning(n, g, u)
    decreases n, 0
  {
    if n.Name? { assert g.Cell(n.id, t + u - t) == g.Cell(n.id, u); }
    hide SameTail;
    match n
    case BoolOp(_, first, rest) =>
      ShorterTail(f, t, g, u, Depth(n), Depth(first));
      ShorterTail(f, t, g, u, Depth(n), DepthOfAll(rest));
      MeaningLocal(first, f, t, g, u);
      EachLocal(rest, f, t, g, u);
    case UnaryOp(_, operand) => MeaningLocal(operand, f, t, g, u);
    case BinOp(left, _, right) =>
      ShorterTail(f, t, g, u, Depth(n), Depth(left));
      ShorterTail(f, t, g, u, Depth(n), Depth(right));
      MeaningLocal(left, f, t, g, u);
      MeaningLocal(right, f, t, g, u);
    case Compare(subject, links) =>
      ShorterTail(f, t, g, u, Depth(n), Depth(subject));
      ShorterTail(f, t, g, u, Depth(n), DepthOfLinks(links));
      MeaningLocal(subject, f, t, g, u);
      ChainLocal(NumberOf(subject, f, t), links, f, t, g, u);
    case Name(_) =>
    case Constant(_) =>
    case Call(func, args, keywords) =>
      ShorterTail(f, t, g, u, Depth(n), DepthOfAll(args));
      EachNumberLocal(args, f, t, g, u);
      if IsCross(func) {
        EarlierTail(f, t, g, u, DepthOfAll(args));
        if t > 0 { EachNumberLocal(args, f, t - 1, g, u - 1); }
      }
      CallLocal(func, args, keywords, f, t, g, u);
    case Other(_) =>
  }

  lemma CallLocal(func: Node, args: seq<Node>, keywords: nat, f: Frame, t: nat, g: Frame, u: nat)
    requires forall i | 0 <= i < |args| :: NumberOf(args[i], f, t) == NumberOf(args[i], g, u)
    requires IsCross(func) ==> (t > 0) == (u > 0)
    requires IsCross(func) && t > 0 ==> forall i | 0 <= i < |args| ::
        NumberOf(args[i], f, t - 1) == NumberOf(args[i], g, u - 1)
    ensures Meaning(Call(func, args, keywords), f, t) == Meaning(Call(func, args, keywords), g, u)
  {
    hide NumberOf;
  }

  lemma {:induction false} EachLocal(ns: seq<Node>, f: Frame, t: nat, g: Frame, u: nat)
    requires SameTail(f, t, g, u, DepthOfAll(ns))
    ensures EachTrue(ns, f, t) == EachTrue(ns, g, u) && SomeTrue(ns, f, t) == SomeTrue(ns, g, u)
    decreases ns, 0
  {
    if ns != [] {
      MeaningLocal(ns[0], f, t, g, u);
      EachLocal(ns[1..], f, t, g, u);
    }
  }

  lemma {:induction false} EachNumberLocal(ns: seq<Node>, f: Frame, t: nat, g: Frame, u: nat)
    requires SameTail(f, t, g, u, DepthOfAll(ns))
    ensures forall i | 0 <= i < |ns| :: NumberOf(ns[i], f, t) == NumberOf(ns[i], g, u)
    decreases ns, 0
  {
    if ns != [] {
      MeaningLocal(ns[0], f, t, g, u);
      EachNumberLocal(ns[1..], f, t, g, u);
    }
  }

  lemma {:induction false} ChainLocal(left: Float, links: Links, f: Frame, t: nat, g: Frame, u: nat)
    requires SameTail(f, t, g, u, DepthOfLinks(links))
    ensures ChainHolds(left, links, f, t) == ChainHolds(left, links, g, u)
    decreases links, 0
  {
    if links.Then? {
      MeaningLocal(links.next, f, t, g, u);
      ChainLocal(NumberOf(links.next, f, t), links.more, f, t, g, u);
    }
  }

  // ---- windows ----

  /** Rows `lo` to `hi` of a frame. */
  function Rows(f: Frame, lo: nat, hi: nat): Frame
    requires f.Valid() && lo <= hi <= f.rows
  {
    Frame(hi - lo, map id | id in f.columns :: f.columns[id][lo..hi])
  }

  lemma RowsSameTail(f: Frame, lo: nat, t: nat, d: nat)
    requires f.Valid() && lo <= t < f.rows && (lo == 0 || d <= t - lo)
    ensures SameTail(f, t, Rows(f, lo, t + 1), t - lo, d)
  {
  }

  /** The value that evaluating `n` over the columns of `f` gives row `t`. */
  function ValueAt(n: Node, f: Frame, t: nat): Atom
    requires Usable(f) && Typed(n, f.columns.Keys) && t < f.rows
  {
    ColumnsMean(n, f);
    At(EvalNode(n, Columns(f)).value, t)
  }

  lemma ValueAtIsMeaning(n: Node, f: Frame, t: nat)
    requires Usable(f) && Typed(n, f.columns.Keys) && t < f.rows
    ensures ValueAt(n, f, t) == Meaning(n, f, t)
  {
    ColumnsMean(n, f);
    hide EvalNode, Meaning, Validate, KindOf;
    assert Meanings(n, f)[t] == Meaning(n, f, t);
  }

  /**
   Window-locality: over any trailing window of more than `Depth(n)` rows, or over the whole prefix, the last value is
   the full run's value at that row. Nothing after the row matters.
   */
  lemma WindowSuffices(n: Node, f: Frame, lo: nat, t: nat)
    requires Usable(f) && Typed(n, f.columns.Keys)
    requires lo <= t < f.rows && (lo == 0 || Depth(n) <= t - lo)
    ensures Usable(Rows(f, lo, t + 1)) && Rows(f, lo, t + 1).columns.Keys == f.columns.Keys
    ensures ValueAt(n, Rows(f, lo, t + 1), t - lo) == ValueAt(n, f, t)
  {
    var g := Rows(f, lo, t + 1);
    assert g.columns.Keys == f.columns.Keys && Usable(g);
    hide *;
    ValueAtIsMeaning(n, f, t);
    ValueAtIsMeaning(n, g, t - lo);
    RowsSameTail(f, lo, t, Depth(n));
    MeaningLocal(n, f, t, g, t - lo);
  }

  // ---- how many rows a live caller must keep ----

  /** Where the last `w` rows up to row `t` begin. */
  function WindowStart(t: nat, w: nat): nat {
    if w < t + 1 then t + 1 - w else 0
  }

  /** Over the last `w` rows up to row `t`, or all of them, the rule has the full run's value at that row. */
  ghost predicate WindowSees(n: Node, f: Frame, t: nat, w: nat)
    requires Usable(f) && Typed(n, f.columns.Keys) && t < f.rows
  {
    var lo := WindowStart(t, w);
    var g := Rows(f, lo, t + 1);
    t - lo < g.rows && Usable(g) && Typed(n, g.columns.Keys) && ValueAt(n, g, t - lo) == ValueAt(n, f, t)
  }

  /** Windows of `w` rows are enough for every typed rule whose crossings nest `d` deep, on all frames and rows. */
  ghost predicate RowsSuffice(w: nat, d: nat) {
    forall n, f, t: nat | Depth(n) == d && Usable(f) && Typed(n, f.columns.Keys) && t < f.rows :: WindowSees(n, f, t, w)
  }

  const CLOSE := Name("close")

  function Closes(prices: seq<real>): Frame {
    Frame(|prices|, map["close" := seq(|prices|, i requires 0 <= i < |prices| => Fin(prices[i]))])
  }

  function Cross(helper: string, a: Node, level: real): Node {
    Call(Name(helper), [a, Constant(Number(level))], 0)
  }

  /** The close crossed above 5, `d - 1` bars ago. */
  function Nested(d: nat): Node
    requires 0 < d
  {
    if d == 1 then Cross("crossover", CLOSE, 5.0) else Cross("crossunder", Nested(d - 1), 0.5)
  }

  lemma CrossTyped(helper: string, a: Node, level: real, names: set<string>)
    requires helper == "crossover" || helper == "crossunder"
    requires Typed(a, names)
    ensures Typed(Cross(helper, a, level), names)
    ensures Depth(Cross(helper, a, level)) == Depth(a) + 1
  {
    var c := Constant(Number(level));
    var rest := [c];
    assert rest[1..] == [] && [a, c][1..] == rest;
    assert Validate(c, names).None? && KindOf(c).Some? && Depth(c) == 0;
    assert DepthOfAll(rest) == Max(Depth(rest[0]), DepthOfAll(rest[1..]));
    assert ValidateAll(rest, names).None? && AllTyped(rest) && DepthOfAll(rest) == 0;
    assert ValidateAll([a, c], names).None? && AllTyped([a, c]) && DepthOfAll([a, c]) == Depth(a);
  }

  lemma {:induction false} NestedTyped(d: nat, names: set<string>)
    requires 0 < d && "close" in names
    ensures Typed(Nested(d), names) && Depth(Nested(d)) == d
  {
    if d == 1 {
      assert "close"[0] == 'c' && "__"[0] == '_';
      assert Typed(CLOSE, names) && Depth(CLOSE) == 0;
      hide Typed, Depth;
      CrossTyped("crossover", CLOSE, 5.0, names);
    } else {
      NestedTyped(d - 1, names);
      hide Typed, Depth;
      CrossTyped("crossunder", Nested(d - 1), 0.5, names);
    }
  }

  lemma CrossAt(helper: string, a: Node, level: real, f: Frame, t: nat)
    requires helper == "crossover" || helper == "crossunder"
    ensures Meaning(Cross(helper, a, level), f, t) == Bool(t > 0 &&
      if helper == "crossover" then Crosses(LtE, Gt, NumberOf(a, f, t - 1), Fin(level), NumberOf(a, f, t), Fin(level))
      else Crosses(GtE, Lt, NumberOf(a, f, t - 1), Fin(level), NumberOf(a, f, t), Fin(level)))
  {
    assert NumberOf(Constant(Number(level)), f, t) == Fin(level);
    if t > 0 { assert NumberOf(Constant(Number(level)), f, t - 1) == Fin(level); }
    hide NumberOf;
  }

  lemma CloseAt(prices: seq<real>, t: nat)
    requires t < |prices|
    ensures NumberOf(CLOSE, Closes(prices), t) == Fin(prices[t])
  {
    assert Meaning(CLOSE, Closes(prices), t) == Num(Closes(prices).Cell("close", t));
  }

  /** Closes at 6, after one at `first`. */
  function Jump(first: real, rows: nat): seq<real> {
    seq(rows, i => if i == 0 then first else 6.0)
  }

  /** After a close at 4 the rule holds on row `d` alone; after one at 6 it holds nowhere. */
  lemma {:induction false} NestedAt(d: nat, first: real, rows: nat, t: nat)
    requires 0 < d && t < rows && (first == 4.0 || first == 6.0)
    ensures Meaning(Nested(d), Closes(Jump(first, rows)), t) == Bool(first == 4.0 && t == d)
  {
    var prices := Jump(first, rows);
    var f := Closes(prices);
    hide Meaning, Cross, Closes, CLOSE;
    if d == 1 {
      CloseAt(prices, t);
      if t > 0 { CloseAt(prices, t - 1); }
      CrossAt("crossover", CLOSE, 5.0, f, t);
    } else {
      NestedAt(d - 1, first, rows, t);
      if t > 0 { NestedAt(d - 1, first, rows, t - 1); }
      CrossAt("crossunder", Nested(d - 1), 0.5, f, t);
    }
  }

  lemma JumpWindow(rows: nat, w: nat, lo: nat)
    requires 0 < w < rows && lo == rows - w
    ensures Closes(Jump(4.0, rows)).rows == rows && Closes(Jump(6.0, w)).rows == w
    ensures Rows(Closes(Jump(4.0, rows)), lo, rows) == Closes(Jump(6.0, w))
  {
    var f := Closes(Jump(4.0, rows));
    assert Rows(f, lo, rows).columns["close"] == Closes(Jump(6.0, w)).columns["close"];
  }

  lemma NestedValue(d: nat, first: real, rows: nat, t: nat)
    requires 0 < d && t < rows && (first == 4.0 || first == 6.0)
    ensures var f := Closes(Jump(first, rows));
      && Usable(f) && Typed(Nested(d), f.columns.Keys)
      && ValueAt(Nested(d), f, t) == Bool(first == 4.0 && t == d)
  {
    var f := Closes(Jump(first, rows));
    NestedTyped(d, f.columns.Keys);
    assert Usable(f) && f.rows == rows;
    hide ValueAt, Meaning, Typed, Nested, Closes;
    NestedAt(d, first, rows, t);
    ValueAtIsMeaning(Nested(d), f, t);
  }

  lemma WindowMisses(n: Node, f: Frame, t: nat, w: nat, lo: nat, hi: nat, g: Frame)
    requires Usable(f) && Typed(n, f.columns.Keys) && t < f.rows && 0 < w <= t && lo == t + 1 - w && hi == t + 1
    requires g == Rows(f, lo, hi) && g.rows == w && Usable(g) && Typed(n, g.columns.Keys)
    requires ValueAt(n, g, w - 1) != ValueAt(n, f, t)
    ensures !WindowSees(n, f, t, w)
  {
    hide ValueAt, Typed, Rows, Usable;
  }

  /** Over closes 4, 6, ..., 6 the last `w` rows miss what the full run sees, for any `w` up to the depth. */
  lemma NestedNeedsMore(d: nat, w: nat)
    requires 0 < w <= d
    ensures var f := Closes(Jump(4.0, d + 1));
      Usable(f) && Typed(Nested(d), f.columns.Keys) && d < f.rows && !WindowSees(Nested(d), f, d, w)
  {
    hide *;
    var rows, lo := d + 1, d + 1 - w;
    var f, g := Closes(Jump(4.0, rows)), Closes(Jump(6.0, w));
    NestedValue(d, 4.0, rows, d);
    NestedValue(d, 6.0, w, w - 1);
    JumpWindow(rows, w, lo);
    WindowMisses(Nested(d), f, d, w, lo, rows, g);
  }

  lemma SeesIf(n: Node, f: Frame, t: nat, w: nat, lo: nat)
    requires Usable(f) && Typed(n, f.columns.Keys) && t < f.rows && lo == WindowStart(t, w) <= t
    requires Usable(Rows(f, lo, t + 1)) && Rows(f, lo, t + 1).columns.Keys == f.columns.Keys
    requires ValueAt(n, Rows(f, lo, t + 1), t - lo) == ValueAt(n, f, t)
    ensures WindowSees(n, f, t, w)
  {
    hide ValueAt, Typed, Usable;
  }

  lemma {:induction false} EnoughRows(n: Node, f: Frame, t: nat, w: nat)
    requires Usable(f) && Typed(n, f.columns.Keys) && t < f.rows && Depth(n) < w
    ensures WindowSees(n, f, t, w)
  {
    hide ValueAt, Typed, Depth, Rows, Usable, WindowSees;
    var lo := WindowStart(t, w);
    WindowSuffices(n, f, lo, t);
    SeesIf(n, f, t, w, lo);
  }

  /** Exactly: `w` rows are enough for all rules of depth `d`, on all frames and rows, if and only if `d < w`. */
  lemma RowsSufficeIff(w: nat, d: nat)
    requires 0 < w
    ensures RowsSuffice(w, d) <==> d < w
  {
    hide WindowSees, Typed, Depth, Usable;
    if d < w {
      forall n, f, t: nat | Depth(n) == d && Usable(f) && Typed(n, f.columns.Keys) && t < f.rows
        ensures WindowSees(n, f, t, w)
      {
        EnoughRows(n, f, t, w);
      }
    } else {
      NestedNeedsMore(d, w);
      NestedTyped(d, Closes(Jump(4.0, d + 1)).columns.Keys);
      hide Nested, Closes;
    }
  }

  /** `SpecInterpreter.LIVE_WINDOW`: the rows that the per-bar path is documented to need. */
  const LIVE_WINDOW := 2

  /** The documented two rows are enough exactly for rules whose crossings do not nest. */
  lemma LiveWindowSufficesIff(d: nat)
    ensures RowsSuffice(LIVE_WINDOW, d) <==> d <= 1
  {
    RowsSufficeIff(LIVE_WINDOW, d);
    hide RowsSuffice;
  }
}

/** Rule expressions as parsed, and the default-deny whitelist every rule must pass. */
module RuleSyntax {
  import opened Domain

  datatype BoolOperator = And | Or

  datatype UnaryOperator = Not | UAdd | USub | Invert

  /** `OtherBinary` stands for `**`, `//`, `@` and the bitwise and shift operators. */
  datatype BinaryOperator = Add | Sub | Mult | Div | Mod | OtherBinary

  /** `OtherComparison` stands for `is`, `is not`, `in` and `not in`. */
  datatype Comparison = Lt | LtE | Gt | GtE | Eq | NotEq | OtherComparison

  /** Numbers, booleans and `None`; `Text` stands for every other literal. */
  datatype Literal = Number(value: real) | Boolean(truth: bool) | NoneLiteral | Text

  /** An expression tree. `Other` is any node kind that has no case of its own. */
  datatype Node =
    | BoolOp(bop: BoolOperator, first: Node, rest: seq<Node>)
    | UnaryOp(uop: UnaryOperator, operand: Node)
    | BinOp(left: Node, op: BinaryOperator, right: Node)
    | Compare(subject: Node, links: Links)
    | Name(id: string)
    | Constant(literal: Literal)
    | Call(func: Node, args: seq<Node>, keywords: nat)
    | Other(kind: string)

  /** The `op right` pairs of a chained comparison. */
  datatype Links = NoMore | Then(cmp: Comparison, next: Node, more: Links)

  const HELPER_ARITY: map<string, nat> := map["crossover" := 2, "crossunder" := 2, "abs" := 1, "min" := 2, "max" := 2]

  datatype Problem =
    | UnsupportedOperator | DunderName | UnknownName | UnsupportedConstant
    | IndirectCall | UnknownFunction | KeywordArguments | WrongArgumentCount | UnsupportedSyntax

  predicate IsDunder(id: string) {
    "__" <= id
  }

  predicate OperatorsAllowed(links: Links) {
    links.Then? ==> !links.cmp.OtherComparison? && OperatorsAllowed(links.more)
  }

  function Earlier(a: Option<Problem>, b: Option<Problem>): Option<Problem> {
    if a.Some? then a else b
  }

  /** The first problem the validator raises on `n`, if any. */
  function Validate(n: Node, names: set<string>): Option<Problem>
    decreases n
  {
    match n
    case BoolOp(_, first, rest) => Earlier(Validate(first, names), ValidateAll(rest, names))
    case UnaryOp(op, operand) => if op.Invert? then Some(UnsupportedOperator) else Validate(operand, names)
    case BinOp(left, op, right) =>
      if op.OtherBinary? then Some(UnsupportedOperator) else Earlier(Validate(left, names), Validate(right, names))
    case Compare(subject, links) =>
      if !OperatorsAllowed(links) then Some(UnsupportedOperator)
      else Earlier(Validate(subject, names), ValidateLinks(links, names))
    case Name(id) => if IsDunder(id) then Some(DunderName) else if id !in names then Some(UnknownName) else None
    case Constant(literal) => if literal.Text? then Some(UnsupportedConstant) else None
    case Call(func, args, keywords) =>
      if !func.Name? then Some(IndirectCall)
      else if func.id !in HELPER_ARITY then Some(UnknownFunction)
      else if keywords > 0 then Some(KeywordArguments)
      else if |args| != HELPER_ARITY[func.id] then Some(WrongArgumentCount)
      else ValidateAll(args, names)
    case Other(_) => Some(UnsupportedSyntax)
  }

  function ValidateAll(ns: seq<Node>, names: set<string>): Option<Problem>
    decreases ns
  {
    if ns == [] then None else Earlier(Validate(ns[0], names), ValidateAll(ns[1..], names))
  }

  function ValidateLinks(links: Links, names: set<string>): Option<Problem>
    decreases links
  {
    match links
    case NoMore => None
    case Then(_, next, more) => Earlier(Validate(next, names), ValidateLinks(more, names))
  }

  // ---- what acceptance means ----

  /** A helper the language knows, with as many arguments as it takes. */
  predicate IsHelper(name: string, arity: nat) {
    || (name == "abs" && arity == 1)
    || (arity == 2 && (name == "crossover" || name == "crossunder" || name == "min" || name == "max"))
  }

  /** The operators of a chained comparison. */
  function ComparisonsOf(links: Links): set<Comparison> {
    if links.NoMore? then {} else {links.cmp} + ComparisonsOf(links.more)
  }

  /** `n`, taken on its own, is one of the permitted constructs. */
  predicate Whitelisted(n: Node, names: set<string>) {
    match n
    case BoolOp(_, _, _) => true
    case UnaryOp(op, _) => op.Not? || op.UAdd? || op.USub?
    case BinOp(_, op, _) => op.Add? || op.Sub? || op.Mult? || op.Div? || op.Mod?
    case Compare(_, links) => ComparisonsOf(links) <= {Lt, LtE, Gt, GtE, Eq, NotEq}
    case Name(id) => id in names && !(2 <= |id| && id[0] == '_' && id[1] == '_')
    case Constant(literal) => literal.Number? || literal.Boolean? || literal.NoneLiteral?
    case Call(func, args, keywords) => func.Name? && keywords == 0 && IsHelper(func.id, |args|)
    case Other(_) => false
  }

  lemma {:induction false} OperatorsListed(links: Links)
    ensures OperatorsAllowed(links) <==> ComparisonsOf(links) <= {Lt, LtE, Gt, GtE, Eq, NotEq}
  {
    if links.Then? {
      OperatorsListed(links.more);
      assert ComparisonsOf(links) == {links.cmp} + ComparisonsOf(links.more);
    }
  }

  lemma DunderIs(id: string)
    ensures IsDunder(id) <==> 2 <= |id| && id[0] == '_' && id[1] == '_'
  {
  }

  /** The nodes of `n` that evaluation visits. */
  function Visited(n: Node): set<Node>
    decreases n
  {
    {n} + match n
    case BoolOp(_, first, rest) => Visited(first) + VisitedAll(rest)
    case UnaryOp(_, operand) => Visited(operand)
    case BinOp(left, _, right) => Visited(left) + Visited(right)
    case Compare(subject, links) => Visited(subject) + VisitedLinks(links)
    case Call(_, args, _) => VisitedAll(args)
    case _ => {}
  }

  function VisitedAll(ns: seq<Node>): set<Node>
    decreases ns
  {
    if ns == [] then {} else Visited(ns[0]) + VisitedAll(ns[1..])
  }

  function VisitedLinks(links: Links): set<Node>
    decreases links
  {
    match links
    case NoMore => {}
    case Then(_, next, more) => Visited(next) + VisitedLinks(more)
  }

  ghost predicate AllWhitelisted(ns: set<Node>, names: set<string>) {
    forall n | n in ns :: Whitelisted(n, names)
  }

  /** Default deny: a rule is accepted if and only if every node that evaluation would visit is whitelisted. */
  lemma {:induction false} AcceptedIffWhitelisted(n: Node, names: set<string>)
    ensures Validate(n, names).None? <==> AllWhitelisted(Visited(n), names)
    decreases n
  {
    match n
    case BoolOp(_, first, rest) =>
      AcceptedIffWhitelisted(first, names);
      AllAcceptedIffWhitelisted(rest, names);
      assert Visited(n) == {n} + (Visited(first) + VisitedAll(rest));
    case UnaryOp(_, operand) => AcceptedIffWhitelisted(operand, names);
    case BinOp(left, _, right) =>
      AcceptedIffWhitelisted(left, names);
      AcceptedIffWhitelisted(right, names);
    case Compare(subject, links) =>
      OperatorsListed(links);
      AcceptedIffWhitelisted(subject, names);
      LinksAcceptedIffWhitelisted(links, names);
    case Call(_, args, _) => AllAcceptedIffWhitelisted(args, names);
    case Name(id) => DunderIs(id);
    case _ =>
  }

  lemma {:induction false} AllAcceptedIffWhitelisted(ns: seq<Node>, names: set<string>)
    ensures ValidateAll(ns, names).None? <==> AllWhitelisted(VisitedAll(ns), names)
    decreases ns
  {
    if ns != [] {
      AcceptedIffWhitelisted(ns[0], names);
      AllAcceptedIffWhitelisted(ns[1..], names);
    }
  }

  lemma {:induction false} LinksAcceptedIffWhitelisted(links: Links, names: set<string>)
    ensures ValidateLinks(links, names).None? <==> AllWhitelisted(VisitedLinks(links), names)
    decreases links
  {
    if links.Then? {
      AcceptedIffWhitelisted(links.next, names);
      LinksAcceptedIffWhitelisted(links.more, names);
    }
  }
}

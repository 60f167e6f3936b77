/**
 pkg/rules/parser.go: rule expressions compiled to trees of and/or over matchers, with negation
 pushed onto the matchers by an inversion that rewrites the tree in place.
 */
module Rules {

  const AND := "and"
  const OR := "or"

  predicate IsOperator(matcher: string) {
    matcher == AND || matcher == OR
  }

  /** The shape of a tree: operators inside, possibly negated matchers at the leaves. */
  datatype Tree =
    | Leaf(matcher: string, not: bool, value: seq<string>)
    | Branch(conjunction: bool, left: Tree, right: Tree)

  /** Whether a matcher with the given arguments matches the request at hand. */
  type Valuation = (string, seq<string>) -> bool

  /** How the muxer evaluates a tree. */
  predicate Matches(t: Tree, v: Valuation) {
    match t
    case Leaf(m, not, value) => if not then !v(m, value) else v(m, value)
    case Branch(conjunction, l, r) => if conjunction then Matches(l, v) && Matches(r, v) else Matches(l, v) || Matches(r, v)
  }

  function Inverted(t: Tree): Tree {
    match t
    case Leaf(m, not, value) => Leaf(m, !not, value)
    case Branch(conjunction, l, r) => Branch(!conjunction, Inverted(l), Inverted(r))
  }

  /** A rule as written. */
  datatype Expr =
    | Match(name: string, value: seq<string>)
    | And(left: Expr, right: Expr)
    | Or(left: Expr, right: Expr)
    | Not(operand: Expr)

  /** No matcher is named like an operator. */
  predicate WellNamed(e: Expr) {
    match e
    case Match(name, _) => !IsOperator(name)
    case And(l, r) => WellNamed(l) && WellNamed(r)
    case Or(l, r) => WellNamed(l) && WellNamed(r)
    case Not(x) => WellNamed(x)
  }

  predicate Holds(e: Expr, v: Valuation) {
    match e
    case Match(name, value) => v(name, value)
    case And(l, r) => Holds(l, v) && Holds(r, v)
    case Or(l, r) => Holds(l, v) || Holds(r, v)
    case Not(x) => !Holds(x, v)
  }

  /** The tree that the builders of an expression return. */
  function Compiled(e: Expr): Tree {
    match e
    case Match(name, value) => Leaf(name, false, value)
    case And(l, r) => Branch(true, Compiled(l), Compiled(r))
    case Or(l, r) => Branch(false, Compiled(l), Compiled(r))
    case Not(x) => Inverted(Compiled(x))
  }

  lemma {:induction false} InvertedNegates(t: Tree, v: Valuation)
    ensures Matches(Inverted(t), v) == !Matches(t, v)
  {
    if t.Branch? {
      InvertedNegates(t.left, v);
      InvertedNegates(t.right, v);
    }
  }

  lemma {:induction false} InvertedTwice(t: Tree)
    ensures Inverted(Inverted(t)) == t
  {
    if t.Branch? {
      InvertedTwice(t.left);
      InvertedTwice(t.right);
    }
  }

  /** The compiled tree evaluates like the expression under every valuation. */
  lemma {:induction false} CompilationPreservesMeaning(e: Expr, v: Valuation)
    ensures Matches(Compiled(e), v) == Holds(e, v)
  {
    match e
    case Match(_, _) =>
    case And(l, r) =>
      CompilationPreservesMeaning(l, v);
      CompilationPreservesMeaning(r, v);
    case Or(l, r) =>
      CompilationPreservesMeaning(l, v);
      CompilationPreservesMeaning(r, v);
    case Not(x) =>
      CompilationPreservesMeaning(x, v);
      InvertedNegates(Compiled(x), v);
  }

  // ---------------------------------------------------------------------------
  // The arguments of chosen matchers
  // ---------------------------------------------------------------------------

  function Lowered(values: seq<string>, lower: string -> string): seq<string> {
    seq(|values|, i requires 0 <= i < |values| => lower(values[i]))
  }

  /** The lower-cased arguments of the leaves with the given matchers, from left to right. */
  function Arguments(t: Tree, matchers: seq<string>, lower: string -> string): seq<string> {
    match t
    case Leaf(m, _, value) => if m in matchers then Lowered(value, lower) else []
    case Branch(_, l, r) => Arguments(l, matchers, lower) + Arguments(r, matchers, lower)
  }

  lemma {:induction false} InversionKeepsArguments(t: Tree, matchers: seq<string>, lower: string -> string)
    ensures Arguments(Inverted(t), matchers, lower) == Arguments(t, matchers, lower)
  {
    if t.Branch? {
      InversionKeepsArguments(t.left, matchers, lower);
      InversionKeepsArguments(t.right, matchers, lower);
    }
  }

  /** The expression without its negations. */
  function Positive(e: Expr): Expr {
    match e
    case Match(_, _) => e
    case And(l, r) => And(Positive(l), Positive(r))
    case Or(l, r) => Or(Positive(l), Positive(r))
    case Not(x) => Positive(x)
  }

  /** The collected arguments do not depend on where negations stand. */
  lemma {:induction false} ArgumentsIgnoreNegation(e: Expr, matchers: seq<string>, lower: string -> string)
    ensures Arguments(Compiled(e), matchers, lower) == Arguments(Compiled(Positive(e)), matchers, lower)
  {
    match e
    case Match(_, _) =>
    case And(l, r) =>
      ArgumentsIgnoreNegation(l, matchers, lower);
      ArgumentsIgnoreNegation(r, matchers, lower);
    case Or(l, r) =>
      ArgumentsIgnoreNegation(l, matchers, lower);
      ArgumentsIgnoreNegation(r, matchers, lower);
    case Not(x) =>
      ArgumentsIgnoreNegation(x, matchers, lower);
      InversionKeepsArguments(Compiled(x), matchers, lower);
  }

  // ---------------------------------------------------------------------------
  // Trees as objects
  // ---------------------------------------------------------------------------

  class Node {
    var matcher: string
    var not: bool
    var value: seq<string>
    var ruleLeft: Node?
    var ruleRight: Node?

    constructor (matcher: string, value: seq<string>, ruleLeft: Node?, ruleRight: Node?)
      ensures this.matcher == matcher && !this.not && this.value == value
      ensures this.ruleLeft == ruleLeft && this.ruleRight == ruleRight
    {
      this.matcher, this.not, this.value := matcher, false, value;
      this.ruleLeft, this.ruleRight := ruleLeft, ruleRight;
    }
  }

  /** Which objects make up a tree, and how they hang together. */
  datatype Shape = End(node: Node) | Fork(node: Node, left: Shape, right: Shape)

  ghost function Nodes(sh: Shape): set<Node> {
    match sh
    case End(n) => {n}
    case Fork(n, l, r) => {n} + Nodes(l) + Nodes(r)
  }

  ghost function Size(sh: Shape): nat {
    match sh
    case End(_) => 1
    case Fork(_, l, r) => 1 + Size(l) + Size(r)
  }

  /** No object occurs twice. */
  ghost predicate Separate(sh: Shape) {
    sh.Fork? ==>
      && sh.node !in Nodes(sh.left) && sh.node !in Nodes(sh.right)
      && Nodes(sh.left) !! Nodes(sh.right)
      && Separate(sh.left) && Separate(sh.right)
  }

  /** Every object links to the objects of its children; negation stands on matchers only. */
  ghost predicate Linked(sh: Shape)
    reads Nodes(sh)
  {
    match sh
    case End(n) => !IsOperator(n.matcher)
    case Fork(n, l, r) =>
      && IsOperator(n.matcher) && !n.not
      && n.ruleLeft == l.node && n.ruleRight == r.node
      && Linked(l) && Linked(r)
  }

  /** The tree that the objects hold. */
  ghost function TreeOf(sh: Shape): Tree
    reads Nodes(sh)
  {
    match sh
    case End(n) => Leaf(n.matcher, n.not, n.value)
    case Fork(n, l, r) => Branch(n.matcher == AND, TreeOf(l), TreeOf(r))
  }

  /** Swaps and with or and flips every matcher, in place; the objects stay where they are. */
  method Invert(t: Node, ghost sh: Shape) returns (r: Node)
    requires sh.node == t && Separate(sh) && Linked(sh) && forall n :: n in Nodes(sh) ==> allocated(n)
    modifies Nodes(sh)
    ensures r == t && Linked(sh) && TreeOf(sh) == Inverted(old(TreeOf(sh)))
    decreases Size(sh), 0
  {
    if t.matcher == OR || t.matcher == AND {
      assert Nodes(sh) == {t} + Nodes(sh.left) + Nodes(sh.right);
      t.matcher := if t.matcher == OR then AND else OR;
      InvertChildren(t, sh.left, sh.right);
    } else {
      t.not := !t.not;
    }
    r := t;
  }

  method InvertChildren(t: Node, ghost l: Shape, ghost r: Shape)
    requires t.ruleLeft == l.node && Separate(l) && Linked(l) && t !in Nodes(l)
    requires t.ruleRight == r.node && Separate(r) && Linked(r) && t !in Nodes(r)
    requires Nodes(l) !! Nodes(r)
    requires (forall n :: n in Nodes(l) ==> allocated(n)) && (forall n :: n in Nodes(r) ==> allocated(n))
    modifies t`ruleLeft, t`ruleRight, Nodes(l), Nodes(r)
    ensures t.ruleLeft == l.node && Linked(l) && TreeOf(l) == Inverted(old(TreeOf(l)))
    ensures t.ruleRight == r.node && Linked(r) && TreeOf(r) == Inverted(old(TreeOf(r)))
    decreases Size(l) + Size(r), 1
  {
    var left := Invert(t.ruleLeft, l);
    t.ruleLeft := left;
    assert Linked(r) && TreeOf(r) == old(TreeOf(r));
    var right := Invert(t.ruleRight, r);
    t.ruleRight := right;
  }

  /** Collects the lower-cased arguments of the chosen matchers without changing the tree. */
  method ParseMatchers(t: Node, matchers: seq<string>, lower: string -> string, ghost sh: Shape) returns (r: seq<string>)
    requires sh.node == t && Linked(sh) && forall n :: n in Nodes(sh) ==> allocated(n)
    ensures r == Arguments(TreeOf(sh), matchers, lower)
    decreases sh
  {
    if t.matcher == AND || t.matcher == OR {
      assert Nodes(sh) == {t} + Nodes(sh.left) + Nodes(sh.right);
      var left := ParseMatchers(t.ruleLeft, matchers, lower, sh.left);
      var right := ParseMatchers(t.ruleRight, matchers, lower, sh.right);
      r := left + right;
    } else if t.matcher in matchers {
      r := LowerAll(t.value, lower);
    } else {
      r := [];
    }
  }

  method LowerAll(values: seq<string>, lower: string -> string) returns (r: seq<string>)
    ensures r == Lowered(values, lower)
  {
    r := [];
    for i := 0 to |values|
      invariant |r| == i && forall j :: 0 <= j < i ==> r[j] == lower(values[j])
    {
      r := r + [lower(values[i])];
    }
  }

  /**
   Runs the builder of an expression. Every tree it returns is made of fresh, distinct objects,
   so the in-place inversion under a negation cannot reach any other tree.
   */
  method Build(e: Expr) returns (t: Node, ghost sh: Shape)
    requires WellNamed(e)
    ensures sh.node == t && Separate(sh) && Linked(sh) && fresh(Nodes(sh)) && forall n :: n in Nodes(sh) ==> allocated(n)
    ensures TreeOf(sh) == Compiled(e)
    decreases e
  {
    if e.Match? {
      t := new Node(e.name, e.value, null, null);
      sh := End(t);
    } else if e.Not? {
      t, sh := Build(e.operand);
      t := Invert(t, sh);
    } else {
      ghost var l, r;
      var left, right;
      left, l := Build(e.left);
      ghost var leftNodes := Nodes(l);
      right, r := Build(e.right);
      ghost var rightNodes := Nodes(r);
      assert leftNodes !! rightNodes;
      assert Linked(l) && TreeOf(l) == Compiled(e.left);
      t := new Node(if e.And? then AND else OR, [], left, right);
      assert Linked(l) && TreeOf(l) == Compiled(e.left);
      assert Linked(r) && TreeOf(r) == Compiled(e.right);
      sh := Fork(t, l, r);
    }
  }
}

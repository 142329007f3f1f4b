/**
 * The syntax tree the plugin reads and rewrites: the JavaScript node kinds
 * the rewrite tells apart, with every other node kind kept as a generic
 * node that only carries its children (so the traversal can still walk
 * statements, blocks, logical expressions and the like).
 */
module Syntax {

  datatype Option<T> = None | Some(value: T)

  /**
   * NumLit covers both numeric-literal shapes the source accepts (Babel's
   * NumericLiteral and ESTree's Literal with a number value); its value is
   * kept as the source text because nothing here evaluates it.
   * Binary is every BinaryExpression, whatever its operator (arithmetic,
   * comparison, `%`, `**`, `in`, ...); Unary is every UnaryExpression.
   * Member's `prop` is the property node (an Ident when not computed).
   */
  datatype Node =
    | NumLit(raw: string)
    | Ident(name: string)
    | Unary(op: string, arg: Node)
    | Binary(op: string, left: Node, right: Node)
    | Paren(expr: Node)
    | Member(obj: Node, prop: Node, computed: bool)
    | Call(callee: Node, args: seq<Node>)
    | Arrow(params: seq<Node>, body: Node)
    | Other(kind: string, children: seq<Node>)

  /** The direct children of a node, in source order. */
  function Children(n: Node): seq<Node>
  {
    match n
    case NumLit(_) => []
    case Ident(_) => []
    case Unary(_, a) => [a]
    case Binary(_, l, r) => [l, r]
    case Paren(e) => [e]
    case Member(o, p, _) => [o, p]
    case Call(c, xs) => [c] + xs
    case Arrow(ps, b) => ps + [b]
    case Other(_, cs) => cs
  }

  /** The node `n` with its children replaced, position by position, by `cs`. */
  function WithChildren(n: Node, cs: seq<Node>): (r: Node)
    requires |cs| == |Children(n)|
    ensures Children(r) == cs
    ensures r.Binary? <==> n.Binary?
    ensures n.Binary? ==> r.op == n.op
    ensures r.Call? <==> n.Call?
    ensures r.Ident? <==> n.Ident?
  {
    match n
    case NumLit(_) => n
    case Ident(_) => n
    case Unary(op, _) => Unary(op, cs[0])
    case Binary(op, _, _) => Binary(op, cs[0], cs[1])
    case Paren(_) => Paren(cs[0])
    case Member(_, _, c) => Member(cs[0], cs[1], c)
    case Call(_, _) => Call(cs[0], cs[1..])
    case Arrow(ps, _) => Arrow(cs[..|ps|], cs[|ps|])
    case Other(k, _) => Other(k, cs)
  }

  lemma WithOwnChildren(n: Node)
    ensures WithChildren(n, Children(n)) == n
  {
    match n
    case Arrow(ps, b) =>
      assert (ps + [b])[..|ps|] == ps;
    case _ =>
  }

  /** The number of nodes in a tree. */
  function Size(n: Node): (s: nat)
    ensures s >= 1
  {
    match n
    case NumLit(_) => 1
    case Ident(_) => 1
    case Unary(_, a) => 1 + Size(a)
    case Binary(_, l, r) => 1 + Size(l) + Size(r)
    case Paren(e) => 1 + Size(e)
    case Member(o, p, _) => 1 + Size(o) + Size(p)
    case Call(c, xs) => 1 + Size(c) + SizeSeq(xs)
    case Arrow(ps, b) => 1 + SizeSeq(ps) + Size(b)
    case Other(_, cs) => 1 + SizeSeq(cs)
  }

  function SizeSeq(ns: seq<Node>): nat
  {
    if ns == [] then 0 else Size(ns[0]) + SizeSeq(ns[1..])
  }

  lemma {:induction false} SizeSeqAppend(a: seq<Node>, b: seq<Node>)
    ensures SizeSeq(a + b) == SizeSeq(a) + SizeSeq(b)
  {
    if a == [] {
      assert a + b == b;
    } else {
      assert (a + b)[1..] == a[1..] + b;
      SizeSeqAppend(a[1..], b);
    }
  }

  /** A node is one larger than all its children together. */
  lemma SizeChildren(n: Node)
    ensures Size(n) == 1 + SizeSeq(Children(n))
  {
    match n
    case Call(c, xs) =>
      assert ([c] + xs)[1..] == xs;
    case Arrow(ps, b) =>
      SizeSeqAppend(ps, [b]);
      assert SizeSeq([b]) == Size(b) + SizeSeq([]);
    case Binary(_, l, r) =>
      assert [l, r][1..] == [r];
      assert SizeSeq([r]) == Size(r) + SizeSeq([]);
    case Member(o, p, _) =>
      assert [o, p][1..] == [p];
      assert SizeSeq([p]) == Size(p) + SizeSeq([]);
    case Unary(_, a) =>
      assert SizeSeq([a]) == Size(a) + SizeSeq([]);
    case Paren(e) =>
      assert SizeSeq([e]) == Size(e) + SizeSeq([]);
    case _ =>
  }
}

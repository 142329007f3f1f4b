/**
 * The purity classifier (`isPureNumericExpression`) and the numeric-literal
 * tests the rewrite uses to decide when a chain base needs `float(...)`.
 */
module Purity {
  import opened Syntax

  predicate IsSign(op: string)
  {
    op == "-" || op == "+"
  }

  /** `isPureNumericExpression`: only numeric literals, signs, binary operators and parentheses. */
  predicate IsPureNumeric(n: Node)
  {
    match n
    case NumLit(_) => true
    case Unary(op, a) => IsSign(op) && IsPureNumeric(a)
    case Binary(_, l, r) => IsPureNumeric(l) && IsPureNumeric(r)
    case Paren(e) => IsPureNumeric(e)
    case _ => false
  }

  /** `isNumericLiteral`. */
  predicate IsNumericLiteral(n: Node)
  {
    n.NumLit?
  }

  /** A numeric literal, or a unary `+`/`-` applied directly to one. */
  predicate IsSignedNumericLiteral(n: Node)
  {
    IsNumericLiteral(n) || (n.Unary? && IsSign(n.op) && IsNumericLiteral(n.arg))
  }

  /** The node kinds a pure expression may contain. */
  predicate PureKind(n: Node)
  {
    n.NumLit? || (n.Unary? && IsSign(n.op)) || n.Binary? || n.Paren?
  }

  /** Every node of a tree, the root included. */
  function Subnodes(n: Node): set<Node>
    decreases Size(n), 0
  {
    SizeChildren(n);
    {n} + SubnodesSeq(Children(n))
  }

  function SubnodesSeq(ns: seq<Node>): set<Node>
    decreases SizeSeq(ns), 1
  {
    if ns == [] then {} else Subnodes(ns[0]) + SubnodesSeq(ns[1..])
  }

  lemma SubnodesOfOne(n: Node)
    ensures SubnodesSeq([n]) == Subnodes(n)
  {
    assert [n][1..] == [];
  }

  lemma SubnodesOfTwo(a: Node, b: Node)
    ensures SubnodesSeq([a, b]) == Subnodes(a) + Subnodes(b)
  {
    assert [a, b][1..] == [b];
    SubnodesOfOne(b);
  }

  /**
   * Purity is exactly "every node of the tree is a numeric literal, a
   * unary sign, a binary expression or a parenthesised expression".
   */
  lemma {:induction false} PureIffPureKinds(n: Node)
    ensures IsPureNumeric(n) <==> forall s :: s in Subnodes(n) ==> PureKind(s)
    decreases n
  {
    match n
    case Unary(op, a) =>
      SubnodesOfOne(a);
      assert Subnodes(n) == {n} + Subnodes(a);
      PureIffPureKinds(a);
      if IsSign(op) {
        assert IsPureNumeric(n) == IsPureNumeric(a);
        assert PureKind(n);
      } else {
        assert !PureKind(n) && n in Subnodes(n);
      }
    case Binary(_, l, r) =>
      SubnodesOfTwo(l, r);
      assert Subnodes(n) == {n} + Subnodes(l) + Subnodes(r);
      PureIffPureKinds(l);
      PureIffPureKinds(r);
    case Paren(e) =>
      SubnodesOfOne(e);
      assert Subnodes(n) == {n} + Subnodes(e);
      PureIffPureKinds(e);
    case NumLit(_) =>
      assert Subnodes(n) == {n};
    case _ =>
      assert n in Subnodes(n) && !PureKind(n);
  }

  /** A pure expression mentions no identifier, member access or call anywhere. */
  lemma PureHasNoNames(n: Node)
    requires IsPureNumeric(n)
    ensures forall s :: s in Subnodes(n) ==> !s.Ident? && !s.Member? && !s.Call?
  {
    PureIffPureKinds(n);
  }
}

/**
 * Two defects of the rewrite and their repairs.
 *
 * Regrouping: `flattenBinary` reads a rewritable right child that does not
 * bind tighter than its parent into the parent's chain, so `a * (b + c)`
 * becomes `a.mul(b).add(c)`, which is `(a * b) + c`. Folding the flattened
 * lists back into binary expressions shows the damage; with `Repaired` the
 * fold gives back the original tree.
 *
 * Plain-number receiver: a chain whose first operand is a parenthesised
 * numeric group such as `2 * 3` gets the method chain called on that
 * number, as in `(2 * 3).add(x)`; only a bare numeric literal is wrapped in
 * `float(...)`.
 */
module Findings {
  import opened Syntax
  import opened Operators
  import opened Purity
  import opened Flattening
  import opened LeftSpine
  import opened Chain
  import opened Scope
  import opened Traversal

  // ----- regrouping --------------------------------------------------------------

  /** An operand read back as an expression: the parentheses flattening added are dropped. */
  function Regroup(o: Node): Node
  {
    if o.Paren? && IsOpBinary(o.expr) then o.expr else o
  }

  /** The `reduce` of `transformBin` with binary expressions in place of method calls. */
  function LeftFold(acc: Node, ops: seq<string>, xs: seq<Node>): Node
    requires |ops| == |xs|
    decreases |ops|
  {
    if ops == [] then acc
    else Binary(ops[|ops| - 1], LeftFold(acc, ops[..|ops| - 1], xs[..|xs| - 1]), Regroup(xs[|xs| - 1]))
  }

  /** The expression a chain built from the flattened lists computes. */
  function Rebuild(f: Flat): Node
    requires |f.operands| == |f.ops| + 1
  {
    LeftFold(Regroup(f.operands[0]), f.ops, f.operands[1..])
  }

  /** The tree has no parenthesised rewritable group of its own (the parser makes none). */
  predicate NoParenGroups(n: Node)
    decreases n
  {
    if IsOpBinary(n) then NoParenGroups(n.left) && NoParenGroups(n.right)
    else !(n.Paren? && IsOpBinary(n.expr))
  }

  /** Every rewritable right child binds strictly tighter than its parent, inside groups too. */
  predicate RightSafe(n: Node)
    decreases n
  {
    if IsOpBinary(n) then
      (IsOpBinary(n.right) ==> Prec(n.right.op) > Prec(n.op)) && RightSafe(n.left) && RightSafe(n.right)
    else
      n.Paren? ==> RightSafe(n.expr)
  }

  lemma RebuildAppend(a: Flat, op: string, x: Node)
    requires |a.operands| == |a.ops| + 1
    ensures Rebuild(Flat(a.ops + [op], a.operands + [x])) == Binary(op, Rebuild(a), Regroup(x))
  {
    var ops, operands := a.ops + [op], a.operands + [x];
    var xs := operands[1..];
    assert ops[..|ops| - 1] == a.ops;
    assert xs[..|xs| - 1] == a.operands[1..];
    assert xs[|xs| - 1] == x;
  }

  lemma {:induction false} RepairedRebuildsAt(n: Node, parentPrec: nat)
    requires NoParenGroups(n)
    requires IsOpBinary(n) ==> !Splits(n, parentPrec, LeftSide, Repaired)
    ensures Rebuild(Flatten(n, parentPrec, LeftSide, Repaired)) == n
    decreases n
  {
    if IsOpBinary(n) {
      var q := Prec(n.op);
      var l := Flatten(n.left, q, LeftSide, Repaired);
      if IsOpBinary(n.left) && Splits(n.left, q, LeftSide, Repaired) {
        assert l == Flat([], [Paren(n.left)]);
      } else {
        RepairedRebuildsAt(n.left, q);
      }
      assert Rebuild(l) == n.left;
      var x := if IsOpBinary(n.right) then Paren(n.right) else n.right;
      assert Regroup(x) == n.right;
      assert Flatten(n.right, q, RightSide, Repaired) == Flat([], [x]);
      assert Flatten(n, parentPrec, LeftSide, Repaired) == Flat(l.ops + [n.op], l.operands + [x]);
      RebuildAppend(l, n.op, x);
    }
  }

  /**
   * Repaired: the chain computes exactly the expression that was written;
   * every binary operator keeps its operands.
   */
  lemma RepairedKeepsGrouping(n: Node)
    requires NoParenGroups(n)
    ensures Rebuild(Flatten(n, 0, LeftSide, Repaired)) == n
  {
    RepairedRebuildsAt(n, 0);
  }

  /** Where no right child is loose, the source and the repair flatten alike. */
  lemma {:induction false} SameFlattenWhenRightSafe(n: Node, parentPrec: nat, side: Side)
    requires RightSafe(n)
    requires side == RightSide && parentPrec > 0 && IsOpBinary(n) ==> Prec(n.op) > parentPrec
    ensures Flatten(n, parentPrec, side, AsWritten) == Flatten(n, parentPrec, side, Repaired)
    decreases n
  {
    if IsOpBinary(n) && !Splits(n, parentPrec, side, AsWritten) {
      var q := Prec(n.op);
      SameFlattenWhenRightSafe(n.left, q, LeftSide);
      SameFlattenWhenRightSafe(n.right, q, RightSide);
    }
  }

  /** As written, the chain computes the written expression whenever every right child binds tighter. */
  lemma AsWrittenKeepsGroupingWhenRightSafe(n: Node)
    requires NoParenGroups(n) && RightSafe(n)
    ensures Rebuild(Flatten(n, 0, LeftSide, AsWritten)) == n
  {
    SameFlattenWhenRightSafe(n, 0, LeftSide);
    RepairedKeepsGrouping(n);
  }

  /** `a * (b + c)`. */
  function TimesSum(): Node
  {
    Binary("*", Ident("a"), Binary("+", Ident("b"), Ident("c")))
  }

  /**
   * As written, `a * (b + c)` is flattened into `a`, `b`, `c` with `*` and
   * `+`, and the chain computes `(a * b) + c`.
   */
  lemma AsWrittenRegroups()
    ensures Flatten(TimesSum(), 0, LeftSide, AsWritten) == Flat(["*", "+"], [Ident("a"), Ident("b"), Ident("c")])
    ensures Rebuild(Flatten(TimesSum(), 0, LeftSide, AsWritten))
         == Binary("+", Binary("*", Ident("a"), Ident("b")), Ident("c"))
    ensures Rebuild(Flatten(TimesSum(), 0, LeftSide, AsWritten)) != TimesSum()
  {
    var l := Flat(["*"], [Ident("a"), Ident("b")]);
    TimesSumFlattens();
    RebuildAppend(l, "+", Ident("c"));
    assert Rebuild(l) == Binary("*", Ident("a"), Ident("b"));
  }

  /** As written, the right child `b + c` of `a * (b + c)` joins the chain of `a`. */
  lemma TimesSumFlattens()
    ensures Flatten(TimesSum(), 0, LeftSide, AsWritten)
         == Flat(["*"] + ["+"], [Ident("a"), Ident("b")] + [Ident("c")])
    ensures Flat(["*"] + ["+"], [Ident("a"), Ident("b")] + [Ident("c")])
         == Flat(["*", "+"], [Ident("a"), Ident("b"), Ident("c")])
  {
    TableEntries();
    var sum := Binary("+", Ident("b"), Ident("c"));
    assert Flatten(sum, 14, RightSide, AsWritten) == Flat(["+"], [Ident("b"), Ident("c")]);
  }

  /**
   * The emitted chain is `a.mul(b).add(c)`, the very chain the source emits
   * for `a * b + c`; the repair emits `a.mul(b.add(c))`.
   */
  lemma AsWrittenChainOfTimesSum()
    ensures TransformBin(TimesSum(), AsWritten)
         == MethodCall(MethodCall(Ident("a"), "mul", Ident("b")), "add", Ident("c"))
  {
    var l := Flat(["*"], [Ident("a"), Ident("b")]);
    TableEntries();
    TimesSumFlattens();
    assert !IsPureNumeric(Ident("a"));
    TransformBinIsChainOf(TimesSum(), AsWritten);
    ChainOfAppend(l, "+", Ident("c"), AsWritten);
    ChainOfOne("*", Ident("a"), Ident("b"), AsWritten);
    NameBase(Ident("a"), AsWritten);
  }

  lemma SumTimesChain()
    ensures TransformBin(Binary("+", Binary("*", Ident("a"), Ident("b")), Ident("c")), AsWritten)
         == MethodCall(MethodCall(Ident("a"), "mul", Ident("b")), "add", Ident("c"))
  {
    var inner := Binary("*", Ident("a"), Ident("b"));
    TableEntries();
    assert LeftMost(inner) == Ident("a");
    LeftGroupStarts(Binary("+", inner, Ident("c")), AsWritten);
    SingleOperator(inner, AsWritten);
    NameBase(Ident("a"), AsWritten);
    NameBase(MethodCall(Ident("a"), "mul", Ident("b")), AsWritten);
  }

  lemma RepairedChainOfTimesSum()
    ensures TransformBin(TimesSum(), Repaired)
         == MethodCall(Ident("a"), "mul", MethodCall(Ident("b"), "add", Ident("c")))
  {
    var sum := Binary("+", Ident("b"), Ident("c"));
    TableEntries();
    SingleOperator(TimesSum(), Repaired);
    NameBase(Ident("a"), Repaired);
    assert LeftMost(sum) == Ident("b");
    assert PrepOperand(Paren(sum), Repaired) == TransformBin(sum, Repaired);
    SingleOperator(sum, Repaired);
    NameBase(Ident("b"), Repaired);
  }

  // ----- plain-number receiver -------------------------------------------------------

  /** `2 * 3 + x`. */
  function ProductPlusX(): Node
  {
    Binary("+", Binary("*", NumLit("2"), NumLit("3")), Ident("x"))
  }

  /**
   * As written, `2 * 3 + x` passes the gate in every scope and becomes
   * `(2 * 3).add(x)`: the method is called on a plain number.
   */
  lemma AsWrittenChainsOnNumber(env: Env)
    ensures Gate(ProductPlusX(), false, env, AsWritten)
    ensures TransformBin(ProductPlusX(), AsWritten)
         == MethodCall(Binary("*", NumLit("2"), NumLit("3")), "add", Ident("x"))
    ensures PlainNumber(Binary("*", NumLit("2"), NumLit("3")))
    ensures TransformBin(ProductPlusX(), Repaired)
         == MethodCall(FloatCall(Binary("*", NumLit("2"), NumLit("3"))), "add", Ident("x"))
  {
    var product := Binary("*", NumLit("2"), NumLit("3"));
    assert Flatten(ProductPlusX(), 0, LeftSide, AsWritten) == Flat(["+"], [Paren(product), Ident("x")]);
    assert Flatten(ProductPlusX(), 0, LeftSide, Repaired) == Flat(["+"], [Paren(product), Ident("x")]);
    assert LeftMost(product) == NumLit("2");
    assert IsPureNumeric(product);
  }

  /**
   * Repaired: the receiver at the bottom of every chain is never a numeric
   * expression or a Math-rooted group; such a base is wrapped in `float(...)`.
   */
  lemma RepairedReceiverIsNoPlainNumber(n: Node)
    requires IsOpBinary(n) && !IsPureNumeric(n)
    ensures var k := |Flatten(n, 0, LeftSide, Repaired).ops|;
            Unchain(TransformBin(n, Repaired), k).Some?
            && !PlainNumber(Unchain(TransformBin(n, Repaired), k).value.base)
  {
    var f := Flatten(n, 0, LeftSide, Repaired);
    var p := Prec(n.op);
    assert f.ops == Flatten(n.left, p, LeftSide, Repaired).ops + [n.op] + Flatten(n.right, p, RightSide, Repaired).ops;
    ChainShape(n, Repaired);
  }
}

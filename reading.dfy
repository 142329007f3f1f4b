/**
 * What a rewritten expression computes. A builder call `x.add(y)` (and
 * `sub`, `mul`, `div`) computes `x + y`, `float(x)` computes the number `x`,
 * and parentheses only group; `Meaning` reads a tree that way, independently
 * of how `transformBin` builds it. The rewrite is faithful when the chain
 * means what the written expression means.
 */
module Reading {
  import opened Syntax
  import opened Operators
  import opened Purity
  import opened Flattening
  import opened Chain
  import opened Findings

  /** The operator whose builder method is `m`: the inverse of `opMap`. */
  function OperatorOf(m: string): Option<string>
  {
    if m == "add" then Some("+")
    else if m == "sub" then Some("-")
    else if m == "mul" then Some("*")
    else if m == "div" then Some("/")
    else None
  }

  /** Reading a builder method back gives the operator it was named for. */
  lemma OperatorOfMethodName(op: string)
    requires op in OpMap
    ensures OperatorOf(MethodName(op)) == Some(op)
  {
    TablesAgree();
    TableEntries();
    assert op in {"+", "-", "*", "/"};
  }

  /**
   * The arithmetic a tree stands for: builder calls and `float(...)` are
   * read as the binary expressions and numbers they compute, groups as
   * their contents; every other node is read as it stands.
   */
  function Meaning(n: Node): (r: Node)
    ensures !r.Paren?
    decreases n
  {
    match n
    case Paren(e) => Meaning(e)
    case Binary(op, l, r) => Binary(op, Meaning(l), Meaning(r))
    case Call(Ident(f), xs) =>
      if f == "float" && |xs| == 1 then Meaning(xs[0]) else n
    case Call(Member(x, Ident(m), false), xs) =>
      if OperatorOf(m).Some? && |xs| == 1 then Binary(OperatorOf(m).value, Meaning(x), Meaning(xs[0])) else n
    case _ => n
  }

  function MeaningAll(xs: seq<Node>): (r: seq<Node>)
    ensures |r| == |xs|
    ensures forall i :: 0 <= i < |xs| ==> r[i] == Meaning(xs[i])
  {
    seq(|xs|, i requires 0 <= i < |xs| => Meaning(xs[i]))
  }

  /** What a method call computes: the receiver and the argument joined by the method's operator. */
  lemma MeaningOfMethodCall(receiver: Node, op: string, arg: Node)
    requires op in OpMap
    ensures Meaning(MethodCall(receiver, MethodName(op), arg)) == Binary(op, Meaning(receiver), Meaning(arg))
  {
    OperatorOfMethodName(op);
  }

  /** A folded chain computes the left fold of its operators over what its base and arguments compute. */
  lemma {:induction false} MeaningOfFold(acc: Node, ops: seq<string>, args: seq<Node>)
    requires |ops| == |args|
    requires forall i :: 0 <= i < |ops| ==> ops[i] in OpMap
    ensures Meaning(Fold(acc, ops, args)) == LeftFold(Meaning(acc), ops, MeaningAll(args))
    decreases |ops|
  {
    if ops != [] {
      var k := |ops| - 1;
      var inner := Fold(acc, ops[..k], args[..k]);
      MeaningOfFold(acc, ops[..k], args[..k]);
      MeaningOfMethodCall(inner, ops[k], args[k]);
      var ms := MeaningAll(args);
      assert ms[..k] == MeaningAll(args[..k]);
      assert Regroup(ms[k]) == Meaning(args[k]);
    }
  }

  /** What the flattened lists compute, folded back into binary expressions. */
  function FlatMeaning(f: Flat): Node
    requires |f.operands| == |f.ops| + 1
  {
    LeftFold(Meaning(f.operands[0]), f.ops, MeaningAll(f.operands[1..]))
  }

  lemma FlatMeaningAppend(a: Flat, op: string, x: Node)
    requires |a.operands| == |a.ops| + 1
    ensures FlatMeaning(Flat(a.ops + [op], a.operands + [x])) == Binary(op, FlatMeaning(a), Meaning(x))
  {
    var ops, operands := a.ops + [op], a.operands + [x];
    var ms := MeaningAll(operands[1..]);
    assert ops[..|ops| - 1] == a.ops;
    assert ms[..|ms| - 1] == MeaningAll(a.operands[1..]);
    assert Regroup(ms[|ms| - 1]) == Meaning(x);
  }

  /**
   * The flattened lists compute what the tree computes, in the repair
   * always, and as written when no right child is loose.
   */
  lemma {:induction false} MeaningOfFlatten(n: Node, parentPrec: nat, mode: Mode)
    requires IsOpBinary(n) ==> !Splits(n, parentPrec, LeftSide, mode)
    requires mode == AsWritten ==> RightSafe(n)
    ensures FlatMeaning(Flatten(n, parentPrec, LeftSide, mode)) == Meaning(n)
    decreases n, 2
  {
    if IsOpBinary(n) {
      MeaningOfJoin(n, parentPrec, mode);
    } else {
      FlatMeaningOfOne(n, parentPrec, mode);
    }
  }

  /** A binary that is not split off computes its operator over its two children's meanings. */
  lemma {:induction false} MeaningOfJoin(n: Node, parentPrec: nat, mode: Mode)
    requires IsOpBinary(n) && !Splits(n, parentPrec, LeftSide, mode)
    requires mode == AsWritten ==> RightSafe(n)
    ensures FlatMeaning(Flatten(n, parentPrec, LeftSide, mode)) == Meaning(n)
    decreases n, 1
  {
    var q := Prec(n.op);
    var l := Flatten(n.left, q, LeftSide, mode);
    MeaningOfLeftPart(n.left, q, mode);
    var x := RightPart(n, mode);
    FlattenJoins(n, parentPrec, mode, x);
    FlatMeaningAppend(l, n.op, x);
    assert Meaning(n) == Binary(n.op, Meaning(n.left), Meaning(n.right));
  }

  /** A single operand computes what it computes. */
  lemma FlatMeaningOfOne(n: Node, parentPrec: nat, mode: Mode)
    requires !IsOpBinary(n)
    ensures FlatMeaning(Flatten(n, parentPrec, LeftSide, mode)) == Meaning(n)
  {
    assert Flatten(n, parentPrec, LeftSide, mode) == Flat([], [n]);
    assert [n][1..] == [];
  }

  /** A binary that is not split off is its left child's lists, its operator, and its right operand. */
  lemma FlattenJoins(n: Node, parentPrec: nat, mode: Mode, x: Node)
    requires IsOpBinary(n) && !Splits(n, parentPrec, LeftSide, mode)
    requires Flatten(n.right, Prec(n.op), RightSide, mode) == Flat([], [x])
    ensures var l := Flatten(n.left, Prec(n.op), LeftSide, mode);
            Flatten(n, parentPrec, LeftSide, mode) == Flat(l.ops + [n.op], l.operands + [x])
  {
    var l := Flatten(n.left, Prec(n.op), LeftSide, mode);
    assert l.ops + [n.op] + [] == l.ops + [n.op];
  }

  /** The left child's lists, split off as one group or not, compute what the left child computes. */
  lemma {:induction false} MeaningOfLeftPart(l: Node, q: nat, mode: Mode)
    requires q > 0
    requires mode == AsWritten ==> RightSafe(l)
    ensures FlatMeaning(Flatten(l, q, LeftSide, mode)) == Meaning(l)
    decreases l, 3
  {
    if IsOpBinary(l) && Splits(l, q, LeftSide, mode) {
      assert Flatten(l, q, LeftSide, mode) == Flat([], [Paren(l)]);
    } else {
      MeaningOfFlatten(l, q, mode);
    }
  }

  /** The right child is always one operand here, which computes what the child computes. */
  lemma RightPart(n: Node, mode: Mode) returns (x: Node)
    requires IsOpBinary(n)
    requires mode == AsWritten ==> RightSafe(n)
    ensures Flatten(n.right, Prec(n.op), RightSide, mode) == Flat([], [x])
    ensures Meaning(x) == Meaning(n.right)
  {
    x := if IsOpBinary(n.right) then Paren(n.right) else n.right;
  }

  /** Flattening a tree with no loose right child leaves operands with none either. */
  lemma {:induction false} FlattenKeepsRightSafe(n: Node, parentPrec: nat, side: Side, mode: Mode)
    requires RightSafe(n)
    ensures forall o :: o in Flatten(n, parentPrec, side, mode).operands ==> RightSafe(o)
    decreases n
  {
    if IsOpBinary(n) && !Splits(n, parentPrec, side, mode) {
      var p := Prec(n.op);
      FlattenKeepsRightSafe(n.left, p, LeftSide, mode);
      FlattenKeepsRightSafe(n.right, p, RightSide, mode);
    }
  }

  /**
   * The chain `transformBin` emits computes what the written expression
   * computes: in the repair for every expression, and as written for every
   * expression without a loose right child at any depth.
   */
  lemma {:induction false} ChainMeansWritten(n: Node, mode: Mode)
    requires mode == AsWritten ==> RightSafe(n)
    ensures Meaning(TransformBin(n, mode)) == Meaning(n)
    decreases Size(n), 1
  {
    if !IsPureNumeric(n) {
      var f := Flatten(n, 0, LeftSide, mode);
      FlattenSizes(n, 0, LeftSide, mode);
      if mode == AsWritten {
        FlattenKeepsRightSafe(n, 0, LeftSide, mode);
      }
      var xs := f.operands[1..];
      var args := PrepSeq(xs, mode);
      forall i | 0 <= i < |xs| ensures Meaning(args[i]) == Meaning(xs[i]) {
        assert xs[i] in f.operands;
        PrepSeqAt(xs, mode, i);
        PrepMeansOperand(xs[i], mode);
      }
      assert MeaningAll(args) == MeaningAll(xs);
      assert f.operands[0] in f.operands;
      PrepMeansOperand(f.operands[0], mode);
      var base := WrapBase(PrepOperand(f.operands[0], mode), mode);
      assert Meaning(base) == Meaning(f.operands[0]);
      TransformBinIsChainOf(n, mode);
      MeaningOfFold(base, f.ops, args);
      MeaningOfFlatten(n, 0, mode);
    }
  }

  /** A prepared operand computes what the operand computes. */
  lemma {:induction false} PrepMeansOperand(o: Node, mode: Mode)
    requires mode == AsWritten ==> RightSafe(o)
    ensures Meaning(PrepOperand(o, mode)) == Meaning(o)
    decreases Size(o), 0
  {
    if o.Paren? && IsOpBinary(o.expr) && !MathRooted(o.expr) {
      ChainMeansWritten(o.expr, mode);
    }
  }

  /**
   * As written, the chain for `a * (b + c)` computes `(a * b) + c`, not the
   * expression written.
   */
  lemma AsWrittenChainMeansRegrouped()
    ensures Meaning(TimesSum()) == TimesSum()
    ensures Meaning(TransformBin(TimesSum(), AsWritten)) == Binary("+", Binary("*", Ident("a"), Ident("b")), Ident("c"))
    ensures Meaning(TransformBin(TimesSum(), AsWritten)) != Meaning(TimesSum())
  {
    AsWrittenChainOfTimesSum();
    var product := MethodCall(Ident("a"), "mul", Ident("b"));
    TableEntries();
    MeaningOfMethodCall(Ident("a"), "*", Ident("b"));
    MeaningOfMethodCall(product, "+", Ident("c"));
  }
}

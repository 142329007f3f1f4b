/**
 * `transformBin`: folds a flattened operator tree into one chain of builder
 * method calls, `base.m1(x1).m2(x2)...`, with the method names from `opMap`.
 */
module Chain {
  import opened Syntax
  import opened Operators
  import opened Purity
  import opened Flattening
  import opened LeftSpine

  /** `float(x)`, the call that turns a number into a builder value. */
  function FloatCall(x: Node): Node
  {
    Call(Ident("float"), [x])
  }

  /** `receiver.method(arg)`. */
  function MethodCall(receiver: Node, name: string, arg: Node): Node
  {
    Call(Member(receiver, Ident(name), false), [arg])
  }

  /** A Math-rooted parenthesised group stays native; see `PrepOperand`. */
  predicate MathRooted(e: Node)
  {
    IsMathMember(LeftMost(e))
  }

  /**
   * An expression that is still a plain JavaScript number once prepared as
   * a chain receiver: a numeric expression, or a rewritable group left
   * native because it is Math-rooted.
   */
  predicate PlainNumber(b: Node)
  {
    IsPureNumeric(b) || (IsOpBinary(b) && MathRooted(b))
  }

  /**
   * The base of a chain is wrapped in `float(...)` when it is a (signed)
   * numeric literal; `Repaired` wraps every plain number.
   */
  function WrapBase(b: Node, mode: Mode): (r: Node)
    ensures r == b || r == FloatCall(b)
    ensures !IsSignedNumericLiteral(r)
    ensures mode == Repaired ==> !PlainNumber(r)
  {
    if IsSignedNumericLiteral(b) || (mode == Repaired && PlainNumber(b)) then FloatCall(b) else b
  }

  function MaxSize(ns: seq<Node>): nat
  {
    if ns == [] then 0
    else if Size(ns[0]) >= MaxSize(ns[1..]) then Size(ns[0])
    else MaxSize(ns[1..])
  }

  lemma {:induction false} MaxSizeBound(ns: seq<Node>, bound: nat)
    requires forall o :: o in ns ==> Size(o) <= bound
    ensures MaxSize(ns) <= bound
  {
    if ns != [] {
      assert ns[0] in ns;
      MaxSizeBound(ns[1..], bound);
    }
  }

  /**
   * `transformBin`: an expression made only of numbers is returned as it
   * is; otherwise its flattened operands are folded into a method chain.
   */
  function TransformBin(n: Node, mode: Mode): Node
    decreases Size(n), 2
  {
    if IsPureNumeric(n) then n
    else
      var f := Flatten(n, 0, LeftSide, mode);
      FlattenSizes(n, 0, LeftSide, mode);
      assert f.operands[0] in f.operands;
      MaxSizeBound(f.operands[1..], Size(n));
      Fold(WrapBase(PrepOperand(f.operands[0], mode), mode), f.ops, PrepSeq(f.operands[1..], mode))
  }


  /**
   * How the source treats the base and each operand: a parenthesised
   * rewritable binary is left native when its leftmost operand is
   * `Math.<x>` and is rewritten by `transformBin` otherwise; any other
   * parenthesised node is unwrapped; everything else is used as it is.
   */
  function PrepOperand(o: Node, mode: Mode): Node
    decreases Size(o), 0
  {
    if o.Paren? then
      if IsOpBinary(o.expr) then
        if MathRooted(o.expr) then o.expr else TransformBin(o.expr, mode)
      else
        o.expr
    else
      o
  }

  function PrepSeq(os: seq<Node>, mode: Mode): (r: seq<Node>)
    ensures |r| == |os|
    decreases MaxSize(os), 1, |os|
  {
    if os == [] then [] else [PrepOperand(os[0], mode)] + PrepSeq(os[1..], mode)
  }

  lemma {:induction false} PrepSeqAt(os: seq<Node>, mode: Mode, i: nat)
    requires i < |os|
    ensures PrepSeq(os, mode)[i] == PrepOperand(os[i], mode)
  {
    if i > 0 {
      PrepSeqAt(os[1..], mode, i - 1);
    }
  }

  /** The `reduce` of `transformBin`: one method call per operator, left-associated. */
  function Fold(acc: Node, ops: seq<string>, args: seq<Node>): Node
    requires |ops| == |args|
    requires forall i :: 0 <= i < |ops| ==> ops[i] in OpMap
    decreases |ops|
  {
    if ops == [] then acc
    else MethodCall(Fold(acc, ops[..|ops| - 1], args[..|args| - 1]), MethodName(ops[|ops| - 1]), args[|args| - 1])
  }

  // ----- reading a chain back -------------------------------------------------

  datatype Peeled = Peeled(base: Node, methods: seq<string>, args: seq<Node>)

  /** Takes `k` calls of the form `receiver.m(x)` off the end of a chain. */
  function Unchain(r: Node, k: nat): Option<Peeled>
    decreases k
  {
    if k == 0 then Some(Peeled(r, [], []))
    else
      match r
      case Call(Member(receiver, Ident(m), false), xs) =>
        if |xs| == 1 then
          match Unchain(receiver, k - 1)
          case Some(p) => Some(Peeled(p.base, p.methods + [m], p.args + [xs[0]]))
          case None => None
        else None
      case _ => None
  }

  lemma UnchainStep(receiver: Node, name: string, arg: Node, k: nat)
    ensures Unchain(MethodCall(receiver, name, arg), k + 1)
         == match Unchain(receiver, k)
            case Some(p) => Some(Peeled(p.base, p.methods + [name], p.args + [arg]))
            case None => None
  {
  }

  /** The method names `opMap` gives a list of operators. */
  function Methods(ops: seq<string>): (ms: seq<string>)
    requires forall i :: 0 <= i < |ops| ==> ops[i] in OpMap
    ensures |ms| == |ops|
    decreases |ops|
  {
    if ops == [] then [] else Methods(ops[..|ops| - 1]) + [MethodName(ops[|ops| - 1])]
  }

  /** Method `i` of the chain is the `opMap` entry of operator `i`. */
  lemma {:induction false} MethodsAt(ops: seq<string>, i: nat)
    requires forall j :: 0 <= j < |ops| ==> ops[j] in OpMap
    requires i < |ops|
    ensures Methods(ops)[i] == OpMap[ops[i]]
    decreases |ops|
  {
    if i < |ops| - 1 {
      MethodsAt(ops[..|ops| - 1], i);
    }
  }

  /** A folded chain reads back as its base, one method per operator, and its arguments. */
  lemma {:induction false} UnchainFold(acc: Node, ops: seq<string>, args: seq<Node>)
    requires |ops| == |args|
    requires forall i :: 0 <= i < |ops| ==> ops[i] in OpMap
    ensures Unchain(Fold(acc, ops, args), |ops|) == Some(Peeled(acc, Methods(ops), args))
    decreases |ops|
  {
    if ops != [] {
      var k := |ops| - 1;
      var inner := Fold(acc, ops[..k], args[..k]);
      assert Fold(acc, ops, args) == MethodCall(inner, MethodName(ops[k]), args[k]);
      UnchainFold(acc, ops[..k], args[..k]);
      UnchainStep(inner, MethodName(ops[k]), args[k], k);
      assert args[..k] + [args[k]] == args;
    }
  }

  /**
   * `transformBin` on an expression that is not purely numeric emits exactly
   * one method call per flattened operator, each named by `opMap`, nested
   * left-associatively on the base; the base is the first operand prepared
   * and wrapped in `float(...)` when it is a signed numeric literal, and
   * argument `i` is operand `i + 1` prepared by `PrepOperand`.
   */
  lemma ChainShape(n: Node, mode: Mode)
    requires !IsPureNumeric(n)
    ensures Unchain(TransformBin(n, mode), |Flatten(n, 0, LeftSide, mode).ops|)
         == Some(Peeled(WrapBase(PrepOperand(Flatten(n, 0, LeftSide, mode).operands[0], mode), mode),
                        Methods(Flatten(n, 0, LeftSide, mode).ops),
                        PrepSeq(Flatten(n, 0, LeftSide, mode).operands[1..], mode)))
  {
    var f := Flatten(n, 0, LeftSide, mode);
    var args := PrepSeq(f.operands[1..], mode);
    assert TransformBin(n, mode) == Fold(WrapBase(PrepOperand(f.operands[0], mode), mode), f.ops, args);
    UnchainFold(WrapBase(PrepOperand(f.operands[0], mode), mode), f.ops, args);
  }

  /**
   * The base is either kept or wrapped in `float(...)`; as written it is
   * wrapped exactly when it is a signed numeric literal, repaired exactly
   * when it is a plain number.
   */
  lemma WrapBaseCases(b: Node, mode: Mode)
    ensures WrapBase(b, mode) == b || WrapBase(b, mode) == FloatCall(b)
    ensures WrapBase(b, AsWritten) != b <==> IsSignedNumericLiteral(b)
    ensures WrapBase(b, Repaired) != b <==> PlainNumber(b)
  {
    if IsSignedNumericLiteral(b) && b.Unary? {
      assert IsPureNumeric(b.arg);
    }
  }

  /** A rewritable binary is returned unchanged exactly when it is purely numeric; otherwise it becomes a call. */
  lemma {:induction false} UnchangedIffPure(n: Node, mode: Mode)
    requires IsOpBinary(n)
    ensures TransformBin(n, mode) == n <==> IsPureNumeric(n)
    ensures !IsPureNumeric(n) ==> TransformBin(n, mode).Call?
  {
    if !IsPureNumeric(n) {
      var f := Flatten(n, 0, LeftSide, mode);
      var p := Prec(n.op);
      assert f.ops == Flatten(n.left, p, LeftSide, mode).ops + [n.op] + Flatten(n.right, p, RightSide, mode).ops;
      assert |f.ops| > 0;
    }
  }

  /**
   * One operator between two operands that are not chains of their own
   * becomes exactly one method call. The right operand may be a group that
   * binds tighter, or, in the repair, any group.
   */
  lemma SingleOperator(n: Node, mode: Mode)
    requires IsOpBinary(n) && !IsPureNumeric(n) && !IsOpBinary(n.left)
    requires IsOpBinary(n.right) ==> mode == Repaired || Prec(n.right.op) > Prec(n.op)
    ensures Flatten(n, 0, LeftSide, mode).operands[0] == n.left
    ensures TransformBin(n, mode)
         == MethodCall(WrapBase(PrepOperand(n.left, mode), mode), MethodName(n.op),
                       PrepOperand(if IsOpBinary(n.right) then Paren(n.right) else n.right, mode))
  {
    var x := if IsOpBinary(n.right) then Paren(n.right) else n.right;
    assert Flatten(n, 0, LeftSide, mode) == Flat([n.op], [n.left, x]);
    TransformBinIsChainOf(n, mode);
    ChainOfOne(n.op, n.left, x, mode);
  }

  /** Away from purely numeric trees, `transformBin` is the chain of the flattened lists. */
  lemma TransformBinIsChainOf(n: Node, mode: Mode)
    requires !IsPureNumeric(n)
    ensures TransformBin(n, mode) == ChainOf(Flatten(n, 0, LeftSide, mode), mode)
  {
  }

  /** The chain of one operator and two operands is one method call. */
  lemma ChainOfOne(op: string, a: Node, b: Node, mode: Mode)
    requires op in OpMap
    ensures ChainOf(Flat([op], [a, b]), mode)
         == MethodCall(WrapBase(PrepOperand(a, mode), mode), MethodName(op), PrepOperand(b, mode))
  {
    assert [a, b][1..] == [b];
    var args := PrepSeq([b], mode);
    assert args == [PrepOperand(b, mode)];
    var base := WrapBase(PrepOperand(a, mode), mode);
    assert [op][..0] == [] && args[..0] == [];
    assert Fold(base, [op], args) == MethodCall(Fold(base, [], []), MethodName(op), args[0]);
  }

  /** A (signed) numeric literal base is wrapped in `float(...)` in both modes. */
  lemma LiteralBase(b: Node, mode: Mode)
    requires IsSignedNumericLiteral(b)
    ensures WrapBase(PrepOperand(b, mode), mode) == FloatCall(b)
  {
  }

  /** A name, member access or call used as the base is kept as the receiver. */
  lemma NameBase(b: Node, mode: Mode)
    requires b.Ident? || b.Member? || b.Call?
    ensures WrapBase(b, mode) == b && WrapBase(PrepOperand(b, mode), mode) == b
  {
  }

  /** The chain `transformBin` folds from flattened lists. */
  function ChainOf(f: Flat, mode: Mode): Node
    requires |f.operands| == |f.ops| + 1
    requires forall i :: 0 <= i < |f.ops| ==> f.ops[i] in OpMap
  {
    Fold(WrapBase(PrepOperand(f.operands[0], mode), mode), f.ops, PrepSeq(f.operands[1..], mode))
  }

  lemma {:induction false} PrepSeqAppend(os: seq<Node>, x: Node, mode: Mode)
    ensures PrepSeq(os + [x], mode) == PrepSeq(os, mode) + [PrepOperand(x, mode)]
    decreases |os|
  {
    if os == [] {
      assert os + [x] == [x];
      assert [x][1..] == [];
    } else {
      assert (os + [x])[1..] == os[1..] + [x];
      PrepSeqAppend(os[1..], x, mode);
    }
  }

  /** One more operator and operand at the end of the lists is one more method call around the chain. */
  lemma ChainOfAppend(l: Flat, op: string, x: Node, mode: Mode)
    requires |l.operands| == |l.ops| + 1
    requires forall i :: 0 <= i < |l.ops| ==> l.ops[i] in OpMap
    requires op in OpMap
    ensures ChainOf(Flat(l.ops + [op], l.operands + [x]), mode)
         == MethodCall(ChainOf(l, mode), MethodName(op), PrepOperand(x, mode))
  {
    var ops, operands := l.ops + [op], l.operands + [x];
    assert operands[1..] == l.operands[1..] + [x];
    PrepSeqAppend(l.operands[1..], x, mode);
    var args := PrepSeq(operands[1..], mode);
    assert ops[..|ops| - 1] == l.ops;
    assert args[..|args| - 1] == PrepSeq(l.operands[1..], mode);
  }

  /** The operand a right child becomes at the top: itself, or a group when it binds tighter. */
  function RightOperand(n: Node): Node
    requires IsOpBinary(n)
  {
    if IsOpBinary(n.right) then Paren(n.right) else n.right
  }

  /**
   * A left operand with the same or looser binding continues its own chain:
   * `(l1 op1 l2) op x` becomes `l1.m1(l2).m(x)` when the left part has a non-numeric operand.
   */
  lemma LeftChainContinues(n: Node, mode: Mode)
    requires IsOpBinary(n) && IsOpBinary(n.left) && Prec(n.left.op) <= Prec(n.op) && !IsPureNumeric(n.left)
    requires IsOpBinary(n.right) ==> Prec(n.right.op) > Prec(n.op)
    ensures TransformBin(n, mode) == MethodCall(TransformBin(n.left, mode), MethodName(n.op), PrepOperand(RightOperand(n), mode))
  {
    var p := Prec(n.op);
    var l := Flatten(n.left, p, LeftSide, mode);
    assert l == Flatten(n.left, 0, LeftSide, mode);
    assert Flatten(n.right, p, RightSide, mode) == Flat([], [RightOperand(n)]);
    assert Flatten(n, 0, LeftSide, mode) == Flat(l.ops + [n.op], l.operands + [RightOperand(n)]);
    ChainOfAppend(l, n.op, RightOperand(n), mode);
  }

  /**
   * A left operand that binds tighter is a group of its own, rewritten first
   * and used as the receiver: `(l1 op1 l2) op x` becomes `l1.m1(l2).m(x)` too.
   */
  lemma LeftGroupStarts(n: Node, mode: Mode)
    requires IsOpBinary(n) && IsOpBinary(n.left) && Prec(n.left.op) > Prec(n.op) && !MathRooted(n.left)
    requires !IsPureNumeric(n)
    requires IsOpBinary(n.right) ==> Prec(n.right.op) > Prec(n.op)
    ensures TransformBin(n, mode)
         == MethodCall(WrapBase(TransformBin(n.left, mode), mode), MethodName(n.op), PrepOperand(RightOperand(n), mode))
  {
    var l := Flat([], [Paren(n.left)]);
    assert Flatten(n.right, Prec(n.op), RightSide, mode) == Flat([], [RightOperand(n)]);
    assert Flatten(n, 0, LeftSide, mode) == Flat(l.ops + [n.op], l.operands + [RightOperand(n)]);
    ChainOfAppend(l, n.op, RightOperand(n), mode);
    assert l.operands[1..] == [];
  }
}

/**
 * The plugin's `transform` hook: the file filter, the outer walk that finds
 * `Fn(<arrow function>)` calls, and the inner walk that rewrites every
 * outermost rewritable binary expression of the callback. Babel's
 * `replaceWith` is modelled on values: the rewritten node takes the place
 * of the old one and the walk goes on into the new node's children.
 */
module Traversal {
  import opened Syntax
  import opened Operators
  import opened Purity
  import opened Flattening
  import opened LeftSpine
  import opened Chain
  import opened Scope

  function Max(a: nat, b: nat): nat
  {
    if a >= b then a else b
  }

  // ----- measures --------------------------------------------------------------

  /** The size of the largest binary expression in a tree, 0 if there is none. */
  function MaxBin(n: Node): nat
    decreases Size(n), 1
  {
    SizeChildren(n);
    Max(if n.Binary? then Size(n) else 0, MaxBinSeq(Children(n)))
  }

  function MaxBinSeq(ns: seq<Node>): nat
    decreases SizeSeq(ns), 2
  {
    if ns == [] then 0 else Max(MaxBin(ns[0]), MaxBinSeq(ns[1..]))
  }

  lemma {:induction false} MaxBinBounded(n: Node)
    ensures MaxBin(n) <= Size(n)
    decreases Size(n), 1
  {
    SizeChildren(n);
    MaxBinSeqBounded(Children(n));
  }

  lemma {:induction false} MaxBinSeqBounded(ns: seq<Node>)
    ensures MaxBinSeq(ns) <= SizeSeq(ns)
    decreases SizeSeq(ns), 2
  {
    if ns != [] {
      MaxBinBounded(ns[0]);
      MaxBinSeqBounded(ns[1..]);
    }
  }

  lemma MaxBinSeqOne(a: Node)
    ensures MaxBinSeq([a]) == MaxBin(a)
  {
    assert [a][1..] == [];
  }

  lemma MaxBinSeqTwo(a: Node, b: Node)
    ensures MaxBinSeq([a, b]) == Max(MaxBin(a), MaxBin(b))
  {
    assert [a, b][1..] == [b];
    MaxBinSeqOne(b);
  }

  lemma MaxBinMethodCall(receiver: Node, name: string, arg: Node)
    ensures MaxBin(MethodCall(receiver, name, arg)) == Max(MaxBin(receiver), MaxBin(arg))
  {
    var callee := Member(receiver, Ident(name), false);
    assert Children(MethodCall(receiver, name, arg)) == [callee, arg];
    MaxBinSeqTwo(callee, arg);
    assert Children(callee) == [receiver, Ident(name)];
    MaxBinSeqTwo(receiver, Ident(name));
    assert MaxBin(Ident(name)) == 0;
  }

  lemma MaxBinFloatCall(b: Node)
    ensures MaxBin(FloatCall(b)) == MaxBin(b)
  {
    assert Children(FloatCall(b)) == [Ident("float"), b];
    MaxBinSeqTwo(Ident("float"), b);
    assert MaxBin(Ident("float")) == 0;
  }

  lemma {:induction false} FoldBelow(acc: Node, ops: seq<string>, args: seq<Node>, bound: nat)
    requires |ops| == |args|
    requires forall i :: 0 <= i < |ops| ==> ops[i] in OpMap
    requires MaxBin(acc) < bound
    requires forall i :: 0 <= i < |args| ==> MaxBin(args[i]) < bound
    ensures MaxBin(Fold(acc, ops, args)) < bound
    decreases |ops|
  {
    if ops != [] {
      var k := |ops| - 1;
      FoldBelow(acc, ops[..k], args[..k], bound);
      MaxBinMethodCall(Fold(acc, ops[..k], args[..k]), MethodName(ops[k]), args[k]);
    }
  }

  /**
   * Rewriting a binary expression that is not purely numeric leaves no
   * binary expression as large as the original: every binary left in the
   * chain sits inside one of its operands.
   */
  lemma {:induction false} TransformBinShrinks(n: Node, mode: Mode)
    requires IsOpBinary(n) && !IsPureNumeric(n)
    ensures MaxBin(TransformBin(n, mode)) < Size(n)
    decreases Size(n), 1
  {
    var f := Flatten(n, 0, LeftSide, mode);
    FlattenSizes(n, 0, LeftSide, mode);
    assert f.operands[0] in f.operands;
    PrepOperandBelow(f.operands[0], mode, Size(n));
    var b := PrepOperand(f.operands[0], mode);
    if WrapBase(b, mode) != b {
      MaxBinFloatCall(b);
    }
    var args := PrepSeq(f.operands[1..], mode);
    forall i | 0 <= i < |args| ensures MaxBin(args[i]) < Size(n) {
      PrepSeqAt(f.operands[1..], mode, i);
      assert f.operands[i + 1] in f.operands;
      PrepOperandBelow(f.operands[i + 1], mode, Size(n));
    }
    FoldBelow(WrapBase(b, mode), f.ops, args, Size(n));
  }

  lemma {:induction false} PrepOperandBelow(o: Node, mode: Mode, bound: nat)
    requires Size(o) < bound
    ensures MaxBin(PrepOperand(o, mode)) < bound
    decreases Size(o), 0
  {
    if o.Paren? {
      if IsOpBinary(o.expr) && !MathRooted(o.expr) && !IsPureNumeric(o.expr) {
        TransformBinShrinks(o.expr, mode);
      } else {
        MaxBinBounded(o.expr);
      }
    } else {
      MaxBinBounded(o);
    }
  }

  /** A binary expression is rewritten into a chain with only smaller binaries, or left as it is. */
  lemma RewriteProgress(n: Node, mode: Mode)
    requires IsOpBinary(n)
    ensures TransformBin(n, mode) == n || MaxBin(TransformBin(n, mode)) < MaxBin(n)
  {
    if !IsPureNumeric(n) {
      TransformBinShrinks(n, mode);
    }
  }

  // ----- the inner walk: `BinaryExpression` inside an `Fn` callback ------------

  /**
   * Whether the visitor rewrites `n`: it is a binary expression whose parent
   * is not one, its operator is in `opMap`, and `shouldTransformBase`
   * accepts the first flattened operand.
   */
  predicate Gate(n: Node, underBinary: bool, env: Env, mode: Mode)
  {
    !underBinary && IsOpBinary(n) && ShouldTransformBase(Flatten(n, 0, LeftSide, mode).operands[0], env)
  }

  /**
   * The inner walk at `n`, whose parent is a binary expression when
   * `underBinary`: a gated node is replaced by its rewrite, and the walk
   * goes on into the children of whichever node is now in place.
   */
  function Visit(n: Node, underBinary: bool, env: Env, mode: Mode): (r: Node)
    ensures r.Ident? <==> n.Ident?
    ensures n.Ident? ==> r == n
    decreases MaxBin(n), Size(n), 1
  {
    if Gate(n, underBinary, env, mode) then
      RewriteProgress(n, mode);
      UnchangedIffPure(n, mode);
      VisitKids(TransformBin(n, mode), env, mode)
    else
      VisitKids(n, env, mode)
  }

  /** The walk over the children of `m`, which are under a binary exactly when `m` is one. */
  function VisitKids(m: Node, env: Env, mode: Mode): (r: Node)
    ensures r.Ident? <==> m.Ident?
    ensures m.Ident? ==> r == m
    decreases MaxBin(m), Size(m), 0
  {
    SizeChildren(m);
    WithChildren(m, VisitSeq(Children(m), m.Binary?, env, mode))
  }

  function VisitSeq(cs: seq<Node>, underBinary: bool, env: Env, mode: Mode): (r: seq<Node>)
    ensures |r| == |cs|
    decreases MaxBinSeq(cs), SizeSeq(cs), 2
  {
    if cs == [] then [] else [Visit(cs[0], underBinary, env, mode)] + VisitSeq(cs[1..], underBinary, env, mode)
  }

  // ----- the outer walk: `CallExpression` ---------------------------------------

  /** A call whose callee is the identifier `Fn`. */
  predicate IsFnCall(n: Node)
  {
    n.Call? && n.callee == Ident("Fn")
  }

  /** An `Fn` call whose first argument is an arrow function: the only place the inner walk runs. */
  predicate IsFnWithArrow(n: Node)
  {
    IsFnCall(n) && |n.args| > 0 && n.args[0].Arrow?
  }

  /** The number of `Fn` calls in a tree. */
  function FnCount(n: Node): nat
    decreases Size(n), 1
  {
    SizeChildren(n);
    (if IsFnCall(n) then 1 else 0) + FnCountSeq(Children(n))
  }

  function FnCountSeq(ns: seq<Node>): nat
    decreases SizeSeq(ns), 2
  {
    if ns == [] then 0 else FnCount(ns[0]) + FnCountSeq(ns[1..])
  }

  lemma {:induction false} FnCountSeqAppend(a: seq<Node>, b: seq<Node>)
    ensures FnCountSeq(a + b) == FnCountSeq(a) + FnCountSeq(b)
    decreases |a|
  {
    if a == [] {
      assert a + b == b;
    } else {
      assert (a + b)[1..] == a[1..] + b;
      FnCountSeqAppend(a[1..], b);
    }
  }

  lemma FnCountSeqOne(a: Node)
    ensures FnCountSeq([a]) == FnCount(a)
  {
    assert [a][1..] == [];
  }

  lemma FnCountSeqTwo(a: Node, b: Node)
    ensures FnCountSeq([a, b]) == FnCount(a) + FnCount(b)
  {
    assert [a, b][1..] == [b];
    FnCountSeqOne(b);
  }

  lemma FnCountMethodCall(receiver: Node, name: string, arg: Node)
    ensures FnCount(MethodCall(receiver, name, arg)) == FnCount(receiver) + FnCount(arg)
  {
    var callee := Member(receiver, Ident(name), false);
    assert Children(MethodCall(receiver, name, arg)) == [callee, arg];
    FnCountSeqTwo(callee, arg);
    assert Children(callee) == [receiver, Ident(name)];
    FnCountSeqTwo(receiver, Ident(name));
    assert FnCount(Ident(name)) == 0;
  }

  lemma FnCountFloatCall(b: Node)
    ensures FnCount(FloatCall(b)) == FnCount(b)
  {
    assert Children(FloatCall(b)) == [Ident("float"), b];
    FnCountSeqTwo(Ident("float"), b);
    assert FnCount(Ident("float")) == 0;
  }

  lemma FnCountSeqLast(args: seq<Node>)
    requires args != []
    ensures FnCountSeq(args) == FnCountSeq(args[..|args| - 1]) + FnCount(args[|args| - 1])
  {
    var k := |args| - 1;
    assert args == args[..k] + [args[k]];
    FnCountSeqAppend(args[..k], [args[k]]);
    FnCountSeqOne(args[k]);
  }

  lemma {:induction false} FnCountFold(acc: Node, ops: seq<string>, args: seq<Node>)
    requires |ops| == |args|
    requires forall i :: 0 <= i < |ops| ==> ops[i] in OpMap
    ensures FnCount(Fold(acc, ops, args)) == FnCount(acc) + FnCountSeq(args)
    decreases |ops|
  {
    if ops != [] {
      var k := |ops| - 1;
      var inner := Fold(acc, ops[..k], args[..k]);
      FnCountFold(acc, ops[..k], args[..k]);
      assert Fold(acc, ops, args) == MethodCall(inner, MethodName(ops[k]), args[k]);
      FnCountMethodCall(inner, MethodName(ops[k]), args[k]);
      FnCountSeqLast(args);
    }
  }

  /** Flattening neither adds nor drops an `Fn` call. */
  lemma {:induction false} FnCountFlatten(n: Node, parentPrec: nat, side: Side, mode: Mode)
    ensures FnCountSeq(Flatten(n, parentPrec, side, mode).operands) == FnCount(n)
    decreases n
  {
    if IsOpBinary(n) {
      if Splits(n, parentPrec, side, mode) {
        FnCountSeqOne(Paren(n));
        assert Children(Paren(n)) == [n];
        FnCountSeqOne(n);
      } else {
        var p := Prec(n.op);
        FnCountFlatten(n.left, p, LeftSide, mode);
        FnCountFlatten(n.right, p, RightSide, mode);
        FnCountSeqAppend(Flatten(n.left, p, LeftSide, mode).operands, Flatten(n.right, p, RightSide, mode).operands);
        FnCountSeqTwo(n.left, n.right);
      }
    } else {
      FnCountSeqOne(n);
    }
  }

  /** The chain folded from flattened lists holds the `Fn` calls of its operands, once prepared. */
  lemma ChainFnCount(f: Flat, mode: Mode)
    requires |f.operands| == |f.ops| + 1
    requires forall i :: 0 <= i < |f.ops| ==> f.ops[i] in OpMap
    requires FnCount(PrepOperand(f.operands[0], mode)) == FnCount(f.operands[0])
    requires FnCountSeq(PrepSeq(f.operands[1..], mode)) == FnCountSeq(f.operands[1..])
    ensures FnCount(Fold(WrapBase(PrepOperand(f.operands[0], mode), mode), f.ops, PrepSeq(f.operands[1..], mode)))
         == FnCountSeq(f.operands)
  {
    var b := PrepOperand(f.operands[0], mode);
    if WrapBase(b, mode) != b {
      FnCountFloatCall(b);
    }
    FnCountFold(WrapBase(b, mode), f.ops, PrepSeq(f.operands[1..], mode));
    assert f.operands == [f.operands[0]] + f.operands[1..];
    FnCountSeqAppend([f.operands[0]], f.operands[1..]);
    FnCountSeqOne(f.operands[0]);
  }

  /** `transformBin` neither adds nor drops an `Fn` call. */
  lemma {:induction false} TransformBinKeepsFnCount(n: Node, mode: Mode)
    requires IsOpBinary(n)
    ensures FnCount(TransformBin(n, mode)) == FnCount(n)
    decreases Size(n), 2
  {
    if !IsPureNumeric(n) {
      var f := Flatten(n, 0, LeftSide, mode);
      FlattenSizes(n, 0, LeftSide, mode);
      assert f.operands[0] in f.operands;
      PrepKeepsFnCount(f.operands[0], mode);
      var rest := f.operands[1..];
      forall o | o in rest ensures Size(o) < Size(n) {
        assert o in f.operands;
      }
      PrepSeqKeepsFnCount(rest, mode, Size(n));
      ChainFnCount(f, mode);
      FnCountFlatten(n, 0, LeftSide, mode);
    }
  }

  lemma {:induction false} PrepSeqKeepsFnCount(os: seq<Node>, mode: Mode, bound: nat)
    requires forall o :: o in os ==> Size(o) < bound
    ensures FnCountSeq(PrepSeq(os, mode)) == FnCountSeq(os)
    decreases bound, 1, |os|
  {
    if os != [] {
      assert os[0] in os;
      PrepKeepsFnCount(os[0], mode);
      PrepSeqKeepsFnCount(os[1..], mode, bound);
      assert PrepSeq(os, mode) == [PrepOperand(os[0], mode)] + PrepSeq(os[1..], mode);
    }
  }

  lemma {:induction false} PrepKeepsFnCount(o: Node, mode: Mode)
    ensures FnCount(PrepOperand(o, mode)) == FnCount(o)
    decreases Size(o), 0, 0
  {
    if o.Paren? {
      assert Children(o) == [o.expr];
      FnCountSeqOne(o.expr);
      if IsOpBinary(o.expr) && !MathRooted(o.expr) {
        TransformBinKeepsFnCount(o.expr, mode);
      }
    }
  }

  /** The inner walk neither adds nor drops an `Fn` call. */
  lemma {:induction false} VisitKeepsFnCount(n: Node, underBinary: bool, env: Env, mode: Mode)
    ensures FnCount(Visit(n, underBinary, env, mode)) == FnCount(n)
    decreases MaxBin(n), Size(n), 1
  {
    if Gate(n, underBinary, env, mode) {
      RewriteProgress(n, mode);
      TransformBinKeepsFnCount(n, mode);
      VisitKidsKeepsFnCount(TransformBin(n, mode), env, mode);
    } else {
      VisitKidsKeepsFnCount(n, env, mode);
    }
  }

  lemma {:induction false} VisitKidsKeepsFnCount(m: Node, env: Env, mode: Mode)
    ensures FnCount(VisitKids(m, env, mode)) == FnCount(m)
    decreases MaxBin(m), Size(m), 0
  {
    SizeChildren(m);
    var cs := VisitSeq(Children(m), m.Binary?, env, mode);
    VisitSeqKeepsFnCount(Children(m), m.Binary?, env, mode);
    if m.Call? {
      assert cs[0] == Visit(m.callee, m.Binary?, env, mode);
    }
  }

  lemma {:induction false} VisitSeqKeepsFnCount(cs: seq<Node>, underBinary: bool, env: Env, mode: Mode)
    ensures FnCountSeq(VisitSeq(cs, underBinary, env, mode)) == FnCountSeq(cs)
    decreases MaxBinSeq(cs), SizeSeq(cs), 2
  {
    if cs != [] {
      VisitKeepsFnCount(cs[0], underBinary, env, mode);
      VisitSeqKeepsFnCount(cs[1..], underBinary, env, mode);
    }
  }

  /** The `Fn` call once its callback has been walked. */
  function WalkCallback(n: Node, env: Env, mode: Mode): Node
    requires IsFnWithArrow(n)
  {
    Call(n.callee, [VisitKids(n.args[0], env, mode)] + n.args[1..])
  }

  lemma FnCountSeqCons(x: Node, rest: seq<Node>)
    ensures FnCountSeq([x] + rest) == FnCount(x) + FnCountSeq(rest)
  {
    assert ([x] + rest)[1..] == rest;
  }

  /** Replacing the first argument of an `Fn` call by one with as many `Fn` calls. */
  lemma FnCallShrinks(a: Node, v: Node, rest: seq<Node>)
    requires FnCount(v) == FnCount(a)
    ensures FnCountSeq(Children(Call(Ident("Fn"), [v] + rest))) < FnCount(Call(Ident("Fn"), [a] + rest))
  {
    FnCountSeqCons(Ident("Fn"), [v] + rest);
    FnCountSeqCons(v, rest);
    FnCountSeqCons(Ident("Fn"), [a] + rest);
    FnCountSeqCons(a, rest);
  }

  /** Walking the callback leaves fewer `Fn` calls below the call than the call counts. */
  lemma FnStepShrinks(n: Node, env: Env, mode: Mode)
    requires IsFnWithArrow(n)
    ensures FnCountSeq(Children(WalkCallback(n, env, mode))) < FnCount(n)
  {
    VisitKidsKeepsFnCount(n.args[0], env, mode);
    assert n == Call(Ident("Fn"), [n.args[0]] + n.args[1..]);
    FnCallShrinks(n.args[0], VisitKids(n.args[0], env, mode), n.args[1..]);
  }

  /** An `Fn` call whose walked callback holds no further `Fn` call is done after one step. */
  lemma OuterPassSettles(n: Node, env: Env, mode: Mode)
    requires IsFnWithArrow(n)
    requires FnCountSeq(Children(WalkCallback(n, env, mode))) == 0
    ensures OuterPass(n, env, mode) == WalkCallback(n, env, mode)
  {
    var m := WalkCallback(n, env, mode);
    NoFnSeqUnchanged(Children(m), env, mode);
    WithOwnChildren(m);
  }

  /**
   * The outer walk: at every `Fn(<arrow function>)` call the callback is
   * walked by the inner visitor, and the outer walk then goes on into the
   * call's children, nested `Fn` calls included.
   */
  function OuterPass(n: Node, env: Env, mode: Mode): Node
    decreases FnCount(n), Size(n), 1
  {
    SizeChildren(n);
    if IsFnWithArrow(n) then
      var m := WalkCallback(n, env, mode);
      FnStepShrinks(n, env, mode);
      WithChildren(m, OuterPassSeq(Children(m), env, mode))
    else
      WithChildren(n, OuterPassSeq(Children(n), env, mode))
  }

  function OuterPassSeq(cs: seq<Node>, env: Env, mode: Mode): (r: seq<Node>)
    ensures |r| == |cs|
    decreases FnCountSeq(cs), SizeSeq(cs), 2
  {
    if cs == [] then [] else [OuterPass(cs[0], env, mode)] + OuterPassSeq(cs[1..], env, mode)
  }

  // ----- the hook ----------------------------------------------------------------

  predicate EndsWith(s: string, suffix: string)
  {
    |suffix| <= |s| && s[|s| - |suffix|..] == suffix
  }

  /** The file filter: module ids ending in `.js`, `.ts`, `.jsx` or `.tsx`. */
  predicate HandlesFile(id: string)
  {
    EndsWith(id, ".js") || EndsWith(id, ".ts") || EndsWith(id, ".jsx") || EndsWith(id, ".tsx")
  }

  /**
   * `transform(code, id)` on an already parsed program: `None` (the hook's
   * `null`) for every other file, the rewritten program otherwise.
   */
  function TransformFile(id: string, program: Node, env: Env, mode: Mode): (r: Option<Node>)
    ensures r.None? <==> !HandlesFile(id)
  {
    if HandlesFile(id) then Some(OuterPass(program, env, mode)) else None
  }

  // ----- properties of the walks -------------------------------------------------

  /** No rewritable binary expression anywhere in the tree mixes in anything but numbers. */
  predicate Calm(n: Node)
    decreases Size(n), 1
  {
    SizeChildren(n);
    (IsOpBinary(n) ==> IsPureNumeric(n)) && CalmSeq(Children(n))
  }

  predicate CalmSeq(ns: seq<Node>)
    decreases SizeSeq(ns), 2
  {
    ns == [] || (Calm(ns[0]) && CalmSeq(ns[1..]))
  }

  /** A callback whose arithmetic is all on numbers comes out of the inner walk unchanged. */
  lemma {:induction false} CalmIsUnchanged(n: Node, underBinary: bool, env: Env, mode: Mode)
    requires Calm(n)
    ensures Visit(n, underBinary, env, mode) == n
    decreases MaxBin(n), Size(n), 1
  {
    if Gate(n, underBinary, env, mode) {
      assert TransformBin(n, mode) == n;
    }
    CalmKidsUnchanged(n, env, mode);
  }

  lemma {:induction false} CalmKidsUnchanged(m: Node, env: Env, mode: Mode)
    requires Calm(m)
    ensures VisitKids(m, env, mode) == m
    decreases MaxBin(m), Size(m), 0
  {
    SizeChildren(m);
    CalmSeqUnchanged(Children(m), m.Binary?, env, mode);
    WithOwnChildren(m);
  }

  lemma {:induction false} CalmSeqUnchanged(cs: seq<Node>, underBinary: bool, env: Env, mode: Mode)
    requires CalmSeq(cs)
    ensures VisitSeq(cs, underBinary, env, mode) == cs
    decreases MaxBinSeq(cs), SizeSeq(cs), 2
  {
    if cs != [] {
      CalmIsUnchanged(cs[0], underBinary, env, mode);
      CalmSeqUnchanged(cs[1..], underBinary, env, mode);
    }
  }

  lemma {:induction false} PureIsCalm(n: Node)
    requires IsPureNumeric(n)
    ensures Calm(n)
    decreases n
  {
    match n
    case NumLit(_) =>
    case Unary(_, a) =>
      PureIsCalm(a);
      assert [a][1..] == [];
    case Binary(_, l, r) =>
      PureIsCalm(l);
      PureIsCalm(r);
      assert [l, r][1..] == [r];
      assert [r][1..] == [];
      assert CalmSeq([r]);
      assert CalmSeq([l, r]);
    case Paren(e) =>
      PureIsCalm(e);
      assert [e][1..] == [];
  }

  /** A purely numeric expression, at any depth of a callback, is never rewritten. */
  lemma PureIsUnchanged(n: Node, underBinary: bool, env: Env, mode: Mode)
    requires IsPureNumeric(n)
    ensures Visit(n, underBinary, env, mode) == n
  {
    PureIsCalm(n);
    CalmIsUnchanged(n, underBinary, env, mode);
  }

  /** Code outside every `Fn` call is left exactly as it is. */
  lemma {:induction false} NoFnIsUnchanged(n: Node, env: Env, mode: Mode)
    requires FnCount(n) == 0
    ensures OuterPass(n, env, mode) == n
    decreases Size(n), 1
  {
    SizeChildren(n);
    NoFnSeqUnchanged(Children(n), env, mode);
    WithOwnChildren(n);
  }

  lemma {:induction false} NoFnSeqUnchanged(cs: seq<Node>, env: Env, mode: Mode)
    requires FnCountSeq(cs) == 0
    ensures OuterPassSeq(cs, env, mode) == cs
    decreases SizeSeq(cs), 2
  {
    if cs != [] {
      NoFnIsUnchanged(cs[0], env, mode);
      NoFnSeqUnchanged(cs[1..], env, mode);
    }
  }

  /**
   * An `Fn` call whose first argument is not an arrow function, such as
   * `Fn(function () { ... })` or `Fn(callback)`, is not walked: with no
   * further `Fn` call below it, it is left exactly as it is.
   */
  lemma NonArrowFnUnchanged(n: Node, env: Env, mode: Mode)
    requires IsFnCall(n) && !IsFnWithArrow(n)
    requires FnCountSeq(Children(n)) == 0
    ensures OuterPass(n, env, mode) == n
  {
    NoFnSeqUnchanged(Children(n), env, mode);
    WithOwnChildren(n);
  }

  /**
   * What happens at the root of a visited node: a binary expression whose
   * parent is a binary, or that the gate refuses, keeps its operator; a
   * gated expression that is not purely numeric becomes a method call; a
   * gated purely numeric one keeps its operator too.
   */
  lemma VisitRoot(n: Node, underBinary: bool, env: Env, mode: Mode)
    ensures n.Binary? && !Gate(n, underBinary, env, mode) ==>
              Visit(n, underBinary, env, mode).Binary? && Visit(n, underBinary, env, mode).op == n.op
    ensures n.Binary? && underBinary ==> Visit(n, underBinary, env, mode).Binary?
    ensures Gate(n, underBinary, env, mode) && !IsPureNumeric(n) ==> Visit(n, underBinary, env, mode).Call?
    ensures Gate(n, underBinary, env, mode) && IsPureNumeric(n) ==>
              Visit(n, underBinary, env, mode).Binary? && Visit(n, underBinary, env, mode).op == n.op
  {
    if Gate(n, underBinary, env, mode) {
      UnchangedIffPure(n, mode);
    }
  }

  /**
   * An expression whose leftmost operand is `Math.<x>` is left alone when
   * no rewritable operator on its left spine binds tighter than the one
   * above it (so that the leftmost operand is also the first flattened one).
   */
  lemma MathLeftMostIsRefused(n: Node, underBinary: bool, env: Env, mode: Mode)
    requires IsOpBinary(n) && EvenSpine(n, 0) && IsMathMember(LeftMost(n))
    ensures !Gate(n, underBinary, env, mode)
  {
    FirstOperandIsLeftMost(n, 0, mode);
  }

  lemma EndsWithStep(s: string, suffix: string, c: char)
    ensures EndsWith(s + [c], suffix + [c]) <==> EndsWith(s, suffix)
  {
    var t, u := s + [c], suffix + [c];
    if |u| <= |t| {
      assert t[|t| - |u|..] == s[|s| - |suffix|..] + [c];
      if t[|t| - |u|..] == u {
        assert s[|s| - |suffix|..] == u[..|suffix|] == suffix;
      }
    }
  }

  lemma EndsWithLastChar(s: string, suffix: string)
    requires EndsWith(s, suffix) && |suffix| > 0
    ensures s[|s| - 1] == suffix[|suffix| - 1]
  {
    assert s[|s| - |suffix|..][|suffix| - 1] == s[|s| - 1];
  }

  /**
   * The filter read as the pattern `\.(js|ts)x?$`: drop one trailing `x`,
   * then what is left ends with `.js` or `.ts`.
   */
  lemma HandlesFileAsPattern(id: string)
    ensures HandlesFile(id)
        <==> var core := if |id| > 0 && id[|id| - 1] == 'x' then id[..|id| - 1] else id;
             EndsWith(core, ".js") || EndsWith(core, ".ts")
  {
    if |id| > 0 && id[|id| - 1] == 'x' {
      var core := id[..|id| - 1];
      assert id == core + ['x'];
      if EndsWith(id, ".js") { EndsWithLastChar(id, ".js"); }
      if EndsWith(id, ".ts") { EndsWithLastChar(id, ".ts"); }
      assert ".jsx" == ".js" + ['x'] && ".tsx" == ".ts" + ['x'];
      EndsWithStep(core, ".js", 'x');
      EndsWithStep(core, ".ts", 'x');
    } else {
      if EndsWith(id, ".jsx") { EndsWithLastChar(id, ".jsx"); }
      if EndsWith(id, ".tsx") { EndsWithLastChar(id, ".tsx"); }
    }
  }
}

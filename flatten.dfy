/**
 * `flattenBinary`: turns a tree of rewritable binary operators into the
 * list of its operators and the list of its operands, left to right, so
 * that `transformBin` can fold them into one method chain.
 *
 * The source splits a child off as one parenthesised operand only when the
 * child binds strictly tighter than its parent, so a right child of equal
 * or lower precedence is read into the parent's chain, which regroups it
 * (`a * (b + c)` is read as `a * b + c`).
 */
module Flattening {
  import opened Syntax
  import opened Operators

  /**
   * The two behaviours the model covers. `AsWritten` is the source's.
   * `Repaired` corrects its two defects: here, every rewritable right child
   * is split off, which keeps the grouping of the tree; in `transformBin`,
   * a chain receiver that is still a plain number is wrapped in `float(...)`.
   */
  datatype Mode = AsWritten | Repaired

  /** Which operand of its parent a node is. */
  datatype Side = LeftSide | RightSide

  datatype Flat = Flat(ops: seq<string>, operands: seq<Node>)

  /** Whether a rewritable binary below a parent of precedence `parentPrec` becomes one operand. */
  predicate Splits(n: Node, parentPrec: nat, side: Side, mode: Mode)
    requires IsOpBinary(n)
  {
    parentPrec > 0 && (Prec(n.op) > parentPrec || (mode == Repaired && side == RightSide))
  }

  /**
   * The specification of `flattenBinary(n, parentPrec)`: the operators that
   * are pushed, and the operands. A parent precedence of 0 means "top".
   */
  function Flatten(n: Node, parentPrec: nat, side: Side, mode: Mode): (f: Flat)
    ensures |f.operands| == |f.ops| + 1
    ensures forall i :: 0 <= i < |f.ops| ==> f.ops[i] in OpMap
    ensures forall i :: 0 <= i < |f.operands| ==> !IsOpBinary(f.operands[i])
    decreases n
  {
    if IsOpBinary(n) then
      if Splits(n, parentPrec, side, mode) then
        Flat([], [Paren(n)])
      else
        var p := Prec(n.op);
        var l := Flatten(n.left, p, LeftSide, mode);
        var r := Flatten(n.right, p, RightSide, mode);
        Flat(l.ops + [n.op] + r.ops, l.operands + r.operands)
    else
      Flat([], [n])
  }

  /**
   * Every operand is at most one node larger than the tree it comes from
   * (the added parentheses), and at the top no larger; below a rewritable
   * root every operand is strictly smaller than the root.
   */
  lemma {:induction false} FlattenSizes(n: Node, parentPrec: nat, side: Side, mode: Mode)
    ensures forall o :: o in Flatten(n, parentPrec, side, mode).operands ==> Size(o) <= Size(n) + 1
    ensures parentPrec == 0 ==> forall o :: o in Flatten(n, parentPrec, side, mode).operands ==> Size(o) <= Size(n)
    ensures parentPrec == 0 && IsOpBinary(n) ==>
              forall o :: o in Flatten(n, parentPrec, side, mode).operands ==> Size(o) < Size(n)
    decreases n
  {
    if IsOpBinary(n) && !Splits(n, parentPrec, side, mode) {
      var p := Prec(n.op);
      FlattenSizes(n.left, p, LeftSide, mode);
      FlattenSizes(n.right, p, RightSide, mode);
      var l := Flatten(n.left, p, LeftSide, mode);
      var r := Flatten(n.right, p, RightSide, mode);
      assert Flatten(n, parentPrec, side, mode).operands == l.operands + r.operands;
    }
  }

  /** The two arrays `ops` and `operands` that `flattenBinary` shares across its recursive calls. */
  class Accumulator {
    var ops: seq<string>
    var operands: seq<Node>

    constructor ()
      ensures ops == [] && operands == []
    {
      ops := [];
      operands := [];
    }

    method PushOp(op: string)
      modifies this
      ensures ops == old(ops) + [op] && operands == old(operands)
    {
      ops := ops + [op];
    }

    method PushOperand(x: Node)
      modifies this
      ensures operands == old(operands) + [x] && ops == old(ops)
    {
      operands := operands + [x];
    }
  }

  lemma Associate<T>(a: seq<T>, b: seq<T>, c: seq<T>)
    ensures a + b + c == a + (b + c)
  {
  }

  /** The recursion of `flattenBinary`, pushing into the shared accumulator. */
  method FlattenInto(n: Node, parentPrec: nat, side: Side, mode: Mode, acc: Accumulator)
    modifies acc
    ensures acc.ops == old(acc.ops) + Flatten(n, parentPrec, side, mode).ops
    ensures acc.operands == old(acc.operands) + Flatten(n, parentPrec, side, mode).operands
    decreases n
  {
    ghost var f := Flatten(n, parentPrec, side, mode);
    if IsOpBinary(n) {
      var nodePrec := Prec(n.op);
      if parentPrec > 0 && (nodePrec > parentPrec || (mode == Repaired && side == RightSide)) {
        assert f == Flat([], [Paren(n)]);
        acc.PushOperand(Paren(n));
        return;
      }
      ghost var l := Flatten(n.left, nodePrec, LeftSide, mode);
      ghost var r := Flatten(n.right, nodePrec, RightSide, mode);
      assert f == Flat(l.ops + [n.op] + r.ops, l.operands + r.operands);
      ghost var ops0, operands0 := acc.ops, acc.operands;
      FlattenInto(n.left, nodePrec, LeftSide, mode, acc);
      acc.PushOp(n.op);
      ghost var ops1, operands1 := acc.ops, acc.operands;
      assert ops1 == ops0 + l.ops + [n.op] && operands1 == operands0 + l.operands;
      FlattenInto(n.right, nodePrec, RightSide, mode, acc);
      assert acc.ops == ops1 + r.ops && acc.operands == operands1 + r.operands;
      Associate(ops0, l.ops, [n.op]);
      Associate(ops0, l.ops + [n.op], r.ops);
      Associate(operands0, l.operands, r.operands);
    } else {
      // a parenthesised node and any other node are both pushed whole
      assert f == Flat([], [n]);
      acc.PushOperand(n);
    }
  }

  /** `flattenBinary(n, 0)`: fresh accumulators, returned once the recursion is done. */
  method FlattenBinary(n: Node, mode: Mode) returns (ops: seq<string>, operands: seq<Node>)
    ensures Flat(ops, operands) == Flatten(n, 0, LeftSide, mode)
    ensures |operands| == |ops| + 1
  {
    var acc := new Accumulator();
    FlattenInto(n, 0, LeftSide, mode, acc);
    ops, operands := acc.ops, acc.operands;
  }

  // ----- reading the flattened lists back ------------------------------------

  datatype Token = Operand(node: Node) | Operator(op: string)

  /**
   * The in-order reading of a tree of rewritable operators: operators
   * between their operands, and parentheses around a rewritable binary
   * read through.
   */
  function Tokens(n: Node): seq<Token>
    decreases n
  {
    if IsOpBinary(n) then Tokens(n.left) + [Operator(n.op)] + Tokens(n.right)
    else if n.Paren? && IsOpBinary(n.expr) then Tokens(n.expr)
    else [Operand(n)]
  }

  /** Operators each followed by the reading of its right operand. */
  function Pairs(ops: seq<string>, xs: seq<Node>): seq<Token>
    requires |ops| == |xs|
    decreases |ops|
  {
    if ops == [] then [] else [Operator(ops[0])] + Tokens(xs[0]) + Pairs(ops[1..], xs[1..])
  }

  /** Operands and operators read alternately, each operand through `Tokens`. */
  function Interleave(ops: seq<string>, operands: seq<Node>): seq<Token>
    requires |operands| == |ops| + 1
  {
    Tokens(operands[0]) + Pairs(ops, operands[1..])
  }

  lemma {:induction false} PairsAppend(ops1: seq<string>, xs1: seq<Node>, ops2: seq<string>, xs2: seq<Node>)
    requires |ops1| == |xs1| && |ops2| == |xs2|
    ensures Pairs(ops1 + ops2, xs1 + xs2) == Pairs(ops1, xs1) + Pairs(ops2, xs2)
    decreases |ops1|
  {
    if ops1 == [] {
      assert ops1 + ops2 == ops2 && xs1 + xs2 == xs2;
    } else {
      assert (ops1 + ops2)[0] == ops1[0] && (xs1 + xs2)[0] == xs1[0];
      assert (ops1 + ops2)[1..] == ops1[1..] + ops2;
      assert (xs1 + xs2)[1..] == xs1[1..] + xs2;
      PairsAppend(ops1[1..], xs1[1..], ops2, xs2);
      Associate([Operator(ops1[0])] + Tokens(xs1[0]), Pairs(ops1[1..], xs1[1..]), Pairs(ops2, xs2));
    }
  }

  lemma PairsCons(op: string, x: Node, ops: seq<string>, xs: seq<Node>)
    requires |ops| == |xs|
    ensures Pairs([op] + ops, [x] + xs) == [Operator(op)] + Tokens(x) + Pairs(ops, xs)
  {
    assert ([op] + ops)[1..] == ops && ([x] + xs)[1..] == xs;
  }

  lemma Regroup5<T>(a: seq<T>, b: seq<T>, c: seq<T>, d: seq<T>, e: seq<T>)
    ensures a + (b + (c + d + e)) == (a + b) + c + (d + e)
  {
  }

  lemma InterleaveAppend(a: Flat, op: string, b: Flat)
    requires |a.operands| == |a.ops| + 1 && |b.operands| == |b.ops| + 1
    ensures Interleave(a.ops + [op] + b.ops, a.operands + b.operands)
         == Interleave(a.ops, a.operands) + [Operator(op)] + Interleave(b.ops, b.operands)
  {
    var x0, xs := a.operands[0], a.operands[1..];
    var y0, ys := b.operands[0], b.operands[1..];
    assert a.operands + b.operands == [x0] + (xs + b.operands);
    assert a.ops + [op] + b.ops == a.ops + ([op] + b.ops);
    assert b.operands == [y0] + ys;
    PairsAppend(a.ops, xs, [op] + b.ops, b.operands);
    PairsCons(op, y0, b.ops, ys);
    Regroup5(Tokens(x0), Pairs(a.ops, xs), [Operator(op)], Tokens(y0), Pairs(b.ops, ys));
  }

  /**
   * Flattening loses, duplicates and reorders nothing: reading the operands
   * and operators alternately gives back the in-order reading of the tree.
   */
  lemma {:induction false} FlattenInOrder(n: Node, parentPrec: nat, side: Side, mode: Mode)
    ensures var f := Flatten(n, parentPrec, side, mode); Interleave(f.ops, f.operands) == Tokens(n)
    decreases n
  {
    if IsOpBinary(n) && !Splits(n, parentPrec, side, mode) {
      var p := Prec(n.op);
      FlattenInOrder(n.left, p, LeftSide, mode);
      FlattenInOrder(n.right, p, RightSide, mode);
      InterleaveAppend(Flatten(n.left, p, LeftSide, mode), n.op, Flatten(n.right, p, RightSide, mode));
    }
  }

  /** A node that is not a rewritable binary is a single operand at any position. */
  lemma LeafIsOneOperand(n: Node, parentPrec: nat, side: Side, mode: Mode)
    requires !IsOpBinary(n)
    ensures Flatten(n, parentPrec, side, mode) == Flat([], [n])
  {
  }

  /**
   * At the top, a child that binds strictly tighter than the root becomes
   * one parenthesised operand: the first one for the left child, the last
   * one for the right child.
   */
  lemma TighterChildIsOneOperand(n: Node, mode: Mode)
    requires IsOpBinary(n)
    ensures var f := Flatten(n, 0, LeftSide, mode);
            (IsOpBinary(n.left) && Prec(n.left.op) > Prec(n.op) ==> f.operands[0] == Paren(n.left))
            && (IsOpBinary(n.right) && Prec(n.right.op) > Prec(n.op) ==> f.operands[|f.operands| - 1] == Paren(n.right))
  {
  }

  /**
   * The quirk of the source: a rewritable right child that does not bind
   * tighter than its parent is read into the parent's chain, so its
   * operator follows the parent's in the operator list.
   */
  lemma LooseRightChildJoinsChain(n: Node)
    requires IsOpBinary(n) && IsOpBinary(n.right) && Prec(n.right.op) <= Prec(n.op)
    ensures var f := Flatten(n, 0, LeftSide, AsWritten);
            var k := |Flatten(n.left, Prec(n.op), LeftSide, AsWritten).ops|;
            k + 1 < |f.ops| + 1 && f.ops[k] == n.op && n.right.op in f.ops[k + 1..]
  {
    var p := Prec(n.op);
    var l := Flatten(n.left, p, LeftSide, AsWritten);
    var rr := n.right;
    var q := Prec(rr.op);
    var rl := Flatten(rr.left, q, LeftSide, AsWritten);
    var r := Flatten(rr, p, RightSide, AsWritten);
    assert r.ops == rl.ops + [rr.op] + Flatten(rr.right, q, RightSide, AsWritten).ops;
    assert r.ops[|rl.ops|] == rr.op;
    var f := Flatten(n, 0, LeftSide, AsWritten);
    assert f.ops == l.ops + [n.op] + r.ops;
    assert f.ops[|l.ops| + 1..] == r.ops;
  }

  /** With `Repaired`, every rewritable right child is one operand, the last. */
  lemma RightChildKeptWhole(n: Node)
    requires IsOpBinary(n) && IsOpBinary(n.right)
    ensures var f := Flatten(n, 0, LeftSide, Repaired);
            f.operands[|f.operands| - 1] == Paren(n.right)
            && f.ops == Flatten(n.left, Prec(n.op), LeftSide, Repaired).ops + [n.op]
  {
  }
}

/**
 * `getLeftMostOperand`: the walk down the left operands of rewritable
 * binaries, and the `Math.<x>` test applied to what it finds.
 */
module LeftSpine {
  import opened Syntax
  import opened Operators
  import opened Flattening

  /** The first node on the left spine of `n` that is not a rewritable binary. */
  function LeftMost(n: Node): (r: Node)
    ensures !IsOpBinary(r)
    decreases n
  {
    if IsOpBinary(n) then LeftMost(n.left) else n
  }

  /** `getLeftMostOperand`: the source's loop, reassigning the current node until it stops. */
  method GetLeftMostOperand(node: Node) returns (r: Node)
    ensures r == LeftMost(node)
    ensures !IsOpBinary(r)
  {
    r := node;
    while IsOpBinary(r)
      invariant LeftMost(r) == LeftMost(node)
      decreases r
    {
      r := r.left;
    }
  }

  /** A member access on the identifier `Math` (`Math.PI`, `Math.sin`, `Math[k]`). */
  predicate IsMathMember(n: Node)
  {
    n.Member? && n.obj == Ident("Math")
  }

  /** The left spine: the root, then left operands for as long as the node is a rewritable binary. */
  function Spine(n: Node): (s: seq<Node>)
    ensures |s| >= 1 && s[0] == n
    decreases n
  {
    if IsOpBinary(n) then [n] + Spine(n.left) else [n]
  }

  /**
   * `LeftMost` is the last node of the spine; every node before it is a
   * rewritable binary whose left operand is the next node on the spine.
   */
  lemma {:induction false} LeftMostEndsSpine(n: Node)
    ensures var s := Spine(n);
            && s[|s| - 1] == LeftMost(n)
            && (forall i :: 0 <= i < |s| - 1 ==> IsOpBinary(s[i]) && s[i].left == s[i + 1])
    decreases n
  {
    if IsOpBinary(n) {
      LeftMostEndsSpine(n.left);
      var s, t := Spine(n), Spine(n.left);
      assert s == [n] + t;
      forall i | 0 <= i < |s| - 1 ensures IsOpBinary(s[i]) && s[i].left == s[i + 1] {
        if i > 0 {
          assert s[i] == t[i - 1] && s[i + 1] == t[i];
        }
      }
    }
  }

  /** No node on the left spine binds tighter than the node above it. */
  predicate EvenSpine(n: Node, parentPrec: nat)
    decreases n
  {
    IsOpBinary(n) ==> (parentPrec == 0 || Prec(n.op) <= parentPrec) && EvenSpine(n.left, Prec(n.op))
  }

  /**
   * On an even spine the first flattened operand is the leftmost operand,
   * so the two tests the source makes on "the base" look at the same node.
   */
  lemma {:induction false} FirstOperandIsLeftMost(n: Node, parentPrec: nat, mode: Mode)
    requires EvenSpine(n, parentPrec)
    ensures Flatten(n, parentPrec, LeftSide, mode).operands[0] == LeftMost(n)
    decreases n
  {
    if IsOpBinary(n) {
      var p := Prec(n.op);
      FirstOperandIsLeftMost(n.left, p, mode);
      var l := Flatten(n.left, p, LeftSide, mode);
      assert Flatten(n, parentPrec, LeftSide, mode).operands
          == l.operands + Flatten(n.right, p, RightSide, mode).operands;
    }
  }
}

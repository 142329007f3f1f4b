/**
 * The two constant tables of the plugin: the arithmetic operators it
 * rewrites, with the builder method each one becomes, and their binding
 * strengths.
 */
module Operators {
  import opened Syntax

  /** `opMap`: operator to builder method. */
  const OpMap: map<string, string> := map["+" := "add", "-" := "sub", "*" := "mul", "/" := "div"]

  /** `precedence`: multiplicative operators bind tighter than additive ones. */
  const Precedence: map<string, nat> := map["*" := 14, "/" := 14, "+" := 13, "-" := 13]

  /** A binary expression whose operator has an entry in `opMap`. */
  predicate IsOpBinary(n: Node)
  {
    n.Binary? && n.op in OpMap
  }

  /** The precedence of a rewritable operator; always positive, so 0 can mean "no parent". */
  function Prec(op: string): (p: nat)
    requires op in OpMap
    ensures p > 0
  {
    Precedence[op]
  }

  /** The builder method that replaces a rewritable operator. */
  function MethodName(op: string): (m: string)
    requires op in OpMap
  {
    OpMap[op]
  }

  /** The entries of both tables, one operator at a time. */
  lemma TableEntries()
    ensures "+" in OpMap && "-" in OpMap && "*" in OpMap && "/" in OpMap
    ensures MethodName("+") == "add" && MethodName("-") == "sub"
    ensures MethodName("*") == "mul" && MethodName("/") == "div"
    ensures Prec("*") == 14 && Prec("/") == 14 && Prec("+") == 13 && Prec("-") == 13
  {
  }

  /** Both tables have exactly the same operators, and the method names are all distinct. */
  lemma TablesAgree()
    ensures OpMap.Keys == Precedence.Keys == {"+", "-", "*", "/"}
    ensures forall a, b :: a in OpMap && b in OpMap && a != b ==> MethodName(a) != MethodName(b)
  {
  }
}

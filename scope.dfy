/**
 * `shouldTransformBase`: whether the first operand of a chain may become a
 * builder receiver. A plain number always may (it is wrapped in `float`);
 * a `Math.<x>` member and a variable declared with a numeric literal as its
 * initialiser may not, since they hold plain JavaScript numbers.
 */
module Scope {
  import opened Syntax
  import opened Purity
  import opened LeftSpine

  /** What `scope.getBinding(name)` finds: a variable declarator with its initialiser, or another kind of binding. */
  datatype Binding = Declarator(init: Option<Node>) | OtherBinding

  /** The bindings visible at the rewritten expression. */
  type Env = map<string, Binding>

  /** `name` is bound by a declarator whose initialiser is a (signed) numeric literal. */
  predicate BoundToLiteral(name: string, env: Env)
  {
    name in env && env[name].Declarator? && env[name].init.Some? && IsSignedNumericLiteral(env[name].init.value)
  }

  /** `shouldTransformBase`, with the scope lookup as the environment `env`. */
  predicate ShouldTransformBase(n: Node, env: Env)
    decreases n
  {
    if IsNumericLiteral(n) then true
    else if n.Unary? && IsSign(n.op) then ShouldTransformBase(n.arg, env)
    else if n.Ident? then !BoundToLiteral(n.name, env)
    else if IsMathMember(n) then false
    else true
  }

  /** A node with all its leading unary signs removed. */
  function StripSigns(n: Node): (r: Node)
    ensures !(r.Unary? && IsSign(r.op))
    decreases n
  {
    if n.Unary? && IsSign(n.op) then StripSigns(n.arg) else n
  }

  /**
   * A base is refused exactly when, beneath its unary signs, it is a
   * `Math.<x>` member or a variable bound to a numeric literal.
   */
  lemma {:induction false} RefusedIffNumberHolder(n: Node, env: Env)
    ensures !ShouldTransformBase(n, env)
        <==> var c := StripSigns(n); IsMathMember(c) || (c.Ident? && BoundToLiteral(c.name, env))
    decreases n
  {
    if n.Unary? && IsSign(n.op) {
      RefusedIffNumberHolder(n.arg, env);
    }
  }

  /** Only the binding of the stripped identifier matters: two scopes that agree on it give the same answer. */
  lemma {:induction false} OnlyItsOwnBindingMatters(n: Node, env1: Env, env2: Env)
    requires var c := StripSigns(n); c.Ident? ==> (c.name in env1 <==> c.name in env2)
    requires var c := StripSigns(n); c.Ident? && c.name in env1 ==> env1[c.name] == env2[c.name]
    ensures ShouldTransformBase(n, env1) == ShouldTransformBase(n, env2)
    decreases n
  {
    if n.Unary? && IsSign(n.op) {
      OnlyItsOwnBindingMatters(n.arg, env1, env2);
    }
  }

  /** Numbers, calls, other members, rewritten chains and the like are always accepted. */
  lemma NotANameIsAccepted(n: Node, env: Env)
    requires var c := StripSigns(n); !c.Ident? && !c.Member?
    ensures ShouldTransformBase(n, env)
  {
    RefusedIffNumberHolder(n, env);
  }
}

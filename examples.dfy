/**
 * The plugin's documented cases, each stated on the model: what the visitor
 * decides for the outermost binary expression, and what `transformBin`
 * emits for it.
 */
module Examples {
  import opened Syntax
  import opened Operators
  import opened Purity
  import opened Flattening
  import opened LeftSpine
  import opened Chain
  import opened Scope
  import opened Traversal

  function MathPI(): Node
  {
    Member(Ident("Math"), Ident("PI"), false)
  }

  /** `1 - left * right` becomes `float(1).sub(left.mul(right))`. */
  lemma OneMinusProduct(env: Env, mode: Mode)
    ensures var n := Binary("-", NumLit("1"), Binary("*", Ident("left"), Ident("right")));
            Gate(n, false, env, mode)
            && TransformBin(n, mode)
               == MethodCall(FloatCall(NumLit("1")), "sub", MethodCall(Ident("left"), "mul", Ident("right")))
  {
    var product := Binary("*", Ident("left"), Ident("right"));
    var n := Binary("-", NumLit("1"), product);
    SingleOperator(n, mode);
    assert WrapBase(PrepOperand(NumLit("1"), mode), mode) == FloatCall(NumLit("1"));
    assert LeftMost(product) == Ident("left");
    assert PrepOperand(Paren(product), mode) == TransformBin(product, mode);
    LeftTimesRight(env, mode);
  }

  /** `Math.PI / 2` is refused by the gate and left exactly as it is. */
  lemma MathPIHalf(env: Env, mode: Mode)
    ensures var n := Binary("/", MathPI(), NumLit("2"));
            !Gate(n, false, env, mode) && Visit(n, false, env, mode) == n
  {
    var n := Binary("/", MathPI(), NumLit("2"));
    assert LeftMost(n) == MathPI();
    MathLeftMostIsRefused(n, false, env, mode);
    assert Children(n) == [MathPI(), NumLit("2")];
    CalmSeqUnchanged(Children(n), true, env, mode) by {
      assert Children(MathPI()) == [Ident("Math"), Ident("PI")];
      assert [Ident("Math"), Ident("PI")][1..] == [Ident("PI")];
      assert CalmSeq([Ident("PI")]);
      assert Calm(MathPI());
      assert [MathPI(), NumLit("2")][1..] == [NumLit("2")];
      assert CalmSeq([NumLit("2")]);
    }
    WithOwnChildren(n);
  }

  /** `1 - 2 * (3 + 4) / 5` is made of numbers only and is left exactly as it is. */
  lemma PureArithmetic(underBinary: bool, env: Env, mode: Mode)
    ensures var n := Binary("-", NumLit("1"),
                       Binary("/", Binary("*", NumLit("2"), Binary("+", NumLit("3"), NumLit("4"))), NumLit("5")));
            Visit(n, underBinary, env, mode) == n
  {
    var n := Binary("-", NumLit("1"),
               Binary("/", Binary("*", NumLit("2"), Binary("+", NumLit("3"), NumLit("4"))), NumLit("5")));
    PureIsUnchanged(n, underBinary, env, mode);
  }

  /** `1 - (Math.PI / 2)` becomes `float(1).sub(Math.PI / 2)`: the Math-rooted group stays native. */
  lemma OneMinusMathHalf(env: Env, mode: Mode)
    ensures var n := Binary("-", NumLit("1"), Binary("/", MathPI(), NumLit("2")));
            Gate(n, false, env, mode)
            && TransformBin(n, mode) == MethodCall(FloatCall(NumLit("1")), "sub", Binary("/", MathPI(), NumLit("2")))
  {
    var half := Binary("/", MathPI(), NumLit("2"));
    var n := Binary("-", NumLit("1"), half);
    assert Prec("/") > Prec("-");
    SingleOperator(n, mode);
    LiteralBase(NumLit("1"), mode);
    MathHalfKept(mode);
  }

  /** The group `(Math.PI / 2)` is Math-rooted, so it is used as it is. */
  lemma MathHalfKept(mode: Mode)
    ensures PrepOperand(Paren(Binary("/", MathPI(), NumLit("2"))), mode) == Binary("/", MathPI(), NumLit("2"))
  {
    assert LeftMost(Binary("/", MathPI(), NumLit("2"))) == MathPI();
  }

  /** `s * .5 + .5` for a node `s` that is a builder value (a call, a name, ...). */
  lemma ScaleBias(s: Node, mode: Mode)
    requires !IsOpBinary(s) && !s.Paren? && !IsPureNumeric(s) && !IsMathMember(s)
    ensures TransformBin(Binary("+", Binary("*", s, NumLit(".5")), NumLit(".5")), mode)
         == MethodCall(MethodCall(s, "mul", NumLit(".5")), "add", NumLit(".5"))
  {
    var scaled := Binary("*", s, NumLit(".5"));
    SingleOperator(scaled, mode);
    assert LeftMost(scaled) == s;
    LeftGroupStarts(Binary("+", scaled, NumLit(".5")), mode);
  }

  /** `smoothstep(0, 0.5, pos.y) * .5 + .5` becomes `smoothstep(0, 0.5, pos.y).mul(.5).add(.5)`. */
  lemma SmoothstepScaleBias(env: Env, mode: Mode)
    ensures var s := Call(Ident("smoothstep"), [NumLit("0"), NumLit("0.5"), Member(Ident("pos"), Ident("y"), false)]);
            var n := Binary("+", Binary("*", s, NumLit(".5")), NumLit(".5"));
            Gate(n, false, env, mode)
            && TransformBin(n, mode) == MethodCall(MethodCall(s, "mul", NumLit(".5")), "add", NumLit(".5"))
  {
    var s := Call(Ident("smoothstep"), [NumLit("0"), NumLit("0.5"), Member(Ident("pos"), Ident("y"), false)]);
    var scaled := Binary("*", s, NumLit(".5"));
    var n := Binary("+", scaled, NumLit(".5"));
    assert Flatten(n, 0, LeftSide, mode).operands[0] == Paren(scaled);
    ScaleBias(s, mode);
  }

  /** `-1 + x` becomes `float(-1).add(x)`. */
  lemma MinusOnePlusX(env: Env, mode: Mode)
    ensures var n := Binary("+", Unary("-", NumLit("1")), Ident("x"));
            Gate(n, false, env, mode)
            && TransformBin(n, mode) == MethodCall(FloatCall(Unary("-", NumLit("1"))), "add", Ident("x"))
  {
    var n := Binary("+", Unary("-", NumLit("1")), Ident("x"));
    SingleOperator(n, mode);
    LiteralBase(Unary("-", NumLit("1")), mode);
  }

  /** `left * right` becomes `left.mul(right)` unless `left` is bound to a numeric literal. */
  lemma LeftTimesRight(env: Env, mode: Mode)
    ensures var n := Binary("*", Ident("left"), Ident("right"));
            (Gate(n, false, env, mode) <==> !BoundToLiteral("left", env))
            && TransformBin(n, mode) == MethodCall(Ident("left"), "mul", Ident("right"))
  {
    var n := Binary("*", Ident("left"), Ident("right"));
    SingleOperator(n, mode);
    NameBase(Ident("left"), mode);
  }

  /** `left - 2` becomes `left.sub(2)`: a literal argument is not wrapped. */
  lemma LeftMinusTwo(mode: Mode)
    ensures TransformBin(Binary("-", Ident("left"), NumLit("2")), mode) == MethodCall(Ident("left"), "sub", NumLit("2"))
  {
    SingleOperator(Binary("-", Ident("left"), NumLit("2")), mode);
    NameBase(Ident("left"), mode);
  }

  /** `left - 2 / 3` becomes `left.sub(2 / 3)`: the numeric group binds tighter and stays native. */
  lemma LeftMinusQuotient(mode: Mode)
    ensures var q := Binary("/", NumLit("2"), NumLit("3"));
            TransformBin(Binary("-", Ident("left"), q), mode) == MethodCall(Ident("left"), "sub", q)
  {
    var q := Binary("/", NumLit("2"), NumLit("3"));
    SingleOperator(Binary("-", Ident("left"), q), mode);
    NameBase(Ident("left"), mode);
    assert IsPureNumeric(q);
    assert PrepOperand(Paren(q), mode) == q;
  }

  /** `left - 2 + float(5).div(5)` becomes `left.sub(2).add(float(5).div(5))`. */
  lemma LeftMinusTwoPlusCall(mode: Mode)
    ensures var c := MethodCall(FloatCall(NumLit("5")), "div", NumLit("5"));
            TransformBin(Binary("+", Binary("-", Ident("left"), NumLit("2")), c), mode)
            == MethodCall(MethodCall(Ident("left"), "sub", NumLit("2")), "add", c)
  {
    var c := MethodCall(FloatCall(NumLit("5")), "div", NumLit("5"));
    LeftMinusTwo(mode);
    LeftChainContinues(Binary("+", Binary("-", Ident("left"), NumLit("2")), c), mode);
  }

  // ----- one whole run of the hook ------------------------------------------------

  /** `Fn(() => { return <e>; })` as a program of one statement. */
  function FnProgram(e: Node): Node
  {
    Other("Program", [Other("ExpressionStatement", [
      Call(Ident("Fn"), [Arrow([], Other("BlockStatement", [Other("ReturnStatement", [e])]))])])])
  }

  lemma VisitSeqOne(e: Node, underBinary: bool, env: Env, mode: Mode)
    ensures VisitSeq([e], underBinary, env, mode) == [Visit(e, underBinary, env, mode)]
  {
    assert [e][1..] == [];
  }

  lemma VisitWrapper(k: string, e: Node, underBinary: bool, env: Env, mode: Mode)
    ensures Visit(Other(k, [e]), underBinary, env, mode) == Other(k, [Visit(e, false, env, mode)])
  {
    VisitSeqOne(e, false, env, mode);
  }

  lemma VisitNonBinary(n: Node, underBinary: bool, env: Env, mode: Mode)
    requires !n.Binary?
    ensures Visit(n, underBinary, env, mode) == VisitKids(n, env, mode)
  {
  }

  lemma VisitSeqTwo(a: Node, b: Node, underBinary: bool, env: Env, mode: Mode)
    ensures VisitSeq([a, b], underBinary, env, mode) == [Visit(a, underBinary, env, mode), Visit(b, underBinary, env, mode)]
  {
    assert [a, b][1..] == [b];
    VisitSeqOne(b, underBinary, env, mode);
  }

  lemma VisitMember(receiver: Node, name: string, env: Env, mode: Mode)
    ensures Visit(Member(receiver, Ident(name), false), false, env, mode)
         == Member(Visit(receiver, false, env, mode), Ident(name), false)
  {
    var m := Member(receiver, Ident(name), false);
    VisitNonBinary(m, false, env, mode);
    assert Children(m) == [receiver, Ident(name)];
    VisitSeqTwo(receiver, Ident(name), false, env, mode);
  }

  lemma VisitMethodCall(receiver: Node, name: string, arg: Node, env: Env, mode: Mode)
    ensures VisitKids(MethodCall(receiver, name, arg), env, mode)
         == MethodCall(Visit(receiver, false, env, mode), name, Visit(arg, false, env, mode))
  {
    var callee := Member(receiver, Ident(name), false);
    assert Children(MethodCall(receiver, name, arg)) == [callee, arg];
    VisitSeqTwo(callee, arg, false, env, mode);
    VisitMember(receiver, name, env, mode);
  }

  lemma OuterPassSeqOne(e: Node, env: Env, mode: Mode)
    ensures OuterPassSeq([e], env, mode) == [OuterPass(e, env, mode)]
  {
    assert [e][1..] == [];
  }

  lemma OuterPassWrapper(k: string, e: Node, env: Env, mode: Mode)
    ensures OuterPass(Other(k, [e]), env, mode) == Other(k, [OuterPass(e, env, mode)])
  {
    OuterPassSeqOne(e, env, mode);
  }

  lemma FnCountWrapper(k: string, e: Node)
    ensures FnCount(Other(k, [e])) == FnCount(e)
  {
    FnCountSeqOne(e);
  }

  lemma VisitGated(n: Node, underBinary: bool, env: Env, mode: Mode)
    requires Gate(n, underBinary, env, mode)
    ensures Visit(n, underBinary, env, mode) == VisitKids(TransformBin(n, mode), env, mode)
  {
  }

  lemma VisitArrowBody(body: Node, env: Env, mode: Mode)
    ensures VisitKids(Arrow([], body), env, mode) == Arrow([], Visit(body, false, env, mode))
  {
    assert Children(Arrow([], body)) == [body];
    VisitSeqOne(body, false, env, mode);
  }

  /**
   * `a && b * c`: a logical expression is not a binary expression, so the
   * product under it is the outermost binary and is rewritten.
   */
  lemma ProductUnderLogicalIsRewritten(env: Env, mode: Mode)
    requires !BoundToLiteral("b", env)
    ensures var p := Binary("*", Ident("b"), Ident("c"));
            Visit(Other("LogicalExpression", [Ident("a"), p]), false, env, mode)
            == Other("LogicalExpression", [Ident("a"), MethodCall(Ident("b"), "mul", Ident("c"))])
  {
    var p := Binary("*", Ident("b"), Ident("c"));
    ProductOfNames(env, mode);
    VisitGated(p, false, env, mode);
    VisitMethodCall(Ident("b"), "mul", Ident("c"), env, mode);
    VisitNonBinary(Other("LogicalExpression", [Ident("a"), p]), false, env, mode);
    VisitSeqTwo(Ident("a"), p, false, env, mode);
  }

  lemma ProductOfNames(env: Env, mode: Mode)
    requires !BoundToLiteral("b", env)
    ensures var p := Binary("*", Ident("b"), Ident("c"));
            Gate(p, false, env, mode) && TransformBin(p, mode) == MethodCall(Ident("b"), "mul", Ident("c"))
  {
    TableEntries();
    SingleOperator(Binary("*", Ident("b"), Ident("c")), mode);
    NameBase(Ident("b"), mode);
  }

  /** `a < b * c`: the product has a binary parent, so it is left as it is. */
  lemma ProductUnderComparisonIsKept(env: Env, mode: Mode)
    ensures var p := Binary("*", Ident("b"), Ident("c"));
            Visit(Binary("<", Ident("a"), p), false, env, mode) == Binary("<", Ident("a"), p)
  {
    var p := Binary("*", Ident("b"), Ident("c"));
    TablesAgree();
    assert "<" !in OpMap;
    VisitSeqTwo(Ident("a"), p, true, env, mode);
    VisitSeqTwo(Ident("b"), Ident("c"), true, env, mode);
  }

  /** The inner walk over the callback body `{ return left * right; }`. */
  lemma WalkProductBody(env: Env, mode: Mode)
    requires !BoundToLiteral("left", env)
    ensures var product := Binary("*", Ident("left"), Ident("right"));
            var body := Other("BlockStatement", [Other("ReturnStatement", [product])]);
            VisitKids(Arrow([], body), env, mode)
            == Arrow([], Other("BlockStatement", [Other("ReturnStatement", [MethodCall(Ident("left"), "mul", Ident("right"))])]))
  {
    var product := Binary("*", Ident("left"), Ident("right"));
    var chain := MethodCall(Ident("left"), "mul", Ident("right"));
    LeftTimesRight(env, mode);
    VisitGated(product, false, env, mode);
    VisitMethodCall(Ident("left"), "mul", Ident("right"), env, mode);
    VisitWrapper("ReturnStatement", product, false, env, mode);
    var ret := Other("ReturnStatement", [product]);
    VisitWrapper("BlockStatement", ret, false, env, mode);
    VisitArrowBody(Other("BlockStatement", [ret]), env, mode);
  }

  lemma WalkCallbackOne(a: Node, env: Env, mode: Mode)
    requires a.Arrow?
    ensures WalkCallback(Call(Ident("Fn"), [a]), env, mode) == Call(Ident("Fn"), [VisitKids(a, env, mode)])
  {
    assert [a][1..] == [];
  }

  /** No `Fn` call is left below `Fn` once `{ return left * right }` is rewritten. */
  lemma ProductCallNoFnBelow()
    ensures var arrow' := Arrow([], Other("BlockStatement", [Other("ReturnStatement", [MethodCall(Ident("left"), "mul", Ident("right"))])]));
            FnCountSeq(Children(Call(Ident("Fn"), [arrow']))) == 0
  {
    var chain := MethodCall(Ident("left"), "mul", Ident("right"));
    var arrow' := Arrow([], Other("BlockStatement", [Other("ReturnStatement", [chain])]));
    FnCountMethodCall(Ident("left"), "mul", Ident("right"));
    ArrowFnCount(chain);
    assert Children(Call(Ident("Fn"), [arrow'])) == [Ident("Fn"), arrow'];
    FnCountSeqTwo(Ident("Fn"), arrow');
  }

  /** The outer walk at `Fn(() => { return left * right })` runs the inner walk once and is then done. */
  lemma OuterPassOnProduct(env: Env, mode: Mode)
    requires !BoundToLiteral("left", env)
    ensures var body := Other("BlockStatement", [Other("ReturnStatement", [Binary("*", Ident("left"), Ident("right"))])]);
            var body' := Other("BlockStatement", [Other("ReturnStatement", [MethodCall(Ident("left"), "mul", Ident("right"))])]);
            OuterPass(Call(Ident("Fn"), [Arrow([], body)]), env, mode) == Call(Ident("Fn"), [Arrow([], body')])
  {
    var arrow := Arrow([], Other("BlockStatement", [Other("ReturnStatement", [Binary("*", Ident("left"), Ident("right"))])]));
    WalkProductBody(env, mode);
    WalkCallbackOne(arrow, env, mode);
    ProductCallNoFnBelow();
    OuterPassSettles(Call(Ident("Fn"), [arrow]), env, mode);
  }

  lemma ArrowFnCount(e: Node)
    ensures FnCount(Arrow([], Other("BlockStatement", [Other("ReturnStatement", [e])]))) == FnCount(e)
  {
    FnCountWrapper("ReturnStatement", e);
    FnCountWrapper("BlockStatement", Other("ReturnStatement", [e]));
    var body := Other("BlockStatement", [Other("ReturnStatement", [e])]);
    assert Children(Arrow([], body)) == [body];
    FnCountSeqOne(body);
  }

  /**
   * The whole hook on `Fn(() => { return left * right })` in `case1.js`
   * gives `Fn(() => { return left.mul(right) })` when `left` is not a
   * number variable; any other kind of file is passed over.
   */
  lemma HookOnProduct(env: Env, mode: Mode)
    requires !BoundToLiteral("left", env)
    ensures TransformFile("case1.js", FnProgram(Binary("*", Ident("left"), Ident("right"))), env, mode)
         == Some(FnProgram(MethodCall(Ident("left"), "mul", Ident("right"))))
    ensures TransformFile("case1.css", FnProgram(Binary("*", Ident("left"), Ident("right"))), env, mode) == None
  {
    var fn := Call(Ident("Fn"), [Arrow([], Other("BlockStatement", [Other("ReturnStatement", [Binary("*", Ident("left"), Ident("right"))])]))]);
    OuterPassOnProduct(env, mode);
    OuterPassWrapper("ExpressionStatement", fn, env, mode);
    OuterPassWrapper("Program", Other("ExpressionStatement", [fn]), env, mode);
    assert HandlesFile("case1.js");
    assert !EndsWith("case1.css", ".js") && !EndsWith("case1.css", ".ts");
    assert !EndsWith("case1.css", ".jsx") && !EndsWith("case1.css", ".tsx");
  }
}

# vite-plugin-tsl-operator, modelled in Dafny

The plugin is a Vite `transform` hook for three.js shader code written in
TSL, the three.js Shading Language. Inside every `Fn(() => ...)` callback it
rewrites ordinary arithmetic (`a * b + 1`) into the builder API's method
chains (`a.mul(b).add(1)`). The rewrite has these parts:

- `isPureNumericExpression` leaves arithmetic on numbers alone.
- `flattenBinary` turns a tree of `+ - * /` into a list of operators and a
  list of operands. A child that binds tighter is kept as one parenthesised
  operand.
- `transformBin` folds the two lists into nested calls named by `opMap`. A
  numeric literal at the base is wrapped in `float(...)`. A group whose
  leftmost operand is a `Math.<x>` member stays native JavaScript.
- `shouldTransformBase` refuses a chain whose first operand is a `Math.<x>`
  member, or a variable initialised with a numeric literal. Both hold plain
  numbers.
- The traversal rewrites only the outermost binary expression of each
  nesting. It does so only inside an `Fn` call whose first argument is an
  arrow function, and only in `.js`, `.ts`, `.jsx` and `.tsx` modules.

The model follows `src/index.js`. Syntax trees are a `Node` datatype
(`syntax.dfy`). The two constant tables are in `operators.dfy`, the purity
test in `purity.dfy`, and `flattenBinary` in `flatten.dfy`. In
`flatten.dfy` the shared `ops`/`operands` arrays are a class `Accumulator`,
and the recursion is a method proved equal to the function `Flatten`.
`getLeftMostOperand` and its `while` loop are in `leftmost.dfy`,
`transformBin` and the reading back of a chain in `chain.dfy`, and
`shouldTransformBase` in `scope.dfy`. `scope.getBinding` is a map from
names to bindings. The two visitors and the file filter are in
`traversal.dfy`. `replaceWith` is modelled on values: the rewritten node
takes the old node's place, and the walk goes on into its children.

Two defects of the source are shown in `findings.dfy`. Every function that
rewrites takes a `Mode`:

- `AsWritten` is the code exactly as it stands.
- `Repaired` is the evidently intended behaviour.

Both modes are proved about. `reading.dfy` reads a chain back as the
arithmetic it computes. It proves that the repaired rewrite keeps what
every expression computes. `examples.dfy` states the plugin's documented
cases from `test/index.test.js` on the model, including one whole run of
the hook.

## Model

| member | source | states |
|---|---|---|
| Operators.Prec | src/index.js:11 | every rewritable operator has a positive precedence, so 0 can mean "no parent" as `flattenBinary`'s default does |
| Operators.TableEntries | src/index.js:10-11 | `+ - * /` map to `add sub mul div`; `*` and `/` bind at 14, `+` and `-` at 13 |
| Operators.TablesAgree | src/index.js:10-11 | both tables have exactly the operators `+ - * /`, and no two operators share a builder method |
| Purity.PureIffPureKinds | src/index.js:13-27 | an expression is purely numeric exactly when every node of it is a numeric literal, a unary `+`/`-`, a binary expression or a parenthesised expression |
| Purity.PureHasNoNames | src/index.js:13-27 | a purely numeric expression contains no identifier, member access or call anywhere |
| Purity.IsPureNumeric | src/index.js:15-27 | `isPureNumericExpression`, the same recursive case split. Its contract is `Purity.PureIffPureKinds` and `Purity.PureHasNoNames` |
| Purity.IsNumericLiteral | src/index.js:47-49 | `isNumericLiteral`: a numeric literal of either node shape. `Chain.LiteralBase` and `Scope.RefusedIffNumberHolder` state what it decides |
| Flattening.Flatten | src/index.js:29-45 | one more operand than operators; every operator has an `opMap` entry; no operand is a rewritable binary that was not split off |
| Flattening.FlattenSizes | src/index.js:29-45 | each operand is at most one node (the added parentheses) larger than the tree it comes from; below a rewritable root and at the top, every operand is strictly smaller than the root |
| Flattening.Accumulator.constructor | src/index.js:29 | fresh `ops` and `operands` arrays are empty |
| Flattening.Accumulator.PushOp | src/index.js:37 | `ops.push(op)` appends one operator and leaves `operands` alone |
| Flattening.Accumulator.PushOperand | src/index.js:33 | `operands.push(x)` appends one operand and leaves `ops` alone |
| Flattening.FlattenInto | src/index.js:29-45 | the recursion appends exactly `Flatten`'s operators and operands to whatever the shared arrays already held |
| Flattening.FlattenBinary | src/index.js:61 | `flattenBinary(node, 0)` with fresh arrays returns exactly `Flatten(node, 0)`, with one more operand than operators |
| Flattening.FlattenInOrder | src/index.js:29-45 | reading operands and operators alternately gives back the in-order reading of the tree: nothing is lost, duplicated or reordered |
| Flattening.InterleaveAppend | src/index.js:36-38 | the reading of left lists, operator and right lists is the left reading, the operator, then the right reading |
| Flattening.LeafIsOneOperand | src/index.js:39-43 | a node that is not a rewritable binary, parenthesised or not, is pushed whole as the only operand |
| Flattening.TighterChildIsOneOperand | src/index.js:32-34 | at the top, a left child that binds tighter is the first operand, in parentheses, and a right child that binds tighter is the last |
| Flattening.LooseRightChildJoinsChain | src/index.js:32 | as written, a rewritable right child that does not bind tighter is read into the parent's chain: its operator comes after the parent's in the operator list |
| Flattening.RightChildKeptWhole | src/index.js:32 | repaired, every rewritable right child is the last operand, in parentheses, and the parent's operator ends the operator list |
| LeftSpine.LeftMost | src/index.js:51-55 | the node found is never a rewritable binary |
| LeftSpine.GetLeftMostOperand | src/index.js:51-55 | the loop returns `LeftMost(node)`, which is not a rewritable binary |
| LeftSpine.LeftMostEndsSpine | src/index.js:51-55 | the node found ends the left spine; every node above it on the spine is a rewritable binary whose left operand is the next node |
| LeftSpine.FirstOperandIsLeftMost | src/index.js:61-65 | when no operator on the left spine binds tighter than the one above it, the first flattened operand is the leftmost operand, so both of the source's tests look at the same node |
| Chain.PrepSeqAt | src/index.js:85-95 | argument `i` of the chain is operand `i` prepared the way the source prepares it (group unwrapped; a rewritable group rewritten unless Math-rooted) |
| Chain.MethodsAt | src/index.js:97 | method `i` of the chain is `opMap[ops[i]]` |
| Chain.UnchainFold | src/index.js:84-100 | the `reduce` reads back as its base, one method per operator in order, and its arguments in order |
| Chain.ChainShape | src/index.js:57-101 | a non-pure expression becomes one method call per flattened operator, nested left to right on the base. The base is the first operand prepared and possibly wrapped in `float`, and argument `i` is operand `i + 1` prepared |
| Chain.WrapBaseCases | src/index.js:75-82 | the base is either kept or wrapped in `float(...)`. As written it is wrapped exactly when it is a signed numeric literal; repaired, exactly when it is a plain number |
| Chain.LiteralBase | src/index.js:77-82 | a (signed) numeric literal base becomes `float(<literal>)` |
| Chain.NameBase | src/index.js:77-82 | a name, member access or call is kept as the receiver, unwrapped |
| Chain.UnchangedIffPure | src/index.js:58-59 | a rewritable binary comes back unchanged exactly when it is purely numeric; otherwise the result is a call |
| Chain.SingleOperator | src/index.js:57-101 | one operator between two non-chain operands, the right one a group that binds tighter, becomes exactly one method call on the prepared, possibly wrapped, left operand |
| Chain.ChainOfAppend | src/index.js:84-100 | one more operator and operand at the end of the lists is one more method call around the chain |
| Chain.LeftChainContinues | src/index.js:36-38 | a left operand of the same or looser binding continues its own chain: `(l1 op1 l2) op x` becomes `l1.m1(l2).m(x)` |
| Chain.LeftGroupStarts | src/index.js:63-69 | a left operand that binds tighter is rewritten on its own first and used (wrapped if needed) as the receiver |
| Chain.TransformBin | src/index.js:57-101 | `transformBin`. Its contract is `Chain.UnchangedIffPure` (unchanged exactly when purely numeric), `Chain.ChainShape` (one method call per operator on the wrapped base) and `Reading.ChainMeansWritten` (what the chain computes) |
| Chain.PrepOperand | src/index.js:85-95 | the preparation of an operand in the `reduce`, which lines 63-73 repeat for the base. `Chain.PrepSeqAt` places it in the chain; `Reading.PrepMeansOperand` shows it computes what the operand computes |
| Chain.WrapBase | src/index.js:77-82 | the base is kept or becomes `float(base)`; the result is never a bare (signed) numeric literal, and repaired never a numeric expression or a Math-rooted group. `Chain.WrapBaseCases` gives the exact condition in each mode |
| Chain.Fold | src/index.js:84-100 | the `reduce`. `Chain.UnchainFold` reads it back as base, methods and arguments, and `Reading.MeaningOfFold` shows it computes the left fold of the operators |
| Scope.RefusedIffNumberHolder | src/index.js:103-123 | a base is refused exactly when, under its unary signs, it is a `Math.<x>` member or a name whose declarator is initialised with a signed numeric literal |
| Scope.OnlyItsOwnBindingMatters | src/index.js:107-119 | two scopes that agree on the binding of the stripped name decide alike |
| Scope.NotANameIsAccepted | src/index.js:122 | any base that is neither a name nor a member access, under its signs, is accepted |
| Scope.ShouldTransformBase | src/index.js:103-123 | `shouldTransformBase`, the same case split. Its contract is `Scope.RefusedIffNumberHolder`, `Scope.OnlyItsOwnBindingMatters` and `Scope.NotANameIsAccepted` |
| Traversal.TransformBinShrinks | src/index.js:57-101 | the chain contains no binary expression as large as the rewritten one: every binary left sits inside an operand |
| Traversal.RewriteProgress | src/index.js:159-160 | a rewritable binary is either replaced by itself or by a tree whose largest binary is smaller, so the walk into the replacement ends |
| Traversal.TransformBinKeepsFnCount | src/index.js:57-101 | `transformBin` neither adds nor drops an `Fn` call |
| Traversal.VisitKeepsFnCount | src/index.js:149-163 | the inner walk neither adds nor drops an `Fn` call |
| Traversal.FnStepShrinks | src/index.js:146-149 | after its callback is walked, an `Fn` call has fewer `Fn` calls below it than it counted, so the outer walk ends |
| Traversal.OuterPassSettles | src/index.js:144-166 | an `Fn` call whose walked callback holds no further `Fn` call is, after the outer walk, exactly the call with its callback walked |
| Traversal.VisitRoot | src/index.js:150-161 | a binary under a binary, or one the gate refuses, keeps its operator; a gated non-pure binary becomes a method call; a gated pure one keeps its operator |
| Traversal.MathLeftMostIsRefused | src/index.js:152-155 | an expression whose leftmost operand is `Math.<x>` is left alone when no operator on its left spine binds tighter than the one above it |
| Traversal.CalmIsUnchanged | src/index.js:149-163 | a callback whose rewritable arithmetic is all purely numeric comes out of the inner walk unchanged |
| Traversal.PureIsUnchanged | src/index.js:59 | a purely numeric expression, at any depth, is never rewritten |
| Traversal.NoFnIsUnchanged | src/index.js:145-148 | code with no `Fn` call in it is left exactly as it is |
| Traversal.TransformFile | src/index.js:132-133 | the hook returns `null` exactly for ids the filter rejects |
| Traversal.HandlesFileAsPattern | src/index.js:133 | the filter accepts exactly the ids matching `\.(js\|ts)x?$`: drop one trailing `x`, and what is left ends in `.js` or `.ts` |
| Traversal.NonArrowFnUnchanged | src/index.js:146-148 | an `Fn` call whose first argument is not an arrow function (or that has no argument), with no further `Fn` call below it, is left exactly as it is |
| Traversal.Gate | src/index.js:151-155 | the test the inner visitor makes before rewriting: no binary parent, an `opMap` operator, and a first operand `shouldTransformBase` accepts. `Traversal.VisitRoot` and `Traversal.MathLeftMostIsRefused` state its effect |
| Traversal.Visit | src/index.js:149-163 | the inner visitor. Its contract is `Traversal.VisitRoot`, `Traversal.CalmIsUnchanged`, `Traversal.PureIsUnchanged` and `Traversal.VisitKeepsFnCount` |
| Traversal.OuterPass | src/index.js:144-166 | the outer visitor. Its contract is `Traversal.FnStepShrinks` (it ends), `Traversal.OuterPassSettles`, `Traversal.NoFnIsUnchanged` and `Traversal.NonArrowFnUnchanged` |
| Traversal.HandlesFile | src/index.js:133 | the file filter. Its contract is `Traversal.HandlesFileAsPattern` and `Traversal.TransformFile` |
| Findings.SameFlattenWhenRightSafe | src/index.js:32 | where every rewritable right child binds tighter than its parent, the source and the repair flatten alike |
| Findings.AsWrittenKeepsGroupingWhenRightSafe | src/index.js:29-45 | as written, the flattened lists fold back into the written tree whenever every rewritable right child binds tighter; `Reading.ChainMeansWritten` states the same of the emitted chain |
| Findings.RepairedKeepsGrouping | src/index.js:29-45 | repaired, folding the flattened lists back into binary expressions gives back the original tree: every operator keeps its operands |
| Findings.AsWrittenRegroups | src/index.js:32 | as written, `a * (b + c)` flattens to `a`, `b`, `c` with `*`, `+`. Folded back, that is `(a * b) + c`, not the tree written |
| Findings.AsWrittenChainOfTimesSum | src/index.js:57-101 | as written, `a * (b + c)` becomes `a.mul(b).add(c)` |
| Findings.SumTimesChain | src/index.js:57-101 | `a * b + c` becomes the same `a.mul(b).add(c)` |
| Findings.RepairedChainOfTimesSum | src/index.js:57-101 | repaired, `a * (b + c)` becomes `a.mul(b.add(c))` |
| Findings.AsWrittenChainsOnNumber | src/index.js:62-82 | as written, `2 * 3 + x` passes the gate in every scope and becomes `(2 * 3).add(x)`, a call on a plain number; repaired, it becomes `float(2 * 3).add(x)` |
| Findings.RepairedReceiverIsNoPlainNumber | src/index.js:75-82 | repaired, the receiver at the bottom of every chain is never a numeric expression or a Math-rooted group |
| Reading.OperatorOfMethodName | src/index.js:10 | the builder method `opMap` gives an operator reads back as that operator, so a chain can be read as arithmetic |
| Reading.MeaningOfFold | src/index.js:84-100 | the `reduce` computes its operators folded left over what its base and arguments compute |
| Reading.MeaningOfFlatten | src/index.js:29-45 | the flattened lists, folded back, compute what the tree computes: repaired for every tree, as written when no rewritable right child is loose |
| Reading.PrepMeansOperand | src/index.js:85-95 | a prepared operand computes what the operand computes, whether it is rewritten, left native or unwrapped |
| Reading.ChainMeansWritten | src/index.js:57-101 | the chain `transformBin` emits computes what the written expression computes (builder calls read as their operators, `float(x)` as `x`): repaired for every expression, as written for every expression with no loose rewritable right child at any depth |
| Reading.AsWrittenChainMeansRegrouped | src/index.js:32 | as written, the chain for `a * (b + c)` computes `(a * b) + c`, which differs from what was written |
| Examples.OneMinusProduct | test/index.test.js:7-19 | `1 - left * right` is gated in every scope and becomes `float(1).sub(left.mul(right))` |
| Examples.MathPIHalf | test/index.test.js:21-32 | `Math.PI / 2` is refused and left exactly as it is |
| Examples.PureArithmetic | test/index.test.js:33-45 | `1 - 2 * (3 + 4) / 5` is left exactly as it is, under any parent and scope |
| Examples.OneMinusMathHalf | test/index.test.js:47-58 | `1 - (Math.PI / 2)` is gated and becomes `float(1).sub(Math.PI / 2)` |
| Examples.ScaleBias | test/index.test.js:64 | `s * .5 + .5` becomes `s.mul(.5).add(.5)` for any builder value `s` |
| Examples.SmoothstepScaleBias | test/index.test.js:60-78 | `smoothstep(0, 0.5, pos.y) * .5 + .5` is gated and becomes `smoothstep(0, 0.5, pos.y).mul(.5).add(.5)` |
| Examples.MinusOnePlusX | test/index.test.js:80-90 | `-1 + x` is gated and becomes `float(-1).add(x)` |
| Examples.LeftTimesRight | test/index.test.js:92-103 | `left * right` becomes `left.mul(right)` and is gated unless `left` is bound to a numeric literal |
| Examples.LeftMinusTwo | test/index.test.js:105-116 | `left - 2` becomes `left.sub(2)`: a literal argument is not wrapped |
| Examples.LeftMinusQuotient | test/index.test.js:118-130 | `left - 2 / 3` becomes `left.sub(2 / 3)`: the numeric group stays native |
| Examples.LeftMinusTwoPlusCall | test/index.test.js:133-145 | `left - 2 + float(5).div(5)` becomes `left.sub(2).add(float(5).div(5))` |
| Examples.ProductUnderLogicalIsRewritten | src/index.js:151 | in `a && b * c` the product's parent is a logical expression, not a binary one, so the product is rewritten to `b.mul(c)` |
| Examples.ProductUnderComparisonIsKept | src/index.js:151 | in `a < b * c` the product's parent is a binary expression, so nothing is rewritten |
| Examples.WalkProductBody | src/index.js:149-163 | the inner walk over `{ return left * right }` gives `{ return left.mul(right) }` |
| Examples.OuterPassOnProduct | src/index.js:144-166 | the outer walk at `Fn(() => { return left * right })` runs the inner walk once and is then done |
| Examples.HookOnProduct | test/index.test.js:92-103 | the hook on `Fn(() => { return left * right })` in `case1.js` gives `Fn(() => { return left.mul(right) })`; a `.css` id is passed over |

## Left out

- Parsing and printing: `parse` (src/index.js:136-139), `generate` (169) and the returned `{ code, map }` (191). The model works on syntax trees; source text and source maps are not modelled.
- The plugin object itself (129-131) is plumbing for the host: `name` identifies the plugin to Vite, and the `logs` option only switches the logging.
- Logging: `prettifyLine` (125-127), `changedLines` (141-142, 156-158), the console output (170-189) and `path.basename` (135). They have no effect on the returned code.
- Babel's requeueing of a replaced node: after `replaceWith`, the model visits only the new node's children. The replacement is a call, which the `BinaryExpression` visitor never matches, or a purely numeric tree, which comes back unchanged, so this changes nothing.
- Scope by position: `binPath.scope.getBinding` is one map for the whole run. Shadowing between nested scopes is not modelled, and neither are binding kinds other than variable declarators, which all answer like "no literal initialiser".
- Numeric values: literals keep their source text, and nothing is evaluated.
- The ESTree shape `Literal` with a number value (47-49) is the same node kind as a Babel `NumericLiteral`.
- The `operands.length &&` test (154) is always true: `Flattening.Flatten` proves that there is always at least one operand.
- The parser makes no `ParenthesizedExpression` nodes, so only `flattenBinary` creates groups. `Findings.RepairedKeepsGrouping` therefore assumes a tree without such groups of its own.
- Binary operators outside `opMap` (comparisons, `%`, `**`) are binary expressions the rewrite passes over. A rewritable binary under one of them keeps its binary parent, so it is not rewritten. `&&`, `||` and `??` are logical expressions, `Other` nodes here. The walk enters their operands as it enters any other node, so `b * c` in `a && b * c` is rewritten when `b` passes the gate (`Examples.ProductUnderLogicalIsRewritten`, `Examples.ProductUnderComparisonIsKept`). Directives in comments, compound assignments and a special case for `%` do not occur in `src/index.js`, so they are not modelled.
- `test/runtime.test.js` renders shaders on a GPU, and `vitest.config.js` configures the test runner. Neither is part of this model.
- Findings.RepairedReceiverIsNoPlainNumber: the repaired base is wrapped only when it is a numeric expression or a Math-rooted group. Other receivers that are JavaScript numbers at run time stay unwrapped, such as `Math.sin(t)` in `Math.sin(t) * x` or a name bound to `2 * 3`. Telling them apart takes types or values, which the model does not have.
- Traversal.Visit: its own contract only says that identifiers pass through unchanged. What the walk does is stated by `Traversal.VisitRoot`, `Traversal.CalmIsUnchanged`, `Traversal.VisitKeepsFnCount` and the example lemmas.

## Findings

| source | as written | input that shows it | evidently intended | confidence | as-written member | corrected member |
|---|---|---|---|---|---|---|
| src/index.js:32 | a rewritable right child is kept as a group only when it binds strictly tighter than its parent; otherwise its operands join the parent's chain | `a * (b + c)` becomes `a.mul(b).add(c)`, which computes `(a * b) + c`; likewise `a * factor + b * (1 - factor)` | a right child is always its own group, so each operator keeps its operands | not executed | Reading.AsWrittenChainMeansRegrouped | Reading.ChainMeansWritten |
| src/index.js:62-82 | a parenthesised purely numeric base is used as the receiver without `float(...)`, and the gate accepts it, since it is not a name, a literal or a member access | `2 * 3 + x` becomes `(2 * 3).add(x)`, a call on the JavaScript number 6 | a base that is a numeric expression or a Math-rooted group is wrapped in `float(...)`, because a JavaScript number has no `.add` method. The comment at lines 75-76 names only literals and signs over them | not executed | Findings.AsWrittenChainsOnNumber | Findings.RepairedReceiverIsNoPlainNumber |

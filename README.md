# Explicit return types: a verified model of the analysis core

This project models the decision core of a lint rule. The rule reports
functions that lack an explicit return-type annotation. The model covers four
parts of `src/util/`:

- **The return-type analyzer** (`explicit_return_type.dfy`, module
  `ExplicitReturnType`). It decides whether a function must be reported. The
  inputs are the function's syntax, its ancestors and four options:
  `allowExpressions`, `allowTypedFunctionExpressions`,
  `allowHigherOrderFunctions` and `allowDirectConstAssertionInArrowFunctions`.
  The module covers the typed-context predicates, the "returns a function" test,
  the `as const` exemption (seen through `satisfies`), the two `check*` entry
  points and the upward walk `ancestorHasReturnType`.
- **The precedence and wrapping engine** (`wrapping_fixer.dfy`, module
  `WrappingFixer`). It builds the replacement text of a fix. It parenthesizes
  the inner texts and then the whole text, using two fixed tag sets. It puts a
  `;` in front where automatic semicolon insertion (section 12.10 of ECMA-262)
  would otherwise join the text to the previous statement.
- **The `this` locator** (`this_expression.dfy`, module `ThisExpression`). It
  walks down through callees, member objects and chain expressions.
- **The string-length helper** (`string_length.dfy`, module `StringLength`).
  It has an ASCII fast path and a lazily created grapheme splitter.

`syntax.dfy` (module `Syntax`) holds the shared vocabulary. A node is seen
from above as an `Expr` tree. A node is seen from below as a `Located` node:
its own `Head` plus its chain of ancestor `Frame`s, nearest first. Each frame
records the parent's tag and flags, and which slot of the parent the node below
fills. The source checks node identity in several places, such as
`parent.callee === node` and `node === parent.left`. In the model these become
slot comparisons. `scenarios.dfy` holds worked examples of the analyzer.

`Rooted(path)` says that a chain of ancestors ends at the `Program`. Every tree
the host parses is rooted. Members whose source dereferences a parent without
a check require it: `node.parent!`, `ESLintUtils.nullThrows(node.parent)`, and
`objectExpr.parent` in `isPropertyOfObjectWithType`.

Points of the code worth knowing, all kept as written:

- An object literal that forms an arrow's concise body is parenthesized,
  although object literals are strong-precedence (`StrongInnerKeepsText`).
- `getMovedNodeCode` never parenthesizes a strong-precedence node, whatever
  its destination (`GetMovedNodeCode`).
- A `satisfies` expression is not a typed parent (`TypedParentCases`). This
  rests on the model's reading of `isTypeAssertion` as `as` and
  angle-bracket assertions only; see "Left out".
- A `new` expression types a function passed to it, even one in its callee
  slot.
- An object literal inside any call types its property functions, even when
  the object is the callee. The nested test passes no callee to exclude.
- `allowExpressions` exempts a function assigned with `=`, since
  `AssignmentExpression` is not among the four excluded parents.

## Model

| member | source | states |
|---|---|---|
| `Syntax.TypeAssertionIsAssertionNode` | src/util/explicitReturnTypeUtils.ts:188-194 | A node passes `isTypeAssertion` exactly when it is an `as` or angle-bracket assertion node, the only nodes that carry the `typeAnnotation` read next |
| `Syntax.IsTypeAssertion` | src/util/explicitReturnTypeUtils.ts:95 | Definition (astUtils, whose source is not part of this model): an `as` or angle-bracket assertion, not `satisfies`; its properties are stated in `TypeAssertionIsAssertionNode` and `TypedParentCases` |
| `Syntax.IsFunction` | src/util/explicitReturnTypeUtils.ts:168-178 | Definition of `ASTUtils.isFunction` as the five function tags; its properties are stated in `EveryReturnsFunction` and `ImmediatelyReturnsFunctionIff` |
| `Syntax.IsConstructor` | src/util/explicitReturnTypeUtils.ts:306 | Definition (astUtils): a method definition of role constructor; its properties are stated in `CheckFunctionReturnType` |
| `Syntax.IsSetter` | src/util/explicitReturnTypeUtils.ts:307 | Definition (astUtils): a method definition or property of role `set`; its properties are stated in `CheckFunctionReturnType` |
| `ThisExpression.SpineEnd` | src/util/getThisExpression.ts:7-23 | The walk ends at a node that is neither a call, a member access nor a chain |
| `ThisExpression.LocateThis` | src/util/getThisExpression.ts:4-24 | Definition of what the search finds; its properties are stated in `GetThisExpression` and `LocateThisIdempotent` |
| `ThisExpression.GetThisExpression` | src/util/getThisExpression.ts:4-24 | The loop returns a `ThisExpression` or nothing, and returns exactly what the walk through callee, object and chain expression ends at when that node is `this` |
| `ThisExpression.ArgumentsAndPropertiesIgnored` | src/util/getThisExpression.ts:8-19 | Two expressions that agree along the callee/object/expression spine give the same answer: call arguments and member properties are never inspected |
| `ThisExpression.SpineEndIsSubNode` | src/util/getThisExpression.ts:7-23 | The walk ends at the node itself or at a strict sub-node, since every step moves strictly down |
| `ThisExpression.LocateThisIdempotent` | src/util/getThisExpression.ts:11-13 | A `this` is returned as itself, so searching again from a result gives that result |
| `ThisExpression.OtherKindsFindNothing` | src/util/getThisExpression.ts:20-23 | A node of any tag other than call, member, chain or `this` ends the search with nothing found |
| `StringLength.IsAscii` | src/util/getStringLength.ts:5-7 | True exactly when every code point lies in U+0020..U+007F; the empty string is ASCII |
| `StringLength.ControlCharacterIsNotAscii` | src/util/getStringLength.ts:5-16 | Text with a character below U+0020 (tab, newline) is not ASCII, so it is measured by the splitter |
| `StringLength.LengthHelper.constructor` | src/util/getStringLength.ts:3 | The splitter cell starts empty |
| `StringLength.LengthHelper.GetStringLength` | src/util/getStringLength.ts:9-17 | ASCII text yields its length and leaves the cell untouched; other text yields the splitter's count; the splitter is created only when the cell is empty, and a splitter once set is never replaced |
| `StringLength.MeasureTwice` | src/util/getStringLength.ts:3-16 | Two non-ASCII measurements from an empty cell share one splitter: the first creates a fresh one, the second finds that same one in the cell, and both counts use the library's segmentation |
| `WrappingFixer.IsMissingSemicolonBefore` | src/util/getWrappingFixer.ts:196-234 | True exactly when, after climbing through left-hand-side positions only, the node reaches an expression statement in a Program or block that is not the first statement and whose previous statement's last token is not `;` |
| `WrappingFixer.GetWrappingFixer` | src/util/getWrappingFixer.ts:35-93 | The loop builds the inner codes and the text the fixer writes, equal to `ReplacementText` |
| `WrappingFixer.InnerCodeParenthesizedIff` | src/util/getWrappingFixer.ts:51-67 | An inner node's text is wrapped in parentheses exactly when it is not strong-precedence or is an object literal forming an arrow's concise body; otherwise it is kept verbatim |
| `WrappingFixer.StrongInnerKeepsText` | src/util/getWrappingFixer.ts:59-63 | A strong-precedence inner node keeps its bare text unless it is an object literal that is an arrow's concise body |
| `WrappingFixer.UnwrappedIsConcatenation` | src/util/getWrappingFixer.ts:69-71 | Without `wrap` the replacement is the inner codes joined in order, with no outer parentheses and no `;`; its length is the texts' lengths plus two per parenthesized inner node |
| `WrappingFixer.JoinLength` | src/util/getWrappingFixer.ts:51-71 | The joined inner codes are as long as the inner texts plus two for every inner node that needs parentheses |
| `WrappingFixer.JoinOfBareTexts` | src/util/getWrappingFixer.ts:51-71 | When no inner node needs parentheses the joined codes are the joined texts |
| `WrappingFixer.WrappedOuterParensIff` | src/util/getWrappingFixer.ts:74-84 | With `wrap`, the combined text gets outer parentheses exactly when the node is in a weak-precedence position and not already parenthesized; the result is that text or `;` followed by it |
| `WrappingFixer.LeadingSemicolonIff` | src/util/getWrappingFixer.ts:86-89 | A single `;` is prepended exactly when the text starts with a backtick, `(` or `[` and a semicolon is missing before the node |
| `WrappingFixer.InnerNodeDefaults` | src/util/getWrappingFixer.ts:38-48 | A missing `innerNode` means the node itself, and a single inner node behaves as a one-element list |
| `WrappingFixer.GetMovedNodeCode` | src/util/getWrappingFixer.ts:101-125 | The moved text is returned unchanged or in parentheses, and in parentheses exactly when the moved node is not strong-precedence and the destination is a weak-precedence position |
| `WrappingFixer.IsStrongPrecedenceNode` | src/util/getWrappingFixer.ts:130-144 | Definition; its properties are stated in `StrongInnerKeepsText`, `InnerCodeParenthesizedIff` and `GetMovedNodeCode` |
| `WrappingFixer.IsWeakPrecedenceParent` | src/util/getWrappingFixer.ts:149-190 | Definition; its properties are stated in `WeakPrecedencePositions` and `LeftHandSideIsWeakPrecedence` |
| `WrappingFixer.IsLeftHandSide` | src/util/getWrappingFixer.ts:239-281 | Definition; its properties are stated in `LeftHandSideIsWeakPrecedence`, `ClimbStopsOutsideLeftHandSide` and `IsMissingSemicolonBefore` |
| `WrappingFixer.IsObjectExpressionInOneLineReturn` | src/util/getWrappingFixer.ts:286-295 | Definition; its properties are stated in `InnerCodeParenthesizedIff` and `StrongInnerKeepsText` |
| `WrappingFixer.MovedNodeAgreesWithInnerCode` | src/util/getWrappingFixer.ts:113-124 | In a weak-precedence destination a moved node gets the same parentheses the fixer gives an inner node |
| `WrappingFixer.WeakPrecedencePositions` | src/util/getWrappingFixer.ts:149-190 | No parent means not weak; any operand of update, unary, binary, logical, conditional or await is weak; under a member only the object slot, under call or `new` only the callee, under a tagged template only the tag; no other parent is weak |
| `WrappingFixer.LeftHandSideIsWeakPrecedence` | src/util/getWrappingFixer.ts:239-281 | Every left-hand-side position is a weak-precedence position except the target of an assignment |
| `WrappingFixer.ClimbStopsOutsideLeftHandSide` | src/util/getWrappingFixer.ts:228-230 | A node that is neither a left-hand side nor directly in an expression statement (a `new` callee, say) never needs the `;` |
| `ExplicitReturnType.TypedParentCases` | src/util/explicitReturnTypeUtils.ts:34-111 | Type assertions and JSX containers or spreads always type their child; a variable declarator, default parameter or class property does exactly when annotated; no other tag but a call does |
| `ExplicitReturnType.IsVariableDeclaratorWithTypeAnnotation` | src/util/explicitReturnTypeUtils.ts:34-40 | Definition; its properties are stated in `TypedParentCases` |
| `ExplicitReturnType.IsPropertyDefinitionWithTypeAnnotation` | src/util/explicitReturnTypeUtils.ts:48-54 | Definition; its properties are stated in `TypedParentCases` |
| `ExplicitReturnType.IsFunctionArgument` | src/util/explicitReturnTypeUtils.ts:62-71 | Definition; its properties are stated in `ImmediatelyInvokedIsNotArgument` |
| `ExplicitReturnType.IsTypedJSX` | src/util/explicitReturnTypeUtils.ts:81-88 | Definition; its properties are stated in `TypedParentCases` |
| `ExplicitReturnType.IsTypedParent` | src/util/explicitReturnTypeUtils.ts:90-102 | Definition; its properties are stated in `TypedParentCases` and `NewTypesOnlyDirectArguments` |
| `ExplicitReturnType.IsDefaultFunctionParameterWithTypeAnnotation` | src/util/explicitReturnTypeUtils.ts:104-111 | Definition; its properties are stated in `TypedParentCases` |
| `ExplicitReturnType.IsConstructorArgument` | src/util/explicitReturnTypeUtils.ts:120-124 | Definition; its properties are stated in `NewTypesItsCalleeButCallDoesNot` and `NewTypesOnlyDirectArguments` |
| `ExplicitReturnType.NewTypesItsCalleeButCallDoesNot` | src/util/explicitReturnTypeUtils.ts:221-239 | With the typed flag on, a function in the callee slot of `new` is typed, and one in the callee slot of a call (an IIFE) never is |
| `ExplicitReturnType.ImmediatelyInvokedIsNotArgument` | src/util/explicitReturnTypeUtils.ts:62-71 | A call types the function it is given unless the function is its callee (an IIFE); with no callee to exclude every call is typed |
| `ExplicitReturnType.NewTypesOnlyDirectArguments` | src/util/explicitReturnTypeUtils.ts:120-150 | `new` is not a typed parent, so an object literal passed to `new` does not type its property functions |
| `ExplicitReturnType.PropertyOfObjectNeedsPropertyInObject` | src/util/explicitReturnTypeUtils.ts:138-145 | Without a Property whose parent is an object literal the answer is false |
| `ExplicitReturnType.PropertyOfObjectWithTypeAtAnyDepth` | src/util/explicitReturnTypeUtils.ts:135-150 | The recursive test holds exactly when one or more levels of property-in-object lead up to a typed parent |
| `ExplicitReturnType.IsPropertyOfObjectWithType` | src/util/explicitReturnTypeUtils.ts:135-150 | Definition; its properties are stated in `PropertyOfObjectWithTypeAtAnyDepth` and `PropertyOfObjectNeedsPropertyInObject` |
| `ExplicitReturnType.EveryReturnsFunction` | src/util/explicitReturnTypeUtils.ts:177-179 | True exactly when every return statement has an argument that is a function |
| `ExplicitReturnType.ImmediatelyReturnsFunctionIff` | src/util/explicitReturnTypeUtils.ts:163-180 | An arrow whose body is a function qualifies; otherwise zero returns give false and one or more give true exactly when every return yields a function |
| `ExplicitReturnType.DoesImmediatelyReturnFunctionExpression` | src/util/explicitReturnTypeUtils.ts:163-180 | Definition; its properties are stated in `ImmediatelyReturnsFunctionIff` |
| `ExplicitReturnType.IsConstAssertion` | src/util/explicitReturnTypeUtils.ts:188-209 | Definition; its properties are stated in `ConstAssertionExemption` and `TypeAssertionIsAssertionNode` |
| `ExplicitReturnType.StripSatisfies` | src/util/explicitReturnTypeUtils.ts:276-280 | The unwrapped body is not a `satisfies` expression |
| `ExplicitReturnType.StripSatisfiesLayers` | src/util/explicitReturnTypeUtils.ts:276-280 | Any number of `satisfies` layers are seen through |
| `ExplicitReturnType.IsValidFunctionExpressionReturnType` | src/util/explicitReturnTypeUtils.ts:245-283 | The method, with its `satisfies` loop, decides exactly the expression-level validity: typed context, `allowExpressions` outside the four declaration-like parents, or a const-asserted arrow body |
| `ExplicitReturnType.IsTypedFunctionExpression` | src/util/explicitReturnTypeUtils.ts:221-239 | Definition; its properties are stated in `TypedNeedsFlag`, `NewTypesItsCalleeButCallDoesNot` and `OptionsOnlyExempt` |
| `ExplicitReturnType.IsValidFunctionReturnType` | src/util/explicitReturnTypeUtils.ts:288-309 | Definition; its properties are stated in `CheckFunctionReturnType`, `OptionsOnlyExempt` and the scenarios |
| `ExplicitReturnType.CheckFunctionReturnType` | src/util/explicitReturnTypeUtils.ts:314-330 | `report` is called at most once, at the function head, and is not called exactly when there is a return type, the parent is a constructor or setter, or the function is a permitted higher-order function |
| `ExplicitReturnType.CheckFunctionExpressionReturnType` | src/util/explicitReturnTypeUtils.ts:335-346 | Never reports when the expression-level validity holds; reports once at the head exactly when neither validity holds |
| `ExplicitReturnType.OptionsOnlyExempt` | src/util/explicitReturnTypeUtils.ts:225-309 | Turning flags on never makes a valid function invalid and never turns a silent check into a report |
| `ExplicitReturnType.TypedNeedsFlag` | src/util/explicitReturnTypeUtils.ts:225-232 | With `allowTypedFunctionExpressions` off no function is typed; the parent is still required |
| `ExplicitReturnType.AllowExpressionsExemption` | src/util/explicitReturnTypeUtils.ts:258-266 | With `allowExpressions` on, a function is valid unless its parent is a variable declarator, method definition, default export or class property; under those the flag changes nothing |
| `ExplicitReturnType.ConstAssertionExemption` | src/util/explicitReturnTypeUtils.ts:269-282 | An arrow whose body, under any number of `satisfies`, asserts `as const` is valid when the flag is on; without the flag, without an arrow or without such a body the flag changes nothing |
| `ExplicitReturnType.AncestorHasReturnType` | src/util/explicitReturnTypeUtils.ts:351-393 | True exactly when the walk starts at a `return` or a bodyless arrow (entering a Property parent through its value) and the first stopping layer is a function with a return type or an annotated variable declarator or class property; an expression statement or the root gives false |
| `ReturnTypeScenarios.AnnotatedDeclarationIsCompliant` | src/util/explicitReturnTypeUtils.ts:288-309 | `function f(): number { return 1 }` is valid and `function f() { return 1 }` is not |
| `ReturnTypeScenarios.TypedVariableIsCompliant` | src/util/explicitReturnTypeUtils.ts:221-239 | `const f: () => number = () => 1` is valid with `allowTypedFunctionExpressions` |
| `ReturnTypeScenarios.HigherOrderArrowIsCompliant` | src/util/explicitReturnTypeUtils.ts:294-302 | `const f = () => () => 1` is valid with `allowHigherOrderFunctions` |
| `ReturnTypeScenarios.ConstAssertedArrowIsCompliant` | src/util/explicitReturnTypeUtils.ts:269-282 | `const f = () => ({ a: 1 } as const)` is valid with the const-assertion flag, also behind `satisfies` |
| `ReturnTypeScenarios.CallbackArgumentIsCompliant` | src/util/explicitReturnTypeUtils.ts:258-266 | `foo(() => { doSomething() })` is valid with `allowExpressions` |

## Left out

- Host facts are inputs, not computed. These are `sourceCode.getText`
  (the `text` of an inner node), `ASTUtils.isParenthesized` (a flag),
  `getFunctionHeadLoc` (the `headLoc` field) and `sourceCode.getLastToken` of
  the previous statement (the frame's `previousLastToken`). Every statement has
  a last token, so the `nullThrows` failure on that token is not modelled.
- `fixer.replaceText` is not modelled. `GetWrappingFixer` returns the text the
  fixer would write.
- The `report` callback is modelled as the list of locations it receives.
- `isConstructor`, `isSetter` and `isTypeAssertion` come from
  `src/util/astUtils.ts`, and `ASTUtils.isFunction` comes from the host
  library. Their source is not part of this model; the model takes them to be
  the tag and role predicates `Syntax.IsConstructor` (a method definition of
  role constructor), `Syntax.IsSetter` (a method definition or property of
  role `set`), `Syntax.IsTypeAssertion` (an `as` or angle-bracket assertion,
  so not `TSSatisfiesExpression`) and `Syntax.IsFunction` (the five function
  tags).
- Grapheme segmentation belongs to the `graphemer` library and is not
  modelled. A splitter counts with whatever `string -> nat` it was built with.
- `StringLength.LengthHelper.GetStringLength`: for non-ASCII text it promises
  only the splitter's count, because segmentation is not modelled.
- Strings are sequences of Unicode code points. JavaScript's `value.length`
  counts UTF-16 code units, but the helper uses it only on ASCII text, where
  the two agree. Lone surrogates cannot be represented.
- Node identity is not modelled beyond slots. `GetThisExpression` returns a
  value equal to the `this` node it reaches.
- Only the tags that the analyses tell apart are named. Every other tag is
  `OtherKind`, and its children are not kept.
- The rule entry point under `src/rules/` is not part of this model. Its
  regular-expression allow-list of names is not modelled either. So is the
  property that ties `ancestorHasReturnType` to the higher-order exemption of
  an enclosing function, because that property concerns the entry point.
- `src/util/getESLintCoreRule.ts` is a lookup into the host's rule registry.
  `src/index.ts` is plugin registration. `eslint.config.mjs` configures the
  repository's own linting. All three are glue and are left out.

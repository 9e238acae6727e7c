/** The return-type annotation analyzer: whether a function-like node must
    be reported for lacking an explicit return type. */
module ExplicitReturnType {
  import opened Syntax

  type FunctionKind = k: Kind | k == ArrowFunctionExpression || k == FunctionExpression || k == FunctionDeclaration
    witness ArrowFunctionExpression

  datatype Position = Position(line: nat, column: nat)
  datatype SourceLocation = SourceLocation(start: Position, end: Position)

  /** A function-like node in its tree. `headLoc` is the span of its head
      (name, parameters, arrow) as `getFunctionHeadLoc` gives it. */
  datatype FunctionNode = FunctionNode(
    kind: FunctionKind,
    returnType: bool,
    body: Expr,
    headLoc: SourceLocation,
    path: seq<Frame>)

  datatype ReturnStmt = ReturnStmt(argument: Option<Expr>)

  /** A function and the `return` statements that belong to it (not to a
      nested function). */
  datatype FunctionInfo = FunctionInfo(node: FunctionNode, returnStatements: seq<ReturnStmt>)

  datatype Options = Options(
    allowDirectConstAssertionInArrowFunctions: bool,
    allowExpressions: bool,
    allowHigherOrderFunctions: bool,
    allowTypedFunctionExpressions: bool)

  /** An arrow function or a function expression (not a declaration). */
  predicate IsFunctionExpression(node: FunctionNode)
  {
    node.kind != FunctionDeclaration
  }

  /** The head of the function node itself. */
  function FunctionHead(node: FunctionNode): Head
  {
    Head(node.kind, node.returnType, false, NoRole, KindOf(node.body))
  }

  // ----- Typed contexts -----

  /** `const x: Foo = ...` */
  predicate IsVariableDeclaratorWithTypeAnnotation(node: Head)
  {
    node.kind == VariableDeclarator && node.typeAnnotation
  }

  /** `public x: Foo = ...` */
  predicate IsPropertyDefinitionWithTypeAnnotation(node: Head)
  {
    node.kind == PropertyDefinition && node.typeAnnotation
  }

  /** `foo(() => 1)`. When `excludeCallee` holds, the node below `parent` is
      the function asked about and must not be the callee (an immediately
      invoked function); otherwise any call qualifies. */
  predicate IsFunctionArgument(parent: Frame, excludeCallee: bool)
  {
    parent.parent.kind == CallExpression && !(excludeCallee && parent.slot == Callee)
  }

  /** `<Foo x={() => {}} />`, `<Bar>{() => {}}</Bar>`, `<Baz {...props} />` */
  predicate IsTypedJSX(node: Head)
  {
    node.kind == JSXExpressionContainer || node.kind == JSXSpreadAttribute
  }

  /** `function f(g: Foo = () => {})` */
  predicate IsDefaultFunctionParameterWithTypeAnnotation(node: Head)
  {
    node.kind == AssignmentPattern && node.typeAnnotation
  }

  predicate IsTypedParent(parent: Frame, excludeCallee: bool)
  {
    IsTypeAssertion(parent.parent.kind)
    || IsVariableDeclaratorWithTypeAnnotation(parent.parent)
    || IsDefaultFunctionParameterWithTypeAnnotation(parent.parent)
    || IsPropertyDefinitionWithTypeAnnotation(parent.parent)
    || IsFunctionArgument(parent, excludeCallee)
    || IsTypedJSX(parent.parent)
  }

  /** The typed parents: any type assertion, JSX container or spread, any
      call (but see `excludeCallee`), and a variable declarator, default
      parameter or class property exactly when it carries a type
      annotation. Nothing else types a function. */
  lemma TypedParentCases(parent: Frame, excludeCallee: bool)
    ensures IsTypeAssertion(parent.parent.kind) || IsTypedJSX(parent.parent) ==> IsTypedParent(parent, excludeCallee)
    ensures parent.parent.kind in {VariableDeclarator, AssignmentPattern, PropertyDefinition}
            ==> (IsTypedParent(parent, excludeCallee) <==> parent.parent.typeAnnotation)
    ensures IsTypedParent(parent, excludeCallee)
            ==> parent.parent.kind in {TSAsExpression, TSTypeAssertion, VariableDeclarator, AssignmentPattern,
                                       PropertyDefinition, CallExpression, JSXExpressionContainer, JSXSpreadAttribute}
  {
  }

  /** `new Foo(() => {})` */
  predicate IsConstructorArgument(node: Head)
  {
    node.kind == NewExpression
  }

  /** `above[0].parent` is a property of an object literal whose own parent
      is typed, or is itself such a property, at any depth:
      `const x: Foo = { bar: { prop: () => {} } }`. */
  predicate IsPropertyOfObjectWithType(above: seq<Frame>)
    requires Rooted(above)
    decreases |above|
  {
    if above[0].parent.kind != Property then false
    else if above[1].parent.kind != ObjectExpression then false
    else IsTypedParent(above[2], false) || IsPropertyOfObjectWithType(above[2..])
  }

  /** Level `j` of the chain is a property inside an object literal. */
  predicate PropertyInObjectAt(above: seq<Frame>, j: nat)
  {
    2 * j + 1 < |above|
    && above[2 * j].parent.kind == Property && above[2 * j + 1].parent.kind == ObjectExpression
  }

  /** `n` nested levels of property-in-object, with a node above them. */
  predicate NestedProperties(above: seq<Frame>, n: nat)
  {
    2 * n < |above| && forall j: nat :: j < n ==> PropertyInObjectAt(above, j)
  }

  lemma NestedPropertiesShift(above: seq<Frame>, n: nat)
    requires |above| >= 2 && PropertyInObjectAt(above, 0)
    ensures NestedProperties(above[2..], n) <==> NestedProperties(above, n + 1)
  {
    if NestedProperties(above[2..], n) {
      forall j: nat | j < n + 1 ensures PropertyInObjectAt(above, j) {
        if j > 0 {
          assert PropertyInObjectAt(above[2..], j - 1);
        }
      }
    }
    if NestedProperties(above, n + 1) {
      forall j: nat | j < n ensures PropertyInObjectAt(above[2..], j) {
        assert PropertyInObjectAt(above, j + 1);
      }
    }
  }

  lemma {:induction false} NestedDepthOfProperty(above: seq<Frame>) returns (n: nat)
    requires Rooted(above) && IsPropertyOfObjectWithType(above)
    ensures 1 <= n && NestedProperties(above, n) && IsTypedParent(above[2 * n], false)
  {
    assert PropertyInObjectAt(above, 0);
    if IsTypedParent(above[2], false) {
      n := 1;
    } else {
      var rest := above[2..];
      assert rest[|rest| - 1] == above[|above| - 1];
      assert IsPropertyOfObjectWithType(rest);
      var m := NestedDepthOfProperty(rest);
      OneLevelDeeper(above, m);
      n := m + 1;
    }
  }

  lemma OneLevelDeeper(above: seq<Frame>, m: nat)
    requires |above| >= 2 && PropertyInObjectAt(above, 0)
    requires NestedProperties(above[2..], m) && IsTypedParent(above[2..][2 * m], false)
    ensures NestedProperties(above, m + 1) && IsTypedParent(above[2 * (m + 1)], false)
  {
    NestedPropertiesShift(above, m);
    assert above[2..][2 * m] == above[2 * (m + 1)];
  }

  lemma {:induction false} PropertyOfNestedDepth(above: seq<Frame>, n: nat)
    requires Rooted(above) && 1 <= n && NestedProperties(above, n) && IsTypedParent(above[2 * n], false)
    ensures IsPropertyOfObjectWithType(above)
  {
    assert PropertyInObjectAt(above, 0);
    if n > 1 {
      NestedPropertiesShift(above, n - 1);
      assert above[2..][2 * (n - 1)] == above[2 * n];
      PropertyOfNestedDepth(above[2..], n - 1);
    }
  }

  /** The recursion unfolded: a property of a typed object is a chain of one
      or more property-in-object levels ending at a typed parent. */
  lemma PropertyOfObjectWithTypeAtAnyDepth(above: seq<Frame>)
    requires Rooted(above)
    ensures IsPropertyOfObjectWithType(above)
            <==> exists n: nat :: 1 <= n && NestedProperties(above, n) && IsTypedParent(above[2 * n], false)
  {
    if IsPropertyOfObjectWithType(above) {
      var n := NestedDepthOfProperty(above);
    }
    forall n: nat | 1 <= n && NestedProperties(above, n) && IsTypedParent(above[2 * n], false)
      ensures IsPropertyOfObjectWithType(above)
    {
      PropertyOfNestedDepth(above, n);
    }
  }

  /** Only a property directly inside an object literal can be a property
      of a typed object. */
  lemma PropertyOfObjectNeedsPropertyInObject(above: seq<Frame>)
    requires Rooted(above)
    requires above[0].parent.kind != Property || above[1].parent.kind != ObjectExpression
    ensures !IsPropertyOfObjectWithType(above)
  {
  }

  /** A call types a function passed to it but not one it invokes on the
      spot; for an object literal nested in the call's arguments (or its
      callee) only the call itself matters. */
  lemma ImmediatelyInvokedIsNotArgument(parent: Frame)
    requires parent.parent.kind == CallExpression
    ensures IsTypedParent(parent, true) <==> parent.slot != Callee
    ensures IsTypedParent(parent, false)
  {
  }

  /** `new` is not a typed parent, so an object literal passed to `new` does
      not type its properties' functions; only the function passed directly
      counts (through `IsConstructorArgument`). */
  lemma NewTypesOnlyDirectArguments(above: seq<Frame>, b: bool)
    requires Rooted(above) && |above| > 2 && above[2].parent.kind == NewExpression
    ensures !IsTypedParent(above[2], b)
    ensures !IsPropertyOfObjectWithType(above)
  {
  }

  // ----- Higher-order functions -----

  predicate ReturnsFunction(r: ReturnStmt)
  {
    r.argument.Some? && IsFunction(KindOf(r.argument.value))
  }

  /** `returns.every(...)`. */
  function EveryReturnsFunction(statements: seq<ReturnStmt>): (r: bool)
    ensures r <==> forall i :: 0 <= i < |statements| ==> ReturnsFunction(statements[i])
  {
    |statements| == 0 || (ReturnsFunction(statements[0]) && EveryReturnsFunction(statements[1..]))
  }

  /** `() => () => ...`, `function fn() { return () => ... }` */
  predicate DoesImmediatelyReturnFunctionExpression(info: FunctionInfo)
  {
    if info.node.kind == ArrowFunctionExpression && IsFunction(KindOf(info.node.body)) then true
    else if |info.returnStatements| == 0 then false
    else EveryReturnsFunction(info.returnStatements)
  }

  /** An arrow whose body is a function qualifies whatever its returns;
      otherwise there must be at least one return and every return must
      have a function as its argument. */
  lemma ImmediatelyReturnsFunctionIff(info: FunctionInfo)
    ensures DoesImmediatelyReturnFunctionExpression(info)
            <==> (info.node.kind == ArrowFunctionExpression && IsFunction(KindOf(info.node.body)))
                 || (|info.returnStatements| > 0 && forall i :: 0 <= i < |info.returnStatements| ==> ReturnsFunction(info.returnStatements[i]))
  {
  }

  // ----- `as const` -----

  /** `({ action: 'xxx' } as const)` */
  predicate IsConstAssertion(e: Expr)
  {
    IsTypeAssertion(KindOf(e)) && e.Assertion?
    && e.typeAnnotation.TypeReference? && e.typeAnnotation.typeName.TypeIdentifier?
    && e.typeAnnotation.typeName.name == "const"
  }

  /** What is left of an expression once every `satisfies` around it is
      taken off. */
  function StripSatisfies(e: Expr): (r: Expr)
    ensures !r.Satisfies?
  {
    if e.Satisfies? then StripSatisfies(e.expression) else e
  }

  function WrapSatisfies(e: Expr, n: nat): Expr
  {
    if n == 0 then e else Satisfies(WrapSatisfies(e, n - 1))
  }

  /** Any number of `satisfies` layers are seen through. */
  lemma {:induction false} StripSatisfiesLayers(e: Expr, n: nat)
    ensures StripSatisfies(WrapSatisfies(e, n)) == StripSatisfies(e)
  {
    if n > 0 {
      StripSatisfiesLayers(e, n - 1);
    }
  }

  // ----- Validity -----

  /** `isTypedFunctionExpression`. */
  predicate IsTypedFunctionExpression(node: FunctionNode, options: Options)
    requires Rooted(node.path)
  {
    options.allowTypedFunctionExpressions
    && (IsTypedParent(node.path[0], true)
        || IsPropertyOfObjectWithType(node.path)
        || IsConstructorArgument(node.path[0].parent))
  }

  /** The four parents under which `allowExpressions` does not apply. */
  predicate IsDeclarationLikeParent(k: Kind)
  {
    k == VariableDeclarator || k == MethodDefinition || k == ExportDefaultDeclaration || k == PropertyDefinition
  }

  /** The expression-level validity `isValidFunctionExpressionReturnType` decides. */
  predicate ValidFunctionExpressionReturnType(node: FunctionNode, options: Options)
    requires Rooted(node.path)
  {
    IsTypedFunctionExpression(node, options)
    || (options.allowExpressions && !IsDeclarationLikeParent(node.path[0].parent.kind))
    || (options.allowDirectConstAssertionInArrowFunctions && node.kind == ArrowFunctionExpression
        && IsConstAssertion(StripSatisfies(node.body)))
  }

  /** `isValidFunctionExpressionReturnType`. */
  method IsValidFunctionExpressionReturnType(node: FunctionNode, options: Options) returns (r: bool)
    requires Rooted(node.path) && IsFunctionExpression(node)
    ensures r == ValidFunctionExpressionReturnType(node, options)
  {
    if IsTypedFunctionExpression(node, options) {
      return true;
    }
    var parent := node.path[0].parent;
    if options.allowExpressions
       && parent.kind != VariableDeclarator && parent.kind != MethodDefinition
       && parent.kind != ExportDefaultDeclaration && parent.kind != PropertyDefinition
    {
      return true;
    }
    if !options.allowDirectConstAssertionInArrowFunctions || node.kind != ArrowFunctionExpression {
      return false;
    }
    var body := node.body;
    while body.Satisfies?
      invariant StripSatisfies(body) == StripSatisfies(node.body)
      decreases body
    {
      body := body.expression;
    }
    return IsConstAssertion(body);
  }

  /** `isValidFunctionReturnType`. */
  predicate IsValidFunctionReturnType(info: FunctionInfo, options: Options)
    requires Rooted(info.node.path)
  {
    (options.allowHigherOrderFunctions && DoesImmediatelyReturnFunctionExpression(info))
    || info.node.returnType
    || IsConstructor(info.node.path[0].parent)
    || IsSetter(info.node.path[0].parent)
  }

  /** `checkFunctionReturnType`: the locations handed to `report`, in order. */
  method CheckFunctionReturnType(info: FunctionInfo, options: Options) returns (reported: seq<SourceLocation>)
    requires Rooted(info.node.path)
    ensures reported == [] || reported == [info.node.headLoc]
    ensures reported == []
            <==> info.node.returnType
                 || IsConstructor(info.node.path[0].parent)
                 || IsSetter(info.node.path[0].parent)
                 || (options.allowHigherOrderFunctions && DoesImmediatelyReturnFunctionExpression(info))
  {
    if IsValidFunctionReturnType(info, options) {
      return [];
    }
    reported := [info.node.headLoc];
  }

  /** Whether checking a function expression reports it. */
  predicate ExpressionReported(info: FunctionInfo, options: Options)
    requires Rooted(info.node.path)
  {
    !ValidFunctionExpressionReturnType(info.node, options) && !IsValidFunctionReturnType(info, options)
  }

  /** `checkFunctionExpressionReturnType`: the locations handed to `report`. */
  method CheckFunctionExpressionReturnType(info: FunctionInfo, options: Options) returns (reported: seq<SourceLocation>)
    requires Rooted(info.node.path) && IsFunctionExpression(info.node)
    ensures reported == [] || reported == [info.node.headLoc]
    ensures ValidFunctionExpressionReturnType(info.node, options) ==> reported == []
    ensures reported == [info.node.headLoc] <==> ExpressionReported(info, options)
  {
    var valid := IsValidFunctionExpressionReturnType(info.node, options);
    if valid {
      return [];
    }
    reported := CheckFunctionReturnType(info, options);
  }

  // ----- What the options promise -----

  /** Every flag of `weaker` that is on is also on in `stronger`. */
  predicate FlagsIncluded(weaker: Options, stronger: Options)
  {
    (weaker.allowDirectConstAssertionInArrowFunctions ==> stronger.allowDirectConstAssertionInArrowFunctions)
    && (weaker.allowExpressions ==> stronger.allowExpressions)
    && (weaker.allowHigherOrderFunctions ==> stronger.allowHigherOrderFunctions)
    && (weaker.allowTypedFunctionExpressions ==> stronger.allowTypedFunctionExpressions)
  }

  /** Turning flags on never turns a silent check into a report: each flag
      only guards an exemption. */
  lemma OptionsOnlyExempt(info: FunctionInfo, weaker: Options, stronger: Options)
    requires Rooted(info.node.path) && FlagsIncluded(weaker, stronger)
    ensures IsValidFunctionReturnType(info, weaker) ==> IsValidFunctionReturnType(info, stronger)
    ensures ValidFunctionExpressionReturnType(info.node, weaker) ==> ValidFunctionExpressionReturnType(info.node, stronger)
    ensures ExpressionReported(info, stronger) ==> ExpressionReported(info, weaker)
  {
  }

  /** With `allowTypedFunctionExpressions` off no context types a function. */
  lemma TypedNeedsFlag(node: FunctionNode, options: Options)
    requires Rooted(node.path) && !options.allowTypedFunctionExpressions
    ensures !IsTypedFunctionExpression(node, options)
  {
  }

  /** A function in the callee slot: under `new` it is typed, while an
      immediately invoked function under a call never is. */
  lemma NewTypesItsCalleeButCallDoesNot(node: FunctionNode, options: Options)
    requires Rooted(node.path) && options.allowTypedFunctionExpressions && node.path[0].slot == Callee
    ensures node.path[0].parent.kind == NewExpression ==> IsTypedFunctionExpression(node, options)
    ensures node.path[0].parent.kind == CallExpression ==> !IsTypedFunctionExpression(node, options)
  {
  }

  /** With `allowExpressions` on, a function expression is valid unless its
      parent is a variable declarator, a method definition, a default export
      or a class property; under those four parents the flag changes
      nothing. */
  lemma AllowExpressionsExemption(node: FunctionNode, options: Options)
    requires Rooted(node.path) && options.allowExpressions
    ensures !IsDeclarationLikeParent(node.path[0].parent.kind) ==> ValidFunctionExpressionReturnType(node, options)
    ensures IsDeclarationLikeParent(node.path[0].parent.kind)
            ==> (ValidFunctionExpressionReturnType(node, options)
                 <==> ValidFunctionExpressionReturnType(node, options.(allowExpressions := false)))
  {
  }

  /** The `as const` exemption needs the flag and an arrow; through any
      number of `satisfies` layers the body must be a type assertion to the
      type reference `const`. */
  lemma ConstAssertionExemption(node: FunctionNode, options: Options, e: Expr, n: nat)
    requires Rooted(node.path) && node.body == WrapSatisfies(e, n)
    ensures (options.allowDirectConstAssertionInArrowFunctions && node.kind == ArrowFunctionExpression
             && IsConstAssertion(e)) ==> ValidFunctionExpressionReturnType(node, options)
    ensures (!options.allowDirectConstAssertionInArrowFunctions || node.kind != ArrowFunctionExpression
             || !IsConstAssertion(StripSatisfies(e)))
            ==> (ValidFunctionExpressionReturnType(node, options)
                 <==> ValidFunctionExpressionReturnType(node, options.(allowDirectConstAssertionInArrowFunctions := false)))
  {
    StripSatisfiesLayers(e, n);
  }

  // ----- `ancestorHasReturnType` -----

  /** The parents of the node, nearest first. */
  function Parents(path: seq<Frame>): (heads: seq<Head>)
    ensures |heads| == |path| && forall i :: 0 <= i < |path| ==> heads[i] == path[i].parent
  {
    seq(|path|, i requires 0 <= i < |path| => path[i].parent)
  }

  /** The nodes the walk visits, nearest first: the parent and all above it,
      except that a Property parent is entered through its `value` (which is
      the function itself when the function is that value). */
  function AncestorWalk(node: FunctionNode): (walk: seq<Head>)
    requires node.path != []
    ensures |walk| > 0
  {
    if node.path[0].parent.kind == Property then
      [if node.path[0].slot == Value then FunctionHead(node) else node.path[0].value] + Parents(node.path)
    else Parents(node.path)
  }

  /** The function was returned: the walk starts at a `return` or at an
      arrow whose body is not a block. */
  predicate IsReturnedPosition(h: Head)
  {
    h.kind == ReturnStatement || (h.kind == ArrowFunctionExpression && h.bodyKind != BlockStatement)
  }

  predicate IsFunctionLayer(h: Head)
  {
    h.kind == ArrowFunctionExpression || h.kind == FunctionExpression || h.kind == FunctionDeclaration
  }

  /** The walk stops here. */
  predicate Settles(h: Head)
  {
    (IsFunctionLayer(h) && h.returnType)
    || h.kind == VariableDeclarator || h.kind == PropertyDefinition || h.kind == ExpressionStatement
  }

  /** The walk stops here with `true`. */
  predicate SettlesTyped(h: Head)
  {
    (IsFunctionLayer(h) && h.returnType)
    || ((h.kind == VariableDeclarator || h.kind == PropertyDefinition) && h.typeAnnotation)
  }

  /** `k` is the first place the walk stops. */
  predicate FirstSettledAt(walk: seq<Head>, k: nat)
  {
    k < |walk| && Settles(walk[k]) && forall j :: 0 <= j < k ==> !Settles(walk[j])
  }

  /** `ancestorHasReturnType`: whether an enclosing function, or a typed
      variable or class property, already fixes the type of the function
      being returned. */
  method AncestorHasReturnType(node: FunctionNode) returns (r: bool)
    requires node.path != []
    ensures var walk := AncestorWalk(node);
            r <==> IsReturnedPosition(walk[0]) && exists k: nat :: FirstSettledAt(walk, k) && SettlesTyped(walk[k])
  {
    var walk := AncestorWalk(node);
    var ancestor := walk[0];
    if !(ancestor.kind == ReturnStatement) && !(ancestor.kind == ArrowFunctionExpression && ancestor.bodyKind != BlockStatement) {
      return false;
    }
    var i := 0;
    while i < |walk|
      invariant 0 <= i <= |walk|
      invariant forall j :: 0 <= j < i ==> !Settles(walk[j])
    {
      ancestor := walk[i];
      if IsFunctionLayer(ancestor) {
        if ancestor.returnType {
          assert FirstSettledAt(walk, i);
          return true;
        }
      } else if ancestor.kind == VariableDeclarator {
        assert FirstSettledAt(walk, i);
        return ancestor.typeAnnotation;
      } else if ancestor.kind == PropertyDefinition {
        assert FirstSettledAt(walk, i);
        return ancestor.typeAnnotation;
      } else if ancestor.kind == ExpressionStatement {
        assert FirstSettledAt(walk, i);
        return false;
      }
      i := i + 1;
    }
    return false;
  }
}

/** Worked examples of the analyzer on small concrete functions. */
module ReturnTypeScenarios {
  import opened Syntax
  import opened ExplicitReturnType

  function Plain(k: Kind): Head
  {
    Head(k, false, false, NoRole, OtherKind)
  }

  /** A step up to `parent`, entering it through `slot`. */
  function Up(parent: Head, slot: Slot): Frame
  {
    Frame(parent, slot, Plain(OtherKind), "")
  }

  const NoOptions := Options(false, false, false, false)
  const Here := SourceLocation(Position(1, 0), Position(1, 12))

  /** `function f(): number { return 1 }` is compliant;
      `function f() { return 1 }` is reported at its head. */
  lemma AnnotatedDeclarationIsCompliant()
    ensures var declared := FunctionNode(FunctionDeclaration, true, Leaf(BlockStatement), Here,
                                         [Up(Plain(Program), Statement(0))]);
            IsValidFunctionReturnType(FunctionInfo(declared, [ReturnStmt(Some(Leaf(Literal)))]), NoOptions)
    ensures var bare := FunctionNode(FunctionDeclaration, false, Leaf(BlockStatement), Here,
                                     [Up(Plain(Program), Statement(0))]);
            !IsValidFunctionReturnType(FunctionInfo(bare, [ReturnStmt(Some(Leaf(Literal)))]), NoOptions)
  {
  }

  /** `const f: () => number = () => 1` with `allowTypedFunctionExpressions`. */
  lemma TypedVariableIsCompliant()
    ensures var arrow := FunctionNode(ArrowFunctionExpression, false, Leaf(Literal), Here,
                                      [Up(Head(VariableDeclarator, false, true, NoRole, OtherKind), Init),
                                       Up(Plain(OtherKind), OtherSlot),
                                       Up(Plain(Program), Statement(0))]);
            ValidFunctionExpressionReturnType(arrow, NoOptions.(allowTypedFunctionExpressions := true))
  {
  }

  /** `const f = () => () => 1` with `allowHigherOrderFunctions`. */
  lemma HigherOrderArrowIsCompliant()
    ensures var arrow := FunctionNode(ArrowFunctionExpression, false, Leaf(ArrowFunctionExpression), Here,
                                      [Up(Plain(VariableDeclarator), Init),
                                       Up(Plain(OtherKind), OtherSlot),
                                       Up(Plain(Program), Statement(0))]);
            IsValidFunctionReturnType(FunctionInfo(arrow, []), NoOptions.(allowHigherOrderFunctions := true))
  {
  }

  /** `const f = () => ({ a: 1 } as const)` with
      `allowDirectConstAssertionInArrowFunctions`, also behind a `satisfies`. */
  lemma ConstAssertedArrowIsCompliant()
    ensures var asConst := Assertion(AsStyle, Leaf(ObjectExpression), TypeReference(TypeIdentifier("const")));
            var path := [Up(Plain(VariableDeclarator), Init), Up(Plain(OtherKind), OtherSlot), Up(Plain(Program), Statement(0))];
            var options := NoOptions.(allowDirectConstAssertionInArrowFunctions := true);
            ValidFunctionExpressionReturnType(FunctionNode(ArrowFunctionExpression, false, asConst, Here, path), options)
            && ValidFunctionExpressionReturnType(FunctionNode(ArrowFunctionExpression, false, Satisfies(asConst), Here, path), options)
  {
  }

  /** `foo(() => { doSomething() })` with `allowExpressions`. */
  lemma CallbackArgumentIsCompliant()
    ensures var arrow := FunctionNode(ArrowFunctionExpression, false, Leaf(BlockStatement), Here,
                                      [Up(Plain(CallExpression), Arguments),
                                       Up(Plain(ExpressionStatement), Expression),
                                       Up(Plain(Program), Statement(0))]);
            ValidFunctionExpressionReturnType(arrow, NoOptions.(allowExpressions := true))
  {
  }
}

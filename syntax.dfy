/** The syntax-tree vocabulary shared by the analyses.

    The host lint engine owns the tree; the analyses only read it. A node is
    seen in two ways:
    - upwards, as a `Located` node: the node's own `Head` plus the chain of
      ancestor `Frame`s (a zipper), each frame telling which slot of its
      parent the node below occupies, so that `parent.callee === node`
      becomes `frame.slot == Callee`;
    - downwards, as an `Expr` tree, for the walks that descend through
      `callee`, `object`, `expression` and a function's `body`.
*/
module Syntax {

  datatype Option<+T> = None | Some(value: T)

  /** The `type` tag of a syntax node; only the tags the analyses tell apart
      are named, every other tag is `OtherKind`. */
  datatype Kind =
    | Program | BlockStatement | ExpressionStatement | ReturnStatement
    | VariableDeclarator | PropertyDefinition | MethodDefinition | ExportDefaultDeclaration
    | AssignmentPattern | Property | ObjectExpression | ArrayExpression
    | ArrowFunctionExpression | FunctionExpression | FunctionDeclaration
    | TSDeclareFunction | TSEmptyBodyFunctionExpression
    | CallExpression | NewExpression | MemberExpression | ChainExpression | ThisExpression
    | TaggedTemplateExpression | TSInstantiationExpression
    | TSAsExpression | TSTypeAssertion | TSSatisfiesExpression
    | TSTypeReference | TSTypeOperator | Identifier | Literal
    | UpdateExpression | UnaryExpression | BinaryExpression | LogicalExpression
    | AssignmentExpression | ConditionalExpression | AwaitExpression
    | JSXExpressionContainer | JSXSpreadAttribute
    | OtherKind

  /** The `kind` field of a `MethodDefinition` ("constructor", "method", "get",
      "set") or of a `Property` ("init", "get", "set"); `NoRole` elsewhere. */
  datatype Role = NoRole | ConstructorRole | MethodRole | GetRole | SetRole | InitRole

  /** Which child of its parent a node is. */
  datatype Slot =
    | Callee | Arguments | Object | MemberProperty
    | Left | Right | Test | Consequent | Alternate
    | Tag | Quasi | Key | Value | Init | Body | Argument | Expression
    | Statement(index: nat)  // position in the `body` of a Program or BlockStatement
    | OtherSlot

  /** What the analyses read of a node without descending into it.
      `typeAnnotation` is `id.typeAnnotation` of a VariableDeclarator,
      `typeAnnotation` of a PropertyDefinition and `left.typeAnnotation` of an
      AssignmentPattern; `returnType` is a function's `returnType`;
      `bodyKind` is the kind of a function's `body`. */
  datatype Head = Head(kind: Kind, returnType: bool, typeAnnotation: bool, role: Role, bodyKind: Kind)

  /** One step up the tree: the parent, and which slot of it the node below
      fills. `value` is the head of a Property parent's `value` when the node
      below is some other child of that property (its key); `previousLastToken`
      is, for a Program or BlockStatement parent whose child is `Statement(i)`
      with `i > 0`, the last token of statement `i - 1`. */
  datatype Frame = Frame(parent: Head, slot: Slot, value: Head, previousLastToken: string)

  /** A node located in its tree: its head and its ancestors, nearest first. */
  datatype Located = Located(head: Head, path: seq<Frame>)

  /** The ancestor chain ends at the Program, as in every tree the host parses. */
  predicate Rooted(path: seq<Frame>)
  {
    |path| > 0 && path[|path| - 1].parent.kind == Program
  }

  /** Tags that have their own `Expr` constructor. */
  predicate IsStructuredKind(k: Kind)
  {
    k == CallExpression || k == MemberExpression || k == ChainExpression || k == ThisExpression
    || k == TSSatisfiesExpression || k == TSAsExpression || k == TSTypeAssertion
  }

  type LeafKind = k: Kind | !IsStructuredKind(k) witness OtherKind

  datatype AssertionStyle = AsStyle | AngleBracketStyle

  /** The `typeName` of a type reference. */
  datatype TypeName = TypeIdentifier(name: string) | OtherTypeName

  /** A type annotation node. */
  datatype TypeNode = TypeReference(typeName: TypeName) | OtherType

  /** An expression seen from above. Only the children some walk descends
      into are kept; `Leaf` stands for a node of any other tag, children
      omitted. */
  datatype Expr =
    | Call(callee: Expr, arguments: seq<Expr>)
    | Member(obj: Expr, property: Expr)
    | Chain(expression: Expr)
    | This
    | Satisfies(expression: Expr)
    | Assertion(style: AssertionStyle, expression: Expr, typeAnnotation: TypeNode)
    | Leaf(kind: LeafKind)

  function KindOf(e: Expr): Kind
  {
    match e
    case Call(_, _) => CallExpression
    case Member(_, _) => MemberExpression
    case Chain(_) => ChainExpression
    case This => ThisExpression
    case Satisfies(_) => TSSatisfiesExpression
    case Assertion(style, _, _) => if style == AsStyle then TSAsExpression else TSTypeAssertion
    case Leaf(k) => k
  }

  // The host library's predicates over a node, stated over its tag (and role).

  /** `ASTUtils.isFunction`. */
  predicate IsFunction(k: Kind)
  {
    k == ArrowFunctionExpression || k == FunctionDeclaration || k == FunctionExpression
    || k == TSDeclareFunction || k == TSEmptyBodyFunctionExpression
  }

  /** `isTypeAssertion`: an `as` or an angle-bracket type assertion. */
  predicate IsTypeAssertion(k: Kind)
  {
    k == TSAsExpression || k == TSTypeAssertion
  }

  /** `isConstructor`: a class constructor. */
  predicate IsConstructor(h: Head)
  {
    h.kind == MethodDefinition && h.role == ConstructorRole
  }

  /** `isSetter`: a `set` accessor of a class or of an object literal. */
  predicate IsSetter(h: Head)
  {
    (h.kind == MethodDefinition || h.kind == Property) && h.role == SetRole
  }

  /** A type assertion in the tree is exactly an `Assertion` node. */
  lemma TypeAssertionIsAssertionNode(e: Expr)
    ensures IsTypeAssertion(KindOf(e)) <==> e.Assertion?
  {
  }
}

/** The precedence and wrapping engine: the replacement text a fix writes in
    place of a node, parenthesized as the surrounding grammar needs and
    guarded by a `;` where automatic semicolon insertion (section 12.10 of
    ECMA-262) would otherwise join it to the previous statement. */
module WrappingFixer {
  import opened Syntax

  /** A node whose source text is kept: its tag and `sourceCode.getText` of it. */
  datatype Inner = Inner(kind: Kind, text: string)

  /** `innerNode` given as one node or as a list of nodes. */
  datatype InnerNodes = SingleNode(node: Inner) | NodeList(nodes: seq<Inner>)

  /** The fixer's inputs. `nodeText` is the text of `node` itself and
      `parenthesized` is what `ASTUtils.isParenthesized(node)` answers;
      `wrap` receives the inner codes in order. */
  datatype WrappingFixerParams = WrappingFixerParams(
    node: Located,
    nodeText: string,
    parenthesized: bool,
    innerNode: Option<InnerNodes>,
    wrap: Option<seq<string> -> string>)

  /** Tags whose text keeps its meaning wherever it is re-parented. */
  predicate IsStrongPrecedenceNode(k: Kind)
  {
    k == Literal || k == Identifier || k == TSTypeReference || k == TSTypeOperator
    || k == ArrayExpression || k == ObjectExpression || k == MemberExpression
    || k == CallExpression || k == NewExpression || k == TaggedTemplateExpression
    || k == TSInstantiationExpression
  }

  /** The operator around `node` could bind differently if `node` were replaced. */
  predicate IsWeakPrecedenceParent(node: Located)
  {
    if node.path == [] then false
    else
      var parent := node.path[0].parent.kind;
      var slot := node.path[0].slot;
      if parent == UpdateExpression || parent == UnaryExpression || parent == BinaryExpression
         || parent == LogicalExpression || parent == ConditionalExpression || parent == AwaitExpression
      then true
      else if parent == MemberExpression && slot == Object then true
      else if (parent == CallExpression || parent == NewExpression) && slot == Callee then true
      else if parent == TaggedTemplateExpression && slot == Tag then true
      else false
  }

  /** The node below `parent` is the left-hand side of an operator. */
  predicate IsLeftHandSide(parent: Frame)
  {
    var k := parent.parent.kind;
    if k == UpdateExpression then true
    else if (k == BinaryExpression || k == LogicalExpression || k == AssignmentExpression) && parent.slot == Left then true
    else if k == ConditionalExpression && parent.slot == Test then true
    else if k == CallExpression && parent.slot == Callee then true
    else if k == TaggedTemplateExpression && parent.slot == Tag then true
    else false
  }

  /** `node` is the concise body of an arrow and the inner node is an object literal. */
  predicate IsObjectExpressionInOneLineReturn(node: Located, innerKind: Kind)
  {
    node.path != [] && node.path[0].parent.kind == ArrowFunctionExpression
    && node.path[0].slot == Body && innerKind == ObjectExpression
  }

  /** The node at `path[k]`'s child level is an expression statement in a
      Program or block, after some statement whose last token is not `;`. */
  predicate StatementAfterUnterminated(path: seq<Frame>, k: nat)
  {
    k + 1 < |path| && path[k].parent.kind == ExpressionStatement
    && (path[k + 1].parent.kind == Program || path[k + 1].parent.kind == BlockStatement)
    && path[k + 1].slot.Statement? && path[k + 1].slot.index > 0
    && path[k + 1].previousLastToken != ";"
  }

  /** Every level below `k` is a left-hand side. */
  predicate LeftHandSidesBelow(path: seq<Frame>, k: nat)
  {
    k <= |path| && forall j :: 0 <= j < k ==> IsLeftHandSide(path[j])
  }

  /** The node starts an expression statement (climbing through left-hand
      sides only) that directly follows an unterminated statement. */
  ghost predicate MissingSemicolonBefore(path: seq<Frame>)
  {
    exists k: nat :: LeftHandSidesBelow(path, k) && StatementAfterUnterminated(path, k)
  }

  /** `isMissingSemicolonBefore`: climb while the node is a left-hand side,
      stopping with `true` at an expression statement that follows an
      unterminated statement. */
  method IsMissingSemicolonBefore(path: seq<Frame>) returns (r: bool)
    requires Rooted(path)
    ensures r <==> MissingSemicolonBefore(path)
  {
    var level := 0;
    while true
      invariant level < |path|
      invariant LeftHandSidesBelow(path, level)
      invariant forall j :: 0 <= j < level ==> !StatementAfterUnterminated(path, j)
      decreases |path| - level
    {
      var parent := path[level];
      if parent.parent.kind == ExpressionStatement {
        var block := path[level + 1];
        if block.parent.kind == Program || block.parent.kind == BlockStatement {
          if block.slot.Statement? && block.slot.index > 0 && block.previousLastToken != ";" {
            return true;
          }
        }
      }
      if !IsLeftHandSide(parent) {
        forall k: nat | LeftHandSidesBelow(path, k)
          ensures !StatementAfterUnterminated(path, k)
        {
          assert k <= level;
        }
        return false;
      }
      level := level + 1;
    }
  }

  /** The inner nodes in order: `node` itself when none are given, a single
      node as a one-element list. */
  function InnerNodeList(p: WrappingFixerParams): seq<Inner>
  {
    match p.innerNode
    case None => [Inner(p.node.head.kind, p.nodeText)]
    case Some(SingleNode(n)) => [n]
    case Some(NodeList(ns)) => ns
  }

  /** An inner node needs parentheses unless its precedence is strong, and an
      object literal that forms an arrow's concise body always does. */
  predicate InnerNeedsParens(node: Located, inner: Inner)
  {
    !IsStrongPrecedenceNode(inner.kind) || IsObjectExpressionInOneLineReturn(node, inner.kind)
  }

  function Parenthesize(code: string): (r: string)
    ensures |r| == |code| + 2 && r[0] == '(' && r[|r| - 1] == ')' && r[1..|r| - 1] == code
  {
    "(" + code + ")"
  }

  /** The text of one inner node as it goes into the replacement. */
  function InnerCode(node: Located, inner: Inner): string
  {
    if InnerNeedsParens(node, inner) then Parenthesize(inner.text) else inner.text
  }

  function InnerCodes(node: Located, inners: seq<Inner>): (codes: seq<string>)
    ensures |codes| == |inners|
    ensures forall i :: 0 <= i < |inners| ==> codes[i] == InnerCode(node, inners[i])
  {
    seq(|inners|, i requires 0 <= i < |inners| => InnerCode(node, inners[i]))
  }

  /** `Array.prototype.join('')`. */
  function Join(codes: seq<string>): string
  {
    if codes == [] then "" else codes[0] + Join(codes[1..])
  }

  /** `/^[`([]/`: text that would continue the previous line. */
  predicate StartsWithOpener(code: string)
  {
    |code| > 0 && (code[0] == '`' || code[0] == '(' || code[0] == '[')
  }

  /** The wrapped text after the outer-precedence check. */
  function OuterCode(p: WrappingFixerParams, wrapped: string): string
  {
    if IsWeakPrecedenceParent(p.node) && !p.parenthesized then Parenthesize(wrapped) else wrapped
  }

  /** The text the fixer writes in place of `p.node`. */
  ghost function ReplacementText(p: WrappingFixerParams): string
  {
    var codes := InnerCodes(p.node, InnerNodeList(p));
    if p.wrap.None? then Join(codes)
    else
      var outer := OuterCode(p, p.wrap.value(codes));
      if StartsWithOpener(outer) && MissingSemicolonBefore(p.node.path) then ";" + outer else outer
  }

  /** `getWrappingFixer`: the replacement text its fixer hands to
      `fixer.replaceText(node, ...)`. The node's parents are read without a
      check only when the wrapped text starts with an opener. */
  method GetWrappingFixer(p: WrappingFixerParams) returns (code: string)
    requires p.wrap.Some? && StartsWithOpener(OuterCode(p, p.wrap.value(InnerCodes(p.node, InnerNodeList(p)))))
             ==> Rooted(p.node.path)
    ensures code == ReplacementText(p)
  {
    var innerNodes := InnerNodeList(p);
    var innerCodes: seq<string> := [];
    var i := 0;
    while i < |innerNodes|
      invariant 0 <= i <= |innerNodes|
      invariant |innerCodes| == i
      invariant forall j :: 0 <= j < i ==> innerCodes[j] == InnerCode(p.node, innerNodes[j])
    {
      var inner := innerNodes[i];
      var c := inner.text;
      if !IsStrongPrecedenceNode(inner.kind) || IsObjectExpressionInOneLineReturn(p.node, inner.kind) {
        c := "(" + c + ")";
      }
      innerCodes := innerCodes + [c];
      i := i + 1;
    }
    assert innerCodes == InnerCodes(p.node, innerNodes);
    if p.wrap.None? {
      return Join(innerCodes);
    }
    code := p.wrap.value(innerCodes);
    if IsWeakPrecedenceParent(p.node) && !p.parenthesized {
      code := "(" + code + ")";
    }
    if StartsWithOpener(code) {
      var missing := IsMissingSemicolonBefore(p.node.path);
      if missing {
        code := ";" + code;
      }
    }
  }

  /** `getMovedNodeCode`: the text of `nodeToMove` for its new place under
      `destination`. */
  function GetMovedNodeCode(destination: Located, nodeToMove: Inner): (code: string)
    ensures code == nodeToMove.text || code == Parenthesize(nodeToMove.text)
    ensures code == Parenthesize(nodeToMove.text)
            <==> !IsStrongPrecedenceNode(nodeToMove.kind) && IsWeakPrecedenceParent(destination)
  {
    if IsStrongPrecedenceNode(nodeToMove.kind) then nodeToMove.text
    else if !IsWeakPrecedenceParent(destination) then nodeToMove.text
    else Parenthesize(nodeToMove.text)
  }

  // ----- What the replacement text promises -----

  /** An inner node's text is put in parentheses exactly when it needs them,
      and otherwise kept verbatim. */
  lemma InnerCodeParenthesizedIff(node: Located, inner: Inner)
    ensures InnerCode(node, inner) == Parenthesize(inner.text) <==> InnerNeedsParens(node, inner)
    ensures !InnerNeedsParens(node, inner) ==> InnerCode(node, inner) == inner.text
  {
    if !InnerNeedsParens(node, inner) {
      assert |InnerCode(node, inner)| != |Parenthesize(inner.text)|;
    }
  }

  /** A strong-precedence inner node keeps its bare text, except an object
      literal that is an arrow's concise body, which would otherwise read as
      a block. */
  lemma StrongInnerKeepsText(node: Located, inner: Inner)
    requires IsStrongPrecedenceNode(inner.kind)
    ensures InnerCode(node, inner) == inner.text <==> !IsObjectExpressionInOneLineReturn(node, inner.kind)
  {
    InnerCodeParenthesizedIff(node, inner);
  }

  /** Without `wrap` the replacement is the inner codes joined in order: no
      outer parentheses and no `;`. Its length is the texts' lengths plus two
      for every parenthesized inner node. */
  lemma UnwrappedIsConcatenation(p: WrappingFixerParams)
    requires p.wrap.None?
    ensures ReplacementText(p) == Join(InnerCodes(p.node, InnerNodeList(p)))
    ensures |ReplacementText(p)| == TextLength(InnerNodeList(p)) + 2 * ParenCount(p.node, InnerNodeList(p))
  {
    JoinLength(p.node, InnerNodeList(p));
  }

  function TextLength(inners: seq<Inner>): nat
  {
    if inners == [] then 0 else |inners[0].text| + TextLength(inners[1..])
  }

  function ParenCount(node: Located, inners: seq<Inner>): nat
  {
    if inners == [] then 0
    else (if InnerNeedsParens(node, inners[0]) then 1 else 0) + ParenCount(node, inners[1..])
  }

  lemma {:induction false} JoinLength(node: Located, inners: seq<Inner>)
    ensures |Join(InnerCodes(node, inners))| == TextLength(inners) + 2 * ParenCount(node, inners)
  {
    if inners != [] {
      JoinLength(node, inners[1..]);
      assert InnerCodes(node, inners)[1..] == InnerCodes(node, inners[1..]);
    }
  }

  /** When every inner node keeps its bare text, the unwrapped replacement is
      the concatenation of their texts. */
  lemma {:induction false} JoinOfBareTexts(node: Located, inners: seq<Inner>)
    requires forall i :: 0 <= i < |inners| ==> !InnerNeedsParens(node, inners[i])
    ensures Join(InnerCodes(node, inners)) == Join(seq(|inners|, i requires 0 <= i < |inners| => inners[i].text))
  {
    assert InnerCodes(node, inners) == seq(|inners|, i requires 0 <= i < |inners| => inners[i].text);
  }

  /** With `wrap`, the combined text gets outer parentheses exactly when
      `node` sits in a weak-precedence position and is not already
      parenthesized; at most one `;` precedes it. */
  lemma WrappedOuterParensIff(p: WrappingFixerParams)
    requires p.wrap.Some?
    ensures var outer := OuterCode(p, p.wrap.value(InnerCodes(p.node, InnerNodeList(p))));
            (ReplacementText(p) == outer || ReplacementText(p) == ";" + outer)
            && (outer == Parenthesize(p.wrap.value(InnerCodes(p.node, InnerNodeList(p))))
                <==> IsWeakPrecedenceParent(p.node) && !p.parenthesized)
  {
    var wrapped := p.wrap.value(InnerCodes(p.node, InnerNodeList(p)));
    if !(IsWeakPrecedenceParent(p.node) && !p.parenthesized) {
      assert |OuterCode(p, wrapped)| != |Parenthesize(wrapped)|;
    }
  }

  /** A `;` is put in front exactly when the text starts with a backtick,
      `(` or `[` and the node starts a statement after an unterminated one;
      the text after it then starts with that opener. */
  lemma LeadingSemicolonIff(p: WrappingFixerParams)
    requires p.wrap.Some?
    ensures var outer := OuterCode(p, p.wrap.value(InnerCodes(p.node, InnerNodeList(p))));
            (ReplacementText(p) == ";" + outer <==> StartsWithOpener(outer) && MissingSemicolonBefore(p.node.path))
            && (ReplacementText(p) == ";" + outer ==> StartsWithOpener(ReplacementText(p)[1..]))
  {
    var outer := OuterCode(p, p.wrap.value(InnerCodes(p.node, InnerNodeList(p))));
    if !(StartsWithOpener(outer) && MissingSemicolonBefore(p.node.path)) {
      assert |ReplacementText(p)| != |";" + outer|;
    } else {
      assert ReplacementText(p)[1..] == outer;
    }
  }

  /** `innerNode` defaults to `node`, and a single node behaves as a
      one-element list. */
  lemma InnerNodeDefaults(p: WrappingFixerParams, n: Inner)
    ensures ReplacementText(p.(innerNode := None))
            == ReplacementText(p.(innerNode := Some(SingleNode(Inner(p.node.head.kind, p.nodeText)))))
    ensures ReplacementText(p.(innerNode := Some(SingleNode(n))))
            == ReplacementText(p.(innerNode := Some(NodeList([n]))))
  {
    assert InnerNodeList(p.(innerNode := None))
           == InnerNodeList(p.(innerNode := Some(SingleNode(Inner(p.node.head.kind, p.nodeText)))));
    assert InnerNodeList(p.(innerNode := Some(SingleNode(n))))
           == InnerNodeList(p.(innerNode := Some(NodeList([n]))));
  }

  // ----- The two precedence classifications -----

  /** Weak-precedence positions, parent by parent: any operand of an update,
      unary, binary, logical, conditional or await; the object of a member
      access; the callee of a call or `new`; the tag of a tagged template;
      nothing at the root. */
  lemma WeakPrecedencePositions(node: Located)
    ensures node.path == [] ==> !IsWeakPrecedenceParent(node)
    ensures node.path != [] && node.path[0].parent.kind in
              {UpdateExpression, UnaryExpression, BinaryExpression, LogicalExpression, ConditionalExpression, AwaitExpression}
            ==> IsWeakPrecedenceParent(node)
    ensures node.path != [] && node.path[0].parent.kind == MemberExpression
            ==> (IsWeakPrecedenceParent(node) <==> node.path[0].slot == Object)
    ensures node.path != [] && node.path[0].parent.kind in {CallExpression, NewExpression}
            ==> (IsWeakPrecedenceParent(node) <==> node.path[0].slot == Callee)
    ensures node.path != [] && node.path[0].parent.kind == TaggedTemplateExpression
            ==> (IsWeakPrecedenceParent(node) <==> node.path[0].slot == Tag)
    ensures node.path != [] && node.path[0].parent.kind !in
              {UpdateExpression, UnaryExpression, BinaryExpression, LogicalExpression, ConditionalExpression,
               AwaitExpression, MemberExpression, CallExpression, NewExpression, TaggedTemplateExpression}
            ==> !IsWeakPrecedenceParent(node)
  {
  }

  /** Every left-hand-side position except the target of an assignment is a
      weak-precedence position. */
  lemma LeftHandSideIsWeakPrecedence(node: Located)
    requires node.path != [] && IsLeftHandSide(node.path[0])
    ensures IsWeakPrecedenceParent(node) <==> node.path[0].parent.kind != AssignmentExpression
  {
  }

  /** The climb stops at the first position that is neither a left-hand side
      nor an expression statement: a `new` callee, for one. */
  lemma ClimbStopsOutsideLeftHandSide(path: seq<Frame>)
    requires path != [] && !IsLeftHandSide(path[0]) && path[0].parent.kind != ExpressionStatement
    ensures !MissingSemicolonBefore(path)
  {
    forall k: nat | LeftHandSidesBelow(path, k)
      ensures !StatementAfterUnterminated(path, k)
    {
      assert k == 0;
    }
  }

  /** A node moved into a weak-precedence position gets exactly the
      parentheses the wrapping fixer would give it as an inner node. */
  lemma MovedNodeAgreesWithInnerCode(destination: Located, node: Located, moved: Inner)
    requires IsWeakPrecedenceParent(destination)
    requires !IsObjectExpressionInOneLineReturn(node, moved.kind)
    ensures GetMovedNodeCode(destination, moved) == InnerCode(node, moved)
  {
  }
}

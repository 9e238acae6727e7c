/** Locating the `this` at the root of a call/member/chain expression
    (`this.a.b()`, `this?.x`). */
module ThisExpression {
  import opened Syntax

  /** The node at which the downward walk stops: it descends through a call's
      `callee`, a member's `obj` and a chain's `expression`, and nothing else. */
  function SpineEnd(e: Expr): (r: Expr)
    ensures !r.Call? && !r.Member? && !r.Chain?
  {
    match e
    case Call(callee, _) => SpineEnd(callee)
    case Member(obj, _) => SpineEnd(obj)
    case Chain(x) => SpineEnd(x)
    case _ => e
  }

  /** What `getThisExpression` finds: the node where the walk stops, when that
      node is a `this`. */
  function LocateThis(e: Expr): (r: Option<Expr>)
  {
    if SpineEnd(e).This? then Some(SpineEnd(e)) else None
  }

  /** The search: step to the callee, object or inner expression until a
      `this` turns up or some other node ends the walk. */
  method GetThisExpression(node: Expr) returns (r: Option<Expr>)
    ensures r.Some? ==> r.value.This?
    ensures r == LocateThis(node)
  {
    var current := node;
    while true
      invariant SpineEnd(current) == SpineEnd(node)
      decreases current
    {
      if current.Call? {
        current := current.callee;
      } else if current.This? {
        return Some(current);
      } else if current.Member? {
        current := current.obj;
      } else if current.Chain? {
        current := current.expression;
      } else {
        break;
      }
    }
    return None;
  }

  /** Two expressions share a spine when they agree on every node the walk
      visits; call arguments and member properties may differ freely. */
  predicate SameSpine(a: Expr, b: Expr)
  {
    match a
    case Call(c, _) => b.Call? && SameSpine(c, b.callee)
    case Member(o, _) => b.Member? && SameSpine(o, b.obj)
    case Chain(x) => b.Chain? && SameSpine(x, b.expression)
    case _ => a == b
  }

  /** Call arguments and member properties are never inspected. */
  lemma {:induction false} ArgumentsAndPropertiesIgnored(a: Expr, b: Expr)
    requires SameSpine(a, b)
    ensures LocateThis(a) == LocateThis(b)
  {
    match a
    case Call(c, _) => ArgumentsAndPropertiesIgnored(c, b.callee);
    case Member(o, _) => ArgumentsAndPropertiesIgnored(o, b.obj);
    case Chain(x) => ArgumentsAndPropertiesIgnored(x, b.expression);
    case _ =>
  }

  /** The walk only ever moves to a strict sub-node: whatever it stops at is
      the node itself or lies strictly below it. */
  lemma {:induction false} SpineEndIsSubNode(e: Expr)
    ensures SpineEnd(e) == e || SpineEnd(e) < e
  {
    match e
    case Call(c, _) => SpineEndIsSubNode(c);
    case Member(o, _) => SpineEndIsSubNode(o);
    case Chain(x) => SpineEndIsSubNode(x);
    case _ =>
  }

  /** A `this` is found as itself, so locating again from the result gives
      the same result. */
  lemma LocateThisIdempotent(e: Expr)
    ensures LocateThis(This) == Some(This)
    ensures LocateThis(e).Some? ==> LocateThis(LocateThis(e).value) == LocateThis(e)
  {
  }

  /** Any tag outside call, member, chain and `this` ends the search with
      nothing found. */
  lemma OtherKindsFindNothing(e: Expr)
    requires KindOf(e) !in {CallExpression, MemberExpression, ChainExpression, ThisExpression}
    ensures LocateThis(e) == None
  {
  }
}

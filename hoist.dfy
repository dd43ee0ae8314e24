/**
  The node-building steps of `callVisitor` (src/index.js:52-102): the `.bind`
  call rewrite, the collection of the identifiers an arrow body references,
  and the hoisted function declaration with its replacement call.
 */
module Hoist {
  import opened Wrappers
  import opened Ast
  import opened Jsx
  import opened Seqs

  const HoistedFuncPrefix := "hoistedFunc"
  const BindRenderFuncPrefix := "bindRenderFunc"
  const MemoizePrefix := "memoize"

  /** A call whose callee is a member expression with the identifier `bind` as property. */
  predicate IsBindCall(n: Node) {
    n.CallExpression? && n.callee.MemberExpression? && n.callee.property == Identifier(Source("bind"))
  }

  /** `obj.bind(a1, ..., an)` becomes `binder(obj, a1, ..., an)`. */
  function BindReplacement(binder: Node, n: Node): Node
    requires IsBindCall(n)
  {
    CallExpression(binder, [n.callee.obj] + n.arguments)
  }

  /** The `.bind` call that a binder call stands for: its first argument is the bound function. */
  function Unbind(r: Node): Option<Node> {
    if r.CallExpression? && |r.arguments| >= 1 then
      Some(CallExpression(MemberExpression(r.arguments[0], Identifier(Source("bind")), false), r.arguments[1..]))
    else None
  }

  /**
    The rewrite keeps everything of the original call: the bound object first,
    then the original arguments in their order, n + 1 arguments in all; and for a
    non-computed `obj.bind` callee it can be undone.
   */
  lemma BindRoundTrip(binder: Node, n: Node)
    requires IsBindCall(n)
    ensures var r := BindReplacement(binder, n);
      && r.callee == binder
      && |r.arguments| == |n.arguments| + 1
      && r.arguments[0] == n.callee.obj
      && r.arguments[1..] == n.arguments
      && (!n.callee.computed ==> Unbind(r) == Some(n))
  {
    var r := BindReplacement(binder, n);
    assert r.arguments[1..] == n.arguments;
  }

  /** The `find` over the arrow's parameters succeeds: one is an identifier with this name (a pattern parameter has no name). */
  predicate NamedByParam(params: seq<Node>, x: Name) {
    params != [] && ((params[0].Identifier? && params[0].name == x) || NamedByParam(params[1..], x))
  }

  /** An identifier that the arrow's parameters do not name. */
  predicate IsCaptured(params: seq<Node>, n: Node) {
    n.Identifier? && !NamedByParam(params, n.name)
  }

  /** The captured identifiers of `n` and its descendants, in pre-order, duplicates kept. */
  function Captures(params: seq<Node>, n: Node): seq<Node>
    decreases Size(n), 1
  {
    ChildrenSmaller(n);
    (if IsCaptured(params, n) then [n] else []) + CapturesAll(params, Children(n))
  }

  function CapturesAll(params: seq<Node>, s: seq<Node>): seq<Node>
    decreases SizeAll(s), 2
  {
    if s == [] then []
    else
      SizeAllElement(s, 0);
      Captures(params, s[0]) + CapturesAll(params, s[1..])
  }

  /** The identifiers a traversal of the arrow body reports: its descendants, not the body node itself. */
  function ReferencedIdentifiers(params: seq<Node>, body: Node): seq<Node> {
    CapturesAll(params, Children(body))
  }

  lemma {:induction false} CapturesAllConcat(params: seq<Node>, a: seq<Node>, b: seq<Node>)
    ensures CapturesAll(params, a + b) == CapturesAll(params, a) + CapturesAll(params, b)
  {
    if a == [] {
      assert a + b == b;
    } else {
      assert (a + b)[0] == a[0];
      assert (a + b)[1..] == a[1..] + b;
      CapturesAllConcat(params, a[1..], b);
    }
  }

  lemma {:induction false} CapturesAllFree(params: seq<Node>, s: seq<Node>)
    decreases SizeAll(s)
    ensures forall x :: x in CapturesAll(params, s) ==> IsCaptured(params, x)
  {
    if s != [] {
      SizeAllElement(s, 0);
      SizeChildren(s[0]);
      SizeAllConcat(Children(s[0]), s[1..]);
      CapturesAllConcat(params, Children(s[0]), s[1..]);
      CapturesAllFree(params, Children(s[0]) + s[1..]);
    }
  }

  lemma {:induction false} CapturesSizeBound(params: seq<Node>, s: seq<Node>)
    decreases SizeAll(s)
    ensures |CapturesAll(params, s)| <= SizeAll(s)
  {
    if s != [] {
      SizeAllElement(s, 0);
      SizeChildren(s[0]);
      SizeAllConcat(Children(s[0]), s[1..]);
      CapturesAllConcat(params, Children(s[0]), s[1..]);
      CapturesSizeBound(params, Children(s[0]) + s[1..]);
    }
  }

  /** Every collected node is an identifier that no parameter of the arrow names. */
  lemma ReferencedAreFree(params: seq<Node>, body: Node)
    ensures forall x :: x in ReferencedIdentifiers(params, body) ==> x.Identifier? && !NamedByParam(params, x.name)
  {
    CapturesAllFree(params, Children(body));
  }

  /** `x` is one of the trees of the forest `s` or occurs inside one. */
  ghost predicate InForest(x: Node, s: seq<Node>) {
    exists i :: 0 <= i < |s| && (s[i] == x || IsDescendant(x, s[i]))
  }

  lemma InForestStepDown(x: Node, s: seq<Node>)
    requires s != [] && InForest(x, s) && x != s[0]
    ensures InForest(x, Children(s[0]) + s[1..])
  {
    var w := Children(s[0]) + s[1..];
    var i :| 0 <= i < |s| && (s[i] == x || IsDescendant(x, s[i]));
    if i == 0 {
      var j :| 0 <= j < |Children(s[0])| && (Children(s[0])[j] == x || IsDescendant(x, Children(s[0])[j]));
      assert w[j] == Children(s[0])[j];
    } else {
      assert w[i - 1 + |Children(s[0])|] == s[i];
    }
  }

  lemma InForestStepUp(x: Node, s: seq<Node>)
    requires s != [] && (x == s[0] || InForest(x, Children(s[0]) + s[1..]))
    ensures InForest(x, s)
  {
    var w := Children(s[0]) + s[1..];
    if x != s[0] {
      var j :| 0 <= j < |w| && (w[j] == x || IsDescendant(x, w[j]));
      if j < |Children(s[0])| {
        DescendantVia(x, s[0], j);
        assert s[0] == x || IsDescendant(x, s[0]);
      } else {
        assert w[j] == s[j - |Children(s[0])| + 1];
      }
    }
  }

  lemma {:induction false} CapturesMember(params: seq<Node>, s: seq<Node>, x: Node)
    decreases SizeAll(s)
    ensures x in CapturesAll(params, s) <==> IsCaptured(params, x) && InForest(x, s)
  {
    if s != [] {
      var w := Children(s[0]) + s[1..];
      CapturesStep(params, s);
      CapturesMember(params, w, x);
      if InForest(x, s) && x != s[0] {
        InForestStepDown(x, s);
      }
      if x == s[0] || InForest(x, w) {
        InForestStepUp(x, s);
      }
    }
  }

  /**
    Both directions: an identifier is collected exactly when it occurs strictly
    inside the arrow body and no parameter of the arrow has its name.
   */
  lemma ReferencedIffDescendant(params: seq<Node>, body: Node, x: Node)
    ensures x in ReferencedIdentifiers(params, body) <==> IsDescendant(x, body) && IsCaptured(params, x)
  {
    CapturesMember(params, Children(body), x);
    if InForest(x, Children(body)) {
      var i :| 0 <= i < |Children(body)| && (Children(body)[i] == x || IsDescendant(x, Children(body)[i]));
      DescendantVia(x, body, i);
    }
  }

  /** One step of the pre-order walk: visit the first node of the stack, then push its children. */
  lemma CapturesStep(params: seq<Node>, work: seq<Node>)
    requires work != []
    ensures CapturesAll(params, work)
      == (if IsCaptured(params, work[0]) then [work[0]] else []) + CapturesAll(params, Children(work[0]) + work[1..])
    ensures SizeAll(Children(work[0]) + work[1..]) < SizeAll(work)
  {
    CapturesAllConcat(params, Children(work[0]), work[1..]);
    SizeChildren(work[0]);
    SizeAllConcat(Children(work[0]), work[1..]);
  }

  /**
    The identifier collection of the arrow visitor: descendants of the body are
    visited in pre-order (an explicit stack stands for Babel's traversal), and
    every identifier whose name no parameter has is pushed.
   */
  method CollectReferencedIdentifiers(params: seq<Node>, body: Node) returns (referencedIdentifiers: seq<Node>)
    ensures referencedIdentifiers == ReferencedIdentifiers(params, body)
  {
    referencedIdentifiers := [];
    var work := Children(body);
    ghost var target := ReferencedIdentifiers(params, body);
    assert [] + CapturesAll(params, work) == target;
    while work != []
      invariant referencedIdentifiers + CapturesAll(params, work) == target
      decreases SizeAll(work)
    {
      var idNode := work[0];
      var rest := Children(idNode) + work[1..];
      ghost var own := if IsCaptured(params, idNode) then [idNode] else [];
      CapturesStep(params, work);
      Assoc(referencedIdentifiers, own, CapturesAll(params, rest));
      if idNode.Identifier? && !NamedByParam(params, idNode.name) {
        referencedIdentifiers := referencedIdentifiers + [idNode];
      } else {
        assert referencedIdentifiers + own == referencedIdentifiers;
      }
      work := rest;
    }
    assert referencedIdentifiers + [] == referencedIdentifiers;
  }

  /** A block body is reused; an expression body `e` becomes `{ return e; }`. */
  function HoistedBody(body: Node): Node {
    if body.BlockStatement? then body else BlockStatement([ReturnStatement(Some(body))])
  }

  /** The function declaration hoisted out of an arrow, and the binder call that replaces it. */
  datatype Hoisted = Hoisted(decl: Node, call: Node)

  function HoistArrow(binder: Node, arrow: Node, uid: nat): Hoisted
    requires arrow.ArrowFunctionExpression?
  {
    var hoistedFuncIdentifier := Identifier(Generated(HoistedFuncPrefix, uid));
    var refs := ReferencedIdentifiers(arrow.params, arrow.body);
    Hoisted(
      FunctionDeclaration(hoistedFuncIdentifier, refs + arrow.params, HoistedBody(arrow.body)),
      CallExpression(binder, [hoistedFuncIdentifier, ThisExpression] + refs))
  }

  /**
    The hoisted declaration and the replacement call line up: the call passes the
    hoisted function, `this`, then exactly the leading parameters of the
    declaration, which are free identifiers of the body; the remaining parameters
    are the arrow's own; the body is a block that is the arrow's block or returns
    the arrow's expression.
   */
  lemma HoistAligned(binder: Node, arrow: Node, uid: nat)
    requires arrow.ArrowFunctionExpression?
    ensures var h := HoistArrow(binder, arrow, uid);
      var k := |h.call.arguments| - 2;
      && h.decl.FunctionDeclaration? && h.call.CallExpression?
      && h.decl.id == Identifier(Generated(HoistedFuncPrefix, uid))
      && h.call.callee == binder
      && |h.call.arguments| >= 2
      && h.call.arguments[0] == h.decl.id
      && h.call.arguments[1] == ThisExpression
      && |h.decl.params| == k + |arrow.params|
      && h.decl.params[..k] == h.call.arguments[2..]
      && h.decl.params[k..] == arrow.params
      && (forall x :: x in h.call.arguments[2..] ==> x.Identifier? && !NamedByParam(arrow.params, x.name))
      && h.decl.body.BlockStatement?
      && (arrow.body.BlockStatement? ==> h.decl.body == arrow.body)
      && (!arrow.body.BlockStatement? ==> h.decl.body.stmts == [ReturnStatement(Some(arrow.body))])
  {
    var h := HoistArrow(binder, arrow, uid);
    var refs := ReferencedIdentifiers(arrow.params, arrow.body);
    assert h.call.arguments[2..] == refs;
    assert h.decl.params[..|refs|] == refs;
    assert h.decl.params[|refs|..] == arrow.params;
    ReferencedAreFree(arrow.params, arrow.body);
  }

  /** Identifiers weigh one each, so a captured list is no larger than the tree it came from. */
  lemma {:induction false} SizeAllIdentifiers(s: seq<Node>)
    requires forall x :: x in s ==> x.Identifier?
    ensures SizeAll(s) == |s|
  {
    if s != [] {
      assert s[0] in s;
      SizeAllIdentifiers(s[1..]);
    }
  }

  /** Replacing an arrow by its binder call never enlarges the tree. */
  lemma HoistCallSize(binder: Node, arrow: Node, uid: nat)
    requires arrow.ArrowFunctionExpression? && binder.Identifier?
    ensures Size(HoistArrow(binder, arrow, uid).call) <= Size(arrow)
  {
    var h := HoistArrow(binder, arrow, uid);
    var refs := ReferencedIdentifiers(arrow.params, arrow.body);
    var hid := Identifier(Generated(HoistedFuncPrefix, uid));
    ReferencedAreFree(arrow.params, arrow.body);
    SizeAllIdentifiers(refs);
    CapturesSizeBound(arrow.params, Children(arrow.body));
    SizeChildren(arrow.body);
    SizeAllConcat([hid, ThisExpression], refs);
    assert SizeAll([hid, ThisExpression]) == 2 by {
      assert [hid, ThisExpression][1..] == [ThisExpression];
      SizeAllSingle(ThisExpression);
    }
  }

  /** Capture keeps duplicates and property names: `(y) => x + x.x` captures `x`, `x`, `x`. */
  lemma CapturesDuplicatesAndProperties()
    ensures var x := Identifier(Source("x"));
      var arrow := ArrowFunctionExpression([Identifier(Source("y"))],
        Other("BinaryExpression", [x, MemberExpression(x, x, false)]));
      ReferencedIdentifiers(arrow.params, arrow.body) == [x, x, x]
  {
    var x := Identifier(Source("x"));
    var y := Identifier(Source("y"));
    var m := MemberExpression(x, x, false);
    assert !NamedByParam([y], x.name);
    assert Captures([y], x) == [x] by {
      assert CapturesAll([y], Children(x)) == [];
    }
    assert CapturesAll([y], [x]) == [x] by {
      assert [x][1..] == [];
    }
    assert Captures([y], m) == [x, x] by {
      assert Children(m) == [x] + [x];
      CapturesAllConcat([y], [x], [x]);
    }
    assert CapturesAll([y], [x, m]) == [x, x, x] by {
      assert [x, m] == [x] + [m];
      CapturesAllConcat([y], [x], [m]);
      assert [m][1..] == [];
    }
  }
}

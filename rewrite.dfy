/**
  The traversal of a render function with `callVisitor` (src/index.js:52-102,
  122), as a function of the tree: which nodes are replaced, which functions
  are hoisted and how many closure sites were rewritten.
 */
module Rewrite {
  import opened Wrappers
  import opened Ast
  import opened Hoist
  import opened Seqs

  /** A closure site: a `.bind` call or an arrow function. */
  predicate IsSite(n: Node) {
    IsBindCall(n) || n.ArrowFunctionExpression?
  }

  /** `n` or one of its descendants is a closure site. */
  ghost predicate HasSite(n: Node)
    decreases Size(n), 1
  {
    ChildrenSmaller(n);
    IsSite(n) || AnySite(Children(n))
  }

  ghost predicate AnySite(s: seq<Node>)
    decreases SizeAll(s), 2
  {
    if s == [] then false
    else
      SizeAllElement(s, 0);
      HasSite(s[0]) || AnySite(s[1..])
  }

  /** The rewritten node, the hoisted declarations in push order, and the number of rewrites. */
  datatype Visited = Visited(node: Node, hoisted: seq<Node>, sites: nat)
  datatype VisitedAll = VisitedAll(nodes: seq<Node>, hoisted: seq<Node>, sites: nat)

  lemma BindReplacementSmaller(binder: Node, n: Node)
    requires IsBindCall(n) && binder.Identifier?
    ensures Size(BindReplacement(binder, n)) < Size(n)
  {
    SizeAllConcat([n.callee.obj], n.arguments);
    SizeAllSingle(n.callee.obj);
  }

  /**
    `callVisitor` entering `n`: a `.bind` call is replaced and the traversal goes
    on into the replacement's children; an arrow is replaced by its binder call,
    whose children (identifiers and `this`) are not acted on; any other node is
    kept and its children are visited. `uid` is the next serial of the name supply.
   */
  function RewriteNode(binder: Node, n: Node, uid: nat): (r: Visited)
    requires binder.Identifier?
    decreases Size(n), 1
  {
    if IsBindCall(n) then
      var repl := BindReplacement(binder, n);
      BindReplacementSmaller(binder, n);
      ChildrenSmaller(repl);
      var inner := RewriteAll(binder, Children(repl), uid);
      Visited(WithChildren(repl, inner.nodes), inner.hoisted, inner.sites + 1)
    else if n.ArrowFunctionExpression? then
      var h := HoistArrow(binder, n, uid);
      Visited(h.call, [h.decl], 1)
    else
      ChildrenSmaller(n);
      var inner := RewriteAll(binder, Children(n), uid);
      Visited(WithChildren(n, inner.nodes), inner.hoisted, inner.sites)
  }

  /** `callVisitor` over a list of sibling nodes, left to right. */
  function RewriteAll(binder: Node, s: seq<Node>, uid: nat): (r: VisitedAll)
    requires binder.Identifier?
    decreases SizeAll(s), 2
    ensures |r.nodes| == |s|
  {
    if s == [] then VisitedAll([], [], 0)
    else
      SizeAllElement(s, 0);
      var h := RewriteNode(binder, s[0], uid);
      var t := RewriteAll(binder, s[1..], uid + |h.hoisted|);
      VisitedAll([h.node] + t.nodes, h.hoisted + t.hoisted, h.sites + t.sites)
  }

  /** The traversal Babel starts at a render function visits its descendants only. */
  function RewriteChildren(binder: Node, n: Node, uid: nat): (r: Visited)
    requires binder.Identifier?
  {
    var inner := RewriteAll(binder, Children(n), uid);
    Visited(WithChildren(n, inner.nodes), inner.hoisted, inner.sites)
  }

  // ---------------------------------------------------------------------------
  // Size: a rewrite never enlarges a tree.

  lemma {:induction false} RewriteNodeSize(binder: Node, n: Node, uid: nat)
    requires binder.Identifier?
    decreases Size(n), 1
    ensures Size(RewriteNode(binder, n, uid).node) <= Size(n)
  {
    if IsBindCall(n) {
      var repl := BindReplacement(binder, n);
      BindReplacementSmaller(binder, n);
      ChildrenSmaller(repl);
      RewriteAllSize(binder, Children(repl), uid);
      SizeChildren(repl);
      SizeWithChildren(repl, RewriteAll(binder, Children(repl), uid).nodes);
    } else if n.ArrowFunctionExpression? {
      HoistCallSize(binder, n, uid);
    } else {
      ChildrenSmaller(n);
      RewriteAllSize(binder, Children(n), uid);
      SizeChildren(n);
      SizeWithChildren(n, RewriteAll(binder, Children(n), uid).nodes);
    }
  }

  lemma {:induction false} RewriteAllSize(binder: Node, s: seq<Node>, uid: nat)
    requires binder.Identifier?
    decreases SizeAll(s), 2
    ensures SizeAll(RewriteAll(binder, s, uid).nodes) <= SizeAll(s)
  {
    if s != [] {
      SizeAllElement(s, 0);
      var h := RewriteNode(binder, s[0], uid);
      RewriteNodeSize(binder, s[0], uid);
      RewriteAllSize(binder, s[1..], uid + |h.hoisted|);
      var r := RewriteAll(binder, s, uid);
      assert r.nodes[0] == h.node;
      assert r.nodes[1..] == RewriteAll(binder, s[1..], uid + |h.hoisted|).nodes;
    }
  }

  lemma RewriteChildrenSize(binder: Node, n: Node, uid: nat)
    requires binder.Identifier?
    ensures Size(RewriteChildren(binder, n, uid).node) <= Size(n)
    ensures SameShape(n, RewriteChildren(binder, n, uid).node)
  {
    RewriteAllSize(binder, Children(n), uid);
    SizeChildren(n);
    SizeWithChildren(n, RewriteAll(binder, Children(n), uid).nodes);
  }

  // ---------------------------------------------------------------------------
  // Hoisted declarations: one per arrow, named by consecutive serials of the supply.

  /** The k-th hoisted declaration is a function declaration named by serial `uid + k`. */
  ghost predicate NamedFrom(hoisted: seq<Node>, uid: nat) {
    forall k :: 0 <= k < |hoisted| ==>
      hoisted[k].FunctionDeclaration? && hoisted[k].id == Identifier(Generated(HoistedFuncPrefix, uid + k))
  }

  lemma NamedFromConcat(a: seq<Node>, b: seq<Node>, uid: nat)
    requires NamedFrom(a, uid) && NamedFrom(b, uid + |a|)
    ensures NamedFrom(a + b, uid)
  {
    forall k | 0 <= k < |a + b|
      ensures (a + b)[k].FunctionDeclaration? && (a + b)[k].id == Identifier(Generated(HoistedFuncPrefix, uid + k))
    {
      if k >= |a| { assert (a + b)[k] == b[k - |a|]; }
    }
  }

  lemma {:induction false} RewriteNodeNames(binder: Node, n: Node, uid: nat)
    requires binder.Identifier?
    decreases Size(n), 1
    ensures NamedFrom(RewriteNode(binder, n, uid).hoisted, uid)
  {
    if IsBindCall(n) {
      var repl := BindReplacement(binder, n);
      BindReplacementSmaller(binder, n);
      ChildrenSmaller(repl);
      RewriteAllNames(binder, Children(repl), uid);
    } else if !n.ArrowFunctionExpression? {
      ChildrenSmaller(n);
      RewriteAllNames(binder, Children(n), uid);
    }
  }

  lemma {:induction false} RewriteAllNames(binder: Node, s: seq<Node>, uid: nat)
    requires binder.Identifier?
    decreases SizeAll(s), 2
    ensures NamedFrom(RewriteAll(binder, s, uid).hoisted, uid)
  {
    if s != [] {
      SizeAllElement(s, 0);
      var h := RewriteNode(binder, s[0], uid);
      RewriteNodeNames(binder, s[0], uid);
      RewriteAllNames(binder, s[1..], uid + |h.hoisted|);
      NamedFromConcat(h.hoisted, RewriteAll(binder, s[1..], uid + |h.hoisted|).hoisted, uid);
    }
  }

  /**
    Every hoisted declaration is a function declaration, and the names drawn for
    them are pairwise distinct.
   */
  lemma HoistedNamesDistinct(binder: Node, s: seq<Node>, uid: nat)
    requires binder.Identifier?
    ensures var h := RewriteAll(binder, s, uid).hoisted;
      && (forall k :: 0 <= k < |h| ==> h[k].FunctionDeclaration?)
      && (forall j, k :: 0 <= j < k < |h| ==> h[j].id != h[k].id)
  {
    RewriteAllNames(binder, s, uid);
  }

  // ---------------------------------------------------------------------------
  // Every hoisted function comes from a rewritten site.

  lemma {:induction false} RewriteNodeHoistedBound(binder: Node, n: Node, uid: nat)
    requires binder.Identifier?
    decreases Size(n), 1
    ensures |RewriteNode(binder, n, uid).hoisted| <= RewriteNode(binder, n, uid).sites
  {
    if IsBindCall(n) {
      var repl := BindReplacement(binder, n);
      BindReplacementSmaller(binder, n);
      ChildrenSmaller(repl);
      RewriteAllHoistedBound(binder, Children(repl), uid);
    } else if !n.ArrowFunctionExpression? {
      ChildrenSmaller(n);
      RewriteAllHoistedBound(binder, Children(n), uid);
    }
  }

  lemma {:induction false} RewriteAllHoistedBound(binder: Node, s: seq<Node>, uid: nat)
    requires binder.Identifier?
    decreases SizeAll(s), 2
    ensures |RewriteAll(binder, s, uid).hoisted| <= RewriteAll(binder, s, uid).sites
  {
    if s != [] {
      SizeAllElement(s, 0);
      var h := RewriteNode(binder, s[0], uid);
      RewriteNodeHoistedBound(binder, s[0], uid);
      RewriteAllHoistedBound(binder, s[1..], uid + |h.hoisted|);
    }
  }

  lemma RewriteChildrenHoistedBound(binder: Node, n: Node, uid: nat)
    requires binder.Identifier?
    ensures |RewriteChildren(binder, n, uid).hoisted| <= RewriteChildren(binder, n, uid).sites
  {
    RewriteAllHoistedBound(binder, Children(n), uid);
  }

  // ---------------------------------------------------------------------------
  // A tree without closure sites is left exactly as it is.

  lemma {:induction false} AnySiteAt(s: seq<Node>, i: nat)
    requires i < |s| && HasSite(s[i])
    ensures AnySite(s)
  {
    SizeAllElement(s, 0);
    if i > 0 { AnySiteAt(s[1..], i - 1); }
  }

  lemma {:induction false} RewriteNodeSiteFree(binder: Node, n: Node, uid: nat)
    requires binder.Identifier?
    decreases Size(n), 1
    ensures RewriteNode(binder, n, uid).sites == 0 <==> !HasSite(n)
    ensures !HasSite(n) ==> RewriteNode(binder, n, uid) == Visited(n, [], 0)
  {
    ChildrenSmaller(n);
    if !IsSite(n) {
      RewriteAllSiteFree(binder, Children(n), uid);
      WithOwnChildren(n);
    }
  }

  lemma {:induction false} RewriteAllSiteFree(binder: Node, s: seq<Node>, uid: nat)
    requires binder.Identifier?
    decreases SizeAll(s), 2
    ensures RewriteAll(binder, s, uid).sites == 0 <==> !AnySite(s)
    ensures !AnySite(s) ==> RewriteAll(binder, s, uid) == VisitedAll(s, [], 0)
  {
    if s != [] {
      SizeAllElement(s, 0);
      var h := RewriteNode(binder, s[0], uid);
      var tl := RewriteAll(binder, s[1..], uid + |h.hoisted|);
      assert RewriteAll(binder, s, uid) == VisitedAll([h.node] + tl.nodes, h.hoisted + tl.hoisted, h.sites + tl.sites);
      assert AnySite(s) == (HasSite(s[0]) || AnySite(s[1..]));
      RewriteNodeSiteFree(binder, s[0], uid);
      RewriteAllSiteFree(binder, s[1..], uid + |h.hoisted|);
      if !AnySite(s) {
        assert h == Visited(s[0], [], 0);
        assert tl == VisitedAll(s[1..], [], 0);
        assert [s[0]] + s[1..] == s;
        assert h.hoisted + tl.hoisted == [];
      }
    }
  }

  /** A render function without closure sites is not touched and nothing is hoisted from it. */
  lemma RewriteChildrenSiteFree(binder: Node, n: Node, uid: nat)
    requires binder.Identifier?
    ensures RewriteChildren(binder, n, uid).sites == 0 <==> !AnySite(Children(n))
    ensures RewriteChildren(binder, n, uid).sites == 0 ==> RewriteChildren(binder, n, uid) == Visited(n, [], 0)
  {
    RewriteAllSiteFree(binder, Children(n), uid);
    WithOwnChildren(n);
  }

  // ---------------------------------------------------------------------------
  // After the rewrite no closure site is left.

  lemma {:induction false} AnySiteNone(s: seq<Node>)
    requires forall x :: x in s ==> x.Identifier? || x.ThisExpression?
    ensures !AnySite(s)
  {
    if s != [] {
      assert s[0] in s;
      SizeAllElement(s, 0);
      assert !HasSite(s[0]) by {
        ChildrenSmaller(s[0]);
        assert Children(s[0]) == [];
      }
      AnySiteNone(s[1..]);
    }
  }

  /** A rewrite never turns an identifier into anything else. */
  lemma RewriteIdentifier(binder: Node, n: Node, uid: nat)
    requires binder.Identifier?
    ensures RewriteNode(binder, n, uid).node.Identifier? ==> RewriteNode(binder, n, uid).node == n
  {
    if !IsSite(n) {
      ChildrenSmaller(n);
    }
  }

  /** A site becomes a call; any other node keeps its shape and gets the rewritten children. */
  lemma RewriteNodeKind(binder: Node, n: Node, uid: nat)
    requires binder.Identifier?
    ensures var r := RewriteNode(binder, n, uid).node;
      && (IsSite(n) ==> r.CallExpression?)
      && (!IsSite(n) ==> r == WithChildren(n, RewriteAll(binder, Children(n), uid).nodes))
  {
  }

  /** A sibling walk starts with the rewrite of the first sibling and goes on from the serial it leaves. */
  lemma RewriteAllCons(binder: Node, s: seq<Node>, uid: nat)
    requires binder.Identifier? && |s| >= 1
    ensures var h := RewriteNode(binder, s[0], uid);
      var v := RewriteAll(binder, s, uid);
      && v.nodes[0] == h.node
      && v.nodes[1..] == RewriteAll(binder, s[1..], uid + |h.hoisted|).nodes
  {
    var h := RewriteNode(binder, s[0], uid);
    var tl := RewriteAll(binder, s[1..], uid + |h.hoisted|);
    assert RewriteAll(binder, s, uid) == VisitedAll([h.node] + tl.nodes, h.hoisted + tl.hoisted, h.sites + tl.sites);
    SplitConcat([h.node], tl.nodes);
  }

  /** The first two results of a sibling walk, each from the serial its left neighbours leave. */
  lemma RewriteAllHead(binder: Node, s: seq<Node>, uid: nat)
    requires binder.Identifier? && |s| >= 1
    ensures RewriteAll(binder, s, uid).nodes[0] == RewriteNode(binder, s[0], uid).node
    ensures |s| >= 2 ==> RewriteAll(binder, s, uid).nodes[1] == RewriteNode(binder, s[1], uid + |RewriteNode(binder, s[0], uid).hoisted|).node
  {
    RewriteAllCons(binder, s, uid);
    if |s| >= 2 {
      var uid1 := uid + |RewriteNode(binder, s[0], uid).hoisted|;
      RewriteAllCons(binder, s[1..], uid1);
      assert s[1..][0] == s[1];
    }
  }

  /** The callee of a call that is not a `.bind` call is rewritten in place. */
  lemma RewriteCallee(binder: Node, n: Node, uid: nat)
    requires binder.Identifier? && n.CallExpression? && !IsBindCall(n)
    ensures var r := RewriteNode(binder, n, uid).node;
      r.CallExpression? && r.callee == RewriteNode(binder, n.callee, uid).node
  {
    var r := RewriteNode(binder, n, uid).node;
    RewriteNodeKind(binder, n, uid);
    RewriteAllHead(binder, Children(n), uid);
  }

  /** A walk over two siblings rewrites the second from the serial the first leaves. */
  lemma RewriteAllPair(binder: Node, s: seq<Node>, uid: nat)
    requires binder.Identifier? && |s| == 2
    ensures var h := RewriteNode(binder, s[0], uid);
      RewriteAll(binder, s, uid).nodes == [h.node, RewriteNode(binder, s[1], uid + |h.hoisted|).node]
  {
    RewriteAllHead(binder, s, uid);
    var nodes := RewriteAll(binder, s, uid).nodes;
    assert nodes == [nodes[0], nodes[1]];
  }

  /** The property of a member expression is rewritten after its object. */
  lemma RewriteProperty(binder: Node, n: Node, uid: nat)
    requires binder.Identifier? && n.MemberExpression?
    ensures var r := RewriteNode(binder, n, uid).node;
      r.MemberExpression? && r.property == RewriteNode(binder, n.property, uid + |RewriteNode(binder, n.obj, uid).hoisted|).node
  {
    RewriteNodeKind(binder, n, uid);
    assert Children(n) == [n.obj, n.property];
    RewriteAllPair(binder, Children(n), uid);
  }

  /** A callee that is not a `.bind` member is not turned into one. */
  lemma RewriteKeepsNonBindCallee(binder: Node, c: Node, uid: nat)
    requires binder.Identifier? && !(c.MemberExpression? && c.property == Identifier(Source("bind")))
    ensures var rc := RewriteNode(binder, c, uid).node;
      !(rc.MemberExpression? && rc.property == Identifier(Source("bind")))
  {
    if c.MemberExpression? {
      RewriteKeepsNonBindProperty(binder, c, uid);
    } else {
      RewriteNodeKind(binder, c, uid);
    }
  }

  /** A member expression whose property is not `bind` keeps a property other than `bind`. */
  lemma RewriteKeepsNonBindProperty(binder: Node, c: Node, uid: nat)
    requires binder.Identifier? && c.MemberExpression? && c.property != Identifier(Source("bind"))
    ensures RewriteNode(binder, c, uid).node.property != Identifier(Source("bind"))
  {
    RewriteProperty(binder, c, uid);
    RewriteIdentifier(binder, c.property, uid + |RewriteNode(binder, c.obj, uid).hoisted|);
  }

  /** A node that is neither a site nor made one by the rewrite of its children. */
  lemma RewriteKeepsNonBind(binder: Node, n: Node, uid: nat)
    requires binder.Identifier? && !IsSite(n)
    ensures !IsSite(RewriteNode(binder, n, uid).node)
  {
    if n.CallExpression? {
      RewriteCallee(binder, n, uid);
      RewriteKeepsNonBindCallee(binder, n.callee, uid);
    } else {
      RewriteNodeKind(binder, n, uid);
    }
  }

  lemma {:induction false} RewriteNodeNoSites(binder: Node, n: Node, uid: nat)
    requires binder.Identifier?
    decreases Size(n), 1
    ensures !HasSite(RewriteNode(binder, n, uid).node)
  {
    var r := RewriteNode(binder, n, uid);
    if IsBindCall(n) {
      var repl := BindReplacement(binder, n);
      BindReplacementSmaller(binder, n);
      ChildrenSmaller(repl);
      var inner := RewriteAll(binder, Children(repl), uid);
      RewriteAllNoSites(binder, Children(repl), uid);
      RewriteNodeSiteFree(binder, binder, uid);
      assert RewriteNode(binder, binder, uid).node == binder by {
        assert !HasSite(binder) by { ChildrenSmaller(binder); }
      }
      assert r.node.callee == inner.nodes[0] == binder;
      ChildrenSmaller(r.node);
    } else if n.ArrowFunctionExpression? {
      var refs := ReferencedIdentifiers(n.params, n.body);
      ReferencedAreFree(n.params, n.body);
      var hid := Identifier(Generated(HoistedFuncPrefix, uid));
      assert Children(r.node) == [binder, hid, ThisExpression] + refs;
      AnySiteNone(Children(r.node));
      ChildrenSmaller(r.node);
    } else {
      ChildrenSmaller(n);
      RewriteAllNoSites(binder, Children(n), uid);
      RewriteKeepsNonBind(binder, n, uid);
      ChildrenSmaller(r.node);
    }
  }

  lemma {:induction false} RewriteAllNoSites(binder: Node, s: seq<Node>, uid: nat)
    requires binder.Identifier?
    decreases SizeAll(s), 2
    ensures !AnySite(RewriteAll(binder, s, uid).nodes)
  {
    if s != [] {
      SizeAllElement(s, 0);
      var h := RewriteNode(binder, s[0], uid);
      var t := RewriteAll(binder, s[1..], uid + |h.hoisted|);
      RewriteNodeNoSites(binder, s[0], uid);
      RewriteAllNoSites(binder, s[1..], uid + |h.hoisted|);
      var nodes := RewriteAll(binder, s, uid).nodes;
      assert nodes[0] == h.node && nodes[1..] == t.nodes;
      SizeAllElement(nodes, 0);
    }
  }

  /**
    No `.bind` call and no arrow function is left below a rewritten render
    function, so a second traversal rewrites nothing: the rewrite is idempotent.
   */
  lemma RewriteIdempotent(binder: Node, n: Node, uid: nat, uid2: nat)
    requires binder.Identifier?
    ensures var r := RewriteChildren(binder, n, uid).node;
      && !AnySite(Children(r))
      && RewriteChildren(binder, r, uid2) == Visited(r, [], 0)
  {
    var r := RewriteChildren(binder, n, uid).node;
    RewriteAllNoSites(binder, Children(n), uid);
    RewriteChildrenSiteFree(binder, r, uid2);
  }
}

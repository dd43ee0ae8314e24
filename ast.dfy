/**
  The closed subset of the Babel AST that the binding transform reads and builds.

  Node kinds the transform does not distinguish (expression statements, class
  bodies, variable declarations, literals, ...) are `Other(kind, children)`.
  Children are listed in Babel's visitor-key order, so a pre-order walk over
  `Children` visits nodes in the order Babel's traversal does.
 */
module Ast {
  import opened Wrappers
  import opened Seqs

  /** An identifier name: one written in the module, or one drawn from the fresh-name supply. */
  datatype Name = Source(text: string) | Generated(prefix: string, serial: nat)

  datatype Node =
    | JSXElement(children: seq<Node>)
    | CallExpression(callee: Node, arguments: seq<Node>)
    | MemberExpression(obj: Node, property: Node, computed: bool)
    | Identifier(name: Name)
    | ThisExpression
    | ArrowFunctionExpression(params: seq<Node>, body: Node)
    | FunctionExpression(exprId: Option<Node>, params: seq<Node>, body: Node)
    | FunctionDeclaration(id: Node, params: seq<Node>, body: Node)
    | ClassMethod(key: Node, params: seq<Node>, body: Node)
    | BlockStatement(stmts: seq<Node>)
    | ReturnStatement(argument: Option<Node>)
      /** `const binder = memoize(cacheSize)(function (func, context, ...args) { ... })`, built from a template */
    | BinderDeclaration(binder: Node, memoize: Node, cacheSize: nat)
      /** `const local = require(source)`, built from a template */
    | ImportDeclaration(local: Node, source: string)
    | Other(kind: string, children: seq<Node>)

  function OptList(o: Option<Node>): seq<Node> {
    match o
    case None => []
    case Some(v) => [v]
  }

  /** The child nodes a Babel traversal visits, in visiting order. */
  function Children(n: Node): seq<Node> {
    match n
    case JSXElement(cs) => cs
    case CallExpression(c, args) => [c] + args
    case MemberExpression(o, p, _) => [o, p]
    case Identifier(_) => []
    case ThisExpression => []
    case ArrowFunctionExpression(ps, b) => ps + [b]
    case FunctionExpression(i, ps, b) => OptList(i) + ps + [b]
    case FunctionDeclaration(i, ps, b) => [i] + ps + [b]
    case ClassMethod(k, ps, b) => [k] + ps + [b]
    case BlockStatement(ss) => ss
    case ReturnStatement(a) => OptList(a)
    case BinderDeclaration(_, _, _) => []
    case ImportDeclaration(_, _) => []
    case Other(_, cs) => cs
  }

  /** Same constructor, and for the leaf-carried data (names, flags, literals) the same values. */
  predicate SameShape(n: Node, m: Node) {
    match n
    case JSXElement(_) => m.JSXElement?
    case CallExpression(_, args) => m.CallExpression? && |m.arguments| == |args|
    case MemberExpression(_, _, c) => m.MemberExpression? && m.computed == c
    case Identifier(x) => m == n
    case ThisExpression => m == n
    case ArrowFunctionExpression(ps, _) => m.ArrowFunctionExpression? && |m.params| == |ps|
    case FunctionExpression(i, ps, _) => m.FunctionExpression? && m.exprId.Some? == i.Some? && |m.params| == |ps|
    case FunctionDeclaration(_, ps, _) => m.FunctionDeclaration? && |m.params| == |ps|
    case ClassMethod(_, ps, _) => m.ClassMethod? && |m.params| == |ps|
    case BlockStatement(_) => m.BlockStatement?
    case ReturnStatement(a) => m.ReturnStatement? && m.argument.Some? == a.Some?
    case BinderDeclaration(_, _, _) => m == n
    case ImportDeclaration(_, _) => m == n
    case Other(k, _) => m.Other? && m.kind == k
  }

  /** `n` with its children replaced, in visiting order, by `cs`. */
  function WithChildren(n: Node, cs: seq<Node>): (r: Node)
    requires |cs| == |Children(n)|
    ensures SameShape(n, r) && Children(r) == cs
  {
    match n
    case JSXElement(_) => JSXElement(cs)
    case CallExpression(_, args) =>
      SplitThree(cs, 0, |cs| - 1);
      CallExpression(cs[0], cs[1..])
    case MemberExpression(_, _, c) => MemberExpression(cs[0], cs[1], c)
    case Identifier(_) => n
    case ThisExpression => n
    case ArrowFunctionExpression(ps, _) =>
      SplitThree(cs, 0, |ps|);
      ArrowFunctionExpression(cs[..|ps|], cs[|ps|])
    case FunctionExpression(i, ps, _) =>
      var k := |OptList(i)|;
      SplitThree(cs, k, |ps|);
      FunctionExpression(if i.Some? then Some(cs[0]) else None, cs[k..k + |ps|], cs[k + |ps|])
    case FunctionDeclaration(_, ps, _) =>
      SplitThree(cs, 1, |ps|);
      FunctionDeclaration(cs[0], cs[1..1 + |ps|], cs[1 + |ps|])
    case ClassMethod(_, ps, _) =>
      SplitThree(cs, 1, |ps|);
      ClassMethod(cs[0], cs[1..1 + |ps|], cs[1 + |ps|])
    case BlockStatement(_) => BlockStatement(cs)
    case ReturnStatement(a) => if a.Some? then ReturnStatement(Some(cs[0])) else n
    case BinderDeclaration(_, _, _) => n
    case ImportDeclaration(_, _) => n
    case Other(k, _) => Other(k, cs)
  }

  lemma WithOwnChildren(n: Node)
    ensures WithChildren(n, Children(n)) == n
  {
  }

  /** A measure for termination. An arrow weighs 3 so that hoisting it never enlarges the tree. */
  function Size(n: Node): (r: nat)
    ensures r >= 1
  {
    match n
    case JSXElement(cs) => 1 + SizeAll(cs)
    case CallExpression(c, args) => 1 + Size(c) + SizeAll(args)
    case MemberExpression(o, p, _) => 1 + Size(o) + Size(p)
    case Identifier(_) => 1
    case ThisExpression => 1
    case ArrowFunctionExpression(ps, b) => 3 + SizeAll(ps) + Size(b)
    case FunctionExpression(i, ps, b) => 1 + SizeOpt(i) + SizeAll(ps) + Size(b)
    case FunctionDeclaration(i, ps, b) => 1 + Size(i) + SizeAll(ps) + Size(b)
    case ClassMethod(k, ps, b) => 1 + Size(k) + SizeAll(ps) + Size(b)
    case BlockStatement(ss) => 1 + SizeAll(ss)
    case ReturnStatement(a) => 1 + SizeOpt(a)
    case BinderDeclaration(_, _, _) => 1
    case ImportDeclaration(_, _) => 1
    case Other(_, cs) => 1 + SizeAll(cs)
  }

  function SizeAll(s: seq<Node>): nat {
    if s == [] then 0 else Size(s[0]) + SizeAll(s[1..])
  }

  function SizeOpt(o: Option<Node>): nat {
    match o
    case None => 0
    case Some(v) => Size(v)
  }

  /** The weight a node adds on top of its children. */
  function OwnWeight(n: Node): nat {
    if n.ArrowFunctionExpression? then 3 else 1
  }

  lemma {:induction false} SizeAllConcat(a: seq<Node>, b: seq<Node>)
    ensures SizeAll(a + b) == SizeAll(a) + SizeAll(b)
  {
    if a == [] {
      assert a + b == b;
    } else {
      assert (a + b)[0] == a[0];
      assert (a + b)[1..] == a[1..] + b;
      SizeAllConcat(a[1..], b);
    }
  }

  lemma SizeAllSingle(x: Node)
    ensures SizeAll([x]) == Size(x)
  {
    assert [x][1..] == [];
  }

  lemma SizeOptList(o: Option<Node>)
    ensures SizeAll(OptList(o)) == SizeOpt(o)
  {
    if o.Some? { SizeAllSingle(o.value); }
  }

  /** A node's size is its own weight plus the sizes of the children a traversal visits. */
  lemma SizeChildren(n: Node)
    ensures Size(n) == OwnWeight(n) + SizeAll(Children(n))
  {
    match n
    case CallExpression(c, args) =>
      SizeAllConcat([c], args); SizeAllSingle(c);
    case MemberExpression(o, p, _) =>
      SizeAllConcat([o], [p]); SizeAllSingle(o); SizeAllSingle(p);
    case ArrowFunctionExpression(ps, b) =>
      SizeAllConcat(ps, [b]); SizeAllSingle(b);
    case FunctionExpression(i, ps, b) =>
      SizeAllConcat(OptList(i) + ps, [b]); SizeAllConcat(OptList(i), ps);
      SizeAllSingle(b); SizeOptList(i);
    case FunctionDeclaration(i, ps, b) =>
      SizeAllConcat([i] + ps, [b]); SizeAllConcat([i], ps);
      SizeAllSingle(b); SizeAllSingle(i);
    case ClassMethod(k, ps, b) =>
      SizeAllConcat([k] + ps, [b]); SizeAllConcat([k], ps);
      SizeAllSingle(b); SizeAllSingle(k);
    case ReturnStatement(a) =>
      SizeOptList(a);
    case _ =>
  }

  lemma {:induction false} SizeAllElement(s: seq<Node>, i: nat)
    requires i < |s|
    ensures Size(s[i]) <= SizeAll(s)
  {
    if i > 0 { SizeAllElement(s[1..], i - 1); }
  }

  /** The children of a node are together smaller than the node. */
  lemma ChildrenSmaller(n: Node)
    ensures SizeAll(Children(n)) < Size(n)
  {
    SizeChildren(n);
  }

  /** Every child is strictly smaller than its parent. */
  lemma EachChildSmaller(n: Node)
    ensures forall i :: 0 <= i < |Children(n)| ==> Size(Children(n)[i]) < Size(n)
  {
    ChildrenSmaller(n);
    forall i | 0 <= i < |Children(n)| ensures Size(Children(n)[i]) < Size(n) {
      SizeAllElement(Children(n), i);
    }
  }

  lemma SizeWithChildren(n: Node, cs: seq<Node>)
    requires |cs| == |Children(n)|
    ensures Size(WithChildren(n, cs)) == OwnWeight(n) + SizeAll(cs)
  {
    SizeChildren(WithChildren(n, cs));
  }
}

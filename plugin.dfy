/**
  The plugin's visitors and module state (src/index.js:10-180): detection of
  render functions, `traverseRenderFunc` with its insertion bookkeeping, and
  the `Program` visitor that adds the memoize import.

  The first half states, as functions of the input tree, what one pass over a
  module computes; the class `BindingPlugin` holds the mutable state the source
  keeps in closure variables and is proved to follow those functions.
 */
module Plugin {
  import opened Wrappers
  import opened Ast
  import opened Jsx
  import opened Hoist
  import opened Rewrite
  import opened Seqs

  const DefaultCacheSize: nat := 500
  const DefaultMemoizeModule := "lru-memoize"

  /**
    The tests of `renderMethodVisitor`: a class method keyed by the identifier
    `render`, or any arrow function, function declaration or function
    expression, that contains JSX.
   */
  ghost predicate IsRenderFunction(n: Node) {
    && (n.ClassMethod? || n.ArrowFunctionExpression? || n.FunctionDeclaration? || n.FunctionExpression?)
    && (n.ClassMethod? ==> n.key == Identifier(Source("render")))
    && HasJSX(n)
  }

  /** What visiting one node (or one list of siblings) did: the new tree, the statements inserted before the enclosing top-level statement, the next serial, and whether a rewrite happened. */
  datatype Pass = Pass(node: Node, inserted: seq<Node>, uid: nat, rewrote: bool)
  datatype PassAll = PassAll(nodes: seq<Node>, inserted: seq<Node>, uid: nat, rewrote: bool)
  datatype ProgramPass = ProgramPass(body: seq<Node>, uid: nat, rewrote: bool)

  /**
    `traverseRenderFunc` once the insertion point is known: draw the binder name,
    rewrite the descendants of `fn`, and if anything was rewritten insert the
    binder declaration followed by the hoisted functions.
   */
  ghost function RenderPass(cacheSize: nat, memo: Node, fn: Node, uid: nat): Pass {
    var binder := Identifier(Generated(BindRenderFuncPrefix, uid));
    var rw := RewriteChildren(binder, fn, uid + 1);
    Pass(rw.node,
      if rw.sites > 0 then [BinderDeclaration(binder, memo, cacheSize)] + rw.hoisted else [],
      uid + 1 + |rw.hoisted|,
      rw.sites > 0)
  }

  function PrependAll(nodes: seq<Node>, inserted: seq<Node>, rewrote: bool, r: Option<PassAll>): Option<PassAll> {
    match r
    case None => None
    case Some(w) => Some(PassAll(nodes + w.nodes, inserted + w.inserted, w.uid, rewrote || w.rewrote))
  }

  /**
    `renderMethodVisitor` entering `n` at `depth` edges below the program: a
    render function is handed to `traverseRenderFunc` (which fails when the
    function is a direct child of the program), and the walk then goes on into
    the children of the node as it is afterwards. `None` is the thrown error.
   */
  ghost function DetectNode(cacheSize: nat, memo: Node, n: Node, depth: nat, uid: nat): (r: Option<Pass>)
    decreases Size(n), 1
  {
    if IsRenderFunction(n) && depth < 2 then None
    else
      var t := Enter(cacheSize, memo, n, uid);
      ChildrenSmaller(t.node);
      match DetectAll(cacheSize, memo, Children(t.node), depth + 1, t.uid)
      case None => None
      case Some(w) =>
        Some(Pass(WithChildren(t.node, w.nodes), t.inserted + w.inserted, w.uid, t.rewrote || w.rewrote))
  }

  /** What `renderMethodVisitor` does on entering `n`, leaving aside the failure of the parent walk. */
  ghost function Enter(cacheSize: nat, memo: Node, n: Node, uid: nat): (t: Pass)
    ensures Size(t.node) <= Size(n)
  {
    if IsRenderFunction(n) then
      RewriteChildrenSize(Identifier(Generated(BindRenderFuncPrefix, uid)), n, uid + 1);
      RenderPass(cacheSize, memo, n, uid)
    else Pass(n, [], uid, false)
  }

  ghost function DetectAll(cacheSize: nat, memo: Node, s: seq<Node>, depth: nat, uid: nat): (r: Option<PassAll>)
    decreases SizeAll(s), 2
    ensures r.Some? ==> |r.value.nodes| == |s|
  {
    if s == [] then Some(PassAll([], [], uid, false))
    else
      SizeAllElement(s, 0);
      match DetectNode(cacheSize, memo, s[0], depth, uid)
      case None => None
      case Some(h) => PrependAll([h.node], h.inserted, h.rewrote, DetectAll(cacheSize, memo, s[1..], depth, h.uid))
  }

  /** One step of `DetectNode`, stated with `Enter` and `DetectAll` kept folded. */
  lemma DetectNodeUnfold(cacheSize: nat, memo: Node, n: Node, depth: nat, uid: nat)
    ensures var t := Enter(cacheSize, memo, n, uid);
      var d := DetectAll(cacheSize, memo, Children(t.node), depth + 1, t.uid);
      var r := DetectNode(cacheSize, memo, n, depth, uid);
      && (IsRenderFunction(n) && depth < 2 ==> r.None?)
      && (!(IsRenderFunction(n) && depth < 2) ==>
        && (d.None? ==> r.None?)
        && (d.Some? ==> r == Some(Pass(WithChildren(t.node, d.value.nodes), t.inserted + d.value.inserted, d.value.uid, t.rewrote || d.value.rewrote))))
  {
  }

  function PrependProgram(stmts: seq<Node>, rewrote: bool, r: Option<ProgramPass>): Option<ProgramPass> {
    match r
    case None => None
    case Some(p) => Some(ProgramPass(stmts + p.body, p.uid, rewrote || p.rewrote))
  }

  lemma PrependAllEmpty(r: Option<PassAll>)
    ensures PrependAll([], [], false, r) == r
  {
    if r.Some? {
      assert [] + r.value.nodes == r.value.nodes;
      assert [] + r.value.inserted == r.value.inserted;
    }
  }

  lemma PrependAllTwice(a: seq<Node>, ia: seq<Node>, ra: bool, b: seq<Node>, ib: seq<Node>, rb: bool, r: Option<PassAll>)
    ensures PrependAll(a, ia, ra, PrependAll(b, ib, rb, r)) == PrependAll(a + b, ia + ib, ra || rb, r)
  {
    if r.Some? {
      assert a + (b + r.value.nodes) == (a + b) + r.value.nodes;
      assert ia + (ib + r.value.inserted) == (ia + ib) + r.value.inserted;
    }
  }

  lemma PrependProgramEmpty(r: Option<ProgramPass>)
    ensures PrependProgram([], false, r) == r
  {
    if r.Some? {
      assert [] + r.value.body == r.value.body;
    }
  }

  lemma PrependProgramTwice(a: seq<Node>, ra: bool, b: seq<Node>, rb: bool, r: Option<ProgramPass>)
    ensures PrependProgram(a, ra, PrependProgram(b, rb, r)) == PrependProgram(a + b, ra || rb, r)
  {
    if r.Some? {
      assert a + (b + r.value.body) == (a + b) + r.value.body;
    }
  }

  /** The walk over the top-level statements: each one is preceded by what was inserted while it was walked. */
  ghost function DetectProgram(cacheSize: nat, memo: Node, stmts: seq<Node>, uid: nat): Option<ProgramPass> {
    if stmts == [] then Some(ProgramPass([], uid, false))
    else
      match DetectNode(cacheSize, memo, stmts[0], 1, uid)
      case None => None
      case Some(w) => PrependProgram(w.inserted + [w.node], w.rewrote, DetectProgram(cacheSize, memo, stmts[1..], w.uid))
  }

  /**
    The `Program` visitor: draw the memoize name, walk the module, then put the
    import first if the module flag is set. `moduleFlag` is the flag as the
    module finds it: the tracker lives in the plugin's closure, so a module
    that threw after a rewrite leaves it set for the next one. The `rewrote`
    of the result says whether the import was added.
   */
  ghost function Transform(cacheSize: nat, memoizeModule: string, body: seq<Node>, uid: nat, moduleFlag: bool): Option<ProgramPass> {
    var memo := Identifier(Generated(MemoizePrefix, uid));
    match DetectProgram(cacheSize, memo, body, uid + 1)
    case None => None
    case Some(p) =>
      var flag := moduleFlag || p.rewrote;
      Some(ProgramPass(if flag then [ImportDeclaration(memo, memoizeModule)] + p.body else p.body, p.uid, flag))
  }

  /** The module flag a walk of the top-level statements leaves, also when it throws: set by the statements walked before the failing one. */
  ghost function WalkFlag(cacheSize: nat, memo: Node, stmts: seq<Node>, uid: nat): bool {
    if stmts == [] then false
    else
      match DetectNode(cacheSize, memo, stmts[0], 1, uid)
      case None => false
      case Some(w) => w.rewrote || WalkFlag(cacheSize, memo, stmts[1..], w.uid)
  }

  // ---------------------------------------------------------------------------
  // Properties of one render function.

  /**
    After `traverseRenderFunc`: if something was rewritten, exactly the binder
    declaration and then the hoisted functions, in push order and with distinct
    names, are inserted, and no `.bind` call or arrow is left below the function;
    otherwise the function is untouched and nothing is inserted. The binder name
    is drawn either way.
   */
  lemma RenderPassShape(cacheSize: nat, memo: Node, fn: Node, uid: nat)
    ensures var t := RenderPass(cacheSize, memo, fn, uid);
      var binder := Identifier(Generated(BindRenderFuncPrefix, uid));
      var h := RewriteChildren(binder, fn, uid + 1).hoisted;
      && SameShape(fn, t.node)
      && t.uid == uid + 1 + |h|
      && !AnySite(Children(t.node))
      && (t.rewrote <==> AnySite(Children(fn)))
      && (t.rewrote ==> t.inserted == [BinderDeclaration(binder, memo, cacheSize)] + h)
      && (forall k :: 0 <= k < |h| ==> h[k].FunctionDeclaration?)
      && (forall j, k :: 0 <= j < k < |h| ==> h[j].id != h[k].id)
      && (!t.rewrote ==> t.inserted == [] && t.node == fn && h == [])
  {
    var binder := Identifier(Generated(BindRenderFuncPrefix, uid));
    RewriteChildrenSize(binder, fn, uid + 1);
    RewriteAllNoSites(binder, Children(fn), uid + 1);
    RewriteChildrenSiteFree(binder, fn, uid + 1);
    HoistedNamesDistinct(binder, Children(fn), uid + 1);
  }

  lemma EnterShape(cacheSize: nat, memo: Node, n: Node, uid: nat)
    ensures var t := Enter(cacheSize, memo, n, uid);
      && SameShape(n, t.node)
      && GeneratedDecls(t.inserted)
      && (!t.rewrote ==> t.node == n && t.inserted == [])
  {
    if IsRenderFunction(n) {
      RenderPassShape(cacheSize, memo, n, uid);
    }
  }

  // ---------------------------------------------------------------------------
  // The walk fails exactly on a render function that is a top-level statement.

  lemma {:induction false} DetectNodeDeep(cacheSize: nat, memo: Node, n: Node, depth: nat, uid: nat)
    requires depth >= 2
    decreases Size(n), 1
    ensures DetectNode(cacheSize, memo, n, depth, uid).Some?
  {
    var t := Enter(cacheSize, memo, n, uid);
    ChildrenSmaller(t.node);
    DetectAllDeep(cacheSize, memo, Children(t.node), depth + 1, t.uid);
  }

  lemma {:induction false} DetectAllDeep(cacheSize: nat, memo: Node, s: seq<Node>, depth: nat, uid: nat)
    requires depth >= 2
    decreases SizeAll(s), 2
    ensures DetectAll(cacheSize, memo, s, depth, uid).Some?
  {
    if s != [] {
      SizeAllElement(s, 0);
      DetectNodeDeep(cacheSize, memo, s[0], depth, uid);
      var h := DetectNode(cacheSize, memo, s[0], depth, uid).value;
      DetectAllDeep(cacheSize, memo, s[1..], depth, h.uid);
    }
  }

  lemma TopLevelFails(cacheSize: nat, memo: Node, n: Node, uid: nat)
    ensures DetectNode(cacheSize, memo, n, 1, uid).None? <==> IsRenderFunction(n)
  {
    if !IsRenderFunction(n) {
      ChildrenSmaller(n);
      DetectAllDeep(cacheSize, memo, Children(n), 2, uid);
    }
  }

  lemma {:induction false} DetectProgramFails(cacheSize: nat, memo: Node, stmts: seq<Node>, uid: nat)
    ensures DetectProgram(cacheSize, memo, stmts, uid).None? <==> exists i :: 0 <= i < |stmts| && IsRenderFunction(stmts[i])
  {
    if stmts != [] {
      TopLevelFails(cacheSize, memo, stmts[0], uid);
      var d := DetectNode(cacheSize, memo, stmts[0], 1, uid);
      if d.Some? {
        DetectProgramFails(cacheSize, memo, stmts[1..], d.value.uid);
        if exists i :: 0 <= i < |stmts[1..]| && IsRenderFunction(stmts[1..][i]) {
          var i :| 0 <= i < |stmts[1..]| && IsRenderFunction(stmts[1..][i]);
          assert IsRenderFunction(stmts[i + 1]);
        }
        if exists i :: 0 <= i < |stmts| && IsRenderFunction(stmts[i]) {
          var i :| 0 <= i < |stmts| && IsRenderFunction(stmts[i]);
          assert i != 0;
          assert IsRenderFunction(stmts[1..][i - 1]);
        }
      }
    }
  }

  /**
    The parent walk of `traverseRenderFunc` dereferences null for a render
    function that is a direct child of the program, so the transform throws
    exactly when some top-level statement is a render function.
   */
  lemma TransformFails(cacheSize: nat, memoizeModule: string, body: seq<Node>, uid: nat, moduleFlag: bool)
    ensures Transform(cacheSize, memoizeModule, body, uid, moduleFlag).None? <==>
      exists i :: 0 <= i < |body| && IsRenderFunction(body[i])
  {
    DetectProgramFails(cacheSize, Identifier(Generated(MemoizePrefix, uid)), body, uid + 1);
  }

  // ---------------------------------------------------------------------------
  // Without a rewrite nothing changes.

  lemma {:induction false} DetectNodeUnchanged(cacheSize: nat, memo: Node, n: Node, depth: nat, uid: nat)
    decreases Size(n), 1
    ensures var d := DetectNode(cacheSize, memo, n, depth, uid);
      d.Some? && !d.value.rewrote ==> d.value.node == n && d.value.inserted == []
  {
    var d := DetectNode(cacheSize, memo, n, depth, uid);
    if d.Some? && !d.value.rewrote {
      var t := Enter(cacheSize, memo, n, uid);
      EnterShape(cacheSize, memo, n, uid);
      ChildrenSmaller(t.node);
      DetectAllUnchanged(cacheSize, memo, Children(n), depth + 1, t.uid);
      WithOwnChildren(n);
    }
  }

  lemma {:induction false} DetectAllUnchanged(cacheSize: nat, memo: Node, s: seq<Node>, depth: nat, uid: nat)
    decreases SizeAll(s), 2
    ensures var d := DetectAll(cacheSize, memo, s, depth, uid);
      d.Some? && !d.value.rewrote ==> d.value.nodes == s && d.value.inserted == []
  {
    var d := DetectAll(cacheSize, memo, s, depth, uid);
    if s != [] && d.Some? && !d.value.rewrote {
      SizeAllElement(s, 0);
      DetectNodeUnchanged(cacheSize, memo, s[0], depth, uid);
      var h := DetectNode(cacheSize, memo, s[0], depth, uid).value;
      DetectAllUnchanged(cacheSize, memo, s[1..], depth, h.uid);
      assert s == [s[0]] + s[1..];
    }
  }

  lemma {:induction false} DetectProgramUnchanged(cacheSize: nat, memo: Node, stmts: seq<Node>, uid: nat)
    ensures var d := DetectProgram(cacheSize, memo, stmts, uid);
      d.Some? && !d.value.rewrote ==> d.value.body == stmts
  {
    var d := DetectProgram(cacheSize, memo, stmts, uid);
    if stmts != [] && d.Some? && !d.value.rewrote {
      DetectNodeUnchanged(cacheSize, memo, stmts[0], 1, uid);
      var w := DetectNode(cacheSize, memo, stmts[0], 1, uid).value;
      DetectProgramUnchanged(cacheSize, memo, stmts[1..], w.uid);
      assert stmts == [stmts[0]] + stmts[1..];
    }
  }

  /** A module that gets no import comes out exactly as it went in. */
  lemma TransformUnchanged(cacheSize: nat, memoizeModule: string, body: seq<Node>, uid: nat, moduleFlag: bool)
    ensures var t := Transform(cacheSize, memoizeModule, body, uid, moduleFlag);
      t.Some? && !t.value.rewrote ==> t.value.body == body
  {
    DetectProgramUnchanged(cacheSize, Identifier(Generated(MemoizePrefix, uid)), body, uid + 1);
  }

  // ---------------------------------------------------------------------------
  // A module without JSX: nothing is a render function, so nothing is rewritten.

  lemma {:induction false} DetectNodeNoJSX(cacheSize: nat, memo: Node, n: Node, depth: nat, uid: nat)
    requires !HasJSX(n)
    decreases Size(n), 1
    ensures DetectNode(cacheSize, memo, n, depth, uid) == Some(Pass(n, [], uid, false))
  {
    assert !IsRenderFunction(n);
    assert Enter(cacheSize, memo, n, uid) == Pass(n, [], uid, false);
    ChildrenSmaller(n);
    DetectAllNoJSX(cacheSize, memo, Children(n), depth + 1, uid);
    DetectNodeUnfold(cacheSize, memo, n, depth, uid);
    WithOwnChildren(n);
    var none: seq<Node> := [];
    assert none + none == none;
  }

  lemma {:induction false} DetectAllNoJSX(cacheSize: nat, memo: Node, s: seq<Node>, depth: nat, uid: nat)
    requires !AnyHasJSX(s)
    decreases SizeAll(s), 2
    ensures DetectAll(cacheSize, memo, s, depth, uid) == Some(PassAll(s, [], uid, false))
  {
    if s != [] {
      SizeAllElement(s, 0);
      DetectNodeNoJSX(cacheSize, memo, s[0], depth, uid);
      DetectAllNoJSX(cacheSize, memo, s[1..], depth, uid);
      assert DetectAll(cacheSize, memo, s, depth, uid) == PrependAll([s[0]], [], false, Some(PassAll(s[1..], [], uid, false)));
      assert [s[0]] + s[1..] == s;
    }
  }

  lemma {:induction false} DetectProgramNoJSX(cacheSize: nat, memo: Node, stmts: seq<Node>, uid: nat)
    requires !AnyHasJSX(stmts)
    ensures DetectProgram(cacheSize, memo, stmts, uid) == Some(ProgramPass(stmts, uid, false))
  {
    if stmts != [] {
      DetectNodeNoJSX(cacheSize, memo, stmts[0], 1, uid);
      DetectProgramNoJSX(cacheSize, memo, stmts[1..], uid);
      assert DetectProgram(cacheSize, memo, stmts, uid) == PrependProgram([] + [stmts[0]], false, Some(ProgramPass(stmts[1..], uid, false)));
      assert [] + [stmts[0]] + stmts[1..] == stmts;
    }
  }

  /**
    A module without JSX comes out as it went in, and gets the import exactly
    when the module flag was already set on entry: left over from an earlier
    module whose walk threw after a rewrite.
   */
  lemma TransformNoJSX(cacheSize: nat, memoizeModule: string, body: seq<Node>, uid: nat, moduleFlag: bool)
    requires forall i :: 0 <= i < |body| ==> !HasJSX(body[i])
    ensures var memo := Identifier(Generated(MemoizePrefix, uid));
      Transform(cacheSize, memoizeModule, body, uid, moduleFlag) ==
        Some(ProgramPass(if moduleFlag then [ImportDeclaration(memo, memoizeModule)] + body else body, uid + 1, moduleFlag))
  {
    AnyHasJSXAt(body);
    DetectProgramNoJSX(cacheSize, Identifier(Generated(MemoizePrefix, uid)), body, uid + 1);
  }

  // ---------------------------------------------------------------------------
  // The module flag a walk leaves behind.

  /** When the walk succeeds, the flag it leaves says whether it rewrote anything. */
  lemma {:induction false} WalkFlagAgrees(cacheSize: nat, memo: Node, stmts: seq<Node>, uid: nat)
    ensures var d := DetectProgram(cacheSize, memo, stmts, uid);
      d.Some? ==> WalkFlag(cacheSize, memo, stmts, uid) == d.value.rewrote
  {
    if stmts != [] {
      var w := DetectNode(cacheSize, memo, stmts[0], 1, uid);
      if w.Some? {
        WalkFlagAgrees(cacheSize, memo, stmts[1..], w.value.uid);
      }
    }
  }

  /**
    A module whose first statement is rewritten and whose second is a render
    function throws, and the flag stays set: the next module gets the import
    whether or not it needs one.
   */
  lemma FailedWalkLeavesFlag(cacheSize: nat, memo: Node, stmts: seq<Node>, uid: nat)
    requires |stmts| == 2 && IsRenderFunction(stmts[1])
    requires DetectNode(cacheSize, memo, stmts[0], 1, uid).Some? && DetectNode(cacheSize, memo, stmts[0], 1, uid).value.rewrote
    ensures DetectProgram(cacheSize, memo, stmts, uid).None?
    ensures WalkFlag(cacheSize, memo, stmts, uid)
  {
    DetectProgramFails(cacheSize, memo, stmts, uid);
  }

  // ---------------------------------------------------------------------------
  // Exactly one import, at index 0, when something was rewritten.

  function CountImports(s: seq<Node>): nat {
    if s == [] then 0 else (if s[0].ImportDeclaration? then 1 else 0) + CountImports(s[1..])
  }

  lemma {:induction false} CountImportsConcat(a: seq<Node>, b: seq<Node>)
    ensures CountImports(a + b) == CountImports(a) + CountImports(b)
  {
    if a == [] {
      assert a + b == b;
    } else {
      assert (a + b)[0] == a[0];
      assert (a + b)[1..] == a[1..] + b;
      CountImportsConcat(a[1..], b);
    }
  }

  /** Only function declarations and binder declarations are ever inserted. */
  ghost predicate GeneratedDecls(s: seq<Node>) {
    forall x :: x in s ==> x.FunctionDeclaration? || x.BinderDeclaration?
  }

  lemma {:induction false} CountImportsGenerated(s: seq<Node>)
    requires GeneratedDecls(s)
    ensures CountImports(s) == 0
  {
    if s != [] {
      assert s[0] in s;
      CountImportsGenerated(s[1..]);
    }
  }

  lemma {:induction false} DetectNodeInserts(cacheSize: nat, memo: Node, n: Node, depth: nat, uid: nat)
    decreases Size(n), 1
    ensures var d := DetectNode(cacheSize, memo, n, depth, uid);
      d.Some? ==> GeneratedDecls(d.value.inserted) && SameShape(n, d.value.node)
  {
    var d := DetectNode(cacheSize, memo, n, depth, uid);
    if d.Some? {
      var t := Enter(cacheSize, memo, n, uid);
      EnterShape(cacheSize, memo, n, uid);
      ChildrenSmaller(t.node);
      DetectAllInserts(cacheSize, memo, Children(t.node), depth + 1, t.uid);
    }
  }

  lemma {:induction false} DetectAllInserts(cacheSize: nat, memo: Node, s: seq<Node>, depth: nat, uid: nat)
    decreases SizeAll(s), 2
    ensures var d := DetectAll(cacheSize, memo, s, depth, uid);
      d.Some? ==> GeneratedDecls(d.value.inserted)
  {
    var d := DetectAll(cacheSize, memo, s, depth, uid);
    if s != [] && d.Some? {
      SizeAllElement(s, 0);
      DetectNodeInserts(cacheSize, memo, s[0], depth, uid);
      var h := DetectNode(cacheSize, memo, s[0], depth, uid).value;
      DetectAllInserts(cacheSize, memo, s[1..], depth, h.uid);
    }
  }

  lemma {:induction false} DetectProgramImports(cacheSize: nat, memo: Node, stmts: seq<Node>, uid: nat)
    ensures var d := DetectProgram(cacheSize, memo, stmts, uid);
      d.Some? ==> CountImports(d.value.body) == CountImports(stmts)
  {
    var d := DetectProgram(cacheSize, memo, stmts, uid);
    if stmts != [] && d.Some? {
      DetectNodeInserts(cacheSize, memo, stmts[0], 1, uid);
      var w := DetectNode(cacheSize, memo, stmts[0], 1, uid).value;
      var rest := DetectProgram(cacheSize, memo, stmts[1..], w.uid).value;
      DetectProgramImports(cacheSize, memo, stmts[1..], w.uid);
      CountImportsGenerated(w.inserted);
      CountImportsConcat(w.inserted, [w.node]);
      CountImportsConcat(w.inserted + [w.node], rest.body);
      assert CountImports([w.node]) == CountImports([stmts[0]]) by {
        assert [w.node][1..] == [] && [stmts[0]][1..] == [];
      }
      CountImportsConcat([stmts[0]], stmts[1..]);
      assert stmts == [stmts[0]] + stmts[1..];
    }
  }

  /**
    The `Program` visitor adds exactly one import statement, as statement 0,
    when the module flag is set at the end of the walk, and none otherwise.
   */
  lemma TransformImport(cacheSize: nat, memoizeModule: string, body: seq<Node>, uid: nat, moduleFlag: bool)
    ensures var t := Transform(cacheSize, memoizeModule, body, uid, moduleFlag);
      t.Some? ==>
        && CountImports(t.value.body) == CountImports(body) + (if t.value.rewrote then 1 else 0)
        && (t.value.rewrote ==> t.value.body[0] == ImportDeclaration(Identifier(Generated(MemoizePrefix, uid)), memoizeModule))
  {
    var memo := Identifier(Generated(MemoizePrefix, uid));
    DetectProgramImports(cacheSize, memo, body, uid + 1);
    var d := DetectProgram(cacheSize, memo, body, uid + 1);
    if d.Some? && (moduleFlag || d.value.rewrote) {
      CountImportsConcat([ImportDeclaration(memo, memoizeModule)], d.value.body);
      assert [ImportDeclaration(memo, memoizeModule)][1..] == [];
    }
  }

  // ---------------------------------------------------------------------------
  // The parent walk of `traverseRenderFunc`.

  /**
    The `while` loop of `traverseRenderFunc` on the chain of parent paths, given
    by depths below the program: start at the parent of the render function,
    which lies `depth` edges below the program, and go up until the parent of the
    current path is the program. The result is the depth of that path, the
    top-level statement. A render function that is itself a top-level statement
    has the program as its parent, whose parent is null: the walk dereferences
    null (`None`).
   */
  method FindInsertBefore(depth: nat) returns (insertBeforeDepth: Option<nat>)
    ensures depth >= 2 ==> insertBeforeDepth == Some(1)
    ensures depth < 2 ==> insertBeforeDepth == None
  {
    var current: int := depth - 1;
    while current != 1
      invariant current <= depth - 1
      invariant current >= 1 <==> depth >= 2
      decreases current + 1
    {
      if current <= 0 {
        return None;
      }
      current := current - 1;
    }
    return Some(current);
  }

  /** The tests of `renderMethodVisitor`, each with the JSX search of `containsReactElements`. */
  method IsRenderFunctionNode(n: Node) returns (isRender: bool)
    ensures isRender == IsRenderFunction(n)
  {
    HasJSXIffDescendant(n);
    if n.ClassMethod? {
      isRender := n.key == Identifier(Source("render"));
      if isRender {
        isRender := ContainsReactElements(n);
      }
    } else if n.ArrowFunctionExpression? || n.FunctionDeclaration? || n.FunctionExpression? {
      isRender := ContainsReactElements(n);
    } else {
      isRender := false;
    }
  }

  // ---------------------------------------------------------------------------
  // The plugin with its traversal trackers.

  /**
    The plugin instance, which outlives the modules it transforms. `body` is
    the statement list of the module being visited, edited in place;
    `methodHasBindCall`, `moduleHasBindCall` and `hoistedFuncs` are the
    traversal trackers of the plugin's closure; `nextUid` is the fresh-name
    supply; `cursor` is the key of the top-level statement the walk is in, which
    every insertion before it shifts by one.
   */
  class BindingPlugin {
    const cacheSize: nat
    const memoizeModule: string
    var body: seq<Node>
    var methodHasBindCall: bool
    var moduleHasBindCall: bool
    var hoistedFuncs: seq<Node>
    var nextUid: nat
    var cursor: nat
    var memoizeIdentifier: Node

    /** Between two render functions: no pending rewrite and nothing waiting to be inserted. */
    ghost predicate Idle()
      reads this
    {
      !methodHasBindCall && hoistedFuncs == []
    }

    /**
      The plugin factory: the trackers start clear. The module option defaults
      to `lru-memoize`. The cache size is always 500: the `ClassMethod` visitor
      reads it from the traversal state, which carries no plugin options.
     */
    constructor (memoizeModuleOption: Option<string>)
      ensures cacheSize == DefaultCacheSize
      ensures memoizeModule == (if memoizeModuleOption.Some? then memoizeModuleOption.value else DefaultMemoizeModule)
      ensures body == [] && nextUid == 0 && cursor == 0
      ensures Idle() && !moduleHasBindCall
    {
      cacheSize := DefaultCacheSize;
      memoizeModule := if memoizeModuleOption.Some? then memoizeModuleOption.value else DefaultMemoizeModule;
      body := [];
      methodHasBindCall := false;
      moduleHasBindCall := false;
      hoistedFuncs := [];
      nextUid := 0;
      cursor := 0;
      memoizeIdentifier := Identifier(Generated(MemoizePrefix, 0));
    }

    /** `generateUidIdentifier`: a name no other drawn name has. */
    method GenerateUidIdentifier(prefix: string) returns (id: Node)
      modifies this`nextUid
      ensures id == Identifier(Generated(prefix, old(nextUid)))
      ensures nextUid == old(nextUid) + 1
    {
      id := Identifier(Generated(prefix, nextUid));
      nextUid := nextUid + 1;
    }

    /** `callVisitor.CallExpression`: a `.bind` call sets both trackers and is replaced by a binder call. */
    method VisitCallExpression(binder: Node, n: Node) returns (r: Node)
      requires n.CallExpression?
      modifies this`methodHasBindCall, this`moduleHasBindCall
      ensures r == (if IsBindCall(n) then BindReplacement(binder, n) else n)
      ensures methodHasBindCall == (old(methodHasBindCall) || IsBindCall(n))
      ensures moduleHasBindCall == (old(moduleHasBindCall) || IsBindCall(n))
    {
      r := n;
      if n.callee.MemberExpression? && n.callee.property == Identifier(Source("bind")) {
        methodHasBindCall := true;
        moduleHasBindCall := true;
        r := CallExpression(binder, [n.callee.obj] + n.arguments);
      }
    }

    /**
      `callVisitor.ArrowFunctionExpression`: set both trackers, draw a name,
      collect the referenced identifiers, build the hoisted declaration, replace
      the arrow by the binder call and push the declaration.
     */
    method VisitArrowFunctionExpression(binder: Node, n: Node) returns (r: Node)
      requires n.ArrowFunctionExpression?
      modifies this`methodHasBindCall, this`moduleHasBindCall, this`hoistedFuncs, this`nextUid
      ensures var h := HoistArrow(binder, n, old(nextUid));
        && r == h.call
        && hoistedFuncs == old(hoistedFuncs) + [h.decl]
        && nextUid == old(nextUid) + 1
      ensures methodHasBindCall && moduleHasBindCall
    {
      methodHasBindCall := true;
      moduleHasBindCall := true;
      var hoistedFuncIdentifier := GenerateUidIdentifier(HoistedFuncPrefix);
      var referencedIdentifiers := CollectReferencedIdentifiers(n.params, n.body);
      var funcBody := if n.body.BlockStatement? then n.body else BlockStatement([ReturnStatement(Some(n.body))]);
      var hoistedFunc := FunctionDeclaration(hoistedFuncIdentifier, referencedIdentifiers + n.params, funcBody);
      r := CallExpression(binder, [hoistedFuncIdentifier, ThisExpression] + referencedIdentifiers);
      hoistedFuncs := hoistedFuncs + [hoistedFunc];
    }

    /** The `callVisitor` traversal entering `n`, then the children of what stands there afterwards. */
    method TraverseCalls(binder: Node, n: Node) returns (r: Node)
      requires binder.Identifier?
      modifies this`methodHasBindCall, this`moduleHasBindCall, this`hoistedFuncs, this`nextUid
      decreases Size(n), 1
      ensures var v := RewriteNode(binder, n, old(nextUid));
        && r == v.node
        && hoistedFuncs == old(hoistedFuncs) + v.hoisted
        && nextUid == old(nextUid) + |v.hoisted|
        && methodHasBindCall == (old(methodHasBindCall) || v.sites > 0)
        && moduleHasBindCall == (old(moduleHasBindCall) || v.sites > 0)
    {
      var current := n;
      if n.CallExpression? {
        current := VisitCallExpression(binder, n);
        if IsBindCall(n) {
          BindReplacementSmaller(binder, n);
        }
      } else if n.ArrowFunctionExpression? {
        r := VisitArrowFunctionExpression(binder, n);
        return;
      }
      ChildrenSmaller(current);
      var cs := TraverseCallsAll(binder, Children(current));
      r := WithChildren(current, cs);
    }

    /** The `callVisitor` traversal over a list of siblings, left to right. */
    method TraverseCallsAll(binder: Node, s: seq<Node>) returns (rs: seq<Node>)
      requires binder.Identifier?
      modifies this`methodHasBindCall, this`moduleHasBindCall, this`hoistedFuncs, this`nextUid
      decreases SizeAll(s), 2
      ensures var v := RewriteAll(binder, s, old(nextUid));
        && rs == v.nodes
        && hoistedFuncs == old(hoistedFuncs) + v.hoisted
        && nextUid == old(nextUid) + |v.hoisted|
        && methodHasBindCall == (old(methodHasBindCall) || v.sites > 0)
        && moduleHasBindCall == (old(moduleHasBindCall) || v.sites > 0)
    {
      if s == [] {
        assert hoistedFuncs + [] == hoistedFuncs;
        return [];
      }
      ghost var h := RewriteNode(binder, s[0], nextUid);
      ghost var hoisted0 := hoistedFuncs;
      SizeAllElement(s, 0);
      var c := TraverseCalls(binder, s[0]);
      ghost var hoisted1 := hoistedFuncs;
      ghost var tl := RewriteAll(binder, s[1..], nextUid);
      assert RewriteAll(binder, s, old(nextUid)) == VisitedAll([h.node] + tl.nodes, h.hoisted + tl.hoisted, h.sites + tl.sites);
      var cs := TraverseCallsAll(binder, s[1..]);
      assert hoistedFuncs == hoisted1 + tl.hoisted;
      Assoc(hoisted0, h.hoisted, tl.hoisted);
      rs := [c] + cs;
    }

    /** `path.traverse(callVisitor)` from a render function: its descendants, not the function itself. */
    method TraverseDescendants(binder: Node, fn: Node) returns (r: Node)
      requires binder.Identifier?
      modifies this`methodHasBindCall, this`moduleHasBindCall, this`hoistedFuncs, this`nextUid
      ensures var v := RewriteChildren(binder, fn, old(nextUid));
        && r == v.node
        && hoistedFuncs == old(hoistedFuncs) + v.hoisted
        && nextUid == old(nextUid) + |v.hoisted|
        && methodHasBindCall == (old(methodHasBindCall) || v.sites > 0)
        && moduleHasBindCall == (old(moduleHasBindCall) || v.sites > 0)
    {
      var cs := TraverseCallsAll(binder, Children(fn));
      r := WithChildren(fn, cs);
    }

    /** `insertBeforePath.insertBefore(stmt)`: the statement goes in front of the current top-level statement. */
    method InsertBefore(stmt: Node)
      requires cursor <= |body|
      modifies this`body, this`cursor
      ensures body == old(body)[..old(cursor)] + [stmt] + old(body)[old(cursor)..]
      ensures cursor == old(cursor) + 1
    {
      body := body[..cursor] + [stmt] + body[cursor..];
      cursor := cursor + 1;
    }

    /**
      The tail of `traverseRenderFunc` once something was rewritten: insert the
      binder declaration and then, in push order, the hoisted functions before
      the top-level statement, and reset the method trackers.
     */
    method InsertPending(bindFunc: Node)
      requires cursor <= |body|
      modifies this`body, this`cursor, this`methodHasBindCall, this`hoistedFuncs
      ensures body == old(body)[..old(cursor)] + ([bindFunc] + old(hoistedFuncs)) + old(body)[old(cursor)..]
      ensures cursor == old(cursor) + 1 + |old(hoistedFuncs)|
      ensures Idle()
    {
      ghost var before := body[..cursor];
      ghost var after := body[cursor..];
      InsertAtSeam(before, [], after, bindFunc);
      assert body == before + [] + after;
      InsertBefore(bindFunc);
      methodHasBindCall := false;
      for i := 0 to |hoistedFuncs|
        invariant hoistedFuncs == old(hoistedFuncs) && !methodHasBindCall
        invariant cursor == |before| + 1 + i
        invariant body == before + ([bindFunc] + hoistedFuncs[..i]) + after
      {
        InsertAtSeam(before, [bindFunc] + hoistedFuncs[..i], after, hoistedFuncs[i]);
        InsertBefore(hoistedFuncs[i]);
        TakeSnoc(hoistedFuncs, i);
        Assoc([bindFunc], hoistedFuncs[..i], [hoistedFuncs[i]]);
      }
      TakeAll(hoistedFuncs);
      hoistedFuncs := [];
    }

    /** The `if (methodHasBindCall)` block that ends `traverseRenderFunc`. */
    method FlushPending(bindFunc: Node)
      requires cursor <= |body| && (!methodHasBindCall ==> hoistedFuncs == [])
      modifies this`body, this`cursor, this`methodHasBindCall, this`hoistedFuncs
      ensures var inserted := if old(methodHasBindCall) then [bindFunc] + old(hoistedFuncs) else [];
        && body == old(body)[..old(cursor)] + inserted + old(body)[old(cursor)..]
        && cursor == old(cursor) + |inserted|
      ensures Idle()
    {
      if methodHasBindCall {
        InsertPending(bindFunc);
      } else {
        assert old(body)[..old(cursor)] + [] + old(body)[old(cursor)..] == old(body);
      }
    }

    /**
      `traverseRenderFunc` on a render function `depth` edges below the program:
      find the insertion point, draw the binder name, rewrite the descendants,
      and if anything was rewritten insert the pending statements.
     */
    method TraverseRenderFunc(fn: Node, depth: nat) returns (ok: bool, r: Node)
      requires Idle() && cursor <= |body|
      modifies this`body, this`cursor, this`methodHasBindCall, this`moduleHasBindCall, this`hoistedFuncs, this`nextUid
      ensures ok <==> depth >= 2
      ensures !ok ==> r == fn && body == old(body) && cursor == old(cursor) && nextUid == old(nextUid) && moduleHasBindCall == old(moduleHasBindCall) && Idle()
      ensures ok ==> var t := RenderPass(cacheSize, memoizeIdentifier, fn, old(nextUid));
        && r == t.node
        && body == old(body)[..old(cursor)] + t.inserted + old(body)[old(cursor)..]
        && cursor == old(cursor) + |t.inserted|
        && nextUid == t.uid
        && moduleHasBindCall == (old(moduleHasBindCall) || t.rewrote)
        && Idle()
    {
      var insertBeforeDepth := FindInsertBefore(depth);
      if insertBeforeDepth.None? {
        return false, fn;
      }
      var bindFuncIdentifier := GenerateUidIdentifier(BindRenderFuncPrefix);
      r := RewriteRenderFunc(bindFuncIdentifier, fn);
      ok := true;
    }

    /**
      The part of `traverseRenderFunc` after the binder's name is drawn: the
      traversal with `callVisitor`, then the binder and the hoisted functions
      inserted in front of the current top-level statement when a site was rewritten.
     */
    method RewriteRenderFunc(bindFuncIdentifier: Node, fn: Node) returns (r: Node)
      requires bindFuncIdentifier.Identifier? && Idle() && cursor <= |body|
      modifies this`body, this`cursor, this`methodHasBindCall, this`moduleHasBindCall, this`hoistedFuncs, this`nextUid
      ensures var rw := RewriteChildren(bindFuncIdentifier, fn, old(nextUid));
        var inserted := if rw.sites > 0 then [BinderDeclaration(bindFuncIdentifier, memoizeIdentifier, cacheSize)] + rw.hoisted else [];
        && r == rw.node
        && body == old(body)[..old(cursor)] + inserted + old(body)[old(cursor)..]
        && cursor == old(cursor) + |inserted|
        && nextUid == old(nextUid) + |rw.hoisted|
        && moduleHasBindCall == (old(moduleHasBindCall) || rw.sites > 0)
        && Idle()
    {
      ghost var rw := RewriteChildren(bindFuncIdentifier, fn, nextUid);
      RewriteChildrenHoistedBound(bindFuncIdentifier, fn, nextUid);
      var bindFunc := BinderDeclaration(bindFuncIdentifier, memoizeIdentifier, cacheSize);
      r := TraverseDescendants(bindFuncIdentifier, fn);
      assert hoistedFuncs == rw.hoisted by {
        assert [] + rw.hoisted == rw.hoisted;
      }
      FlushPending(bindFunc);
    }

    /**
      `renderMethodVisitor` entering `n` itself, `depth` edges below the
      program: a render function goes through `traverseRenderFunc`, anything
      else is left as it is. `ok` is false when `traverseRenderFunc` failed.
     */
    method EnterNode(n: Node, depth: nat) returns (ok: bool, r: Node)
      requires Idle() && cursor <= |body|
      modifies this`body, this`cursor, this`methodHasBindCall, this`moduleHasBindCall, this`hoistedFuncs, this`nextUid
      ensures ok <==> !(IsRenderFunction(n) && depth < 2)
      ensures !ok ==> body == old(body) && cursor == old(cursor) && nextUid == old(nextUid) && moduleHasBindCall == old(moduleHasBindCall) && Idle()
      ensures ok ==> var t := Enter(cacheSize, memoizeIdentifier, n, old(nextUid));
        && r == t.node
        && body == old(body)[..old(cursor)] + t.inserted + old(body)[old(cursor)..]
        && cursor == old(cursor) + |t.inserted|
        && nextUid == t.uid
        && moduleHasBindCall == (old(moduleHasBindCall) || t.rewrote)
        && Idle()
    {
      var isRender := IsRenderFunctionNode(n);
      if isRender {
        ok, r := TraverseRenderFunc(n, depth);
        if !ok {
          r := n;
        }
      } else {
        assert old(body)[..old(cursor)] + [] + old(body)[old(cursor)..] == body;
        ok, r := true, n;
      }
    }

    /**
      The `renderMethodVisitor` traversal entering `n`, `depth` edges below the
      program: a render function goes through `traverseRenderFunc`, then the
      walk goes on into the children of the node as it is afterwards. `ok` is
      false when the walk failed.
     */
    method Detect(n: Node, depth: nat) returns (ok: bool, r: Node)
      requires Idle() && cursor <= |body|
      modifies this`body, this`cursor, this`methodHasBindCall, this`moduleHasBindCall, this`hoistedFuncs, this`nextUid
      decreases Size(n), 1
      ensures var d := DetectNode(cacheSize, memoizeIdentifier, n, depth, old(nextUid));
        && ok == d.Some?
        && (ok ==>
          && r == d.value.node
          && body == old(body)[..old(cursor)] + d.value.inserted + old(body)[old(cursor)..]
          && cursor == old(cursor) + |d.value.inserted|
          && nextUid == d.value.uid
          && moduleHasBindCall == (old(moduleHasBindCall) || d.value.rewrote)
          && Idle())
      ensures !ok ==> Idle()
      ensures !ok && IsRenderFunction(n) && depth < 2 ==>
        body == old(body) && cursor == old(cursor) && nextUid == old(nextUid) && moduleHasBindCall == old(moduleHasBindCall)
    {
      ghost var t := Enter(cacheSize, memoizeIdentifier, n, nextUid);
      ghost var before := body[..cursor];
      ghost var after := body[cursor..];
      DetectNodeUnfold(cacheSize, memoizeIdentifier, n, depth, nextUid);
      var current;
      ok, current := EnterNode(n, depth);
      if !ok {
        return false, n;
      }
      ChildrenSmaller(current);
      ghost var d := DetectAll(cacheSize, memoizeIdentifier, Children(current), depth + 1, nextUid);
      SplitConcat(before + t.inserted, after);
      var okChildren, cs := DetectChildren(Children(current), depth + 1);
      if !okChildren {
        return false, n;
      }
      Regroup(before, t.inserted, d.value.inserted, after);
      ok, r := true, WithChildren(current, cs);
    }

    /** The `renderMethodVisitor` traversal over a list of siblings, left to right. */
    method DetectChildren(s: seq<Node>, depth: nat) returns (ok: bool, rs: seq<Node>)
      requires Idle() && cursor <= |body|
      modifies this`body, this`cursor, this`methodHasBindCall, this`moduleHasBindCall, this`hoistedFuncs, this`nextUid
      decreases SizeAll(s), 2
      ensures var d := DetectAll(cacheSize, memoizeIdentifier, s, depth, old(nextUid));
        && ok == d.Some?
        && (ok ==>
          && rs == d.value.nodes
          && body == old(body)[..old(cursor)] + d.value.inserted + old(body)[old(cursor)..]
          && cursor == old(cursor) + |d.value.inserted|
          && nextUid == d.value.uid
          && moduleHasBindCall == (old(moduleHasBindCall) || d.value.rewrote)
          && Idle())
      ensures !ok ==> Idle()
    {
      ghost var before := body[..cursor];
      ghost var after := body[cursor..];
      if s == [] {
        assert body == before + [] + after;
        return true, [];
      }
      ghost var hd := DetectNode(cacheSize, memoizeIdentifier, s[0], depth, nextUid);
      SizeAllElement(s, 0);
      var okFirst, first := Detect(s[0], depth);
      if !okFirst {
        assert DetectAll(cacheSize, memoizeIdentifier, s, depth, old(nextUid)).None?;
        return false, [];
      }
      ghost var h := hd.value;
      ghost var tl := DetectAll(cacheSize, memoizeIdentifier, s[1..], depth, h.uid);
      assert DetectAll(cacheSize, memoizeIdentifier, s, depth, old(nextUid)) == PrependAll([h.node], h.inserted, h.rewrote, tl);
      SplitConcat(before + h.inserted, after);
      var okRest, rest := DetectChildren(s[1..], depth);
      if !okRest {
        return false, [];
      }
      Regroup(before, h.inserted, tl.value.inserted, after);
      ok, rs := true, [first] + rest;
    }

    /**
      The `renderMethodVisitor` traversal of the top-level statement at `cursor`:
      the walked statement takes its place, preceded by what was inserted, and
      `cursor` moves past it.
     */
    method VisitStatement() returns (ok: bool)
      requires Idle() && cursor < |body|
      modifies this`body, this`cursor, this`methodHasBindCall, this`moduleHasBindCall, this`hoistedFuncs, this`nextUid
      ensures var d := DetectNode(cacheSize, memoizeIdentifier, old(body)[old(cursor)], 1, old(nextUid));
        && ok == d.Some?
        && (ok ==>
          && body == old(body)[..old(cursor)] + (d.value.inserted + [d.value.node]) + old(body)[old(cursor) + 1..]
          && cursor == old(cursor) + |d.value.inserted| + 1
          && nextUid == d.value.uid
          && moduleHasBindCall == (old(moduleHasBindCall) || d.value.rewrote)
          && Idle())
      ensures !ok ==> body == old(body) && cursor == old(cursor) && nextUid == old(nextUid) && moduleHasBindCall == old(moduleHasBindCall) && Idle()
    {
      ghost var before := body[..cursor];
      ghost var after := body[cursor..];
      assert body == before + after;
      TopLevelFails(cacheSize, memoizeIdentifier, body[cursor], nextUid);
      var okStmt, stmt := Detect(body[cursor], 1);
      if !okStmt {
        return false;
      }
      ghost var w := DetectNode(cacheSize, memoizeIdentifier, old(body)[old(cursor)], 1, old(nextUid)).value;
      ReplaceAtSeam(before, w.inserted, after, stmt);
      body := body[cursor := stmt];
      cursor := cursor + 1;
      ok := true;
    }

    /**
      The walk of `path.traverse(renderMethodVisitor)` over every top-level
      statement, in order. The module flag it leaves is the one `WalkFlag`
      gives, also when the walk throws.
     */
    method WalkProgram() returns (ok: bool)
      requires Idle()
      modifies this`body, this`cursor, this`methodHasBindCall, this`moduleHasBindCall, this`hoistedFuncs, this`nextUid
      ensures var d := DetectProgram(cacheSize, memoizeIdentifier, old(body), old(nextUid));
        && ok == d.Some?
        && (ok ==> body == d.value.body && nextUid == d.value.uid)
        && moduleHasBindCall == (old(moduleHasBindCall) || WalkFlag(cacheSize, memoizeIdentifier, old(body), old(nextUid)))
        && Idle()
    {
      ghost var walk := DetectProgram(cacheSize, memoizeIdentifier, body, nextUid);
      ghost var flag := WalkFlag(cacheSize, memoizeIdentifier, body, nextUid);
      ghost var done: seq<Node> := [];
      ghost var rest := body;
      ghost var rewrote := false;
      cursor := 0;
      PrependProgramEmpty(walk);
      assert body == done + rest;
      while cursor < |body|
        invariant body == done + rest && cursor == |done|
        invariant Idle() && moduleHasBindCall == (old(moduleHasBindCall) || rewrote)
        invariant walk == PrependProgram(done, rewrote, DetectProgram(cacheSize, memoizeIdentifier, rest, nextUid))
        invariant flag == (rewrote || WalkFlag(cacheSize, memoizeIdentifier, rest, nextUid))
        decreases |rest|
      {
        ghost var v := nextUid;
        ghost var hd := DetectNode(cacheSize, memoizeIdentifier, rest[0], 1, v);
        SplitConcat(done, rest);
        assert body[cursor] == rest[0] && body[cursor + 1..] == rest[1..];
        var okStmt := VisitStatement();
        if !okStmt {
          assert DetectProgram(cacheSize, memoizeIdentifier, rest, v).None?;
          assert !WalkFlag(cacheSize, memoizeIdentifier, rest, v);
          return false;
        }
        ghost var w := hd.value;
        ghost var tl := DetectProgram(cacheSize, memoizeIdentifier, rest[1..], w.uid);
        assert DetectProgram(cacheSize, memoizeIdentifier, rest, v) == PrependProgram(w.inserted + [w.node], w.rewrote, tl);
        assert WalkFlag(cacheSize, memoizeIdentifier, rest, v) == (w.rewrote || WalkFlag(cacheSize, memoizeIdentifier, rest[1..], w.uid));
        PrependProgramTwice(done, rewrote, w.inserted + [w.node], w.rewrote, tl);
        done := done + (w.inserted + [w.node]);
        rest := rest[1..];
        rewrote := rewrote || w.rewrote;
      }
      assert rest == [] && done + [] == done;
      assert DetectProgram(cacheSize, memoizeIdentifier, rest, nextUid) == Some(ProgramPass([], nextUid, false));
      ok := true;
    }

    /**
      The `Program` visitor on a module: draw the memoize name, walk every
      top-level statement, then splice the import in at index 0 if the module
      flag is set and clear it. A walk that throws leaves the flag as it
      stands, set by any statement rewritten before the failure.
     */
    method VisitProgram(program: seq<Node>) returns (ok: bool)
      requires Idle()
      modifies this`body, this`cursor, this`methodHasBindCall, this`moduleHasBindCall, this`hoistedFuncs, this`nextUid, this`memoizeIdentifier
      ensures var t := Transform(cacheSize, memoizeModule, program, old(nextUid), old(moduleHasBindCall));
        && ok == t.Some?
        && (ok ==> body == t.value.body && nextUid == t.value.uid && !moduleHasBindCall)
      ensures !ok ==>
        moduleHasBindCall == (old(moduleHasBindCall) || WalkFlag(cacheSize, Identifier(Generated(MemoizePrefix, old(nextUid))), program, old(nextUid) + 1))
      ensures Idle()
    {
      body := program;
      memoizeIdentifier := GenerateUidIdentifier(MemoizePrefix);
      ghost var m0 := moduleHasBindCall;
      ghost var d := DetectProgram(cacheSize, memoizeIdentifier, program, nextUid);
      ghost var t := Transform(cacheSize, memoizeModule, program, old(nextUid), m0);
      assert d.None? ==> t.None?;
      assert d.Some? ==> t == Some(ProgramPass(
        if m0 || d.value.rewrote then [ImportDeclaration(memoizeIdentifier, memoizeModule)] + d.value.body else d.value.body,
        d.value.uid, m0 || d.value.rewrote));
      WalkFlagAgrees(cacheSize, memoizeIdentifier, program, nextUid);
      ok := WalkProgram();
      if !ok {
        return;
      }
      if moduleHasBindCall {
        var imprt := ImportDeclaration(memoizeIdentifier, memoizeModule);
        body := [imprt] + body;
        moduleHasBindCall := false;
      }
    }
  }
}

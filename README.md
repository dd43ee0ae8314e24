# babel-plugin-transform-react-binding, modelled in Dafny

The plugin rewrites React render functions so that `.bind()` calls and inline
arrow functions no longer allocate a new function on every render. Inside each
render function it does three things:

- It replaces `obj.bind(a1, ..., an)` by a call to one memoized binder,
  `binder(obj, a1, ..., an)`.
- It hoists every arrow function into a top-level function declaration. The
  declaration's parameters are the identifiers the arrow's body references,
  followed by the arrow's own parameters.
- It replaces each arrow by `binder(hoistedFunc, this, ...references)`.

The binder declaration and the hoisted functions are inserted in front of the
top-level statement that encloses the render function. If anything in the
module was rewritten, a `require` of the memoize module becomes statement 0.

The project has one module per part of the plugin:

- `Ast` (`ast.dfy`) is a closed AST datatype `Node`. Its children are listed
  in Babel's visiting order, so a traversal is a pre-order, left-to-right walk.
  An identifier name is either written in the module (`Source`) or drawn from
  the fresh-name supply (`Generated(prefix, serial)`). The supply stands for
  `generateUidIdentifier`.
- `Jsx` (`jsx.dfy`) holds `containsReactElements`, a loop over an explicit
  stack that stops at the first JSX element. It is proved against a recursive
  search and against the descendant relation.
- `Hoist` (`hoist.dfy`) holds the pure node-building steps of `callVisitor`:
  the bind replacement, the collection of referenced identifiers (a loop proved
  against a recursive definition), and the hoisted declaration together with
  its replacement call.
- `Rewrite` (`rewrite.dfy`) states as functions of the tree what the
  `callVisitor` traversal computes: the new tree, the hoisted declarations in
  push order, and the number of rewritten sites. It also holds the lemmas about
  those functions.
- `Plugin` (`plugin.dfy`) mirrors the source's structure:
  - specification functions for `renderMethodVisitor`, `traverseRenderFunc`
    and the `Program` visitor, each with its lemmas;
  - a class `BindingPlugin` whose one instance stands for the plugin's
    closure and is reused from module to module. It holds:
    - the statement list of the module being visited, edited in place;
    - the flags `methodHasBindCall` and `moduleHasBindCall`;
    - the `hoistedFuncs` array;
    - the name supply;
    - a cursor on the current top-level statement.

  Its methods — visitors, the parent-walk `while` loop, the `insertBefore`
  `for` loop and the import splice — are proved to follow the specification
  functions.
- `Seqs` and `Wrappers` are small helpers: sequence lemmas and `Option`.

Four behaviours of the code shape the model:

- The code collects every identifier below the arrow's body whose name is not
  the name of a parameter. Property names (`prop` in `obj.prop`), locals
  declared inside the arrow and duplicates are all collected
  (`Hoist.CapturesDuplicatesAndProperties`).
- The parent walk of `traverseRenderFunc` (src/index.js:107-110) dereferences
  null when a render function is a direct child of the program. The model turns
  that into a failed run (`None`, `ok == false`). `Plugin.TransformFails` says
  exactly when a run of the model fails.
- The trackers (src/index.js:25-27) live in the plugin's closure and outlive a
  module. `moduleHasBindCall` is cleared only after the import is added
  (src/index.js:174). A module whose walk throws after a rewrite therefore
  leaves it set, and the next module gets the import at src/index.js:173 even
  when nothing in it is rewritten. `Plugin.BindingPlugin.VisitProgram` takes
  the flag as it finds it and states the flag a failed walk leaves;
  `Plugin.FailedWalkLeavesFlag` and `Plugin.TransformNoJSX` show the stale
  import.
- The `ClassMethod` visitor destructures `cacheSize` from its second argument
  (src/index.js:138). That argument is the traversal state `{memoizeIdentifier}`
  passed at src/index.js:165, which has no `opts`, so the cache size is always
  the default 500. The model's constructor takes no cache size option.

## Model

| member | source | states |
|---|---|---|
| Jsx.HasJSXIffDescendant | src/index.js:34-49 | the recursive JSX search holds exactly when the node is a JSX element or some node strictly inside it is one (both directions) |
| Jsx.ContainsReactElements | src/index.js:34-49 | the root check plus the stack search with early stop return true exactly when the node is a JSX element or has a JSX descendant |
| Hoist.BindReplacement | src/index.js:61-64 | the definition of the bind rewrite, with no contract of its own: `obj.bind(a1, ..., an)` becomes `binder(obj, a1, ..., an)`; `Hoist.BindRoundTrip` states its properties |
| Hoist.HoistArrow | src/index.js:83-98 | the definition of the arrow hoist: one drawn name, the hoisted declaration and the replacement call; `Hoist.HoistAligned` states its properties |
| Hoist.BindRoundTrip | src/index.js:53-64 | the replacement call has the binder as callee and n + 1 arguments: the bound object first, then the original arguments in order; for a non-computed `obj.bind` callee the original call can be rebuilt from it |
| Hoist.ReferencedAreFree | src/index.js:74-80 | every collected node is an identifier that no parameter names |
| Hoist.CapturesMember | src/index.js:74-80 | a node is collected from a forest exactly when it is a captured identifier that is one of the trees or lies inside one |
| Hoist.ReferencedIffDescendant | src/index.js:74-80 | an identifier is collected exactly when it lies strictly inside the arrow body (the body node itself is not visited) and no parameter has its name |
| Hoist.CollectReferencedIdentifiers | src/index.js:71-80 | the pre-order walk with the parameter-name test pushes exactly the captured identifiers of the body's descendants, in order, duplicates kept |
| Hoist.CapturesDuplicatesAndProperties | src/index.js:74-80 | for `(y) => x + x.x` the collection is `x, x, x`: duplicates are kept and a property name is captured like a variable |
| Hoist.HoistAligned | src/index.js:83-98 | the call passes the hoisted name, `this`, then exactly the leading parameters of the declaration, which are free identifiers; the remaining parameters are the arrow's; a block body is reused and an expression body `e` becomes the one statement `return e` |
| Rewrite.RewriteNode | src/index.js:52-102 | the definition of the `callVisitor` traversal entering one node: a `.bind` call is replaced and the walk goes into the replacement's children, an arrow is hoisted and not walked into, anything else is walked into; the lemmas below state its properties |
| Rewrite.RewriteAll | src/index.js:52-102 | the same traversal over siblings, left to right, threading the name supply; it gives one node per sibling |
| Rewrite.RewriteChildren | src/index.js:122 | `path.traverse(callVisitor)`: the definition rewrites the descendants of a render function and not the function itself |
| Rewrite.RewriteChildrenSize | src/index.js:122 | the traversal keeps the render function's own kind and attributes; its size does not grow in the weighted measure `Size`, in which an arrow weighs 3 so that the walk terminates |
| Rewrite.RewriteAllNames | src/index.js:67-100 | the k-th hoisted declaration is a function declaration named by serial `uid + k` of the supply |
| Rewrite.HoistedNamesDistinct | src/index.js:67-100 | every hoisted declaration is a function declaration, and their names are pairwise distinct |
| Rewrite.RewriteAllHoistedBound | src/index.js:58-100 | each hoist is also a rewritten site, so a non-empty `hoistedFuncs` implies that `methodHasBindCall` was set |
| Rewrite.RewriteNodeSiteFree | src/index.js:52-102 | no site is rewritten in a tree exactly when it has no `.bind` call and no arrow, and such a tree comes back unchanged with nothing hoisted |
| Rewrite.RewriteChildrenSiteFree | src/index.js:122-133 | a render function without sites below it is left as it is, with no rewrite counted and nothing hoisted |
| Rewrite.RewriteKeepsNonBind | src/index.js:53-65 | a node that is neither a `.bind` call nor an arrow does not become one when its children are rewritten |
| Rewrite.RewriteNodeNoSites | src/index.js:52-102 | after the rewrite no `.bind` call and no arrow is left in the tree |
| Rewrite.RewriteIdempotent | src/index.js:122 | a second `callVisitor` traversal of a rewritten render function rewrites nothing and hoists nothing |
| Plugin.IsRenderFunction | src/index.js:138-157 | the definition of the visitor tests: a class method keyed `render`, or any arrow, function declaration or function expression, that contains JSX; `Plugin.IsRenderFunctionNode` computes it |
| Plugin.RenderPass | src/index.js:105-134 | the definition of `traverseRenderFunc` once the insertion point is found; `Plugin.RenderPassShape` states its properties |
| Plugin.Enter | src/index.js:137-158 | the definition of entering one node; the node it leaves is no larger in `Size` than the one it was given |
| Plugin.DetectNode | src/index.js:137-158 | the definition of the `renderMethodVisitor` walk of a subtree, failing (`None`) on a render function fewer than two levels below the program; the lemmas below state its properties |
| Plugin.DetectAll | src/index.js:137-158 | the same walk over siblings, left to right; when it succeeds it gives one node per sibling |
| Plugin.DetectProgram | src/index.js:165 | the definition of the walk over the top-level statements, each preceded by what was inserted while walking it |
| Plugin.Transform | src/index.js:163-176 | the definition of the `Program` visitor on a module, given the module flag as the module finds it |
| Plugin.WalkFlag | src/index.js:163-176 | the definition of the module flag a walk leaves, also when it fails |
| Plugin.RenderPassShape | src/index.js:105-134 | `traverseRenderFunc` inserts the binder declaration and then the hoisted functions, in push order and with distinct names, exactly when a site below the function was rewritten; after it no site is left; otherwise nothing is inserted and the function is untouched; one name is drawn for the binder either way |
| Plugin.EnterShape | src/index.js:137-158 | entering a node keeps its kind, inserts only generated declarations, and changes nothing when no rewrite happened |
| Plugin.DetectNodeDeep | src/index.js:107-110 | the walk never fails on a node two or more levels below the program |
| Plugin.TopLevelFails | src/index.js:107-110 | a top-level statement fails exactly when it is itself a render function |
| Plugin.DetectProgramFails | src/index.js:107-110 | the walk of the module fails exactly when some top-level statement is a render function |
| Plugin.TransformFails | src/index.js:107-110 | in the model, which does not walk inserted declarations again, the `Program` visitor throws exactly when some top-level statement is a render function |
| Plugin.DetectNodeUnchanged | src/index.js:124-133 | a walk that rewrote nothing leaves the subtree as it was and inserts nothing |
| Plugin.DetectProgramUnchanged | src/index.js:124-133 | a walk of the module that rewrote nothing leaves the statement list as it was |
| Plugin.TransformUnchanged | src/index.js:163-176 | a module that gets no import (nothing rewritten and the flag clear on entry) comes out exactly as it went in |
| Plugin.DetectNodeNoJSX | src/index.js:137-158 | a subtree without JSX holds no render function: the walk leaves it as it was, inserts nothing, draws no name and rewrites nothing |
| Plugin.DetectAllNoJSX | src/index.js:137-158 | the same for a list of siblings without JSX |
| Plugin.DetectProgramNoJSX | src/index.js:165 | a module without JSX is walked without any change |
| Plugin.TransformNoJSX | src/index.js:163-176 | a module whose top-level statements hold no JSX comes out as it went in, one name drawn; it gets the import exactly when the module flag was already set on entry |
| Plugin.WalkFlagAgrees | src/index.js:165 | when the walk of the module succeeds, the module flag it leaves says whether anything was rewritten |
| Plugin.FailedWalkLeavesFlag | src/index.js:163-176 | a module whose first statement is rewritten and whose second is a render function throws, and leaves the module flag set |
| Plugin.DetectNodeInserts | src/index.js:125-131 | only binder and function declarations are inserted, and the walked node keeps its kind |
| Plugin.DetectProgramImports | src/index.js:125-131 | the walk of the module adds no import statement |
| Plugin.TransformImport | src/index.js:168-175 | exactly one import is added when the module flag is set after the walk, as statement 0 and naming the drawn memoize identifier and the configured module; none is added otherwise |
| Plugin.FindInsertBefore | src/index.js:107-110 | the parent walk ends at the top-level statement (depth 1) when the render function lies two or more levels below the program, and dereferences null otherwise |
| Plugin.IsRenderFunctionNode | src/index.js:137-158 | a class method keyed `render`, or any arrow, function declaration or function expression, is a render function exactly when it contains JSX |
| Plugin.BindingPlugin.constructor | src/index.js:11-27 | the module option defaults to `lru-memoize`; the cache size is 500 whatever the options; both flags are clear and `hoistedFuncs` is empty |
| Plugin.BindingPlugin.GenerateUidIdentifier | src/index.js:114 | each call draws the next serial, so no two drawn names are equal |
| Plugin.BindingPlugin.VisitCallExpression | src/index.js:53-65 | a `.bind` call is replaced by its binder call and sets both flags; any other call is left as it is and the flags keep their values |
| Plugin.BindingPlugin.VisitArrowFunctionExpression | src/index.js:67-101 | the arrow is replaced by the binder call, exactly one declaration is pushed onto `hoistedFuncs`, one name is drawn, and both flags are set |
| Plugin.BindingPlugin.TraverseCalls | src/index.js:52-102 | the imperative visitor produces the tree, the pushed declarations and the flag values the rewrite functions define for the node |
| Plugin.BindingPlugin.TraverseCallsAll | src/index.js:52-102 | the same for a list of siblings visited left to right |
| Plugin.BindingPlugin.TraverseDescendants | src/index.js:122 | `path.traverse(callVisitor)` rewrites the descendants of the render function and not the function itself |
| Plugin.BindingPlugin.InsertBefore | src/index.js:126-130 | the statement goes in front of the current top-level statement, whose index moves up by one |
| Plugin.BindingPlugin.InsertPending | src/index.js:125-133 | the binder declaration and then every hoisted function, in push order, end up directly in front of the top-level statement; the flag is cleared and the array emptied |
| Plugin.BindingPlugin.FlushPending | src/index.js:124-133 | with the flag set, the pending declarations are inserted; without it the program is unchanged; either way the method trackers are clear afterwards |
| Plugin.BindingPlugin.RewriteRenderFunc | src/index.js:114-133 | once its name is drawn, the binder is inserted with the hoisted functions exactly when a site below the render function was rewritten |
| Plugin.BindingPlugin.TraverseRenderFunc | src/index.js:105-134 | fails exactly on a render function that is a direct child of the program, and then changes nothing; otherwise it follows `RenderPass` for the tree, the insertion, the name supply and the module flag, and leaves the method trackers clear |
| Plugin.BindingPlugin.EnterNode | src/index.js:137-158 | `renderMethodVisitor` hands a render function to `traverseRenderFunc` and leaves any other node as it is; a failure changes nothing |
| Plugin.BindingPlugin.Detect | src/index.js:137-158 | the walk of a subtree follows `DetectNode`: it fails when the specification fails, and otherwise gives its tree, its insertions in front of the top-level statement, its name supply and its module flag; a failure leaves the method trackers clear, and a failure at the node itself changes nothing |
| Plugin.BindingPlugin.DetectChildren | src/index.js:165 | the same for a list of siblings visited left to right |
| Plugin.BindingPlugin.VisitStatement | src/index.js:165 | the walked top-level statement takes its place, preceded by what was inserted while walking it; a failure changes nothing |
| Plugin.BindingPlugin.WalkProgram | src/index.js:165 | the walk over the top-level statements gives the body and name supply of `DetectProgram` and fails exactly when it does; either way the module flag ends as `WalkFlag` says and the method trackers are clear |
| Plugin.BindingPlugin.VisitProgram | src/index.js:163-176 | the `Program` visitor, given the flag as earlier modules left it, leaves the body the `Transform` function gives: the walked statements, with the import at index 0 when the module flag is set; the flag is cleared afterwards, and the run fails exactly when `Transform` does; after a failure the flag keeps what the statements walked before the failure set |

## Left out

- Babel's `template` parsing (src/index.js:14-22). The binder declaration and the import are opaque nodes (`BinderDeclaration`, `ImportDeclaration`) that carry what their templates are filled with.
- The spelling of generated names and Babel's scope machinery (src/index.js:70, 114, 164). A name is a prefix and a serial from one counter, which makes drawn names distinct by construction.
- Babel's requeue of inserted nodes. Babel queues the declarations inserted at src/index.js:126 and 130 onto the running `renderMethodVisitor` walk (src/index.js:165). A hoisted function whose body holds JSX, as from `items.map(i => <li/>)` in a render method, is then visited as a render function that is a direct child of the program, and the parent walk (src/index.js:108-109) dereferences null. The model does not walk inserted declarations again.
- Plugin.TransformFails: its "exactly when" holds for the model, not for the source, which also throws when a hoisted function holds JSX (see the line above).
- Nodes replaced during `callVisitor`. The replacement of a `.bind` call is walked into, as Babel's requeue does: `Rewrite.RewriteNode` walks the replacement's children. The replacement of an arrow is not walked again; its callee is the binder identifier and its arguments are identifiers and `this`, where `callVisitor` would change nothing.
- The `lru-memoize` runtime. It is an external library, so the caching behaviour of the binder is not modelled.
- As written, `cacheSize` (src/index.js:117) is not in scope in `traverseRenderFunc`: it is destructured only in the `ClassMethod` visitor (src/index.js:138). Reading it throws, and `this.memoizeIdentifier` (src/index.js:118) is read from a plain function call. The model takes both from the plugin state, as the code evidently means: the cache size 500, the value the `ClassMethod` visitor always gets, and the identifier drawn by the `Program` visitor.
- Plugin.BindingPlugin.VisitProgram: after a failed run only the trackers are described (the module flag and the clear method trackers), not the half-edited statement list, since the error ends the transform of that module. The same holds for Plugin.BindingPlugin.WalkProgram, Detect and DetectChildren.
- Node kinds the plugin does not distinguish are one `Other(kind, children)` case. JSX attributes are among the children, and source locations are dropped. The `computed` flag of a member expression is kept but not consulted, as in the source.
- The root check `T.isJSXElement(path)` (src/index.js:35) is given a path rather than a node. The model tests the node, as the code evidently means; for the function kinds the visitor passes in, the test is false either way.
- Concurrency, I/O and Babel's plugin loading are outside the plugin's logic.

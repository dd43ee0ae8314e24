/**
  JSX detection: `containsReactElements` (src/index.js:34-49).
 */
module Jsx {
  import opened Ast

  /** `d` occurs strictly inside `n`: it is a child of `n` or occurs inside one. */
  ghost predicate IsDescendant(d: Node, n: Node)
    decreases Size(n)
  {
    EachChildSmaller(n);
    exists i :: 0 <= i < |Children(n)| && (Children(n)[i] == d || IsDescendant(d, Children(n)[i]))
  }

  /** `n` is a JSX element or has one among its descendants (read as a tree search). */
  ghost predicate HasJSX(n: Node)
    decreases Size(n), 1
  {
    ChildrenSmaller(n);
    n.JSXElement? || AnyHasJSX(Children(n))
  }

  /** Some tree of the forest `s` has a JSX element. */
  ghost predicate AnyHasJSX(s: seq<Node>)
    decreases SizeAll(s), 2
  {
    if s == [] then false
    else
      SizeAllElement(s, 0);
      HasJSX(s[0]) || AnyHasJSX(s[1..])
  }

  lemma {:induction false} AnyHasJSXConcat(a: seq<Node>, b: seq<Node>)
    ensures AnyHasJSX(a + b) <==> AnyHasJSX(a) || AnyHasJSX(b)
  {
    if a == [] {
      assert a + b == b;
    } else {
      assert (a + b)[0] == a[0];
      assert (a + b)[1..] == a[1..] + b;
      AnyHasJSXConcat(a[1..], b);
    }
  }

  lemma {:induction false} AnyHasJSXAt(s: seq<Node>)
    ensures AnyHasJSX(s) <==> exists i :: 0 <= i < |s| && HasJSX(s[i])
  {
    if s != [] {
      AnyHasJSXAt(s[1..]);
      if AnyHasJSX(s[1..]) {
        var i :| 0 <= i < |s[1..]| && HasJSX(s[1..][i]);
        assert HasJSX(s[i + 1]);
      }
      forall i | 0 <= i < |s| && HasJSX(s[i]) ensures AnyHasJSX(s) {
        if i > 0 { assert s[1..][i - 1] == s[i]; }
      }
    }
  }

  lemma DescendantVia(d: Node, n: Node, i: nat)
    requires i < |Children(n)|
    requires Children(n)[i] == d || IsDescendant(d, Children(n)[i])
    ensures IsDescendant(d, n)
  {
  }

  lemma {:induction false} HasJSXToDescendant(n: Node)
    decreases Size(n)
    requires HasJSX(n) && !n.JSXElement?
    ensures exists d :: IsDescendant(d, n) && d.JSXElement?
  {
    var cs := Children(n);
    EachChildSmaller(n);
    AnyHasJSXAt(cs);
    var i :| 0 <= i < |cs| && HasJSX(cs[i]);
    if cs[i].JSXElement? {
      DescendantVia(cs[i], n, i);
    } else {
      HasJSXToDescendant(cs[i]);
      var d :| IsDescendant(d, cs[i]) && d.JSXElement?;
      DescendantVia(d, n, i);
    }
  }

  lemma {:induction false} DescendantToHasJSX(d: Node, n: Node)
    decreases Size(n)
    requires IsDescendant(d, n) && d.JSXElement?
    ensures AnyHasJSX(Children(n))
  {
    var cs := Children(n);
    EachChildSmaller(n);
    var i :| 0 <= i < |cs| && (cs[i] == d || IsDescendant(d, cs[i]));
    if cs[i] != d {
      DescendantToHasJSX(d, cs[i]);
    }
    assert HasJSX(cs[i]);
    AnyHasJSXAt(cs);
  }

  /** The recursive search agrees with the descendant relation, in both directions. */
  lemma HasJSXIffDescendant(n: Node)
    ensures HasJSX(n) <==> n.JSXElement? || exists d :: IsDescendant(d, n) && d.JSXElement?
  {
    if HasJSX(n) && !n.JSXElement? {
      HasJSXToDescendant(n);
    }
    if exists d :: IsDescendant(d, n) && d.JSXElement? {
      var d :| IsDescendant(d, n) && d.JSXElement?;
      DescendantToHasJSX(d, n);
    }
  }

  /**
    containsReactElements: true exactly when `n` is a JSX element or has a JSX
    descendant. The root is checked first; the descendants are then searched in
    pre-order with an explicit stack, and the search stops at the first match.
   */
  method ContainsReactElements(n: Node) returns (doesContainJSX: bool)
    ensures doesContainJSX <==> n.JSXElement? || exists d :: IsDescendant(d, n) && d.JSXElement?
  {
    HasJSXIffDescendant(n);
    if n.JSXElement? {
      return true;
    }
    doesContainJSX := false;
    var work := Children(n);
    assert HasJSX(n) <==> AnyHasJSX(work);
    while work != []
      invariant !doesContainJSX
      invariant HasJSX(n) <==> AnyHasJSX(work)
      decreases SizeAll(work)
    {
      var m := work[0];
      if m.JSXElement? {
        assert HasJSX(m);
        doesContainJSX := true;
        break;
      }
      assert AnyHasJSX(work) <==> AnyHasJSX(Children(m)) || AnyHasJSX(work[1..]);
      AnyHasJSXConcat(Children(m), work[1..]);
      SizeChildren(m);
      SizeAllConcat(Children(m), work[1..]);
      work := Children(m) + work[1..];
    }
  }
}

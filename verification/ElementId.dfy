/** The stable id of an element: its child indices from the root down, joined by dashes. */
module ElementId {
  import opened Decimal

  /** An element with the two links that the walk follows; the rest describes the tree they form. */
  class Element {
    var parentElement: Element?
    var previousElementSibling: Element?
    ghost var children: seq<Element>
    ghost var depth: nat
  }

  /** The sibling in front of position `k`. */
  ghost function Before(children: seq<Element>, k: nat): Element?
    requires k <= |children|
  {
    if k == 0 then null else children[k - 1]
  }

  ghost predicate Document(root: Element, doc: set<Element>)
    reads doc
  {
    && root in doc && root.parentElement == null
    && (forall e :: e in doc && e != root ==>
          && e.parentElement != null && e.parentElement in doc
          && e in e.parentElement.children
          && e.depth == e.parentElement.depth + 1)
    && (forall e, k :: e in doc && 0 <= k < |e.children| ==>
          && e.children[k] in doc && e.children[k] != root
          && e.children[k].parentElement == e
          && e.children[k].previousElementSibling == Before(e.children, k))
    && (forall e, j, k :: e in doc && 0 <= j < k < |e.children| ==> e.children[j] != e.children[k])
  }

  lemma ParentOf(root: Element, doc: set<Element>, e: Element)
    requires Document(root, doc) && e in doc
    ensures e.parentElement == null <==> e == root
    ensures e != root ==>
      && e.parentElement in doc && e in e.parentElement.children
      && e.depth == e.parentElement.depth + 1
  {
  }

  lemma Siblings(root: Element, doc: set<Element>, parent: Element, j: nat, k: nat)
    requires Document(root, doc) && parent in doc && j < |parent.children| && k < |parent.children|
    ensures parent.children[k] in doc && parent.children[k] != root && parent.children[k].parentElement == parent
    ensures parent.children[k].previousElementSibling == Before(parent.children, k)
    ensures parent.children[j] == parent.children[k] <==> j == k
  {
  }

  /** Following the child indices of `path` from the root arrives at `e`. */
  ghost predicate Leads(root: Element, doc: set<Element>, path: seq<nat>, e: Element)
    requires Document(root, doc) && e in doc
    reads doc
    decreases |path|
  {
    if path == [] then e == root
    else
      var n := |path| - 1;
      && e != root
      && var parent := e.parentElement;
         path[n] < |parent.children| && parent.children[path[n]] == e && Leads(root, doc, path[..n], parent)
  }

  lemma {:induction false} PathDeterminesElement(root: Element, doc: set<Element>, path: seq<nat>, e: Element, f: Element)
    requires Document(root, doc) && e in doc && f in doc
    requires Leads(root, doc, path, e) && Leads(root, doc, path, f)
    ensures e == f
    decreases |path|
  {
    if path != [] {
      PathDeterminesElement(root, doc, path[..|path| - 1], e.parentElement, f.parentElement);
    }
  }

  lemma {:induction false} ElementDeterminesPath(root: Element, doc: set<Element>, p: seq<nat>, q: seq<nat>, e: Element)
    requires Document(root, doc) && e in doc
    requires Leads(root, doc, p, e) && Leads(root, doc, q, e)
    ensures p == q
    decreases |p|
  {
    hide Document;
    ParentOf(root, doc, e);
    if p != [] && q != [] {
      var m, n := |p| - 1, |q| - 1;
      ElementDeterminesPath(root, doc, p[..m], q[..n], e.parentElement);
      Siblings(root, doc, e.parentElement, p[m], q[n]);
      assert p == p[..m] + [p[m]] && q == q[..n] + [q[n]];
    }
  }

  /** Appending `parts` to any path of `cursor` gives a path of `element`. */
  ghost predicate Completes(root: Element, doc: set<Element>, parts: seq<nat>, cursor: Element, element: Element)
    requires Document(root, doc) && cursor in doc && element in doc
    reads doc
  {
    forall p: seq<nat> :: Leads(root, doc, p, cursor) ==> Leads(root, doc, p + parts, element)
  }

  lemma CompletesItself(root: Element, doc: set<Element>, element: Element)
    requires Document(root, doc) && element in doc
    ensures Completes(root, doc, [], element, element)
  {
    hide Document, Leads;
    forall p: seq<nat> | Leads(root, doc, p, element) ensures Leads(root, doc, p + [], element) {
      assert p + [] == p;
    }
  }

  lemma CompletesUpwards(root: Element, doc: set<Element>, index: nat, parts: seq<nat>, cursor: Element, element: Element)
    requires Document(root, doc) && cursor in doc && cursor != root && element in doc
    requires Completes(root, doc, parts, cursor, element)
    requires index < |cursor.parentElement.children| && cursor.parentElement.children[index] == cursor
    ensures Completes(root, doc, [index] + parts, cursor.parentElement, element)
  {
    hide Document;
    ParentOf(root, doc, cursor);
    var parent: Element := cursor.parentElement;
    forall p: seq<nat> | Leads(root, doc, p, parent) ensures Leads(root, doc, p + ([index] + parts), element) {
      assert (p + [index])[..|p|] == p;
      assert Leads(root, doc, p + [index], cursor);
      assert p + [index] + parts == p + ([index] + parts);
    }
  }

  lemma CompletesRoot(root: Element, doc: set<Element>, parts: seq<nat>, element: Element)
    requires Document(root, doc) && element in doc && root in doc
    requires Completes(root, doc, parts, root, element)
    ensures Leads(root, doc, parts, element)
  {
    hide Document;
    var top: seq<nat> := [];
    assert Leads(root, doc, top, root) && top + parts == parts;
  }

  method StableElementId(element: Element, ghost root: Element, ghost doc: set<Element>)
    returns (id: string)
    requires Document(root, doc) && element in doc
    ensures exists path: seq<nat> :: Leads(root, doc, path, element) && id == "e-" + Joined(path, '-')
  {
    hide Document, Leads, Completes;
    var parts: seq<nat> := [];
    var cursor := element;
    CompletesItself(root, doc, element);
    while cursor.parentElement != null
      invariant cursor in doc
      invariant Completes(root, doc, parts, cursor, element)
      decreases cursor.depth
    {
      ParentOf(root, doc, cursor);
      var index: nat := 0;
      var sibling := cursor;
      ghost var parent: Element := cursor.parentElement;
      ghost var k: nat :| k < |parent.children| && parent.children[k] == cursor;
      while sibling.previousElementSibling != null
        invariant 0 <= index <= k && sibling == parent.children[k - index]
        decreases k - index
      {
        Siblings(root, doc, parent, k, k - index);
        sibling := sibling.previousElementSibling;
        index := index + 1;
      }
      Siblings(root, doc, parent, k, k - index);
      CompletesUpwards(root, doc, index, parts, cursor, element);
      parts := [index] + parts;
      cursor := cursor.parentElement;
    }
    ParentOf(root, doc, cursor);
    CompletesRoot(root, doc, parts, element);
    id := "e-" + Joined(parts, '-');
  }

  /** Two elements of one document have the same id exactly when they are the same element. */
  lemma SameIdIff(root: Element, doc: set<Element>, e: Element, f: Element, p: seq<nat>, q: seq<nat>)
    requires Document(root, doc) && e in doc && f in doc
    requires Leads(root, doc, p, e) && Leads(root, doc, q, f)
    ensures "e-" + Joined(p, '-') == "e-" + Joined(q, '-') <==> e == f
  {
    if "e-" + Joined(p, '-') == "e-" + Joined(q, '-') {
      assert ("e-" + Joined(p, '-'))[2..] == Joined(p, '-') && ("e-" + Joined(q, '-'))[2..] == Joined(q, '-');
      JoinedInjective(p, q, '-');
      PathDeterminesElement(root, doc, p, e, f);
    }
    if e == f { ElementDeterminesPath(root, doc, p, q, e); }
  }

  /** The id of a child is that of its parent with a dash and its index; that of the root is bare. */
  lemma {:induction false} ChildId(path: seq<nat>, index: nat)
    ensures Joined(path + [index], '-') == (if path == [] then "" else Joined(path, '-') + "-") + Text(index)
  {
    hide Text;
    if path == [] {
      assert path + [index] == [index];
    } else {
      var rest := path[1..];
      assert (path + [index])[1..] == rest + [index];
      ChildId(rest, index);
      if rest == [] {
        assert Joined(path, '-') == Text(path[0]);
      } else {
        assert Text(path[0]) + ['-'] + (Joined(rest, '-') + "-" + Text(index))
            == Text(path[0]) + ['-'] + Joined(rest, '-') + "-" + Text(index);
      }
    }
  }
}

/**
 * What of a document ends up in its copy, said of the two trees alone: which attributes may stand
 * there and with which values, and that nothing else is left out while the limits are not met.
 */
module DomCopy {
  import opened Common
  import opened DomSnapshot

  // ---- One element --------------------------------------------------------------------------------------

  /** The value that the page's query for the attribute "name" gives: the first one, or nothing. */
  predicate IsField(attrs: seq<Attr>, field: string) {
    if exists i :: 0 <= i < |attrs| && attrs[i].name == "name" then
      exists i :: 0 <= i < |attrs| && attrs[i] == Attr("name", field) && forall j :: 0 <= j < i ==> attrs[j].name != "name"
    else field == ""
  }

  lemma {:induction false} FieldNameIs(attrs: seq<Attr>)
    ensures IsField(attrs, FieldName(attrs))
  {
    if attrs != [] {
      if attrs[0].name == "name" {
        assert attrs[0] == Attr("name", FieldName(attrs));
      } else {
        var rest := attrs[1..];
        FieldNameIs(rest);
        if i :| 0 <= i < |attrs| && attrs[i].name == "name" {
          assert rest[i - 1].name == "name";
          var k :| 0 <= k < |rest| && rest[k] == Attr("name", FieldName(rest))
            && forall j :: 0 <= j < k ==> rest[j].name != "name";
          assert attrs[k + 1] == rest[k];
          assert forall j :: 0 < j < k + 1 ==> attrs[j] == rest[j - 1];
        } else {
          assert forall i :: 0 <= i < |rest| ==> rest[i] == attrs[i + 1];
        }
      }
    }
  }

  /** Form state, styles, hashes, secrets and script URLs never leave the page. */
  predicate Withheld(page: Page, tag: string, field: string, a: Attr) {
    var name, element := page.lower(a.name), page.lower(tag);
    || name in {"style", "value", "integrity"}
    || page.sensitive(a.name)
    || (element == "input" && name in {"checked", "selected"})
    || (element == "option" && name == "selected")
    || (element == "meta" && name == "content" && page.sensitive(field))
    || (page.urlAttribute(name) && page.unsafeScheme(a.value))
  }

  /** The first 4096 characters of the value, or of a URL's origin and path, or of its text up to a query. */
  predicate Shortens(page: Page, a: Attr, value: string) {
    var whole :=
      if !page.urlAttribute(page.lower(a.name)) then a.value
      else match page.rewrite(a.value)
           case Some(url) => url
           case None => page.cutQuery(a.value);
    value <= whole && |value| <= 4096 && (|value| < 4096 ==> value == whole)
  }

  lemma FilterIs(page: Page, tag: string, field: string, a: Attr)
    ensures var safe := SafeAttributeValue(page, tag, field, a.name, a.value);
            if Withheld(page, tag, field, a) then safe.None? else safe.Some? && Shortens(page, a, safe.value)
  {
  }

  /** The copied attributes are those of the source at increasing positions, none withheld, with their values shortened. */
  predicate Chosen(page: Page, tag: string, field: string, attrs: seq<Attr>, copied: seq<Attr>, at: seq<nat>) {
    && |at| == |copied|
    && (forall i :: 0 <= i < |at| ==> at[i] < |attrs|)
    && (forall i, j :: 0 <= i < j < |at| ==> at[i] < at[j])
    && (forall i :: 0 <= i < |at| ==>
          && copied[i].name == attrs[at[i]].name
          && !Withheld(page, tag, field, attrs[at[i]])
          && Shortens(page, attrs[at[i]], copied[i].value))
  }

  predicate NoneMissing(page: Page, tag: string, field: string, attrs: seq<Attr>, at: seq<nat>) {
    forall j :: 0 <= j < |attrs| ==> Withheld(page, tag, field, attrs[j]) || j in at
  }

  function Shifted(at: seq<nat>): (r: seq<nat>)
    ensures |r| == |at|
  {
    seq(|at|, i requires 0 <= i < |at| => at[i] + 1)
  }

  lemma ChosenLater(page: Page, tag: string, field: string, attrs: seq<Attr>, copied: seq<Attr>, at: seq<nat>)
    requires attrs != [] && Chosen(page, tag, field, attrs[1..], copied, at)
    ensures Chosen(page, tag, field, attrs, copied, Shifted(at))
  {
    hide Withheld, Shortens;
  }

  lemma ChosenFirst(page: Page, tag: string, field: string, attrs: seq<Attr>, value: string, copied: seq<Attr>, at: seq<nat>)
    requires attrs != [] && Chosen(page, tag, field, attrs[1..], copied, at)
    requires !Withheld(page, tag, field, attrs[0]) && Shortens(page, attrs[0], value)
    ensures Chosen(page, tag, field, attrs, [Attr(attrs[0].name, value)] + copied, [0] + Shifted(at))
  {
    hide Withheld, Shortens;
    var all, later := [Attr(attrs[0].name, value)] + copied, [0] + Shifted(at);
    assert all[0] == Attr(attrs[0].name, value) && later[0] == 0;
    assert forall i :: 0 < i < |later| ==> later[i] == at[i - 1] + 1 && all[i] == copied[i - 1];
    forall i, j | 0 <= i < j < |later| ensures later[i] < later[j] {
      assert i > 0 ==> at[i - 1] < at[j - 1];
    }
    forall i | 0 < i < |later| ensures attrs[later[i]] == attrs[1..][at[i - 1]] {
    }
  }

  /** What is missing from the later attributes is missing from all, the first one aside. */
  lemma MissingLater(page: Page, tag: string, field: string, attrs: seq<Attr>, at: seq<nat>, first: seq<nat>)
    requires attrs != [] && NoneMissing(page, tag, field, attrs[1..], at)
    requires first == [0] || (first == [] && Withheld(page, tag, field, attrs[0]))
    ensures NoneMissing(page, tag, field, attrs, first + Shifted(at))
  {
    hide Withheld, Shortens;
    var later := first + Shifted(at);
    forall j | 0 <= j < |attrs| ensures Withheld(page, tag, field, attrs[j]) || j in later {
      if j == 0 {
        assert first == [0] ==> later[0] == 0;
      } else {
        assert attrs[j] == attrs[1..][j - 1];
        if i :| 0 <= i < |at| && at[i] == j - 1 {
          assert later[|first| + i] == j;
        }
      }
    }
  }

  /** The first turn of the attribute walk, which copies a value if the budget covers it. */
  lemma EmitFirst(page: Page, tag: string, field: string, attrs: seq<Attr>, remaining: int) returns (value: string)
    requires 0 <= remaining && attrs != []
    ensures var a := attrs[0];
            if Withheld(page, tag, field, a) then
              && Emit(page, tag, field, attrs, remaining) == Emit(page, tag, field, attrs[1..], remaining)
              && AttrsNeed(page, tag, field, attrs) == AttrsNeed(page, tag, field, attrs[1..])
            else
              && Shortens(page, a, value)
              && var cost := 6 * (|a.name| + |value| + 8);
              && AttrsNeed(page, tag, field, attrs) == cost + AttrsNeed(page, tag, field, attrs[1..])
              && if cost + 6 * |page.lower(tag)| < remaining then
                   var rest := Emit(page, tag, field, attrs[1..], remaining - cost);
                   Emit(page, tag, field, attrs, remaining) == ([Attr(a.name, value)] + rest.0, rest.1)
                 else Emit(page, tag, field, attrs, remaining) == Emit(page, tag, field, attrs[1..], remaining)
  {
    hide SafeAttributeValue, Withheld, Shortens;
    FilterIs(page, tag, field, attrs[0]);
    var safe := SafeAttributeValue(page, tag, field, attrs[0].name, attrs[0].value);
    value := if safe.Some? then safe.value else "";
  }

  lemma NothingToChoose(page: Page, tag: string, field: string, remaining: int)
    requires 0 <= remaining
    ensures Chosen(page, tag, field, [], Emit(page, tag, field, [], remaining).0, [])
    ensures NoneMissing(page, tag, field, [], [])
  {
  }

  /** The attribute walk only chooses, and with enough budget it leaves out none. */
  lemma {:induction false} EmitChooses(page: Page, tag: string, field: string, attrs: seq<Attr>, remaining: int)
    returns (at: seq<nat>)
    requires 0 <= remaining
    ensures Chosen(page, tag, field, attrs, Emit(page, tag, field, attrs, remaining).0, at)
    ensures AttrsNeed(page, tag, field, attrs) + 6 * |page.lower(tag)| < remaining ==> NoneMissing(page, tag, field, attrs, at)
  {
    hide Emit, AttrsNeed, Withheld, Shortens, Chosen, NoneMissing;
    if attrs == [] {
      at := [];
      NothingToChoose(page, tag, field, remaining);
    } else {
      var value := EmitFirst(page, tag, field, attrs, remaining);
      var a := attrs[0];
      if Withheld(page, tag, field, a) {
        var later := EmitChooses(page, tag, field, attrs[1..], remaining);
        ChosenLater(page, tag, field, attrs, Emit(page, tag, field, attrs[1..], remaining).0, later);
        at := Shifted(later);
        assert [] + at == at;
        if NoneMissing(page, tag, field, attrs[1..], later) { MissingLater(page, tag, field, attrs, later, []); }
      } else {
        var cost := 6 * (|a.name| + |value| + 8);
        if cost + 6 * |page.lower(tag)| < remaining {
          var later := EmitChooses(page, tag, field, attrs[1..], remaining - cost);
          ChosenFirst(page, tag, field, attrs, value, Emit(page, tag, field, attrs[1..], remaining - cost).0, later);
          at := [0] + Shifted(later);
          if NoneMissing(page, tag, field, attrs[1..], later) { MissingLater(page, tag, field, attrs, later, [0]); }
        } else {
          var later := EmitChooses(page, tag, field, attrs[1..], remaining);
          ChosenLater(page, tag, field, attrs, Emit(page, tag, field, attrs[1..], remaining).0, later);
          at := Shifted(later);
        }
      }
    }
  }

  // ---- Whole trees ---------------------------------------------------------------------------------------

  ghost predicate AttrsAbridge(page: Page, tag: string, attrs: seq<Attr>, copied: seq<Attr>) {
    exists field, at :: IsField(attrs, field) && Chosen(page, tag, field, attrs, copied, at)
  }

  ghost predicate AttrsComplete(page: Page, tag: string, attrs: seq<Attr>, copied: seq<Attr>) {
    exists field, at ::
      IsField(attrs, field) && Chosen(page, tag, field, attrs, copied, at) && NoneMissing(page, tag, field, attrs, at)
  }

  lemma EmitAbridges(page: Page, tag: string, attrs: seq<Attr>, remaining: int)
    requires 0 <= remaining
    ensures AttrsAbridge(page, tag, attrs, Emit(page, tag, FieldName(attrs), attrs, remaining).0)
    ensures AttrsNeed(page, tag, FieldName(attrs), attrs) + 6 * |page.lower(tag)| < remaining ==>
              AttrsComplete(page, tag, attrs, Emit(page, tag, FieldName(attrs), attrs, remaining).0)
  {
    hide Emit, AttrsNeed, FieldName, Chosen, NoneMissing, IsField;
    FieldNameIs(attrs);
    var at := EmitChooses(page, tag, FieldName(attrs), attrs, remaining);
  }

  /**
   * The copy shows nothing of the source but beginnings of its texts, elements that are no scripts,
   * and attributes that may leave the page; nothing inside a text area.
   */
  ghost predicate Abridges(page: Page, source: Node, copy: Node)
    decreases source
  {
    match source
    case TextNode(text) => copy.TextNode? && copy.text != "" && copy.text <= text
    case Other => false
    case Element(tag, attrs, kids) =>
      && page.lower(tag) !in {"", "script", "noscript"}
      && copy.Element? && copy.tag == tag
      && AttrsAbridge(page, tag, attrs, copy.attrs)
      && match kids
         case ChildNodes(nodes) =>
           && copy.kids.ChildNodes?
           && if page.lower(tag) == "textarea" then copy.kids.nodes == [] else AllAbridge(page, nodes, copy.kids.nodes)
         case Flat(text, children) =>
           && copy.kids.Flat? && copy.kids.text <= text
           && if page.lower(tag) == "textarea" then copy.kids == Flat("", [])
              else AllAbridge(page, children, copy.kids.children)
  }

  /** The copies show some of the sources, in their order. */
  ghost predicate AllAbridge(page: Page, sources: seq<Node>, copies: seq<Node>)
    decreases sources
  {
    if sources == [] then copies == []
    else
      || (copies != [] && Abridges(page, sources[0], copies[0]) && AllAbridge(page, sources[1..], copies[1..]))
      || AllAbridge(page, sources[1..], copies)
  }

  /** Whatever the budget, the copy of a tree is an abridgement of it. */
  lemma {:induction false} SanitizeAbridges(page: Page, source: Node, s: State, depth: nat)
    requires 0 <= s.remaining
    ensures var copy := Sanitize(page, source, s, depth).0; copy.Some? ==> Abridges(page, source, copy.value)
    decreases source
  {
    hide Emit, FieldName, AttrsAbridge, AttrsComplete, AttrsNeed;
    match source
    case Element(tag, attrs, kids) =>
      if depth <= MAX_DEPTH && s.nodes < MAX_NODES && !Dropped(page, tag) {
        EmitAbridges(page, tag, attrs, s.remaining);
        var left := Emit(page, tag, FieldName(attrs), attrs, s.remaining).1;
        var entered := State(s.nodes + 1, left);
        if page.lower(tag) != "textarea" {
          match kids
          case ChildNodes(nodes) => SanitizeAllAbridge(page, nodes, entered, depth + 1);
          case Flat(text, children) =>
            SanitizeAllAbridge(page, children, entered.(remaining := left - 6 * Allowed(text, left)), depth + 1);
        }
      }
    case _ =>
  }

  lemma {:induction false} NoneAbridge(page: Page, sources: seq<Node>)
    ensures AllAbridge(page, sources, [])
  {
    if sources != [] { NoneAbridge(page, sources[1..]); }
  }

  lemma {:induction false} SanitizeAllAbridge(page: Page, sources: seq<Node>, s: State, depth: nat)
    requires 0 <= s.remaining
    ensures AllAbridge(page, sources, SanitizeAll(page, sources, s, depth).0)
    decreases sources
  {
    hide Sanitize, Abridges;
    if sources != [] {
      SanitizeAbridges(page, sources[0], s, depth);
      var (copy, t) := Sanitize(page, sources[0], s, depth);
      if t.remaining > 0 { SanitizeAllAbridge(page, sources[1..], t, depth); } else { NoneAbridge(page, sources[1..]); }
      var rest := if t.remaining <= 0 then [] else SanitizeAll(page, sources[1..], t, depth).0;
      if copy.Some? {
        assert SanitizeAll(page, sources, s, depth).0 == [copy.value] + rest;
        assert ([copy.value] + rest)[1..] == rest;
      } else {
        assert SanitizeAll(page, sources, s, depth).0 == [] + rest == rest;
      }
    }
  }

  // ---- What such a copy cannot show ------------------------------------------------------------------------

  /** Seen on the copy alone: no form state, styles, hashes or secrets, and no long values. */
  predicate PresentableAttr(page: Page, tag: string, a: Attr) {
    && page.lower(a.name) != "style" && page.lower(a.name) != "value" && page.lower(a.name) != "integrity"
    && !page.sensitive(a.name)
    && (page.lower(tag) == "input" ==> page.lower(a.name) != "checked" && page.lower(a.name) != "selected")
    && (page.lower(tag) == "option" ==> page.lower(a.name) != "selected")
    && |a.value| <= 4096
  }

  predicate Presentable(page: Page, node: Node)
    decreases node
  {
    match node
    case TextNode(text) => text != ""
    case Other => false
    case Element(tag, attrs, kids) =>
      && page.lower(tag) != "script" && page.lower(tag) != "noscript" && page.lower(tag) != ""
      && (forall i :: 0 <= i < |attrs| ==> PresentableAttr(page, tag, attrs[i]))
      && match kids
         case ChildNodes(nodes) => AllPresentable(page, nodes)
         case Flat(_, children) => AllPresentable(page, children)
  }

  predicate AllPresentable(page: Page, nodes: seq<Node>)
    decreases nodes
  {
    nodes == [] || (Presentable(page, nodes[0]) && AllPresentable(page, nodes[1..]))
  }

  lemma AbridgedAttrIsPresentable(page: Page, tag: string, attrs: seq<Attr>, copied: seq<Attr>, i: nat)
    requires AttrsAbridge(page, tag, attrs, copied) && i < |copied|
    ensures PresentableAttr(page, tag, copied[i])
  {
    hide IsField;
    var field, at :| IsField(attrs, field) && Chosen(page, tag, field, attrs, copied, at);
    assert !Withheld(page, tag, field, attrs[at[i]]) && Shortens(page, attrs[at[i]], copied[i].value);
  }

  lemma {:induction false} AbridgedIsPresentable(page: Page, source: Node, copy: Node)
    requires Abridges(page, source, copy)
    ensures Presentable(page, copy)
    decreases source
  {
    hide AttrsAbridge, PresentableAttr;
    match source
    case Element(tag, attrs, kids) =>
      forall i | 0 <= i < |copy.attrs| ensures PresentableAttr(page, tag, copy.attrs[i]) {
        AbridgedAttrIsPresentable(page, tag, attrs, copy.attrs, i);
      }
      if page.lower(tag) != "textarea" {
        match kids
        case ChildNodes(nodes) => AbridgedArePresentable(page, nodes, copy.kids.nodes);
        case Flat(_, children) => AbridgedArePresentable(page, children, copy.kids.children);
      }
    case _ =>
  }

  lemma {:induction false} AbridgedArePresentable(page: Page, sources: seq<Node>, copies: seq<Node>)
    requires AllAbridge(page, sources, copies)
    ensures AllPresentable(page, copies)
    decreases sources
  {
    hide Abridges, Presentable;
    if sources != [] {
      if copies != [] && Abridges(page, sources[0], copies[0]) && AllAbridge(page, sources[1..], copies[1..]) {
        AbridgedIsPresentable(page, sources[0], copies[0]);
        AbridgedArePresentable(page, sources[1..], copies[1..]);
      } else {
        AbridgedArePresentable(page, sources[1..], copies);
      }
    }
  }

  // ---- Nothing else is left out ------------------------------------------------------------------------------

  predicate Shown(page: Page, node: Node) {
    match node
    case TextNode(text) => text != ""
    case Other => false
    case Element(tag, _, _) => page.lower(tag) !in {"", "script", "noscript"}
  }

  /** All texts in full, all elements that are no scripts, and all attributes that may leave the page. */
  ghost predicate Complete(page: Page, source: Node, copy: Node)
    decreases source
  {
    match source
    case TextNode(text) => copy == source
    case Other => false
    case Element(tag, attrs, kids) =>
      && copy.Element? && copy.tag == tag
      && AttrsComplete(page, tag, attrs, copy.attrs)
      && (page.lower(tag) != "textarea" ==>
            match kids
            case ChildNodes(nodes) => copy.kids.ChildNodes? && AllComplete(page, nodes, copy.kids.nodes)
            case Flat(text, children) =>
              copy.kids.Flat? && copy.kids.text == text && AllComplete(page, children, copy.kids.children))
  }

  ghost predicate AllComplete(page: Page, sources: seq<Node>, copies: seq<Node>)
    decreases sources
  {
    if sources == [] then copies == []
    else if !Shown(page, sources[0]) then AllComplete(page, sources[1..], copies)
    else copies != [] && Complete(page, sources[0], copies[0]) && AllComplete(page, sources[1..], copies[1..])
  }

  /** Nothing that can be shown lies deeper than 128 levels. */
  predicate Near(page: Page, node: Node, depth: nat)
    decreases node
  {
    Shown(page, node) ==>
      && depth <= 128
      && match node
         case Element(tag, _, ChildNodes(nodes)) => page.lower(tag) == "textarea" || AllNear(page, nodes, depth + 1)
         case Element(tag, _, Flat(_, children)) => page.lower(tag) == "textarea" || AllNear(page, children, depth + 1)
         case _ => true
  }

  predicate AllNear(page: Page, nodes: seq<Node>, depth: nat)
    decreases nodes
  {
    nodes == [] || (Near(page, nodes[0], depth) && AllNear(page, nodes[1..], depth))
  }

  /** While no limit is met, a copy is taken of everything that can be shown, and it is complete. */
  lemma {:induction false} SanitizeCompletes(page: Page, source: Node, s: State, depth: nat)
    requires Need(page, source) < s.remaining && s.nodes + Entered(page, source) < 8192 && Near(page, source, depth)
    ensures var copy := Sanitize(page, source, s, depth).0;
            (copy.Some? <==> Shown(page, source)) && (copy.Some? ==> Complete(page, source, copy.value))
    decreases source
  {
    hide Emit, FieldName, AttrsAbridge, AttrsComplete, AttrsNeed;
    match source
    case Element(tag, attrs, kids) =>
      if !Dropped(page, tag) {
        EmitAbridges(page, tag, attrs, s.remaining);
        EmitSpends(page, tag, FieldName(attrs), attrs, s.remaining);
        var left := Emit(page, tag, FieldName(attrs), attrs, s.remaining).1;
        var entered := State(s.nodes + 1, left);
        if page.lower(tag) != "textarea" {
          match kids
          case ChildNodes(nodes) => SanitizeAllComplete(page, nodes, entered, depth + 1);
          case Flat(text, children) =>
            SanitizeAllComplete(page, children, entered.(remaining := left - 6 * Allowed(text, left)), depth + 1);
        }
      }
    case _ =>
  }

  lemma {:induction false} SanitizeAllComplete(page: Page, sources: seq<Node>, s: State, depth: nat)
    requires NeedAll(page, sources) < s.remaining && s.nodes + EnteredAll(page, sources) < 8192
    requires AllNear(page, sources, depth)
    ensures AllComplete(page, sources, SanitizeAll(page, sources, s, depth).0)
    decreases sources
  {
    hide Sanitize, Complete, Shown, Need, Entered, Near;
    if sources != [] {
      SanitizeCompletes(page, sources[0], s, depth);
      SpendsAtMost(page, sources[0], s, depth);
      var (copy, t) := Sanitize(page, sources[0], s, depth);
      SanitizeAllComplete(page, sources[1..], t, depth);
      var rest := SanitizeAll(page, sources[1..], t, depth).0;
      if copy.Some? {
        assert SanitizeAll(page, sources, s, depth).0 == [copy.value] + rest;
        assert ([copy.value] + rest)[1..] == rest;
      } else {
        assert SanitizeAll(page, sources, s, depth).0 == [] + rest == rest;
      }
    }
  }

  // ---- The copy of a document ----------------------------------------------------------------------------------

  /** The characters that a tree's texts and attributes hold. */
  function Characters(node: Node): nat
    decreases node
  {
    match node
    case TextNode(text) => |text|
    case Other => 0
    case Element(_, attrs, ChildNodes(nodes)) => AttrCharacters(attrs) + AllCharacters(nodes)
    case Element(_, attrs, Flat(text, children)) => AttrCharacters(attrs) + |text| + AllCharacters(children)
  }

  function AllCharacters(nodes: seq<Node>): nat
    decreases nodes
  {
    if nodes == [] then 0 else Characters(nodes[0]) + AllCharacters(nodes[1..])
  }

  function AttrCharacters(attrs: seq<Attr>): nat {
    if attrs == [] then 0 else |attrs[0].name| + |attrs[0].value| + AttrCharacters(attrs[1..])
  }

  function Attributes(node: Node): nat
    decreases node
  {
    match node
    case Element(_, attrs, ChildNodes(nodes)) => |attrs| + AllAttributes(nodes)
    case Element(_, attrs, Flat(_, children)) => |attrs| + AllAttributes(children)
    case _ => 0
  }

  function AllAttributes(nodes: seq<Node>): nat
    decreases nodes
  {
    if nodes == [] then 0 else Attributes(nodes[0]) + AllAttributes(nodes[1..])
  }

  lemma {:induction false} AttrsCostIs(attrs: seq<Attr>)
    ensures AttrsCost(attrs) == 6 * AttrCharacters(attrs) + 48 * |attrs|
  {
    if attrs != [] { AttrsCostIs(attrs[1..]); }
  }

  lemma {:induction false} CostIs(node: Node)
    ensures Cost(node) == 6 * Characters(node) + 48 * Attributes(node)
    decreases node
  {
    match node
    case Element(_, attrs, ChildNodes(nodes)) =>
      AttrsCostIs(attrs);
      CostsAre(nodes);
    case Element(_, attrs, Flat(_, children)) =>
      AttrsCostIs(attrs);
      CostsAre(children);
    case _ =>
  }

  lemma {:induction false} CostsAre(nodes: seq<Node>)
    ensures CostAll(nodes) == 6 * AllCharacters(nodes) + 48 * AllAttributes(nodes)
    decreases nodes
  {
    hide Cost, Characters, Attributes;
    if nodes != [] {
      CostIs(nodes[0]);
      CostsAre(nodes[1..]);
    }
  }

  /**
   * The snapshot of a document: an abridgement within two million units, at six for a character and
   * 48 more for an attribute, of at most 8192 elements and 128 levels; and complete if all of it fits.
   */
  lemma SnapshotIs(page: Page, root: Node)
    ensures var (copy, t) := Sanitize(page, root, State(0, MAX_CHARS), 0);
            && (copy.Some? ==>
                  && Abridges(page, root, copy.value) && Presentable(page, copy.value)
                  && 6 * Characters(copy.value) + 48 * Attributes(copy.value) == 2000000 - t.remaining < 2000000
                  && Elements(copy.value) <= 8192 && Clean(page, copy.value, 128))
            && (Need(page, root) < 2000000 && Entered(page, root) < 8192 && Near(page, root, 0) ==>
                  (copy.Some? <==> Shown(page, root)) && (copy.Some? ==> Complete(page, root, copy.value)))
  {
    hide Sanitize, Abridges, Presentable, Complete, Need, Entered, Near, Shown, Clean, Cost, Characters, Attributes, Elements;
    var copy := Sanitize(page, root, State(0, MAX_CHARS), 0).0;
    SnapshotBounds(page, root);
    SanitizeAbridges(page, root, State(0, MAX_CHARS), 0);
    if copy.Some? {
      AbridgedIsPresentable(page, root, copy.value);
      CostIs(copy.value);
    }
    if Need(page, root) < 2000000 && Entered(page, root) < 8192 && Near(page, root, 0) {
      SanitizeCompletes(page, root, State(0, MAX_CHARS), 0);
    }
  }
}

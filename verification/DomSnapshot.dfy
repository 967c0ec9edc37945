/**
 * The bounded copy of a document that the extension takes: a recursive walk that
 * threads a mutable node count and character budget.
 */
module DomSnapshot {
  import opened Common

  const MAX_NODES := 8192
  const MAX_DEPTH := 128
  const MAX_VALUE := 4096
  const MAX_CHARS := 2000000

  datatype Attr = Attr(name: string, value: string)

  /** `Other` stands for comments and the like; test doubles may lack `childNodes`. */
  datatype Node =
    | TextNode(text: string)
    | Element(tag: string, attrs: seq<Attr>, kids: Kids)
    | Other

  datatype Kids = ChildNodes(nodes: seq<Node>) | Flat(text: string, children: seq<Node>)

  /** Case folding, the patterns and URL parsing of the page, left uninterpreted. */
  datatype Page = Page(
    lower: string -> string,
    sensitive: string -> bool,
    urlAttribute: string -> bool,
    unsafeScheme: string -> bool,
    rewrite: string -> Option<string>,
    cutQuery: string -> string)

  datatype State = State(nodes: nat, remaining: int)

  function Min(x: int, y: int): int { if x < y then x else y }

  function Cut(s: string): string { s[..Min(|s|, MAX_VALUE)] }

  /** The value of the first attribute called "name", or the empty string. */
  function FieldName(attrs: seq<Attr>): string {
    if attrs == [] then "" else if attrs[0].name == "name" then attrs[0].value else FieldName(attrs[1..])
  }

  function SafeAttributeValue(page: Page, tag: string, field: string, name: string, value: string): Option<string> {
    var n := page.lower(name);
    var t := page.lower(tag);
    if n == "style" || n == "value" || n == "integrity" || page.sensitive(name) then None
    else if t == "input" && (n == "checked" || n == "selected") then None
    else if t == "option" && n == "selected" then None
    else if t == "meta" && n == "content" && page.sensitive(field) then None
    else if !page.urlAttribute(n) then Some(Cut(value))
    else if page.unsafeScheme(value) then None
    else match page.rewrite(value)
         case Some(url) => Some(Cut(url))
         case None => Some(Cut(page.cutQuery(value)))
  }

  // ---- The walk as a function --------------------------------------------------------------------------

  function AttrCost(name: string, value: string): int { (|name| + |value| + 8) * 6 }

  /** Attributes are copied while the budget covers them, the tag name included. */
  function Emit(page: Page, tag: string, field: string, attrs: seq<Attr>, remaining: int)
    : (r: (seq<Attr>, int))
    requires 0 <= remaining
    ensures 0 <= r.1 <= remaining
  {
    if attrs == [] then ([], remaining)
    else
      var name := attrs[0].name;
      var safe := SafeAttributeValue(page, tag, field, name, attrs[0].value);
      if safe.Some? && remaining > (|name| + |safe.value| + |page.lower(tag)| + 8) * 6 then
        var (rest, left) := Emit(page, tag, field, attrs[1..], remaining - AttrCost(name, safe.value));
        ([Attr(name, safe.value)] + rest, left)
      else Emit(page, tag, field, attrs[1..], remaining)
  }

  /** How many characters of a text the budget allows. */
  function Allowed(text: string, remaining: int): int { Min(|text|, remaining / 6) }

  predicate Dropped(page: Page, tag: string) {
    page.lower(tag) in {"", "script", "noscript"}
  }

  function Sanitize(page: Page, source: Node, s: State, depth: nat): (r: (Option<Node>, State))
    requires 0 <= s.remaining
    ensures 0 <= r.1.remaining <= s.remaining
    decreases source
  {
    if depth > MAX_DEPTH || s.nodes >= MAX_NODES then (None, s)
    else match source
      case TextNode(text) =>
        var allowed := Allowed(text, s.remaining);
        if allowed <= 0 then (None, s)
        else (Some(TextNode(text[..allowed])), s.(remaining := s.remaining - 6 * allowed))
      case Other => (None, s)
      case Element(tag, attrs, kids) =>
        if Dropped(page, tag) then (None, s)
        else
          var (copied, left) := Emit(page, tag, FieldName(attrs), attrs, s.remaining);
          var entered := State(s.nodes + 1, left);
          if page.lower(tag) == "textarea" then
            (Some(Element(tag, copied, if kids.Flat? then Flat("", []) else ChildNodes([]))), entered)
          else match kids
            case ChildNodes(nodes) =>
              var (inner, t) := SanitizeAll(page, nodes, entered, depth + 1);
              (Some(Element(tag, copied, ChildNodes(inner))), t)
            case Flat(text, children) =>
              var allowed := Allowed(text, left);
              var (inner, t) := SanitizeAll(page, children, entered.(remaining := left - 6 * allowed), depth + 1);
              (Some(Element(tag, copied, Flat(text[..allowed], inner))), t)
  }

  /** Children in order, until the budget is used up. */
  function SanitizeAll(page: Page, sources: seq<Node>, s: State, depth: nat): (r: (seq<Node>, State))
    requires 0 <= s.remaining
    ensures 0 <= r.1.remaining <= s.remaining
    decreases sources
  {
    if sources == [] then ([], s)
    else
      var (copy, t) := Sanitize(page, sources[0], s, depth);
      var first := if copy.Some? then [copy.value] else [];
      if t.remaining <= 0 then (first, t)
      else
        var (rest, u) := SanitizeAll(page, sources[1..], t, depth);
        (first + rest, u)
  }

  // ---- Conservation ------------------------------------------------------------------------------------

  function AttrsCost(attrs: seq<Attr>): int {
    if attrs == [] then 0 else AttrCost(attrs[0].name, attrs[0].value) + AttrsCost(attrs[1..])
  }

  /** Six budget units for every character of text and for every attribute's name, value and frame. */
  function Cost(node: Node): int
    decreases node
  {
    match node
    case TextNode(text) => 6 * |text|
    case Other => 0
    case Element(_, attrs, ChildNodes(nodes)) => AttrsCost(attrs) + CostAll(nodes)
    case Element(_, attrs, Flat(text, children)) => AttrsCost(attrs) + 6 * |text| + CostAll(children)
  }

  function CostAll(nodes: seq<Node>): int
    decreases nodes
  {
    if nodes == [] then 0 else Cost(nodes[0]) + CostAll(nodes[1..])
  }

  function Elements(node: Node): nat
    decreases node
  {
    match node
    case Element(_, _, ChildNodes(nodes)) => 1 + ElementsAll(nodes)
    case Element(_, _, Flat(_, children)) => 1 + ElementsAll(children)
    case _ => 0
  }

  function ElementsAll(nodes: seq<Node>): nat
    decreases nodes
  {
    if nodes == [] then 0 else Elements(nodes[0]) + ElementsAll(nodes[1..])
  }

  /** Everywhere: no dropped tag, nothing inside a textarea, and nothing deeper than `depth` more levels. */
  predicate Clean(page: Page, node: Node, depth: int)
    decreases node
  {
    match node
    case TextNode(text) => depth >= 0 && text != ""
    case Other => false
    case Element(tag, _, kids) =>
      && depth >= 0 && !Dropped(page, tag)
      && (page.lower(tag) == "textarea" ==> kids == ChildNodes([]) || kids == Flat("", []))
      && match kids
         case ChildNodes(nodes) => CleanAll(page, nodes, depth - 1)
         case Flat(_, children) => CleanAll(page, children, depth - 1)
  }

  predicate CleanAll(page: Page, nodes: seq<Node>, depth: int)
    decreases nodes
  {
    nodes == [] || (Clean(page, nodes[0], depth) && CleanAll(page, nodes[1..], depth))
  }

  lemma {:induction false} EmitConserves(page: Page, tag: string, field: string, attrs: seq<Attr>, remaining: int)
    requires 0 <= remaining
    ensures var (copied, left) := Emit(page, tag, field, attrs, remaining);
            remaining - left == AttrsCost(copied)
  {
    if attrs != [] {
      var name := attrs[0].name;
      var safe := SafeAttributeValue(page, tag, field, name, attrs[0].value);
      if safe.Some? && remaining > (|name| + |safe.value| + |page.lower(tag)| + 8) * 6 {
        EmitConserves(page, tag, field, attrs[1..], remaining - AttrCost(name, safe.value));
      } else {
        EmitConserves(page, tag, field, attrs[1..], remaining);
      }
    }
  }

  /** What the walk promises about one visited node. */
  predicate Accounted(page: Page, copy: Option<Node>, s: State, t: State, depth: nat) {
    if copy.None? then t == s
    else
      && s.remaining - t.remaining == Cost(copy.value)
      && t.nodes - s.nodes == Elements(copy.value)
      && t.nodes <= MAX_NODES
      && depth <= MAX_DEPTH
      && Clean(page, copy.value, MAX_DEPTH - depth)
  }

  predicate AccountedAll(page: Page, copies: seq<Node>, s: State, t: State, depth: nat) {
    && s.remaining - t.remaining == CostAll(copies)
    && t.nodes - s.nodes == ElementsAll(copies)
    && t.nodes <= MAX_NODES
    && CleanAll(page, copies, MAX_DEPTH - depth)
  }

  /** Budget spent is exactly what the copy costs; node count, depth and content stay in bounds. */
  lemma {:induction false} SanitizeConserves(page: Page, source: Node, s: State, depth: nat)
    requires 0 <= s.remaining && s.nodes <= MAX_NODES
    ensures var (copy, t) := Sanitize(page, source, s, depth); Accounted(page, copy, s, t, depth)
    decreases source
  {
    hide Emit, SafeAttributeValue, FieldName;
    match source
    case Element(tag, attrs, kids) =>
      if depth <= MAX_DEPTH && s.nodes < MAX_NODES && !Dropped(page, tag) {
        EmitConserves(page, tag, FieldName(attrs), attrs, s.remaining);
        var (copied, left) := Emit(page, tag, FieldName(attrs), attrs, s.remaining);
        var entered := State(s.nodes + 1, left);
        if page.lower(tag) != "textarea" {
          match kids
          case ChildNodes(nodes) => SanitizeAllConserves(page, nodes, entered, depth + 1);
          case Flat(text, children) =>
            SanitizeAllConserves(page, children, entered.(remaining := left - 6 * Allowed(text, left)), depth + 1);
        } else {
          var bare := if kids.Flat? then Flat("", []) else ChildNodes([]);
          assert Cost(Element(tag, copied, bare)) == AttrsCost(copied);
          assert Elements(Element(tag, copied, bare)) == 1;
          assert Clean(page, Element(tag, copied, bare), MAX_DEPTH - depth);
          assert Sanitize(page, source, s, depth) == (Some(Element(tag, copied, bare)), entered);
        }
      }
    case _ =>
  }

  lemma {:induction false} SanitizeAllConserves(page: Page, sources: seq<Node>, s: State, depth: nat)
    requires 0 <= s.remaining && s.nodes <= MAX_NODES
    ensures var (copies, t) := SanitizeAll(page, sources, s, depth); AccountedAll(page, copies, s, t, depth)
    decreases sources
  {
    if sources != [] {
      SanitizeConserves(page, sources[0], s, depth);
      var (copy, t) := Sanitize(page, sources[0], s, depth);
      if t.remaining > 0 {
        SanitizeAllConserves(page, sources[1..], t, depth);
      }
      var rest := if t.remaining <= 0 then [] else SanitizeAll(page, sources[1..], t, depth).0;
      if copy.Some? {
        assert SanitizeAll(page, sources, s, depth).0 == [copy.value] + rest;
        assert ([copy.value] + rest)[1..] == rest;
      } else {
        assert SanitizeAll(page, sources, s, depth).0 == [] + rest == rest;
      }
    }
  }

  lemma {:induction false} AttrsCostInSixes(attrs: seq<Attr>)
    ensures AttrsCost(attrs) % 6 == 0
  {
    if attrs != [] { AttrsCostInSixes(attrs[1..]); }
  }

  lemma {:induction false} CostInSixes(node: Node)
    ensures Cost(node) % 6 == 0
    decreases node
  {
    match node
    case Element(_, attrs, ChildNodes(nodes)) =>
      AttrsCostInSixes(attrs);
      CostAllInSixes(nodes);
    case Element(_, attrs, Flat(_, children)) =>
      AttrsCostInSixes(attrs);
      CostAllInSixes(children);
    case _ =>
  }

  lemma {:induction false} CostAllInSixes(nodes: seq<Node>)
    ensures CostAll(nodes) % 6 == 0
    decreases nodes
  {
    hide Cost;
    if nodes != [] {
      CostInSixes(nodes[0]);
      CostAllInSixes(nodes[1..]);
      assert CostAll(nodes) == Cost(nodes[0]) + CostAll(nodes[1..]);
    }
  }

  /**
   * The snapshot of a whole document. The budget is spent in sixes from a start that is not a
   * multiple of six, so it never reaches zero and the walk never stops early over its children.
   */
  lemma SnapshotBounds(page: Page, root: Node)
    ensures var (copy, t) := Sanitize(page, root, State(0, MAX_CHARS), 0);
            && t.remaining >= 2
            && (copy.Some? ==>
                  && Cost(copy.value) == MAX_CHARS - t.remaining
                  && Elements(copy.value) == t.nodes <= MAX_NODES
                  && Clean(page, copy.value, MAX_DEPTH))
  {
    SanitizeConserves(page, root, State(0, MAX_CHARS), 0);
    var copy := Sanitize(page, root, State(0, MAX_CHARS), 0).0;
    if copy.Some? { CostInSixes(copy.value); }
  }

  // ---- Sanitizing a sanitized tree --------------------------------------------------------------------

  /** The filter passes every attribute of the element unchanged. */
  predicate Settled(page: Page, tag: string, field: string, attrs: seq<Attr>) {
    forall i :: 0 <= i < |attrs| ==>
      SafeAttributeValue(page, tag, field, attrs[i].name, attrs[i].value) == Some(attrs[i].value)
  }

  predicate Stable(page: Page, node: Node)
    decreases node
  {
    match node
    case Element(tag, attrs, ChildNodes(nodes)) =>
      Settled(page, tag, FieldName(attrs), attrs) && StableAll(page, nodes)
    case Element(tag, attrs, Flat(_, children)) =>
      Settled(page, tag, FieldName(attrs), attrs) && StableAll(page, children)
    case _ => true
  }

  predicate StableAll(page: Page, nodes: seq<Node>)
    decreases nodes
  {
    nodes == [] || (Stable(page, nodes[0]) && StableAll(page, nodes[1..]))
  }

  /** Emitting what was emitted, from the same budget, changes nothing and leaves the same budget. */
  lemma {:induction false} EmitAgain(page: Page, tag: string, field: string, field': string, attrs: seq<Attr>, remaining: int)
    requires 0 <= remaining
    requires Settled(page, tag, field', Emit(page, tag, field, attrs, remaining).0)
    ensures var r := Emit(page, tag, field, attrs, remaining); Emit(page, tag, field', r.0, remaining) == r
  {
    hide SafeAttributeValue;
    if attrs != [] {
      var name := attrs[0].name;
      var safe := SafeAttributeValue(page, tag, field, name, attrs[0].value);
      if safe.Some? && remaining > (|name| + |safe.value| + |page.lower(tag)| + 8) * 6 {
        var (rest, left) := Emit(page, tag, field, attrs[1..], remaining - AttrCost(name, safe.value));
        var all := [Attr(name, safe.value)] + rest;
        assert Emit(page, tag, field, attrs, remaining).0 == all;
        assert all[0] == Attr(name, safe.value) && all[1..] == rest;
        assert forall i :: 0 <= i < |rest| ==> rest[i] == all[i + 1];
        EmitAgain(page, tag, field, field', attrs[1..], remaining - AttrCost(name, safe.value));
      } else {
        EmitAgain(page, tag, field, field', attrs[1..], remaining);
      }
    }
  }

  /** Both passes see the same node count and budget at every node that survives. */
  lemma {:induction false} SanitizeAgain(page: Page, source: Node, s: State, depth: nat)
    requires 0 <= s.remaining
    requires var copy := Sanitize(page, source, s, depth).0; copy.Some? && Stable(page, copy.value)
    ensures var (copy, t) := Sanitize(page, source, s, depth);
            Sanitize(page, copy.value, s, depth) == (copy, t)
    decreases source
  {
    hide Emit, SafeAttributeValue, FieldName, Settled;
    match source
    case TextNode(text) =>
      var kept := text[..Allowed(text, s.remaining)];
      assert Allowed(kept, s.remaining) == |kept| && kept[..|kept|] == kept;
    case Element(tag, attrs, kids) =>
      var (copied, left) := Emit(page, tag, FieldName(attrs), attrs, s.remaining);
      EmitAgain(page, tag, FieldName(attrs), FieldName(copied), attrs, s.remaining);
      var entered := State(s.nodes + 1, left);
      if page.lower(tag) != "textarea" {
        match kids
        case ChildNodes(nodes) => SanitizeAllAgain(page, nodes, entered, depth + 1);
        case Flat(text, children) =>
          var kept := text[..Allowed(text, left)];
          assert Allowed(kept, left) == |kept| && kept[..|kept|] == kept;
          SanitizeAllAgain(page, children, entered.(remaining := left - 6 * Allowed(text, left)), depth + 1);
      }
  }

  lemma {:induction false} SanitizeAllAgain(page: Page, sources: seq<Node>, s: State, depth: nat)
    requires 0 <= s.remaining && StableAll(page, SanitizeAll(page, sources, s, depth).0)
    ensures var r := SanitizeAll(page, sources, s, depth); SanitizeAll(page, r.0, s, depth) == r
    decreases sources
  {
    if sources != [] {
      var (copy, t) := Sanitize(page, sources[0], s, depth);
      var rest := if t.remaining <= 0 then [] else SanitizeAll(page, sources[1..], t, depth).0;
      var all := SanitizeAll(page, sources, s, depth).0;
      if copy.Some? {
        assert all == [copy.value] + rest;
        assert all[0] == copy.value && all[1..] == rest;
        SanitizeAgain(page, sources[0], s, depth);
        if t.remaining > 0 { SanitizeAllAgain(page, sources[1..], t, depth); }
      } else {
        assert all == [] + rest == rest;
        if t.remaining > 0 { SanitizeAllAgain(page, sources[1..], t, depth); }
      }
    }
  }

  lemma {:induction false} EmitShrinks(page: Page, tag: string, field: string, attrs: seq<Attr>, remaining: int)
    requires 0 <= remaining
    ensures var copied := Emit(page, tag, field, attrs, remaining).0;
            |copied| <= |attrs| && (copied == attrs ==> Settled(page, tag, field, attrs))
  {
    if attrs != [] {
      var name := attrs[0].name;
      var safe := SafeAttributeValue(page, tag, field, name, attrs[0].value);
      if safe.Some? && remaining > (|name| + |safe.value| + |page.lower(tag)| + 8) * 6 {
        var rest := Emit(page, tag, field, attrs[1..], remaining - AttrCost(name, safe.value)).0;
        EmitShrinks(page, tag, field, attrs[1..], remaining - AttrCost(name, safe.value));
        assert ([Attr(name, safe.value)] + rest)[1..] == rest;
        assert attrs == [attrs[0]] + attrs[1..];
        assert Emit(page, tag, field, attrs, remaining).0 == attrs ==>
          Attr(name, safe.value) == attrs[0] && rest == attrs[1..];
      } else {
        EmitShrinks(page, tag, field, attrs[1..], remaining);
      }
    }
  }

  /** A node that the walk reproduces has only attributes that the filter passes unchanged. */
  lemma {:induction false} ReproducedIsStable(page: Page, node: Node, s: State, depth: nat)
    requires 0 <= s.remaining && Sanitize(page, node, s, depth).0 == Some(node)
    ensures Stable(page, node)
    decreases node
  {
    hide Emit, SafeAttributeValue, FieldName, Settled;
    match node
    case Element(tag, attrs, kids) =>
      EmitShrinks(page, tag, FieldName(attrs), attrs, s.remaining);
      var left := Emit(page, tag, FieldName(attrs), attrs, s.remaining).1;
      var entered := State(s.nodes + 1, left);
      if page.lower(tag) != "textarea" {
        match kids
        case ChildNodes(nodes) => ReproducedAllStable(page, nodes, entered, depth + 1);
        case Flat(text, children) =>
          ReproducedAllStable(page, children, entered.(remaining := left - 6 * Allowed(text, left)), depth + 1);
      }
    case _ =>
  }

  lemma {:induction false} ReproducedAllStable(page: Page, nodes: seq<Node>, s: State, depth: nat)
    requires 0 <= s.remaining
    ensures var copies := SanitizeAll(page, nodes, s, depth).0;
            |copies| <= |nodes| && (copies == nodes ==> StableAll(page, nodes))
    decreases nodes
  {
    if nodes != [] {
      var (copy, t) := Sanitize(page, nodes[0], s, depth);
      ReproducedAllStable(page, nodes[1..], t, depth);
      var first := if copy.Some? then [copy.value] else [];
      var rest := if t.remaining <= 0 then [] else SanitizeAll(page, nodes[1..], t, depth).0;
      assert SanitizeAll(page, nodes, s, depth).0 == first + rest;
      assert nodes == [nodes[0]] + nodes[1..];
      if first + rest == nodes {
        assert copy.Some? && first + rest == [copy.value] + rest;
        assert (first + rest)[0] == nodes[0] && (first + rest)[1..] == rest;
        assert rest == nodes[1..];
        ReproducedIsStable(page, nodes[0], s, depth);
      }
    }
  }

  /** Sanitizing a copy again reproduces it exactly when the filter passes all its attributes unchanged. */
  lemma SanitizeAgainIff(page: Page, source: Node, s: State, depth: nat)
    requires 0 <= s.remaining && Sanitize(page, source, s, depth).0.Some?
    ensures var (copy, t) := Sanitize(page, source, s, depth);
            Sanitize(page, copy.value, s, depth) == (copy, t) <==> Stable(page, copy.value)
  {
    var (copy, t) := Sanitize(page, source, s, depth);
    if Stable(page, copy.value) { SanitizeAgain(page, source, s, depth); }
    if Sanitize(page, copy.value, s, depth) == (copy, t) { ReproducedIsStable(page, copy.value, s, depth); }
  }

  /** An URL with an opaque origin becomes a relative one, which the second pass resolves. */
  lemma OpaqueOriginIsNotStable() returns (page: Page, link: Node)
    ensures var (copy, _) := Sanitize(page, link, State(0, MAX_CHARS), 0);
            PlainNames(page) && copy.Some? && Sanitize(page, copy.value, State(0, MAX_CHARS), 0).0 != copy
  {
    page := Page(
      s => s, s => false, s => s == "href", s => false,
      s => if s == "mailto:x" then Some("nullx") else Some("https://a/nullx"), s => s);
    link := Element("a", [Attr("href", "mailto:x")], ChildNodes([]));
    var once := Element("a", [Attr("href", "nullx")], ChildNodes([]));
    var s0 := State(0, MAX_CHARS);
    assert "href"[0] == 'h' && "style"[0] == 's' && "value"[0] == 'v' && "integrity"[0] == 'i';
    assert |"a"| == 1 && |"input"| == 5 && |"option"| == 6 && |"meta"| == 4;
    assert Cut("nullx") == "nullx" && Cut("https://a/nullx") == "https://a/nullx" && "nullx"[0] != "https://a/nullx"[0];
    assert SafeAttributeValue(page, "a", "", "href", "mailto:x") == Some("nullx");
    assert SafeAttributeValue(page, "a", "", "href", "nullx") == Some("https://a/nullx");
    assert Emit(page, "a", "", [Attr("href", "mailto:x")], MAX_CHARS).0 == [Attr("href", "nullx")];
    assert Sanitize(page, link, s0, 0).0 == Some(once);
    assert !Settled(page, "a", "", once.attrs) by {
      assert SafeAttributeValue(page, "a", "", once.attrs[0].name, once.attrs[0].value) != Some(once.attrs[0].value);
    }
    assert FieldName(once.attrs) == "";
    if Sanitize(page, once, s0, 0).0 == Some(once) { ReproducedIsStable(page, once, s0, 0); }
  }

  // ---- When the filter is settled on its own output -----------------------------------------------------

  predicate FixedUrl(page: Page, url: string) {
    && !page.unsafeScheme(url)
    && match page.rewrite(url)
       case Some(u) => Cut(u) == url
       case None => Cut(page.cutQuery(url)) == url
  }

  /**
   * What an attribute of the source must meet if the filter passes it: a filtered URL is filtered to
   * itself, and the content of a meta element does not fall under a name that is sensitive once cut.
   */
  predicate FixedAttr(page: Page, tag: string, field: string, a: Attr) {
    var safe := SafeAttributeValue(page, tag, field, a.name, a.value);
    safe.Some? ==>
      && (page.urlAttribute(page.lower(a.name)) ==> FixedUrl(page, safe.value))
      && (page.lower(tag) == "meta" && page.lower(a.name) == "content" ==> !page.sensitive(Cut(field)))
  }

  predicate FixedElement(page: Page, tag: string, attrs: seq<Attr>) {
    forall i :: 0 <= i < |attrs| ==> FixedAttr(page, tag, FieldName(attrs), attrs[i])
  }

  /** Every element that a walk can enter is fixed. */
  predicate Fixed(page: Page, node: Node)
    decreases node
  {
    match node
    case Element(tag, attrs, ChildNodes(nodes)) =>
      Dropped(page, tag) || (FixedElement(page, tag, attrs) && (page.lower(tag) == "textarea" || AllFixed(page, nodes)))
    case Element(tag, attrs, Flat(_, children)) =>
      Dropped(page, tag) || (FixedElement(page, tag, attrs) && (page.lower(tag) == "textarea" || AllFixed(page, children)))
    case _ => true
  }

  predicate AllFixed(page: Page, nodes: seq<Node>)
    decreases nodes
  {
    nodes == [] || (Fixed(page, nodes[0]) && AllFixed(page, nodes[1..]))
  }

  /** What the constant patterns of the filter say about the attribute "name" and about no name at all. */
  predicate PlainNames(page: Page) {
    && page.lower("name") == "name" && !page.sensitive("name") && !page.urlAttribute("name")
    && !page.sensitive("")
  }

  predicate DistinctNames(attrs: seq<Attr>) {
    forall i, j :: 0 <= i < j < |attrs| ==> attrs[i].name != attrs[j].name
  }

  /** No element has two attributes of one name, as in every document. */
  predicate AttributesAreDistinct(node: Node)
    decreases node
  {
    match node
    case Element(_, attrs, ChildNodes(nodes)) => DistinctNames(attrs) && AllDistinct(nodes)
    case Element(_, attrs, Flat(_, children)) => DistinctNames(attrs) && AllDistinct(children)
    case _ => true
  }

  predicate AllDistinct(nodes: seq<Node>)
    decreases nodes
  {
    nodes == [] || (AttributesAreDistinct(nodes[0]) && AllDistinct(nodes[1..]))
  }

  lemma FilterAgain(page: Page, tag: string, field: string, field': string, a: Attr)
    requires PlainNames(page) && (field' == Cut(field) || field' == "")
    requires SafeAttributeValue(page, tag, field, a.name, a.value).Some?
    ensures var safe := SafeAttributeValue(page, tag, field, a.name, a.value);
            && (FixedAttr(page, tag, field, a) ==> SafeAttributeValue(page, tag, field', a.name, safe.value) == safe)
            && (field' == Cut(field) && SafeAttributeValue(page, tag, field', a.name, safe.value) == safe
                ==> FixedAttr(page, tag, field, a))
  {
    assert Cut(Cut(a.value)) == Cut(a.value);
  }

  /** Emitted attributes come from the source, filtered, and in order. */
  lemma {:induction false} EmittedFrom(page: Page, tag: string, field: string, attrs: seq<Attr>, remaining: int, i: nat)
    returns (j: nat)
    requires 0 <= remaining && i < |Emit(page, tag, field, attrs, remaining).0|
    ensures j < |attrs| && var e := Emit(page, tag, field, attrs, remaining).0[i];
            e.name == attrs[j].name && SafeAttributeValue(page, tag, field, e.name, attrs[j].value) == Some(e.value)
  {
    hide SafeAttributeValue;
    var name := attrs[0].name;
    var safe := SafeAttributeValue(page, tag, field, name, attrs[0].value);
    if safe.Some? && remaining > (|name| + |safe.value| + |page.lower(tag)| + 8) * 6 {
      if i == 0 {
        j := 0;
      } else {
        j := EmittedFrom(page, tag, field, attrs[1..], remaining - AttrCost(name, safe.value), i - 1);
        j := j + 1;
      }
    } else {
      j := EmittedFrom(page, tag, field, attrs[1..], remaining, i);
      j := j + 1;
    }
  }

  lemma {:induction false} FieldNameAt(attrs: seq<Attr>)
    ensures FieldName(attrs) == "" || exists i :: 0 <= i < |attrs| && attrs[i] == Attr("name", FieldName(attrs))
    ensures DistinctNames(attrs) ==> forall i :: 0 <= i < |attrs| && attrs[i].name == "name" ==> attrs[i].value == FieldName(attrs)
  {
    if attrs != [] {
      FieldNameAt(attrs[1..]);
      if attrs[0].name == "name" {
        assert attrs[0] == Attr("name", FieldName(attrs));
      } else if FieldName(attrs) != "" {
        var i :| 0 <= i < |attrs[1..]| && attrs[1..][i] == Attr("name", FieldName(attrs));
        assert attrs[i + 1] == attrs[1..][i];
      }
      assert DistinctNames(attrs) ==> DistinctNames(attrs[1..]);
      assert forall i :: 1 <= i < |attrs| ==> attrs[i] == attrs[1..][i - 1];
    }
  }

  /** The attribute "name" is only cut. */
  lemma NamePasses(page: Page, tag: string, field: string, value: string)
    requires PlainNames(page)
    ensures SafeAttributeValue(page, tag, field, "name", value) == Some(Cut(value))
  {
    assert |"name"| == 4 && |"style"| == 5 && |"value"| == 5 && |"integrity"| == 9 && |"checked"| == 7 && |"selected"| == 8;
    assert |"content"| == 7;
  }

  /** The copy of an element has the field name cut, or none if the attribute did not fit. */
  lemma CopiedFieldName(page: Page, tag: string, attrs: seq<Attr>, remaining: int)
    requires PlainNames(page) && DistinctNames(attrs) && 0 <= remaining
    ensures var field' := FieldName(Emit(page, tag, FieldName(attrs), attrs, remaining).0);
            field' == Cut(FieldName(attrs)) || field' == ""
  {
    hide SafeAttributeValue, Emit;
    var field := FieldName(attrs);
    var copied := Emit(page, tag, field, attrs, remaining).0;
    FieldNameAt(attrs);
    FieldNameAt(copied);
    if FieldName(copied) != "" {
      var i :| 0 <= i < |copied| && copied[i] == Attr("name", FieldName(copied));
      var j := EmittedFrom(page, tag, field, attrs, remaining, i);
      NamePasses(page, tag, field, attrs[j].value);
    }
  }

  lemma EmitSettles(page: Page, tag: string, attrs: seq<Attr>, remaining: int)
    requires PlainNames(page) && DistinctNames(attrs) && FixedElement(page, tag, attrs) && 0 <= remaining
    ensures var copied := Emit(page, tag, FieldName(attrs), attrs, remaining).0;
            Settled(page, tag, FieldName(copied), copied)
  {
    hide SafeAttributeValue, Emit, FixedAttr;
    var field := FieldName(attrs);
    var copied := Emit(page, tag, field, attrs, remaining).0;
    CopiedFieldName(page, tag, attrs, remaining);
    forall i | 0 <= i < |copied|
      ensures SafeAttributeValue(page, tag, FieldName(copied), copied[i].name, copied[i].value) == Some(copied[i].value)
    {
      var j := EmittedFrom(page, tag, field, attrs, remaining, i);
      FilterAgain(page, tag, field, FieldName(copied), attrs[j]);
    }
  }

  lemma {:induction false} SanitizeSettles(page: Page, source: Node, s: State, depth: nat)
    requires 0 <= s.remaining && PlainNames(page) && AttributesAreDistinct(source) && Fixed(page, source)
    ensures var copy := Sanitize(page, source, s, depth).0; copy.Some? ==> Stable(page, copy.value)
    decreases source
  {
    hide Emit, SafeAttributeValue, FieldName, Settled, FixedElement, DistinctNames, PlainNames;
    match source
    case Element(tag, attrs, kids) =>
      if depth <= MAX_DEPTH && s.nodes < MAX_NODES && !Dropped(page, tag) {
        EmitSettles(page, tag, attrs, s.remaining);
        var left := Emit(page, tag, FieldName(attrs), attrs, s.remaining).1;
        var entered := State(s.nodes + 1, left);
        if page.lower(tag) != "textarea" {
          match kids
          case ChildNodes(nodes) => SanitizeAllSettles(page, nodes, entered, depth + 1);
          case Flat(text, children) =>
            SanitizeAllSettles(page, children, entered.(remaining := left - 6 * Allowed(text, left)), depth + 1);
        }
      }
    case _ =>
  }

  lemma {:induction false} SanitizeAllSettles(page: Page, sources: seq<Node>, s: State, depth: nat)
    requires 0 <= s.remaining && PlainNames(page) && AllDistinct(sources) && AllFixed(page, sources)
    ensures StableAll(page, SanitizeAll(page, sources, s, depth).0)
    decreases sources
  {
    hide Sanitize, PlainNames;
    if sources != [] {
      SanitizeSettles(page, sources[0], s, depth);
      var (copy, t) := Sanitize(page, sources[0], s, depth);
      if t.remaining > 0 { SanitizeAllSettles(page, sources[1..], t, depth); }
      var rest := if t.remaining <= 0 then [] else SanitizeAll(page, sources[1..], t, depth).0;
      if copy.Some? {
        assert SanitizeAll(page, sources, s, depth).0 == [copy.value] + rest;
        assert ([copy.value] + rest)[1..] == rest;
      } else {
        assert SanitizeAll(page, sources, s, depth).0 == [] + rest == rest;
      }
    }
  }

  /** Sanitizing the sanitized copy of a fixed tree from the same state gives the same tree and state. */
  lemma SanitizeIsIdempotent(page: Page, source: Node, s: State, depth: nat)
    requires 0 <= s.remaining && PlainNames(page) && AttributesAreDistinct(source) && Fixed(page, source)
    ensures var (copy, t) := Sanitize(page, source, s, depth);
            copy.Some? ==> Sanitize(page, copy.value, s, depth) == (copy, t)
  {
    hide *;
    SanitizeSettles(page, source, s, depth);
    if Sanitize(page, source, s, depth).0.Some? { SanitizeAgain(page, source, s, depth); }
  }

  // ---- Being fixed is necessary when the walk reaches everything -----------------------------------------

  /** The budget that copies all attributes that the filter passes. */
  function AttrsNeed(page: Page, tag: string, field: string, attrs: seq<Attr>): (need: int)
    ensures 0 <= need
  {
    if attrs == [] then 0
    else
      var safe := SafeAttributeValue(page, tag, field, attrs[0].name, attrs[0].value);
      (if safe.Some? then AttrCost(attrs[0].name, safe.value) else 0) + AttrsNeed(page, tag, field, attrs[1..])
  }

  /** A budget with which a walk reaches every attribute, the tag name in each of its tests included. */
  function Need(page: Page, node: Node): (need: int)
    ensures 0 <= need
    decreases node
  {
    match node
    case TextNode(text) => 6 * |text|
    case Other => 0
    case Element(tag, attrs, kids) =>
      if Dropped(page, tag) then 0
      else
        AttrsNeed(page, tag, FieldName(attrs), attrs) + 6 * |page.lower(tag)|
        + if page.lower(tag) == "textarea" then 0
          else match kids
               case ChildNodes(nodes) => NeedAll(page, nodes)
               case Flat(text, children) => 6 * |text| + NeedAll(page, children)
  }

  function NeedAll(page: Page, nodes: seq<Node>): (need: int)
    ensures 0 <= need
    decreases nodes
  {
    if nodes == [] then 0 else Need(page, nodes[0]) + NeedAll(page, nodes[1..])
  }

  /** The elements that a walk without limits enters. */
  function Entered(page: Page, node: Node): nat
    decreases node
  {
    match node
    case Element(tag, _, kids) =>
      if Dropped(page, tag) then 0
      else if page.lower(tag) == "textarea" then 1
      else (match kids
            case ChildNodes(nodes) => 1 + EnteredAll(page, nodes)
            case Flat(_, children) => 1 + EnteredAll(page, children))
    case _ => 0
  }

  function EnteredAll(page: Page, nodes: seq<Node>): nat
    decreases nodes
  {
    if nodes == [] then 0 else Entered(page, nodes[0]) + EnteredAll(page, nodes[1..])
  }

  predicate Shallow(page: Page, node: Node, depth: nat)
    decreases node
  {
    match node
    case Element(tag, _, kids) =>
      Dropped(page, tag)
      || (depth <= MAX_DEPTH
          && (page.lower(tag) == "textarea"
              || match kids
                 case ChildNodes(nodes) => ShallowAll(page, nodes, depth + 1)
                 case Flat(_, children) => ShallowAll(page, children, depth + 1)))
    case _ => true
  }

  predicate ShallowAll(page: Page, nodes: seq<Node>, depth: nat)
    decreases nodes
  {
    nodes == [] || (Shallow(page, nodes[0], depth) && ShallowAll(page, nodes[1..], depth))
  }

  /** No limit of the walk is met before every attribute has been looked at and copied. */
  predicate Fits(page: Page, node: Node, s: State, depth: nat) {
    Need(page, node) < s.remaining && s.nodes + Entered(page, node) <= MAX_NODES && Shallow(page, node, depth)
  }

  predicate AllFit(page: Page, nodes: seq<Node>, s: State, depth: nat) {
    NeedAll(page, nodes) < s.remaining && s.nodes + EnteredAll(page, nodes) <= MAX_NODES && ShallowAll(page, nodes, depth)
  }

  lemma {:induction false} EmitSpends(page: Page, tag: string, field: string, attrs: seq<Attr>, remaining: int)
    requires 0 <= remaining
    ensures remaining - Emit(page, tag, field, attrs, remaining).1 <= AttrsNeed(page, tag, field, attrs)
  {
    hide SafeAttributeValue;
    if attrs != [] {
      var name := attrs[0].name;
      var safe := SafeAttributeValue(page, tag, field, name, attrs[0].value);
      if safe.Some? && remaining > (|name| + |safe.value| + |page.lower(tag)| + 8) * 6 {
        EmitSpends(page, tag, field, attrs[1..], remaining - AttrCost(name, safe.value));
      } else {
        EmitSpends(page, tag, field, attrs[1..], remaining);
      }
    }
  }

  lemma {:induction false} SpendsAtMost(page: Page, source: Node, s: State, depth: nat)
    requires 0 <= s.remaining
    ensures var t := Sanitize(page, source, s, depth).1;
            s.remaining - t.remaining <= Need(page, source) && t.nodes - s.nodes <= Entered(page, source)
    decreases source
  {
    hide Emit, AttrsNeed, SafeAttributeValue, FieldName;
    match source
    case Element(tag, attrs, kids) =>
      if depth <= MAX_DEPTH && s.nodes < MAX_NODES && !Dropped(page, tag) {
        EmitSpends(page, tag, FieldName(attrs), attrs, s.remaining);
        var left := Emit(page, tag, FieldName(attrs), attrs, s.remaining).1;
        var entered := State(s.nodes + 1, left);
        if page.lower(tag) != "textarea" {
          match kids
          case ChildNodes(nodes) => SpendAtMost(page, nodes, entered, depth + 1);
          case Flat(text, children) =>
            SpendAtMost(page, children, entered.(remaining := left - 6 * Allowed(text, left)), depth + 1);
        }
      }
    case _ =>
  }

  lemma {:induction false} SpendAtMost(page: Page, sources: seq<Node>, s: State, depth: nat)
    requires 0 <= s.remaining
    ensures var t := SanitizeAll(page, sources, s, depth).1;
            s.remaining - t.remaining <= NeedAll(page, sources) && t.nodes - s.nodes <= EnteredAll(page, sources)
    decreases sources
  {
    hide Sanitize, Need, Entered;
    if sources != [] {
      SpendsAtMost(page, sources[0], s, depth);
      var t := Sanitize(page, sources[0], s, depth).1;
      if t.remaining > 0 { SpendAtMost(page, sources[1..], t, depth); }
    }
  }

  /** With enough budget every attribute that passes the filter is copied. */
  lemma {:induction false} EmitsAll(page: Page, tag: string, field: string, attrs: seq<Attr>, remaining: int, j: nat)
    returns (i: nat)
    requires AttrsNeed(page, tag, field, attrs) + 6 * |page.lower(tag)| < remaining
    requires j < |attrs| && SafeAttributeValue(page, tag, field, attrs[j].name, attrs[j].value).Some?
    ensures var copied := Emit(page, tag, field, attrs, remaining).0;
            var safe := SafeAttributeValue(page, tag, field, attrs[j].name, attrs[j].value);
            i < |copied| && copied[i] == Attr(attrs[j].name, safe.value)
  {
    hide SafeAttributeValue;
    var safe := SafeAttributeValue(page, tag, field, attrs[0].name, attrs[0].value);
    if j == 0 {
      i := 0;
    } else if safe.Some? {
      i := EmitsAll(page, tag, field, attrs[1..], remaining - AttrCost(attrs[0].name, safe.value), j - 1);
      i := i + 1;
    } else {
      i := EmitsAll(page, tag, field, attrs[1..], remaining, j - 1);
    }
  }

  lemma {:induction false} FullFieldName(page: Page, tag: string, field: string, attrs: seq<Attr>, remaining: int)
    requires PlainNames(page) && AttrsNeed(page, tag, field, attrs) + 6 * |page.lower(tag)| < remaining
    ensures FieldName(Emit(page, tag, field, attrs, remaining).0) == Cut(FieldName(attrs))
  {
    hide SafeAttributeValue, PlainNames;
    if attrs != [] {
      var name := attrs[0].name;
      var safe := SafeAttributeValue(page, tag, field, name, attrs[0].value);
      if name == "name" { NamePasses(page, tag, field, attrs[0].value); }
      if safe.Some? {
        var left := remaining - AttrCost(name, safe.value);
        FullFieldName(page, tag, field, attrs[1..], left);
        var rest := Emit(page, tag, field, attrs[1..], left).0;
        assert Emit(page, tag, field, attrs, remaining).0 == [Attr(name, safe.value)] + rest;
        assert ([Attr(name, safe.value)] + rest)[1..] == rest;
      } else {
        FullFieldName(page, tag, field, attrs[1..], remaining);
      }
    }
  }

  lemma SettledIsFixed(page: Page, tag: string, attrs: seq<Attr>, remaining: int)
    requires PlainNames(page) && AttrsNeed(page, tag, FieldName(attrs), attrs) + 6 * |page.lower(tag)| < remaining
    requires var copied := Emit(page, tag, FieldName(attrs), attrs, remaining).0; Settled(page, tag, FieldName(copied), copied)
    ensures FixedElement(page, tag, attrs)
  {
    hide SafeAttributeValue, Emit, AttrsNeed, FieldName, PlainNames, Cut;
    var field := FieldName(attrs);
    FullFieldName(page, tag, field, attrs, remaining);
    forall j | 0 <= j < |attrs| ensures FixedAttr(page, tag, field, attrs[j]) {
      if SafeAttributeValue(page, tag, field, attrs[j].name, attrs[j].value).Some? {
        var i := EmitsAll(page, tag, field, attrs, remaining, j);
        FilterAgain(page, tag, field, Cut(field), attrs[j]);
      }
    }
  }

  lemma {:induction false} StableIsFixed(page: Page, source: Node, s: State, depth: nat)
    requires PlainNames(page) && 0 <= s.remaining && Fits(page, source, s, depth)
    requires var copy := Sanitize(page, source, s, depth).0; copy.Some? ==> Stable(page, copy.value)
    ensures Fixed(page, source)
    decreases source
  {
    hide Emit, SafeAttributeValue, FieldName, Settled, FixedElement, PlainNames, AttrsNeed;
    match source
    case Element(tag, attrs, kids) =>
      if !Dropped(page, tag) {
        SettledIsFixed(page, tag, attrs, s.remaining);
        EmitSpends(page, tag, FieldName(attrs), attrs, s.remaining);
        var left := Emit(page, tag, FieldName(attrs), attrs, s.remaining).1;
        var entered := State(s.nodes + 1, left);
        if page.lower(tag) != "textarea" {
          match kids
          case ChildNodes(nodes) => StableAreFixed(page, nodes, entered, depth + 1);
          case Flat(text, children) =>
            StableAreFixed(page, children, entered.(remaining := left - 6 * Allowed(text, left)), depth + 1);
        }
      }
    case _ =>
  }

  lemma {:induction false} StableAreFixed(page: Page, sources: seq<Node>, s: State, depth: nat)
    requires PlainNames(page) && 0 <= s.remaining && AllFit(page, sources, s, depth)
    requires StableAll(page, SanitizeAll(page, sources, s, depth).0)
    ensures AllFixed(page, sources)
    decreases sources
  {
    hide Sanitize, Need, Entered, Shallow, PlainNames, Stable, Fixed;
    if sources != [] {
      SpendsAtMost(page, sources[0], s, depth);
      var (copy, t) := Sanitize(page, sources[0], s, depth);
      var rest := SanitizeAll(page, sources[1..], t, depth).0;
      var all := SanitizeAll(page, sources, s, depth).0;
      if copy.Some? {
        assert all == [copy.value] + rest;
        assert all[0] == copy.value && all[1..] == rest;
      } else {
        assert all == [] + rest == rest;
      }
      StableIsFixed(page, sources[0], s, depth);
      StableAreFixed(page, sources[1..], t, depth);
    }
  }

  /** If the walk reaches everything, sanitizing twice is sanitizing once exactly for fixed trees. */
  lemma IdempotentIff(page: Page, source: Node, s: State, depth: nat)
    requires 0 <= s.remaining && PlainNames(page) && AttributesAreDistinct(source) && Fits(page, source, s, depth)
    ensures var (copy, t) := Sanitize(page, source, s, depth);
            (copy.Some? ==> Sanitize(page, copy.value, s, depth) == (copy, t)) <==> Fixed(page, source)
  {
    hide *;
    var (copy, t) := Sanitize(page, source, s, depth);
    if copy.Some? { SanitizeAgainIff(page, source, s, depth); }
    if Fixed(page, source) {
      SanitizeIsIdempotent(page, source, s, depth);
    } else if copy.None? || Stable(page, copy.value) {
      StableIsFixed(page, source, s, depth);
    }
  }

  // ---- The walk as the extension performs it ------------------------------------------------------------

  /** The state object shared by all calls of one walk. */
  class Budget {
    var nodes: nat
    var remaining: int

    constructor ()
      ensures nodes == 0 && remaining == MAX_CHARS
    {
      nodes, remaining := 0, MAX_CHARS;
    }

    function Value(): State
      reads this
    {
      State(nodes, remaining)
    }
  }

  /** One turn of the attribute loop. */
  lemma EmitFrom(page: Page, tag: string, field: string, attrs: seq<Attr>, i: nat, remaining: int)
    requires 0 <= remaining && i < |attrs|
    ensures var safe := SafeAttributeValue(page, tag, field, attrs[i].name, attrs[i].value);
            Emit(page, tag, field, attrs[i..], remaining) ==
            if safe.Some? && remaining > (|attrs[i].name| + |safe.value| + |page.lower(tag)| + 8) * 6 then
              var r := Emit(page, tag, field, attrs[i + 1..], remaining - AttrCost(attrs[i].name, safe.value));
              ([Attr(attrs[i].name, safe.value)] + r.0, r.1)
            else Emit(page, tag, field, attrs[i + 1..], remaining)
  {
    hide SafeAttributeValue;
    var suffix := attrs[i..];
    assert suffix[0] == attrs[i] && suffix[1..] == attrs[i + 1..];
  }

  method CopyAttributes(page: Page, tag: string, attrs: seq<Attr>, state: Budget) returns (copied: seq<Attr>)
    requires 0 <= state.remaining
    modifies state`remaining
    ensures (copied, state.remaining) == Emit(page, tag, FieldName(attrs), attrs, old(state.remaining))
  {
    hide SafeAttributeValue, Emit, FieldName;
    var field := FieldName(attrs);
    copied := [];
    ghost var whole := Emit(page, tag, field, attrs, state.remaining);
    assert attrs[0..] == attrs && [] + whole.0 == whole.0;
    for i := 0 to |attrs|
      invariant 0 <= state.remaining
      invariant var r := Emit(page, tag, field, attrs[i..], state.remaining); copied + r.0 == whole.0 && r.1 == whole.1
    {
      var name := attrs[i].name;
      var safe := SafeAttributeValue(page, tag, field, name, attrs[i].value);
      EmitFrom(page, tag, field, attrs, i, state.remaining);
      if safe.Some? && state.remaining > (|name| + |safe.value| + |page.lower(tag)| + 8) * 6 {
        state.remaining := state.remaining - (|name| + |safe.value| + 8) * 6;
        ghost var rest := Emit(page, tag, field, attrs[i + 1..], state.remaining).0;
        assert copied + ([Attr(name, safe.value)] + rest) == (copied + [Attr(name, safe.value)]) + rest;
        copied := copied + [Attr(name, safe.value)];
      }
    }
    EmitNone(page, tag, field, attrs[|attrs|..], state.remaining);
    assert copied + [] == copied;
  }

  lemma EmitNone(page: Page, tag: string, field: string, attrs: seq<Attr>, remaining: int)
    requires 0 <= remaining && attrs == []
    ensures Emit(page, tag, field, attrs, remaining) == ([], remaining)
  {
  }

  method SanitizedDomNode(page: Page, source: Node, state: Budget, depth: nat) returns (copy: Option<Node>)
    requires 0 <= state.remaining
    modifies state
    ensures 0 <= state.remaining
    ensures (copy, state.Value()) == Sanitize(page, source, old(state.Value()), depth)
    decreases source, 1
  {
    hide Emit, SafeAttributeValue, SanitizeAll;
    if depth > MAX_DEPTH || state.nodes >= MAX_NODES { return None; }
    match source {
      case TextNode(text) =>
        var allowed := Allowed(text, state.remaining);
        if allowed <= 0 { return None; }
        state.remaining := state.remaining - allowed * 6;
        return Some(TextNode(text[..allowed]));
      case Other =>
        return None;
      case Element(tag, attrs, kids) =>
        if Dropped(page, tag) { return None; }
        state.nodes := state.nodes + 1;
        var copied := CopyAttributes(page, tag, attrs, state);
        var textarea := page.lower(tag) == "textarea";
        match kids {
          case ChildNodes(nodes) =>
            var inner := [];
            if !textarea { inner := SanitizedChildren(page, source, nodes, state, depth + 1); }
            return Some(Element(tag, copied, ChildNodes(inner)));
          case Flat(text, children) =>
            var kept, inner := "", [];
            if !textarea {
              var allowed := Allowed(text, state.remaining);
              kept := text[..allowed];
              state.remaining := state.remaining - allowed * 6;
              inner := SanitizedChildren(page, source, children, state, depth + 1);
            }
            return Some(Element(tag, copied, Flat(kept, inner)));
        }
    }
  }

  /** The loop over the children of one element. */
  method SanitizedChildren(page: Page, ghost parent: Node, children: seq<Node>, state: Budget, depth: nat)
    returns (copies: seq<Node>)
    requires 0 <= state.remaining && forall c :: c in children ==> c < parent
    modifies state
    ensures 0 <= state.remaining
    ensures (copies, state.Value()) == SanitizeAll(page, children, old(state.Value()), depth)
    decreases parent, 0
  {
    hide Sanitize;
    ghost var whole := SanitizeAll(page, children, state.Value(), depth);
    copies := [];
    var i := 0;
    assert children[0..] == children && [] + whole.0 == whole.0;
    while i < |children|
      invariant 0 <= i <= |children| && 0 <= state.remaining
      invariant var (rest, end) := SanitizeAll(page, children[i..], state.Value(), depth);
                copies + rest == whole.0 && end == whole.1
    {
      ghost var suffix, before := children[i..], copies;
      assert suffix[0] == children[i] && suffix[1..] == children[i + 1..];
      assert children[i] in children && children[i] < parent;
      var sanitized := SanitizedDomNode(page, children[i], state, depth);
      if sanitized.Some? { copies := copies + [sanitized.value]; }
      i := i + 1;
      ghost var first := if sanitized.Some? then [sanitized.value] else [];
      assert copies == before + first;
      if state.remaining <= 0 { return; }
      ghost var rest := SanitizeAll(page, children[i..], state.Value(), depth).0;
      assert before + (first + rest) == copies + rest;
    }
    assert children[i..] == [] && copies + [] == copies;
  }
}

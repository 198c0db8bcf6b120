/** Where `render_page` (displaylib.py) puts its tags.  A parsed page is
    abstracted to its top-level nodes; an `html` element, when there is one,
    holds the page's sections, otherwise they sit at the top level.  That
    sequence is the container.  `soup.html` is the first `html` node at the
    top level, `soup.head` and `soup.body` the first `head` and `body` in the
    container; `WellFormed` describes the pages on which these are the
    elements BeautifulSoup's document-order search finds.  Parsing,
    serialisation and the text inside tags are not modelled. */
module Render {
  import opened Wrappers

  /** The two scripts the page can receive: the bridge stub and the
      caller's own code. */
  datatype Code = BridgeScript | UserScript(js: string)

  /** Content with no sections inside it. */
  datatype Item = Style(css: string) | Script(code: Code) | Markup(text: string)

  datatype Node =
    | Html(children: seq<Node>)
    | Head(children: seq<Node>)
    | Body(children: seq<Node>)
    | Leaf(item: Item)

  datatype Kind = HtmlTag | HeadTag | BodyTag

  /** The top-level nodes of a parsed page. */
  datatype Doc = Doc(nodes: seq<Node>)

  function KindOf(n: Node): Option<Kind> {
    match n
    case Html(_) => Some(HtmlTag)
    case Head(_) => Some(HeadTag)
    case Body(_) => Some(BodyTag)
    case Leaf(_) => None
  }

  predicate Is(n: Node, k: Kind) {
    KindOf(n) == Some(k)
  }

  /** The index of the first node of kind `k`, if any. */
  function Find(c: seq<Node>, k: Kind): (r: Option<nat>)
    ensures r.Some? ==> r.value < |c| && Is(c[r.value], k)
    ensures r.Some? ==> forall j :: 0 <= j < r.value ==> !Is(c[j], k)
    ensures r.None? ==> forall j :: 0 <= j < |c| ==> !Is(c[j], k)
  {
    if c == [] then None
    else if Is(c[0], k) then Some(0)
    else match Find(c[1..], k)
      case Some(j) => Some(j + 1)
      case None => None
  }

  lemma {:induction false} FindUpdate(c: seq<Node>, i: nat, n: Node, k: Kind)
    requires i < |c| && KindOf(n) == KindOf(c[i])
    ensures Find(c[i := n], k) == Find(c, k)
  {
    if i == 0 {
      assert c[i := n][1..] == c[1..];
    } else {
      assert c[i := n][1..] == c[1..][i - 1 := n];
      FindUpdate(c[1..], i - 1, n, k);
    }
  }

  lemma {:induction false} FindAppend(c: seq<Node>, n: Node, k: Kind)
    ensures Find(c + [n], k) ==
      if Find(c, k).Some? then Find(c, k) else if Is(n, k) then Some(|c|) else None
  {
    if c != [] {
      assert (c + [n])[1..] == c[1..] + [n];
      FindAppend(c[1..], n, k);
    }
  }

  lemma FindPrepend(n: Node, c: seq<Node>, k: Kind)
    ensures Find([n] + c, k) ==
      if Is(n, k) then Some(0) else if Find(c, k).Some? then Some(Find(c, k).value + 1) else None
  {
    var nc := [n] + c;
    assert nc[0] == n && nc[1..] == c;
  }

  /** `c` without its first node of each kind in `ks`. */
  function Skip(c: seq<Node>, ks: set<Kind>): seq<Node>
    decreases |c|
  {
    if c == [] then []
    else if KindOf(c[0]).Some? && KindOf(c[0]).value in ks then Skip(c[1..], ks - {KindOf(c[0]).value})
    else [c[0]] + Skip(c[1..], ks)
  }

  lemma {:induction false} SkipReplace(c: seq<Node>, ks: set<Kind>, k: Kind, n: Node)
    requires Find(c, k).Some? && k in ks && Is(n, k)
    ensures Skip(c[Find(c, k).value := n], ks) == Skip(c, ks)
  {
    var i := Find(c, k).value;
    if i == 0 {
      assert c[i := n][1..] == c[1..];
    } else {
      assert c[i := n][1..] == c[1..][i - 1 := n];
      assert Find(c[1..], k) == Some(i - 1);
      if KindOf(c[0]).Some? && KindOf(c[0]).value in ks {
        SkipReplace(c[1..], ks - {KindOf(c[0]).value}, k, n);
      } else {
        SkipReplace(c[1..], ks, k, n);
      }
    }
  }

  lemma {:induction false} SkipAbsent(c: seq<Node>, ks: set<Kind>, k: Kind)
    requires Find(c, k).None?
    ensures Skip(c, ks) == Skip(c, ks - {k})
  {
    if c != [] {
      assert Find(c[1..], k).None?;
      if KindOf(c[0]).Some? && KindOf(c[0]).value in ks {
        var k0 := KindOf(c[0]).value;
        assert ks - {k} - {k0} == ks - {k0} - {k};
        SkipAbsent(c[1..], ks - {k0}, k);
      } else {
        SkipAbsent(c[1..], ks, k);
      }
    }
  }

  lemma {:induction false} SkipAppend(c: seq<Node>, ks: set<Kind>, k: Kind, n: Node)
    requires Find(c, k).None? && k in ks && Is(n, k)
    ensures Skip(c + [n], ks) == Skip(c, ks)
  {
    if c == [] {
      assert Skip([n], ks) == Skip([], ks - {k});
    } else {
      assert (c + [n])[1..] == c[1..] + [n];
      assert Find(c[1..], k).None?;
      if KindOf(c[0]).Some? && KindOf(c[0]).value in ks {
        SkipAppend(c[1..], ks - {KindOf(c[0]).value}, k, n);
      } else {
        SkipAppend(c[1..], ks, k, n);
      }
    }
  }

  predicate HasHtml(d: Doc) {
    Find(d.nodes, HtmlTag).Some?
  }

  /** A node a section may hold: content, or a head or body of content. */
  predicate Section(n: Node) {
    n.Leaf? || ((n.Head? || n.Body?) && forall j :: 0 <= j < |n.children| ==> n.children[j].Leaf?)
  }

  predicate AllSections(c: seq<Node>) {
    forall j :: 0 <= j < |c| ==> Section(c[j])
  }

  /** Every head and body sits in the container and holds only content,
      and there is no `html` element but the first one. */
  predicate WellFormed(d: Doc) {
    match Find(d.nodes, HtmlTag)
    case Some(h) =>
      && (forall j :: 0 <= j < |d.nodes| && j != h ==> d.nodes[j].Leaf?)
      && AllSections(d.nodes[h].children)
    case None => AllSections(d.nodes)
  }

  /** The sequence the page's sections live in. */
  function Container(d: Doc): (c: seq<Node>)
    ensures !HasHtml(d) ==> Find(c, HtmlTag).None?
    ensures WellFormed(d) ==> AllSections(c)
  {
    match Find(d.nodes, HtmlTag)
    case Some(h) => d.nodes[h].children
    case None => d.nodes
  }

  /** The page outside the container: the top level with the `html`
      element emptied, or nothing without one. */
  function Frame(d: Doc): seq<Node> {
    match Find(d.nodes, HtmlTag)
    case Some(h) => d.nodes[h := Html([])]
    case None => []
  }

  /** The page with its container replaced by `c`. */
  function WithContainer(d: Doc, c: seq<Node>): (r: Doc)
    requires HasHtml(d) || Find(c, HtmlTag).None?
    ensures Find(r.nodes, HtmlTag) == Find(d.nodes, HtmlTag)
    ensures Container(r) == c
    ensures Frame(r) == Frame(d)
    ensures WellFormed(d) && AllSections(c) ==> WellFormed(r)
  {
    match Find(d.nodes, HtmlTag)
    case Some(h) =>
      FindUpdate(d.nodes, h, Html(c), HtmlTag);
      assert d.nodes[h := Html(c)][h := Html([])] == d.nodes[h := Html([])];
      Doc(d.nodes[h := Html(c)])
    case None => Doc(c)
  }

  /** Everything `render_page` leaves alone: the frame, and the container
      without its first head and first body. */
  function Rest(d: Doc): (seq<Node>, seq<Node>) {
    (Frame(d), Skip(Container(d), {HeadTag, BodyTag}))
  }

  /** `soup.head` (k = HeadTag) or `soup.body` (k = BodyTag) as an index
      into the container. */
  function IndexOf(d: Doc, k: Kind): Option<nat> {
    Find(Container(d), k)
  }

  /** The children of the first node of kind `k` in `c`; none without one. */
  function ChildrenIn(c: seq<Node>, k: Kind): seq<Node> {
    match Find(c, k)
    case Some(i) => c[i].children
    case None => []
  }

  /** The children of `soup.head` or `soup.body`; none when it is missing. */
  function Children(d: Doc, k: Kind): seq<Node> {
    ChildrenIn(Container(d), k)
  }

  /** The kinds of element `render_page` puts content into. */
  predicate Sectioning(k: Kind) {
    k == HeadTag || k == BodyTag
  }

  /** The head for the body and the body for the head. */
  function Other(k: Kind): Kind {
    if k == HeadTag then BodyTag else HeadTag
  }

  /** A new element of kind `k`. */
  function Element(k: Kind, children: seq<Node>): (n: Node)
    ensures KindOf(n) == Some(k) && n.children == children
  {
    match k
    case HtmlTag => Html(children)
    case HeadTag => Head(children)
    case BodyTag => Body(children)
  }

  lemma ChildrenUpdate(c: seq<Node>, k: Kind, e: Node, k': Kind)
    requires Find(c, k).Some? && Is(e, k)
    ensures ChildrenIn(c[Find(c, k).value := e], k') ==
      if k' == k then e.children else ChildrenIn(c, k')
  {
    FindUpdate(c, Find(c, k).value, e, k');
  }

  lemma ChildrenPrepend(n: Node, c: seq<Node>, k': Kind)
    ensures ChildrenIn([n] + c, k') == if Is(n, k') then n.children else ChildrenIn(c, k')
  {
    FindPrepend(n, c, k');
    if !Is(n, k') && Find(c, k').Some? {
      assert ([n] + c)[Find(c, k').value + 1] == c[Find(c, k').value];
    }
  }

  lemma ChildrenAppend(c: seq<Node>, n: Node, k': Kind)
    ensures ChildrenIn(c + [n], k') ==
      if Find(c, k').Some? then ChildrenIn(c, k') else if Is(n, k') then n.children else []
  {
    FindAppend(c, n, k');
    if Find(c, k').Some? {
      assert (c + [n])[Find(c, k').value] == c[Find(c, k').value];
    }
  }

  lemma AllSectionsUpdate(c: seq<Node>, i: nat, e: Node)
    requires i < |c|
    ensures AllSections(c) && Section(e) ==> AllSections(c[i := e])
  {
  }

  lemma AllSectionsPrepend(n: Node, c: seq<Node>)
    ensures AllSections(c) && Section(n) ==> AllSections([n] + c)
  {
    if AllSections(c) && Section(n) {
      forall j | 0 <= j < |[n] + c| ensures Section(([n] + c)[j]) {
        if j > 0 { assert ([n] + c)[j] == c[j - 1]; }
      }
    }
  }

  lemma AllSectionsAppend(c: seq<Node>, n: Node)
    ensures AllSections(c) && Section(n) ==> AllSections(c + [n])
  {
    if AllSections(c) && Section(n) {
      forall j | 0 <= j < |c + [n]| ensures Section((c + [n])[j]) {
        if j < |c| { assert (c + [n])[j] == c[j]; }
      }
    }
  }

  /** `soup.head.append(n)` or `soup.body.append(n)`: `n` becomes the last
      child of that element; no element moves and nothing else changes. */
  function AppendChild(d: Doc, k: Kind, n: Node): (r: Doc)
    requires Sectioning(k) && IndexOf(d, k).Some?
    ensures IndexOf(r, k) == IndexOf(d, k) && IndexOf(r, Other(k)) == IndexOf(d, Other(k))
    ensures Children(r, k) == Children(d, k) + [n]
    ensures Children(r, Other(k)) == Children(d, Other(k))
    ensures |Container(r)| == |Container(d)|
    ensures Find(r.nodes, HtmlTag) == Find(d.nodes, HtmlTag)
    ensures Rest(r) == Rest(d)
    ensures WellFormed(d) && n.Leaf? ==> WellFormed(r)
  {
    var c := Container(d);
    var i := IndexOf(d, k).value;
    var e := Element(k, c[i].children + [n]);
    FindUpdate(c, i, e, HtmlTag);
    FindUpdate(c, i, e, k);
    FindUpdate(c, i, e, Other(k));
    ChildrenUpdate(c, k, e, k);
    ChildrenUpdate(c, k, e, Other(k));
    SkipReplace(c, {HeadTag, BodyTag}, k, e);
    AllSectionsUpdate(c, i, e);
    WithContainer(d, c[i := e])
  }

  /** `insert(0, …)` of a new head or body, holding `children`, on the
      container: it becomes the first node and the others shift by one. */
  function InsertFirst(d: Doc, k: Kind, children: seq<Node>): (r: Doc)
    requires Sectioning(k) && IndexOf(d, k).None?
    ensures IndexOf(r, k) == Some(0)
    ensures Children(r, k) == children
    ensures IndexOf(r, Other(k)) ==
      if IndexOf(d, Other(k)).Some? then Some(IndexOf(d, Other(k)).value + 1) else None
    ensures Children(r, Other(k)) == Children(d, Other(k))
    ensures |Container(r)| == |Container(d)| + 1
    ensures Find(r.nodes, HtmlTag) == Find(d.nodes, HtmlTag)
    ensures Rest(r) == Rest(d)
    ensures WellFormed(d) && (forall j :: 0 <= j < |children| ==> children[j].Leaf?) ==> WellFormed(r)
  {
    var c := Container(d);
    var e := Element(k, children);
    FindPrepend(e, c, HtmlTag);
    FindPrepend(e, c, k);
    FindPrepend(e, c, Other(k));
    ChildrenPrepend(e, c, k);
    ChildrenPrepend(e, c, Other(k));
    assert ([e] + c)[1..] == c;
    SkipAbsent(c, {HeadTag, BodyTag}, k);
    AllSectionsPrepend(e, c);
    WithContainer(d, [e] + c)
  }

  /** `append(…)` of a new head or body, holding `children`, on the
      container: it becomes the last node and nothing else moves. */
  function AppendLast(d: Doc, k: Kind, children: seq<Node>): (r: Doc)
    requires Sectioning(k) && IndexOf(d, k).None?
    ensures IndexOf(r, k) == Some(|Container(d)|)
    ensures Children(r, k) == children
    ensures IndexOf(r, Other(k)) == IndexOf(d, Other(k))
    ensures Children(r, Other(k)) == Children(d, Other(k))
    ensures |Container(r)| == |Container(d)| + 1
    ensures Find(r.nodes, HtmlTag) == Find(d.nodes, HtmlTag)
    ensures Rest(r) == Rest(d)
    ensures WellFormed(d) && (forall j :: 0 <= j < |children| ==> children[j].Leaf?) ==> WellFormed(r)
  {
    var c := Container(d);
    var e := Element(k, children);
    FindAppend(c, e, HtmlTag);
    FindAppend(c, e, k);
    FindAppend(c, e, Other(k));
    ChildrenAppend(c, e, k);
    ChildrenAppend(c, e, Other(k));
    SkipAppend(c, {HeadTag, BodyTag}, k, e);
    AllSectionsAppend(c, e);
    WithContainer(d, c + [e])
  }

  /** `soup.head.append(n)` when there is a head, otherwise a new head
      holding `n` inserted at the front of the container (index 0 of the
      `html` element, or of the page without one). */
  function PutInHead(d: Doc, n: Node): (r: Doc)
    ensures IndexOf(r, HeadTag) == if IndexOf(d, HeadTag).Some? then IndexOf(d, HeadTag) else Some(0)
    ensures Children(r, HeadTag) == Children(d, HeadTag) + [n]
    ensures IndexOf(r, BodyTag) ==
      if IndexOf(d, BodyTag).None? then None
      else Some(IndexOf(d, BodyTag).value + if IndexOf(d, HeadTag).Some? then 0 else 1)
    ensures Children(r, BodyTag) == Children(d, BodyTag)
    ensures |Container(r)| == |Container(d)| + if IndexOf(d, HeadTag).Some? then 0 else 1
    ensures Find(r.nodes, HtmlTag) == Find(d.nodes, HtmlTag)
    ensures Rest(r) == Rest(d)
    ensures WellFormed(d) && n.Leaf? ==> WellFormed(r)
  {
    if IndexOf(d, HeadTag).Some? then AppendChild(d, HeadTag, n) else InsertFirst(d, HeadTag, [n])
  }

  /** `soup.body.append(n)` when there is a body, otherwise a new body
      holding `n` appended at the end of the container. */
  function PutInBody(d: Doc, n: Node): (r: Doc)
    ensures IndexOf(r, BodyTag) == if IndexOf(d, BodyTag).Some? then IndexOf(d, BodyTag) else Some(|Container(d)|)
    ensures Children(r, BodyTag) == Children(d, BodyTag) + [n]
    ensures IndexOf(r, HeadTag) == IndexOf(d, HeadTag)
    ensures Children(r, HeadTag) == Children(d, HeadTag)
    ensures |Container(r)| == |Container(d)| + if IndexOf(d, BodyTag).Some? then 0 else 1
    ensures Find(r.nodes, HtmlTag) == Find(d.nodes, HtmlTag)
    ensures Rest(r) == Rest(d)
    ensures WellFormed(d) && n.Leaf? ==> WellFormed(r)
  {
    if IndexOf(d, BodyTag).Some? then AppendChild(d, BodyTag, n) else AppendLast(d, BodyTag, [n])
  }

  /** The page after the two head insertions of `render_page`: the style
      sheet when there is one, then the bridge script. */
  function HeadTags(page: Doc, css: string): Doc {
    var styled := if css != "" then PutInHead(page, Leaf(Style(css))) else page;
    PutInHead(styled, Leaf(Script(BridgeScript)))
  }

  /** The page after the body insertion of `render_page`: the user script
      when there is one. */
  function BodyTags(headed: Doc, js: string): Doc {
    if js != "" then PutInBody(headed, Leaf(Script(UserScript(js)))) else headed
  }

  /** The head insertions end the head with the style tag (for non-empty
      CSS) and the bridge script, creating the head at the front when it
      is missing, and leave the body's children and the rest alone. */
  lemma HeadPhase(page: Doc, css: string)
    ensures var headed := HeadTags(page, css);
      && Find(headed.nodes, HtmlTag) == Find(page.nodes, HtmlTag)
      && IndexOf(headed, HeadTag) == (if IndexOf(page, HeadTag).Some? then IndexOf(page, HeadTag) else Some(0))
      && Children(headed, HeadTag) ==
        Children(page, HeadTag) + (if css != "" then [Leaf(Style(css))] else []) + [Leaf(Script(BridgeScript))]
      && IndexOf(headed, BodyTag) ==
        (if IndexOf(page, BodyTag).None? then None
         else Some(IndexOf(page, BodyTag).value + if IndexOf(page, HeadTag).Some? then 0 else 1))
      && Children(headed, BodyTag) == Children(page, BodyTag)
      && |Container(headed)| == |Container(page)| + (if IndexOf(page, HeadTag).Some? then 0 else 1)
      && Rest(headed) == Rest(page)
      && (WellFormed(page) ==> WellFormed(headed))
  {
    if css != "" {
      assert IndexOf(PutInHead(page, Leaf(Style(css))), HeadTag).Some?;
    }
  }

  /** The body insertion ends the body with the user script (for
      non-empty JS), creating the body at the end when it is missing, and
      leaves the head and the rest alone. */
  lemma BodyPhase(headed: Doc, js: string)
    ensures var soup := BodyTags(headed, js);
      && Find(soup.nodes, HtmlTag) == Find(headed.nodes, HtmlTag)
      && IndexOf(soup, HeadTag) == IndexOf(headed, HeadTag)
      && Children(soup, HeadTag) == Children(headed, HeadTag)
      && IndexOf(soup, BodyTag) ==
        (if IndexOf(headed, BodyTag).Some? || js == "" then IndexOf(headed, BodyTag) else Some(|Container(headed)|))
      && Children(soup, BodyTag) ==
        Children(headed, BodyTag) + (if js != "" then [Leaf(Script(UserScript(js)))] else [])
      && |Container(soup)| == |Container(headed)| + (if IndexOf(headed, BodyTag).Some? || js == "" then 0 else 1)
      && Rest(soup) == Rest(headed)
      && (WellFormed(headed) ==> WellFormed(soup))
  {
  }

  /** `render_page(html, css, js)` on the parsed page: a non-empty style
      sheet and then the bridge script go into the head, which is created
      at the front of the container if missing; non-empty user code goes
      into the body, which is created at the end of the container if
      missing.  Nothing else in the page changes. */
  method RenderPage(page: Doc, css: string := "", js: string := "") returns (soup: Doc)
    ensures Find(soup.nodes, HtmlTag) == Find(page.nodes, HtmlTag)
    ensures IndexOf(soup, HeadTag) == if IndexOf(page, HeadTag).Some? then IndexOf(page, HeadTag) else Some(0)
    ensures Children(soup, HeadTag) ==
      Children(page, HeadTag) + (if css != "" then [Leaf(Style(css))] else []) + [Leaf(Script(BridgeScript))]
    ensures IndexOf(soup, BodyTag).Some? <==> IndexOf(page, BodyTag).Some? || js != ""
    ensures IndexOf(page, BodyTag).Some? ==>
      IndexOf(soup, BodyTag) == Some(IndexOf(page, BodyTag).value + if IndexOf(page, HeadTag).Some? then 0 else 1)
    ensures IndexOf(page, BodyTag).None? && js != "" ==> IndexOf(soup, BodyTag) == Some(|Container(soup)| - 1)
    ensures Children(soup, BodyTag) ==
      Children(page, BodyTag) + if js != "" then [Leaf(Script(UserScript(js)))] else []
    ensures |Container(soup)| == |Container(page)|
      + (if IndexOf(page, HeadTag).Some? then 0 else 1)
      + (if IndexOf(page, BodyTag).Some? || js == "" then 0 else 1)
    ensures Rest(soup) == Rest(page)
    ensures WellFormed(page) ==> WellFormed(soup)
  {
    soup := page;
    if css != "" {
      var styleTag := Leaf(Style(css));
      soup := PutInHead(soup, styleTag);
    }
    var bridgeScript := Leaf(Script(BridgeScript));
    soup := PutInHead(soup, bridgeScript);
    assert soup == HeadTags(page, css);
    HeadPhase(page, css);
    ghost var headed := soup;
    if js != "" {
      var userScript := Leaf(Script(UserScript(js)));
      soup := PutInBody(soup, userScript);
    }
    assert soup == BodyTags(headed, js);
    BodyPhase(headed, js);
  }
}

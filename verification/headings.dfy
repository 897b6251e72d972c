/** The statements of `fixHeadings` that do more than set attributes on a
    collection: the event-name `h2` made presentational, the created `h1`
    and left-column `h2`, the "Selected ...: " headings whose text is
    rewritten, and the attendee links wrapped in `h3` elements. */
module Headings {
  import opened Wrappers
  import opened Dom
  import opened Tree
  import opened Edits
  import opened Landmarks

  const H1: Query := ByTag("h1")
  const H2: Query := ByTag("h2")
  const H3: Query := ByTag("h3")

  /** `document.createElement(tag)` with its `textContent` set. */
  function Fresh(tag: string, text: string): Element {
    Element(tag, map[], text, 0)
  }

  /** A created element answers only the tag query for its own tag. */
  lemma FreshMatches(tag: string, text: string, q: Query)
    ensures Matches(Fresh(tag, text), q) <==> q == ByTag(tag)
  {
    if q.ByClass? {
      Unclassed(Fresh(tag, text), q.name);
    }
  }

  /** The event name: the first `h2` inside the first element answering c
      gets `role=presentation`. */
  function PresentFirstH2(ns: seq<Element>, c: Query): (r: seq<Element>)
    ensures |r| == |ns|
  {
    match First(ns, c)
    case None => ns
    case Some(k) =>
      match FirstWithin(ns, k, H2)
      case None => ns
      case Some(h) => ns[h := Apply(ns[h], Presentation)]
  }

  /** Only the event-name `h2` changes, and only its role; every collection
      and the whole page are kept. */
  lemma PresentFirstH2Keeps(ns: seq<Element>, c: Query)
    ensures SameKeys(ns, PresentFirstH2(ns, c))
    ensures Rooted(ns) ==> Rooted(PresentFirstH2(ns, c))
    ensures First(ns, c).Some? && FirstWithin(ns, First(ns, c).value, H2).Some? ==>
      var h := FirstWithin(ns, First(ns, c).value, H2).value;
      Attr(PresentFirstH2(ns, c)[h], "role") == Some("presentation")
  {
    LandmarkEditsKeepKeys();
    match First(ns, c)
    case None =>
    case Some(k) =>
      match FirstWithin(ns, k, H2)
      case None =>
      case Some(h) =>
        ApplyKeepsKey(ns[h], Presentation);
        assert Written(Presentation.pairs, "role") == Some("presentation");
        if Rooted(ns) {
          RootedUpdate(ns, h, Apply(ns[h], Presentation));
        }
  }

  /** The `h1` statement (both scripts): when the page has no `h1`, a new one
      with the page's label becomes the first child of the first page
      content. */
  function AddH1(ns: seq<Element>, text: string): seq<Element> {
    if Count(ns, H1) > 0 then ns
    else match First(ns, PageContent)
      case None => ns
      case Some(m) => PrependChild(ns, m, Fresh("h1", text))
  }

  /** The `h1` is created only when there is none and there is page content,
      so there is never a second one; it carries the label and is the first
      child of the page content; a second pass changes nothing. */
  lemma AddH1Once(ns: seq<Element>, text: string)
    ensures Count(AddH1(ns, text), H1)
         == if Count(ns, H1) == 0 && First(ns, PageContent).Some? then 1 else Count(ns, H1)
    ensures Count(ns, H1) == 0 && First(ns, PageContent).Some? ==>
      var m := First(ns, PageContent).value;
      AddH1(ns, text)[m + 1] == Element("h1", map[], text, ns[m].depth + 1)
    ensures AddH1(AddH1(ns, text), text) == AddH1(ns, text)
  {
    FreshMatches("h1", text, H1);
    if Count(ns, H1) == 0 {
      match First(ns, PageContent)
      case None =>
      case Some(m) =>
        CountPrependChild(ns, m, Fresh("h1", text), H1);
    }
  }

  /** The left-column statement: a new `h2` becomes the first child of the
      first element answering `column`. The later script (`guarded`) skips a
      column that already holds an `h2`; a `must` statement of whova.js
      dereferences a missing column and throws. */
  function AddColumnH2(ns: seq<Element>, column: Query, text: string, guarded: bool, must: bool): Outcome {
    match First(ns, column)
    case None => Outcome(ns, must)
    case Some(c) =>
      if guarded && FirstWithin(ns, c, H2).Some? then Outcome(ns, false)
      else Outcome(PrependChild(ns, c, Fresh("h2", text)), false)
  }

  /** The guarded column heading: the page changes exactly when there is a
      column without an `h2`; afterwards the column, if there is one, holds
      an `h2`, and a second pass changes nothing. */
  lemma ColumnH2Guarded(ns: seq<Element>, column: Query, text: string)
    requires !column.ByTag?
    ensures var r := AddColumnH2(ns, column, text, true, false);
      !r.threw
      && (r.nodes == ns <==> First(ns, column).None? || FirstWithin(ns, First(ns, column).value, H2).Some?)
      && First(r.nodes, column) == First(ns, column)
      && (First(ns, column).Some? ==> FirstWithin(r.nodes, First(ns, column).value, H2).Some?)
      && AddColumnH2(r.nodes, column, text, true, false) == Outcome(r.nodes, false)
  {
    match First(ns, column)
    case None =>
    case Some(c) =>
      if FirstWithin(ns, c, H2).None? {
        var r := PrependChild(ns, c, Fresh("h2", text));
        FreshMatches("h2", text, H2);
        FirstKept(ns, r, column, c);
        PrependChildWithin(ns, c, Fresh("h2", text));
        assert Matches(r[c + 1], H2);
      }
  }

  /** The unguarded column heading of whova.js: every pass over a page with
      the column adds one more `h2`. */
  lemma ColumnH2Unguarded(ns: seq<Element>, column: Query, text: string, must: bool)
    requires First(ns, column).Some?
    ensures Count(AddColumnH2(ns, column, text, false, must).nodes, H2) == Count(ns, H2) + 1
  {
    FreshMatches("h2", text, H2);
    CountPrependChild(ns, First(ns, column).value, Fresh("h2", text), H2);
  }

  /** The text and role of a "Selected ...: " heading at index k. */
  function RetitleAt(ns: seq<Element>, k: nat, text: string): (r: seq<Element>)
    requires k < |ns|
    ensures k < |r|
  {
    var t := SetText(ns, k, text);
    t[k := Apply(t[k], Promote("2"))]
  }

  /** The rewritten heading holds exactly its new text and is a level-2
      heading. */
  lemma RetitleText(ns: seq<Element>, k: nat, text: string)
    requires k < |ns|
    ensures var r := RetitleAt(ns, k, text);
      TextContent(r, k) == text
      && Attr(r[k], "role") == Some("heading") && Attr(r[k], "aria-level") == Some("2")
  {
    var t := SetText(ns, k, text);
    var r := RetitleAt(ns, k, text);
    ApplyKeepsKey(t[k], Promote("2"));
    assert Written(Promote("2").pairs, "role") == Some("heading");
    assert Written(Promote("2").pairs, "aria-level") == Some("2");
    assert r[k].depth == ns[k].depth && r[k].text == text;
    if k + 1 < |r| {
      assert r[k + 1] == ns[SubtreeEnd(ns, k)];
    }
    assert SubtreeEnd(r, k) == k + 1;
    assert r[k..k + 1] == [r[k]];
    assert Texts([r[k]]) == r[k].text + Texts([]);
  }

  /** The rewritten heading has no descendants left. */
  lemma RetitleEnd(ns: seq<Element>, k: nat, text: string)
    requires k < |ns|
    ensures SubtreeEnd(RetitleAt(ns, k, text), k) == k + 1
  {
    var t := SetText(ns, k, text);
    var r := RetitleAt(ns, k, text);
    ApplyKeepsKey(t[k], Promote("2"));
    if k + 1 < |r| {
      assert r[k + 1] == ns[SubtreeEnd(ns, k)];
    }
  }

  /** The rewritten heading is still the first answer of its query, no
      collection gains an element, and the page stays whole. */
  lemma RetitleKeys(ns: seq<Element>, k: nat, text: string, q: Query)
    requires k < |ns|
    ensures var r := RetitleAt(ns, k, text);
      (First(ns, q) == Some(k) ==> First(r, q) == Some(k))
      && Count(r, q) <= Count(ns, q)
      && (Rooted(ns) && 0 < k ==> Rooted(r))
  {
    var t := SetText(ns, k, text);
    var r := RetitleAt(ns, k, text);
    ApplyKeepsKey(t[k], Promote("2"));
    if First(ns, q) == Some(k) {
      FirstKept(ns, r, q, k);
    }
    CountSetText(ns, k, text, q);
    assert SameKeys(t, r);
    SameKeysCount(t, r, q);
    if Rooted(ns) && 0 < k {
      RootedSetText(ns, k, text);
      RootedUpdate(t, k, Apply(t[k], Promote("2")));
    }
  }

  /** A "Selected ...: " statement on the first element answering q: its text
      becomes the prefix followed by its own text (`ownText`) or, in the
      later script's topic title, which reads the text of the collection
      instead of the element, followed by the word `undefined`. */
  function Retitle(ns: seq<Element>, q: Query, prefix: string, ownText: bool, must: bool): Outcome {
    match First(ns, q)
    case None => Outcome(ns, must)
    case Some(k) => Outcome(RetitleAt(ns, k, prefix + (if ownText then TextContent(ns, k) else "undefined")), false)
  }

  /** The prefix is added again on every pass: after two passes the heading
      reads prefix, prefix, then its original text. */
  lemma RetitleStacks(ns: seq<Element>, q: Query, prefix: string, must: bool)
    requires First(ns, q).Some?
    ensures var k := First(ns, q).value;
      var r := Retitle(Retitle(ns, q, prefix, true, must).nodes, q, prefix, true, must).nodes;
      First(r, q) == Some(k) && TextContent(r, k) == prefix + prefix + TextContent(ns, k)
  {
    var k := First(ns, q).value;
    var text1 := prefix + TextContent(ns, k);
    var r1 := Retitle(ns, q, prefix, true, must).nodes;
    assert r1 == RetitleAt(ns, k, text1);
    RetitleText(ns, k, text1);
    RetitleKeys(ns, k, text1, q);
    var text2 := prefix + TextContent(r1, k);
    var r2 := Retitle(r1, q, prefix, true, must).nodes;
    assert r2 == RetitleAt(r1, k, text2);
    RetitleText(r1, k, text2);
    RetitleKeys(r1, k, text2, q);
  }

  /** Setting the text an element already has alone changes nothing. */
  lemma SetTextSame(ns: seq<Element>, k: nat, text: string)
    requires k < |ns| && ns[k].text == text && SubtreeEnd(ns, k) == k + 1
    ensures SetText(ns, k, text) == ns
  {
    assert ns[k].(text := text) == ns[k];
    assert ns == ns[..k] + [ns[k]] + ns[k + 1..];
  }

  /** A rewritten heading already carries its text and its heading role. */
  lemma RetitleAtSettled(ns: seq<Element>, k: nat, text: string)
    requires k < |ns|
    ensures var r := RetitleAt(ns, k, text);
      r[k].text == text && Apply(r[k], Promote("2")) == r[k]
  {
    var t := SetText(ns, k, text);
    ApplyKeepsKey(t[k], Promote("2"));
    ApplyIdempotent(t[k], Promote("2"));
  }

  /** Rewriting a settled heading with the text it has changes nothing. */
  lemma RetitleAtSame(r: seq<Element>, k: nat, text: string)
    requires k < |r| && r[k].text == text && SubtreeEnd(r, k) == k + 1
    requires Apply(r[k], Promote("2")) == r[k]
    ensures RetitleAt(r, k, text) == r
  {
    SetTextSame(r, k, text);
  }

  /** The topic title of the later script always reads `Selected Topic:
      undefined`, whatever it said before, so a second pass changes nothing. */
  lemma TopicTitleAsWritten(ns: seq<Element>, q: Query, prefix: string)
    requires First(ns, q).Some?
    ensures var k := First(ns, q).value;
      var r := Retitle(ns, q, prefix, false, false).nodes;
      TextContent(r, k) == prefix + "undefined"
      && Retitle(r, q, prefix, false, false).nodes == r
  {
    var k := First(ns, q).value;
    var text := prefix + "undefined";
    var r := RetitleAt(ns, k, text);
    RetitleText(ns, k, text);
    RetitleKeys(ns, k, text, q);
    RetitleEnd(ns, k, text);
    RetitleAtSettled(ns, k, text);
    RetitleAtSame(r, k, text);
  }

  /** The new `h3` each attendee link is moved into. */
  const Heading3: Element := Element("h3", map[], "", 0)

  /** One step of the attendee loop: the element at k moves, with its
      subtree, into a new `h3` that becomes its parent's first child. */
  function WrapAt(ns: seq<Element>, k: nat): (r: seq<Element>)
    requires k < |ns|
  {
    match ParentOf(ns, k)
    case None => ns
    case Some(p) => WrapIn(ns, k, p, Heading3)
  }

  /** A wrap adds the `h3` and nothing else to the collections. */
  lemma WrapAtCount(ns: seq<Element>, k: nat, q: Query)
    requires k < |ns|
    ensures Count(WrapAt(ns, k), q)
         == Count(ns, q) + (if ParentOf(ns, k).Some? && q == H3 then 1 else 0)
    ensures Rooted(ns) ==> Rooted(WrapAt(ns, k))
  {
    FreshMatches("h3", "", q);
    match ParentOf(ns, k)
    case None =>
    case Some(p) =>
      CountWrapIn(ns, k, p, Heading3, q);
      if Rooted(ns) {
        RootedWrapIn(ns, k, p, Heading3);
      }
  }

  /** A wrap adds nothing but the `h3`, to any collection. */
  lemma WrapAtKeeps(ns: seq<Element>, k: nat)
    requires k < |ns|
    ensures forall q :: q != H3 ==> Count(WrapAt(ns, k), q) == Count(ns, q)
  {
    forall q | q != H3 ensures Count(WrapAt(ns, k), q) == Count(ns, q) {
      WrapAtCount(ns, k, q);
    }
  }

  /** Wrapping element i of the live collection `links`. The wrapping
      moves the element but keeps every collection but the `h3`s, the links
      among them; in a whole page the element always has a parent, so
      exactly one `h3` is added and the page stays whole. */
  function NextWrap(ns: seq<Element>, links: Query, i: nat): (w: seq<Element>)
    requires links.ByClass?
    requires i < Count(ns, links)
    ensures forall q :: q != H3 ==> Count(w, q) == Count(ns, q)
    ensures Rooted(ns) ==> Rooted(w) && Count(w, H3) == Count(ns, H3) + 1
  {
    var k := Nth(ns, links, i);
    WrapAtKeeps(ns, k);
    WrapAtCount(ns, k, H3);
    if Rooted(ns) then
      RootNotSelected(ns, links);
      RootedParent(ns, k);
      WrapAt(ns, k)
    else WrapAt(ns, k)
  }

  /** The attendee loop from index i of the live collection `links` on:
      each element, taken by index, is wrapped in a new `h3`. On a whole
      page it adds one `h3` for each link still to wrap; it keeps every
      other collection, the links among them, and keeps the page whole. */
  function WrapFrom(ns: seq<Element>, links: Query, i: nat): (r: seq<Element>)
    requires links.ByClass?
    ensures forall q :: q != H3 ==> Count(r, q) == Count(ns, q)
    ensures Rooted(ns) ==> Rooted(r)
    ensures Rooted(ns) && i <= Count(ns, links) ==>
      Count(r, H3) == Count(ns, H3) + Count(ns, links) - i
    decreases Count(ns, links) - i
  {
    if i < Count(ns, links) then WrapFrom(NextWrap(ns, links, i), links, i + 1)
    else ns
  }

  /** The attendee loop: an index runs up the live collection, re-reading
      its length each time, and each link is moved into a new `h3` first in
      its parent. */
  method WrapAll(doc: Document, links: Query)
    requires links.ByClass?
    modifies doc
    ensures doc.nodes == WrapFrom(old(doc.nodes), links, 0)
    ensures doc.title == old(doc.title) && doc.styleBlocks == old(doc.styleBlocks)
  {
    var i := 0;
    while i < Count(doc.nodes, links)
      invariant WrapFrom(doc.nodes, links, i) == WrapFrom(old(doc.nodes), links, 0)
      invariant doc.title == old(doc.title) && doc.styleBlocks == old(doc.styleBlocks)
      decreases Count(doc.nodes, links) - i
    {
      var k := Nth(doc.nodes, links, i);
      WrapOne(doc, k);
      i := i + 1;
    }
  }

  /** The body of the attendee loop: the element at k, when it has a
      parent, is moved into a new `h3` first in that parent. */
  method WrapOne(doc: Document, k: nat)
    requires k < |doc.nodes|
    modifies doc
    ensures doc.nodes == WrapAt(old(doc.nodes), k)
    ensures doc.title == old(doc.title) && doc.styleBlocks == old(doc.styleBlocks)
  {
    var parent := ParentOf(doc.nodes, k);
    if parent.Some? {
      doc.nodes := WrapIn(doc.nodes, k, parent.value, Heading3);
    }
  }

  /** The attendee pass is not idempotent: the wrapped links still answer
      their class, so a second pass wraps each of them in one more `h3`. */
  lemma AttendeeWrapTwice(ns: seq<Element>, links: Query)
    requires links.ByClass? && Rooted(ns)
    ensures var once := WrapFrom(ns, links, 0);
      Count(WrapFrom(once, links, 0), H3) == Count(ns, H3) + 2 * Count(ns, links)
  {
    var once := WrapFrom(ns, links, 0);
    assert links != H3;
    assert Count(once, links) == Count(ns, links);
  }
}

/** The attribute edits the fix passes apply, to one element or to every
    element of a live collection (`for (i = 0; i < c.length; i++)
    c[i].setAttribute(...)`), and what such a pass keeps and changes. */
module Edits {
  import opened Wrappers
  import opened Text
  import opened Dom
  import opened Tree
  import opened Classifier
  import opened Images

  /** The value the last write of a run gives the attribute `name`, if any. */
  function Written(pairs: seq<(string, string)>, name: string): Option<string>
    decreases |pairs|
  {
    if |pairs| == 0 then None
    else if pairs[|pairs| - 1].0 == name then Some(pairs[|pairs| - 1].1)
    else Written(pairs[..|pairs| - 1], name)
  }

  /** A run of `setAttribute` calls on one element. */
  function SetAll(e: Element, pairs: seq<(string, string)>): (r: Element)
    ensures forall n :: Attr(r, n) == (if Written(pairs, n).Some? then Written(pairs, n) else Attr(e, n))
    ensures r.tag == e.tag && r.text == e.text && r.depth == e.depth
    decreases |pairs|
  {
    if |pairs| == 0 then e
    else SetAttr(SetAll(e, pairs[..|pairs| - 1]), pairs[|pairs| - 1].0, pairs[|pairs| - 1].1)
  }

  /** The edits the passes make to the elements they select. */
  datatype Edit =
    | SetAttrs(pairs: seq<(string, string)>)  // fixed attribute values
    | MakeButton                              // `makeButton` of the later script
    | LegacyMakeButton                        // `makeButton` of whova.js
    | LabelImage(page: Page)                  // one step of `fixImages`
    | LegacyLabelImage(page: Page)            // one step of `fixImages` in whova.js

  /** A heading promotion: `role=heading` and `aria-level`. */
  function Promote(level: string): (ed: Edit)
    ensures KeepsKeys(ed)
  {
    SetAttrs([("role", "heading"), ("aria-level", level)])
  }

  /** The alt step of `fixImages`: only an image without `alt` is given one. */
  function AltWrites(e: Element, alt: Option<string>): seq<(string, string)> {
    if Attr(e, "alt").None? && alt.Some? then [("alt", alt.value)] else []
  }

  /** The attribute writes an edit makes to the element e. */
  function Writes(e: Element, ed: Edit): seq<(string, string)> {
    match ed
    case SetAttrs(pairs) => pairs
    case MakeButton =>
      [("role", "button"), ("tabindex", "0")]
      + (if HasClass(e, "active") then [("aria-current", "page")] else [])
    case LegacyMakeButton => [("role", "button"), ("tabindex", "0")]
    case LabelImage(p) => AltWrites(e, ImageAlt(p, e))
    case LegacyLabelImage(p) => AltWrites(e, LegacyImageAlt(p, e))
  }

  function Apply(e: Element, ed: Edit): Element {
    SetAll(e, Writes(e, ed))
  }

  /** An edit that never writes `class` or `id`, so it never changes which
      collections an element belongs to. */
  predicate KeepsKeys(ed: Edit) {
    ed.SetAttrs? ==> forall i :: 0 <= i < |ed.pairs| ==> ed.pairs[i].0 != "class" && ed.pairs[i].0 != "id"
  }

  lemma {:induction false} WrittenNone(pairs: seq<(string, string)>, name: string)
    requires forall i :: 0 <= i < |pairs| ==> pairs[i].0 != name
    ensures Written(pairs, name).None?
    decreases |pairs|
  {
    if |pairs| > 0 {
      WrittenNone(pairs[..|pairs| - 1], name);
    }
  }

  /** Elements with the same tag, text, depth and attribute values are equal. */
  lemma SameElement(a: Element, b: Element)
    requires a.tag == b.tag && a.text == b.text && a.depth == b.depth
    requires forall n :: Attr(a, n) == Attr(b, n)
    ensures a == b
  {
    forall n ensures n in a.attrs <==> n in b.attrs {
      assert Attr(a, n).Some? <==> Attr(b, n).Some?;
    }
    forall n | n in a.attrs ensures a.attrs[n] == b.attrs[n] {
      assert Attr(a, n) == Attr(b, n);
    }
  }

  /** An edit changes the attributes it writes and nothing else, and keeps
      the element in the collections it was in. */
  lemma ApplyKeepsKey(e: Element, ed: Edit)
    requires KeepsKeys(ed)
    ensures SameKey(e, Apply(e, ed))
    ensures Apply(e, ed).text == e.text && Apply(e, ed).depth == e.depth
    ensures forall n :: Written(Writes(e, ed), n).None? ==> Attr(Apply(e, ed), n) == Attr(e, n)
  {
    var ws := Writes(e, ed);
    forall i | 0 <= i < |ws| ensures ws[i].0 != "class" && ws[i].0 != "id" {
      if ed.MakeButton? {
        assert ws[i] in [("role", "button"), ("tabindex", "0"), ("aria-current", "page")];
      }
    }
    WrittenNone(ws, "class");
    WrittenNone(ws, "id");
  }

  lemma {:induction false} SetAllTwice(e: Element, pairs: seq<(string, string)>)
    ensures SetAll(SetAll(e, pairs), pairs) == SetAll(e, pairs)
  {
    SameElement(SetAll(SetAll(e, pairs), pairs), SetAll(e, pairs));
  }

  /** Applying an edit a second time changes nothing. */
  lemma ApplyIdempotent(e: Element, ed: Edit)
    requires KeepsKeys(ed)
    ensures Apply(Apply(e, ed), ed) == Apply(e, ed)
  {
    var r := Apply(e, ed);
    ApplyKeepsKey(e, ed);
    match ed
    case LabelImage(p) =>
      if Attr(e, "alt").None? && ImageAlt(p, e).Some? {
        assert Writes(r, ed) == [];
      }
    case LegacyLabelImage(p) =>
      if Attr(e, "alt").None? && LegacyImageAlt(p, e).Some? {
        assert Writes(r, ed) == [];
      }
    case MakeButton =>
      assert HasClass(r, "active") == HasClass(e, "active");
      SetAllTwice(e, Writes(e, ed));
    case LegacyMakeButton =>
      SetAllTwice(e, Writes(e, ed));
    case SetAttrs(_) =>
      SetAllTwice(e, Writes(e, ed));
  }

  /** `makeButton` makes the element a focusable button; the later script
      also marks it as the current page exactly when it has class `active`,
      and whova.js never does. */
  lemma MakeButtonAttrs(e: Element)
    ensures Attr(Apply(e, MakeButton), "role") == Some("button")
    ensures Attr(Apply(e, MakeButton), "tabindex") == Some("0")
    ensures Attr(Apply(e, MakeButton), "aria-current")
         == if HasClass(e, "active") then Some("page") else Attr(e, "aria-current")
    ensures Attr(Apply(e, LegacyMakeButton), "role") == Some("button")
    ensures Attr(Apply(e, LegacyMakeButton), "tabindex") == Some("0")
    ensures Attr(Apply(e, LegacyMakeButton), "aria-current") == Attr(e, "aria-current")
  {
    var base := [("role", "button"), ("tabindex", "0")];
    var ws := Writes(e, MakeButton);
    if HasClass(e, "active") {
      assert ws == base + [("aria-current", "page")];
      assert ws[..|ws| - 1] == base;
    } else {
      assert ws == base;
    }
  }

  /** `fixImages` leaves an image that already has `alt` exactly as it was;
      one without gets the label its table gives, or stays without one. */
  lemma LabelImageAlt(e: Element, p: Page)
    ensures Attr(e, "alt").Some? ==> Apply(e, LabelImage(p)) == e && Apply(e, LegacyLabelImage(p)) == e
    ensures Attr(e, "alt").None? ==> Attr(Apply(e, LabelImage(p)), "alt") == ImageAlt(p, e)
    ensures Attr(e, "alt").None? ==> Attr(Apply(e, LegacyLabelImage(p)), "alt") == LegacyImageAlt(p, e)
  {
  }

  /** A pass of `fixImages` over the images leaves every image that has an
      `alt` attribute, and every other element, unchanged. */
  lemma LabelKeepsAlt(ns: seq<Element>, p: Page, k: nat)
    requires k < |ns| && (Attr(ns[k], "alt").Some? || !Matches(ns[k], ByTag("img")))
    ensures MapMatches(ns, ByTag("img"), LabelImage(p))[k] == ns[k]
    ensures MapMatches(ns, ByTag("img"), LegacyLabelImage(p))[k] == ns[k]
  {
    LabelImageAlt(ns[k], p);
  }

  /** The page after an edit of every element answering q. */
  function MapMatches(ns: seq<Element>, q: Query, ed: Edit): (r: seq<Element>)
    ensures |r| == |ns|
    ensures forall k :: 0 <= k < |ns| && !Matches(ns[k], q) ==> r[k] == ns[k]
    ensures forall k :: 0 <= k < |ns| && Matches(ns[k], q) ==> r[k] == Apply(ns[k], ed)
  {
    seq(|ns|, k requires 0 <= k < |ns| => if Matches(ns[k], q) then Apply(ns[k], ed) else ns[k])
  }

  /** An edit pass keeps every collection and every text, and keeps the page whole. */
  lemma MapMatchesKeeps(ns: seq<Element>, q: Query, ed: Edit)
    requires KeepsKeys(ed)
    ensures SameKeys(ns, MapMatches(ns, q, ed))
    ensures forall k :: 0 <= k < |ns| ==> MapMatches(ns, q, ed)[k].text == ns[k].text
    ensures Rooted(ns) && Selector(q) ==> Rooted(MapMatches(ns, q, ed))
  {
    var r := MapMatches(ns, q, ed);
    forall k | 0 <= k < |ns| ensures SameKey(ns[k], r[k]) && r[k].text == ns[k].text && r[k].depth == ns[k].depth {
      ApplyKeepsKey(ns[k], ed);
    }
    if Rooted(ns) && Selector(q) {
      RootNotSelected(ns, q);
    }
  }

  /** A second pass of the same edit changes nothing. */
  lemma MapMatchesIdempotent(ns: seq<Element>, q: Query, ed: Edit)
    requires KeepsKeys(ed)
    ensures MapMatches(MapMatches(ns, q, ed), q, ed) == MapMatches(ns, q, ed)
  {
    var r := MapMatches(ns, q, ed);
    MapMatchesKeeps(ns, q, ed);
    forall k | 0 <= k < |ns| ensures MapMatches(r, q, ed)[k] == r[k] {
      assert SameKey(ns[k], r[k]);
      if Matches(ns[k], q) {
        ApplyIdempotent(ns[k], ed);
      }
    }
  }

  /** Counting up to an element that answers q counts fewer than counting past it. */
  lemma CountPrefixGrows(ns: seq<Element>, q: Query, j: nat, k: nat)
    requires j < k <= |ns| && Matches(ns[j], q)
    ensures Count(ns[..j], q) < Count(ns[..k], q)
  {
    assert ns[..k] == ns[..j] + ns[j..k];
    CountConcat(ns[..j], ns[j..k], q);
    assert ns[j..k] == [ns[j]] + ns[j + 1..k];
    CountConcat([ns[j]], ns[j + 1..k], q);
    CountSingle(ns[j], q);
  }

  /** The state of a pass over the collection answering q, on its way from
      ns0 to target, after its first i elements have been edited: those
      elements are as in target, every other one as in ns0. */
  predicate EditedUpTo(ns0: seq<Element>, target: seq<Element>, cur: seq<Element>, q: Query, i: nat) {
    |target| == |ns0| && SameKeys(ns0, cur)
    && forall k :: 0 <= k < |ns0| ==>
         cur[k] == if Matches(ns0[k], q) && Count(ns0[..k], q) < i then target[k] else ns0[k]
  }

  lemma SameKeyMatches(a: Element, b: Element, q: Query)
    requires SameKey(a, b)
    ensures Matches(a, q) == Matches(b, q)
  {
  }

  /** One step of the pass: element i of the live collection is the one with
      i matching elements before it, not yet edited. */
  lemma NextToEdit(ns0: seq<Element>, target: seq<Element>, cur: seq<Element>, q: Query, i: nat)
    requires EditedUpTo(ns0, target, cur, q, i) && i < Count(cur, q)
    ensures var k := Nth(cur, q, i);
      k < |ns0| && Matches(ns0[k], q) && Count(ns0[..k], q) == i && cur[k] == ns0[k]
  {
    var k := Nth(cur, q, i);
    assert SameKeys(ns0[..k], cur[..k]);
    SameKeysCount(ns0[..k], cur[..k], q);
    SameKeyMatches(ns0[k], cur[k], q);
  }

  /** Editing the element that has i matching elements before it extends the
      edited prefix by one. */
  lemma EditAt(ns0: seq<Element>, target: seq<Element>, cur: seq<Element>, q: Query, i: nat, k: nat)
    requires EditedUpTo(ns0, target, cur, q, i) && SameKeys(ns0, target)
    requires k < |ns0| && Matches(ns0[k], q) && Count(ns0[..k], q) == i
    ensures EditedUpTo(ns0, target, cur[k := target[k]], q, i + 1)
  {
    var next := cur[k := target[k]];
    forall j | 0 <= j < |ns0|
      ensures next[j] == if Matches(ns0[j], q) && Count(ns0[..j], q) < i + 1 then target[j] else ns0[j]
    {
      if j != k && Matches(ns0[j], q) {
        if j < k {
          CountPrefixGrows(ns0, q, j, k);
        } else {
          CountPrefixGrows(ns0, q, k, j);
        }
      }
    }
    assert SameKeys(ns0, next) by {
      forall j | 0 <= j < |ns0| ensures SameKey(ns0[j], next[j]) {
        assert SameKey(ns0[j], cur[j]);
        assert SameKey(ns0[j], target[j]);
      }
    }
  }

  /** A pass that has edited as many elements as the collection holds has
      edited all of them. */
  lemma EditedAll(ns0: seq<Element>, target: seq<Element>, cur: seq<Element>, q: Query, i: nat)
    requires EditedUpTo(ns0, target, cur, q, i) && i == Count(ns0, q)
    requires forall k :: 0 <= k < |ns0| && !Matches(ns0[k], q) ==> target[k] == ns0[k]
    ensures cur == target
  {
    forall k | 0 <= k < |ns0| && Matches(ns0[k], q) ensures Count(ns0[..k], q) < i {
      CountPrefixGrows(ns0, q, k, |ns0|);
      assert ns0[..|ns0|] == ns0;
    }
  }

  /** The loop of a fix pass: every element of the live collection answering
      q, taken by index, receives the edit. */
  method ApplyToMatches(doc: Document, q: Query, ed: Edit)
    requires KeepsKeys(ed)
    modifies doc
    ensures doc.nodes == MapMatches(old(doc.nodes), q, ed)
    ensures doc.title == old(doc.title) && doc.styleBlocks == old(doc.styleBlocks)
  {
    ghost var ns0 := doc.nodes;
    ghost var target := MapMatches(ns0, q, ed);
    MapMatchesKeeps(ns0, q, ed);
    var i := 0;
    while i < Count(doc.nodes, q)
      invariant EditedUpTo(ns0, target, doc.nodes, q, i)
      invariant Count(doc.nodes, q) == Count(ns0, q)
      invariant i <= Count(ns0, q)
      invariant doc.title == old(doc.title) && doc.styleBlocks == old(doc.styleBlocks)
      decreases Count(ns0, q) - i
    {
      var k := Nth(doc.nodes, q, i);
      NextToEdit(ns0, target, doc.nodes, q, i);
      EditAt(ns0, target, doc.nodes, q, i, k);
      doc.nodes := doc.nodes[k := Apply(doc.nodes[k], ed)];
      SameKeysCount(ns0, doc.nodes, q);
      i := i + 1;
    }
    EditedAll(ns0, target, doc.nodes, q, i);
  }

  /** The edit of `c[0]` (or of `getElementById(...)`) when the collection is not empty. */
  function EditFirst(ns: seq<Element>, q: Query, ed: Edit): (r: seq<Element>)
    ensures |r| == |ns|
    ensures First(ns, q).None? ==> r == ns
    ensures First(ns, q).Some? ==> r == ns[First(ns, q).value := Apply(ns[First(ns, q).value], ed)]
  {
    match First(ns, q)
    case None => ns
    case Some(k) => ns[k := Apply(ns[k], ed)]
  }

  /** Editing the first element keeps every collection, and a second edit changes nothing. */
  lemma EditFirstKeeps(ns: seq<Element>, q: Query, ed: Edit)
    requires KeepsKeys(ed)
    ensures SameKeys(ns, EditFirst(ns, q, ed))
    ensures EditFirst(EditFirst(ns, q, ed), q, ed) == EditFirst(ns, q, ed)
    ensures Rooted(ns) && Selector(q) ==> Rooted(EditFirst(ns, q, ed))
  {
    var r := EditFirst(ns, q, ed);
    if First(ns, q).Some? {
      var k := First(ns, q).value;
      ApplyKeepsKey(ns[k], ed);
      assert SameKeys(ns, r);
      SameKeysFirst(ns, r, q);
      ApplyIdempotent(ns[k], ed);
      if Rooted(ns) && Selector(q) {
        RootNotSelected(ns, q);
        RootedUpdate(ns, k, Apply(ns[k], ed));
      }
    }
  }
}

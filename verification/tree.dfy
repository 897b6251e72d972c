/** The tree structure behind the flat element sequence, and the structural
    edits the scripts make: `prepend` of a new child, replacement of an
    element's content by `textContent = ...`, and moving a subtree under a
    new wrapper element (`wrapper.append(x); parent.prepend(wrapper)`). */
module Tree {
  import opened Wrappers
  import opened Text
  import opened Dom

  /** One past the last descendant of the element at index i. */
  function SubtreeEnd(ns: seq<Element>, i: nat): (e: nat)
    requires i < |ns|
    ensures i < e <= |ns|
    ensures forall k :: i < k < e ==> ns[k].depth > ns[i].depth
    ensures e < |ns| ==> ns[e].depth <= ns[i].depth
  {
    ScanEnd(ns, ns[i].depth, i + 1)
  }

  function ScanEnd(ns: seq<Element>, d: nat, k: nat): (e: nat)
    requires k <= |ns|
    ensures k <= e <= |ns|
    ensures forall j :: k <= j < e ==> ns[j].depth > d
    ensures e < |ns| ==> ns[e].depth <= d
    decreases |ns| - k
  {
    if k == |ns| || ns[k].depth <= d then k else ScanEnd(ns, d, k + 1)
  }

  /** `parentNode`: the nearest earlier element that is shallower, or `None`
      for an element at the top of the document. */
  function ParentOf(ns: seq<Element>, i: nat): (r: Option<nat>)
    requires i < |ns|
    ensures r.Some? ==> r.value < i && ns[r.value].depth < ns[i].depth
    ensures r.Some? ==> forall k :: r.value < k < i ==> ns[k].depth >= ns[i].depth
    ensures r.None? ==> forall k :: 0 <= k < i ==> ns[k].depth >= ns[i].depth
  {
    ScanParent(ns, ns[i].depth, i)
  }

  function ScanParent(ns: seq<Element>, d: nat, k: nat): (r: Option<nat>)
    requires k <= |ns|
    ensures r.Some? ==> r.value < k && ns[r.value].depth < d
    ensures r.Some? ==> forall j :: r.value < j < k ==> ns[j].depth >= d
    ensures r.None? ==> forall j :: 0 <= j < k ==> ns[j].depth >= d
    decreases k
  {
    if k == 0 then None
    else if ns[k - 1].depth < d then Some(k - 1)
    else ScanParent(ns, d, k - 1)
  }

  /** `el.querySelectorAll(...)[0]` for the element at index i: its first
      descendant answering `q`. */
  function FirstWithin(ns: seq<Element>, i: nat, q: Query): (r: Option<nat>)
    requires i < |ns|
    ensures r.Some? ==> i < r.value < SubtreeEnd(ns, i) && Matches(ns[r.value], q)
    ensures r.None? ==> forall k :: i < k < SubtreeEnd(ns, i) ==> !Matches(ns[k], q)
  {
    var e := SubtreeEnd(ns, i);
    var below := ns[i + 1..e];
    match First(below, q)
    case None =>
      assert forall k :: i < k < e ==> ns[k] == below[k - i - 1];
      None
    case Some(k) => Some(i + 1 + k)
  }

  /** The concatenated text of a run of elements. */
  function Texts(run: seq<Element>): string
    decreases |run|
  {
    if |run| == 0 then "" else run[0].text + Texts(run[1..])
  }

  /** `textContent` of the element at index i: its own text and that of its
      descendants, in document order. */
  function TextContent(ns: seq<Element>, i: nat): string
    requires i < |ns|
  {
    Texts(ns[i..SubtreeEnd(ns, i)])
  }

  /** `parent.prepend(e)`: e becomes the first child of the element at index p. */
  function PrependChild(ns: seq<Element>, p: nat, e: Element): (r: seq<Element>)
    requires p < |ns|
    ensures |r| == |ns| + 1
    ensures r[p + 1] == e.(depth := ns[p].depth + 1)
    ensures forall k :: 0 <= k <= p ==> r[k] == ns[k]
    ensures forall k :: p < k < |ns| ==> r[k + 1] == ns[k]
  {
    ns[..p + 1] + [e.(depth := ns[p].depth + 1)] + ns[p + 1..]
  }

  /** A prepended child adds itself, and only itself, to every collection it answers. */
  lemma CountPrependChild(ns: seq<Element>, p: nat, e: Element, q: Query)
    requires p < |ns|
    ensures Count(PrependChild(ns, p, e), q) == Count(ns, q) + (if Matches(e, q) then 1 else 0)
  {
    var c := e.(depth := ns[p].depth + 1);
    CountConcat(ns[..p + 1] + [c], ns[p + 1..], q);
    CountConcat(ns[..p + 1], [c], q);
    CountSingle(c, q);
    CountConcat(ns[..p + 1], ns[p + 1..], q);
    assert ns[..p + 1] + ns[p + 1..] == ns;
  }

  /** The new child of `PrependChild` is a descendant of its parent. */
  lemma PrependChildWithin(ns: seq<Element>, p: nat, e: Element)
    requires p < |ns|
    ensures SubtreeEnd(PrependChild(ns, p, e), p) > p + 1
  {
  }

  /** `el.textContent = s` for the element at index i: its own text becomes s
      and its descendants are removed. */
  function SetText(ns: seq<Element>, i: nat, s: string): (r: seq<Element>)
    requires i < |ns|
    ensures i < |r| <= |ns|
    ensures |r| == |ns| - (SubtreeEnd(ns, i) - i - 1)
    ensures r[i] == ns[i].(text := s)
    ensures forall k :: 0 <= k < i ==> r[k] == ns[k]
    ensures forall k :: i < k < |r| ==> r[k] == ns[k - i - 1 + SubtreeEnd(ns, i)]
  {
    ns[..i] + [ns[i].(text := s)] + ns[SubtreeEnd(ns, i)..]
  }

  /** Replacing content removes exactly the descendants from every collection. */
  lemma CountSetText(ns: seq<Element>, i: nat, s: string, q: Query)
    requires i < |ns|
    ensures Count(SetText(ns, i, s), q) == Count(ns, q) - Count(ns[i + 1..SubtreeEnd(ns, i)], q)
  {
    var e := SubtreeEnd(ns, i);
    var c := ns[i].(text := s);
    CountConcat(ns[..i] + [c], ns[e..], q);
    CountConcat(ns[..i], [c], q);
    CountSingle(c, q);
    CountSingle(ns[i], q);
    assert ns == ns[..i] + [ns[i]] + ns[i + 1..e] + ns[e..];
    CountConcat(ns[..i] + [ns[i]] + ns[i + 1..e], ns[e..], q);
    CountConcat(ns[..i] + [ns[i]], ns[i + 1..e], q);
    CountConcat(ns[..i], [ns[i]], q);
  }

  /** The run of the element at index j and its descendants, with depths made
      relative to it (the detached subtree `x` in `wrapper.append(x)`). */
  function Subtree(ns: seq<Element>, j: nat): (run: seq<Element>)
    requires j < |ns|
    ensures |run| == SubtreeEnd(ns, j) - j
    ensures SameKeys(ns[j..SubtreeEnd(ns, j)], run)
  {
    var e := SubtreeEnd(ns, j);
    seq(e - j, k requires 0 <= k < e - j => ns[j + k].(depth := ns[j + k].depth - ns[j].depth))
  }

  /** The document once the element at index j and its descendants are moved out of it. */
  function Cut(ns: seq<Element>, j: nat): (r: seq<Element>)
    requires j < |ns|
    ensures |r| == |ns| - (SubtreeEnd(ns, j) - j)
    ensures forall k :: 0 <= k < j ==> r[k] == ns[k]
    ensures forall k :: j <= k < |r| ==> r[k] == ns[k + (SubtreeEnd(ns, j) - j)]
  {
    ns[..j] + ns[SubtreeEnd(ns, j)..]
  }

  /** Moving a subtree out of the document only splits the collections. */
  lemma CountCut(ns: seq<Element>, j: nat, q: Query)
    requires j < |ns|
    ensures Count(ns, q) == Count(Cut(ns, j), q) + Count(Subtree(ns, j), q)
  {
    var e := SubtreeEnd(ns, j);
    assert ns == ns[..j] + ns[j..e] + ns[e..];
    CountConcat(ns[..j] + ns[j..e], ns[e..], q);
    CountConcat(ns[..j], ns[j..e], q);
    CountConcat(ns[..j], ns[e..], q);
    SameKeysCount(ns[j..e], Subtree(ns, j), q);
  }

  /** A detached run placed `delta` levels deeper. */
  function Lift(run: seq<Element>, delta: nat): (r: seq<Element>)
    ensures SameKeys(run, r)
  {
    seq(|run|, k requires 0 <= k < |run| => run[k].(depth := run[k].depth + delta))
  }

  /** `w.append(...run); parent.prepend(w)` for the element at index p:
      the new wrapper w becomes p's first child and the detached run (depths
      relative to its roots) becomes w's content. */
  function Adopt(ns: seq<Element>, p: nat, w: Element, run: seq<Element>): (r: seq<Element>)
    requires p < |ns|
    ensures |r| == |ns| + 1 + |run|
    ensures forall k :: 0 <= k <= p ==> r[k] == ns[k]
    ensures r[p + 1] == w.(depth := ns[p].depth + 1)
  {
    ns[..p + 1] + [w.(depth := ns[p].depth + 1)] + Lift(run, ns[p].depth + 2) + ns[p + 1..]
  }

  /** Adopting adds the wrapper and the moved run to every collection they answer. */
  lemma CountAdopt(ns: seq<Element>, p: nat, w: Element, run: seq<Element>, q: Query)
    requires p < |ns|
    ensures Count(Adopt(ns, p, w, run), q)
         == Count(ns, q) + (if Matches(w, q) then 1 else 0) + Count(run, q)
  {
    var c := w.(depth := ns[p].depth + 1);
    var lifted := Lift(run, ns[p].depth + 2);
    CountConcat(ns[..p + 1] + [c] + lifted, ns[p + 1..], q);
    CountConcat(ns[..p + 1] + [c], lifted, q);
    CountConcat(ns[..p + 1], [c], q);
    CountSingle(c, q);
    SameKeysCount(run, lifted, q);
    CountConcat(ns[..p + 1], ns[p + 1..], q);
    assert ns[..p + 1] + ns[p + 1..] == ns;
  }

  /** `w.appendChild(el); parent.prepend(w)` for the element at index j whose
      parent is at index p: el and its subtree move into the new wrapper w,
      which becomes p's first child. */
  function WrapIn(ns: seq<Element>, j: nat, p: nat, w: Element): (r: seq<Element>)
    requires p < j < |ns|
    ensures |r| == |ns| + 1
  {
    Adopt(Cut(ns, j), p, w, Subtree(ns, j))
  }

  /** Wrapping adds the wrapper, and only the wrapper, to the collections. */
  lemma CountWrapIn(ns: seq<Element>, j: nat, p: nat, w: Element, q: Query)
    requires p < j < |ns|
    ensures Count(WrapIn(ns, j, p, w), q) == Count(ns, q) + (if Matches(w, q) then 1 else 0)
  {
    CountCut(ns, j, q);
    CountAdopt(Cut(ns, j), p, w, Subtree(ns, j), q);
  }

  /** A whole page: the `html` root first, carrying no attributes, and every
      other element below it. No class or id query selects the root, and
      every other element has a parent. */
  predicate Rooted(ns: seq<Element>) {
    |ns| > 0 && ns[0].tag == "html" && ns[0].attrs == map[] && ns[0].depth == 0
    && forall k :: 0 < k < |ns| ==> ns[k].depth > 0
  }

  /** The queries the scripts run: none of them asks for the `html` element. */
  predicate Selector(q: Query) {
    !(q.ByTag? && q.tag == "html")
  }

  lemma RootNotSelected(ns: seq<Element>, q: Query)
    requires Rooted(ns) && Selector(q)
    ensures !Matches(ns[0], q)
  {
    assert Attr(ns[0], "class") == None;
    assert Tokens("") == [];
  }

  lemma RootedParent(ns: seq<Element>, k: nat)
    requires Rooted(ns) && 0 < k < |ns|
    ensures ParentOf(ns, k).Some?
  {
    assert ns[0].depth < ns[k].depth;
  }

  lemma RootedPrependChild(ns: seq<Element>, p: nat, e: Element)
    requires Rooted(ns) && p < |ns|
    ensures Rooted(PrependChild(ns, p, e))
  {
  }

  lemma RootedSetText(ns: seq<Element>, i: nat, s: string)
    requires Rooted(ns) && 0 < i < |ns|
    ensures Rooted(SetText(ns, i, s))
  {
    var r := SetText(ns, i, s);
    var e := SubtreeEnd(ns, i);
    assert forall k :: i < k < |r| ==> r[k] == ns[k - i - 1 + e];
  }

  lemma RootedCut(ns: seq<Element>, j: nat)
    requires Rooted(ns) && 0 < j < |ns|
    ensures Rooted(Cut(ns, j))
  {
  }

  lemma RootedAdopt(ns: seq<Element>, p: nat, w: Element, run: seq<Element>)
    requires Rooted(ns) && p < |ns|
    ensures Rooted(Adopt(ns, p, w, run))
  {
    var r := Adopt(ns, p, w, run);
    var lifted := Lift(run, ns[p].depth + 2);
    assert r == ns[..p + 1] + [w.(depth := ns[p].depth + 1)] + lifted + ns[p + 1..];
    assert forall k :: p + 1 < k < p + 2 + |run| ==> r[k] == lifted[k - p - 2];
    assert forall k :: p + 2 + |run| <= k < |r| ==> r[k] == ns[k - 1 - |run|];
  }

  /** Changing one element other than the root, at the same depth, keeps the page whole. */
  lemma RootedUpdate(ns: seq<Element>, k: nat, e: Element)
    requires Rooted(ns) && 0 < k < |ns| && e.depth == ns[k].depth
    ensures Rooted(ns[k := e])
  {
  }

  lemma RootedWrapIn(ns: seq<Element>, j: nat, p: nat, w: Element)
    requires Rooted(ns) && p < j < |ns|
    ensures Rooted(WrapIn(ns, j, p, w))
  {
    RootedCut(ns, j);
    RootedAdopt(Cut(ns, j), p, w, Subtree(ns, j));
  }
}

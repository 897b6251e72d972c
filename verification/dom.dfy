/** The page as the scripts see it: a flat sequence of elements in document
    order, the queries they run over it (`getElementsByTagName`,
    `getElementsByClassName`, `getElementById`) and the document-wide state
    that is not an element (the title and the injected style blocks). */
module Dom {
  import opened Wrappers
  import opened Text

  /** One element of the page. `attrs` holds every attribute, `class` and `id`
      included; `text` is the element's own text; `depth` is its nesting depth.
      The descendants of the element at index i are the elements after it that
      are deeper, up to the first one that is not. */
  datatype Element = Element(tag: string, attrs: map<string, string>, text: string, depth: nat)

  /** `getAttribute(name)`, with `None` for JavaScript's `null`. */
  function Attr(e: Element, name: string): Option<string> {
    if name in e.attrs then Some(e.attrs[name]) else None
  }

  /** `setAttribute(name, value)`. */
  function SetAttr(e: Element, name: string, value: string): (r: Element)
    ensures Attr(r, name) == Some(value)
    ensures forall n :: n != name ==> Attr(r, n) == Attr(e, n)
    ensures r.tag == e.tag && r.text == e.text && r.depth == e.depth
  {
    e.(attrs := e.attrs[name := value])
  }

  /** `classList`: the whitespace-separated tokens of the class attribute. */
  function ClassList(e: Element): seq<string> {
    Tokens(Attr(e, "class").GetOr(""))
  }

  /** `classList.contains(c)`. */
  predicate HasClass(e: Element, c: string) {
    c in ClassList(e)
  }

  /** An element without a class attribute has no class. */
  lemma Unclassed(e: Element, c: string)
    requires Attr(e, "class").None?
    ensures !HasClass(e, c)
  {
    assert Tokens("") == [];
  }

  /** An element whose class attribute is exactly one word has that class and no other. */
  lemma SingleClass(e: Element, w: string, c: string)
    requires Attr(e, "class") == Some(w)
    requires w != "" && forall k :: 0 <= k < |w| ==> !IsAsciiSpace(w[k])
    ensures HasClass(e, c) <==> c == w
  {
    TokensOfWord(w);
  }

  /** The three ways the scripts look elements up. */
  datatype Query = ByTag(tag: string) | ByClass(name: string) | ById(id: string)

  predicate Matches(e: Element, q: Query) {
    match q
    case ByTag(t) => e.tag == t
    case ByClass(c) => HasClass(e, c)
    case ById(i) => Attr(e, "id") == Some(i)
  }

  /** Two elements every query treats alike: same tag, class and id. */
  predicate SameKey(a: Element, b: Element) {
    a.tag == b.tag && Attr(a, "class") == Attr(b, "class") && Attr(a, "id") == Attr(b, "id")
  }

  /** Two sequences whose elements every query treats alike, index by index. */
  predicate SameKeys(a: seq<Element>, b: seq<Element>) {
    |a| == |b| && forall k :: 0 <= k < |a| ==> SameKey(a[k], b[k])
  }

  /** The length of the live collection of elements answering `q`. */
  function Count(ns: seq<Element>, q: Query): (c: nat)
    ensures c <= |ns|
    decreases |ns|
  {
    if |ns| == 0 then 0
    else (if Matches(ns[0], q) then 1 else 0) + Count(ns[1..], q)
  }

  /** The collection is empty exactly when no element answers the query. */
  lemma {:induction false} CountZero(ns: seq<Element>, q: Query)
    ensures Count(ns, q) == 0 <==> forall k :: 0 <= k < |ns| ==> !Matches(ns[k], q)
    decreases |ns|
  {
    if |ns| > 0 {
      CountZero(ns[1..], q);
      assert forall k :: 1 <= k < |ns| ==> ns[k] == ns[1..][k - 1];
    }
  }

  /** Index 0 of the collection answering `q` (the first in document order),
      or `None` when the collection is empty. */
  function First(ns: seq<Element>, q: Query): (r: Option<nat>)
    ensures r.Some? ==> r.value < |ns| && Matches(ns[r.value], q)
    ensures r.Some? ==> forall k :: 0 <= k < r.value ==> !Matches(ns[k], q)
    ensures r.None? ==> forall k :: 0 <= k < |ns| ==> !Matches(ns[k], q)
    decreases |ns|
  {
    if |ns| == 0 then None
    else if Matches(ns[0], q) then Some(0)
    else match First(ns[1..], q)
      case None => None
      case Some(k) => Some(k + 1)
  }

  /** `c[0]` exists exactly when `c.length > 0`. */
  lemma FirstExists(ns: seq<Element>, q: Query)
    ensures First(ns, q).Some? <==> Count(ns, q) > 0
  {
    CountZero(ns, q);
  }

  /** `c[0]` is the element at k when k answers and nothing before it does. */
  lemma FirstIs(ns: seq<Element>, q: Query, k: nat)
    requires k < |ns| && Matches(ns[k], q)
    requires forall j :: 0 <= j < k ==> !Matches(ns[j], q)
    ensures First(ns, q) == Some(k)
  {
  }

  /** Index n of the collection answering `q`: a matching element with exactly
      n matching elements before it. */
  function Nth(ns: seq<Element>, q: Query, n: nat): (k: nat)
    requires n < Count(ns, q)
    ensures k < |ns| && Matches(ns[k], q)
    ensures Count(ns[..k], q) == n
    decreases |ns|
  {
    var rest := ns[1..];
    assert Count(ns, q) == (if Matches(ns[0], q) then 1 else 0) + Count(rest, q);
    if Matches(ns[0], q) && n == 0 then
      assert ns[..0] == [];
      0
    else
      var n' := if Matches(ns[0], q) then n - 1 else n;
      var j := Nth(rest, q, n');
      assert ns[..j + 1][1..] == rest[..j];
      j + 1
  }

  lemma {:induction false} CountConcat(a: seq<Element>, b: seq<Element>, q: Query)
    ensures Count(a + b, q) == Count(a, q) + Count(b, q)
    decreases |a|
  {
    if |a| == 0 {
      assert a + b == b;
    } else {
      CountConcat(a[1..], b, q);
      assert (a + b)[1..] == a[1..] + b;
    }
  }

  lemma CountSingle(e: Element, q: Query)
    ensures Count([e], q) == if Matches(e, q) then 1 else 0
  {
    assert [e][1..] == [];
  }

  /** Sequences that every query treats alike give the same collections. */
  lemma {:induction false} SameKeysCount(a: seq<Element>, b: seq<Element>, q: Query)
    requires SameKeys(a, b)
    ensures Count(a, q) == Count(b, q)
    decreases |a|
  {
    if |a| > 0 {
      assert SameKey(a[0], b[0]);
      assert Matches(a[0], q) == Matches(b[0], q);
      SameKeysCount(a[1..], b[1..], q);
    }
  }

  /** A sequence that agrees with `a` before index k, and whose element k
      answers q, has the same first answer as `a` when that is k. */
  lemma FirstKept(a: seq<Element>, b: seq<Element>, q: Query, k: nat)
    requires First(a, q) == Some(k) && k < |b| && Matches(b[k], q)
    requires forall j :: 0 <= j < k ==> a[j] == b[j]
    ensures First(b, q) == Some(k)
  {
  }

  lemma SameKeysFirst(a: seq<Element>, b: seq<Element>, q: Query)
    requires SameKeys(a, b)
    ensures First(a, q) == First(b, q)
  {
    forall k | 0 <= k < |a| ensures Matches(a[k], q) == Matches(b[k], q) {
      assert SameKey(a[k], b[k]);
    }
  }

  /** The page after a step of whova.js, which may stop with a TypeError
      (a property read on `null` or `undefined`); `threw` says it did. */
  datatype Outcome = Outcome(nodes: seq<Element>, threw: bool)

  /** The document-wide state beside the elements: the text of `<title>`, the
      number of style blocks the scripts have appended to `<head>`, and the
      elements themselves. */
  class Document {
    var title: string
    var styleBlocks: nat
    var nodes: seq<Element>

    constructor (title: string, nodes: seq<Element>)
      ensures this.title == title && this.nodes == nodes && styleBlocks == 0
    {
      this.title := title;
      this.nodes := nodes;
      styleBlocks := 0;
    }
  }
}

/** The statements a fix pass is made of, as data: each statement of
    `fixLandmarks`, `addAlert`, `fixImages`, `fixHeadings` and `fixOther`
    is one `Step`, a pass is a sequence of steps, and a TypeError stops the
    pass where it is thrown. */
module Steps {
  import opened Wrappers
  import opened Dom
  import opened Tree
  import opened Edits
  import opened Landmarks
  import opened Headings

  datatype Step =
    | EditEach(q: Query, ed: Edit)                 // a loop over a live collection
    | EditOne(q: Query, ed: Edit, must: bool)      // `c[0]` or `getElementById`; `must`: no null test
    | MarkList(lists: Query, items: Query)         // list roles, only when lists and items exist
    | PresentEventName(container: Query)           // the event-name `h2`
    | CreateH1(text: string)
    | CreateColumnH2(column: Query, text: string, guarded: bool, must: bool)
    | Preface(q: Query, prefix: string, ownText: bool, must: bool)
    | WrapLinks(links: Query)                      // the attendee links
    | FixLandmarks(legacy: bool)
    | AddLiveRegion(legacy: bool)

  const ListRole: Edit := SetAttrs([("role", "list")])
  const ItemRole: Edit := SetAttrs([("role", "listitem")])

  /** The steps the scripts write: their edits never touch `class` or `id`,
      their queries never ask for the `html` element, and the wrapped links
      are a class collection. */
  predicate WellFormed(s: Step) {
    match s
    case EditEach(q, ed) => KeepsKeys(ed) && Selector(q)
    case EditOne(q, ed, _) => KeepsKeys(ed) && Selector(q)
    case MarkList(lists, items) => Selector(lists) && Selector(items)
    case Preface(q, _, _, _) => Selector(q)
    case WrapLinks(links) => links.ByClass?
    case _ => true
  }

  predicate AllWellFormed(plan: seq<Step>) {
    forall i :: 0 <= i < |plan| ==> WellFormed(plan[i])
  }

  /** What one step does to the page, and whether it throws. */
  function Run(ns: seq<Element>, s: Step): Outcome
    requires WellFormed(s)
  {
    match s
    case EditEach(q, ed) => Outcome(MapMatches(ns, q, ed), false)
    case EditOne(q, ed, must) =>
      if First(ns, q).None? then Outcome(ns, must) else Outcome(EditFirst(ns, q, ed), false)
    case MarkList(lists, items) =>
      if Count(ns, lists) > 0 && Count(ns, items) > 0 then
        Outcome(MapMatches(MapMatches(ns, lists, ListRole), items, ItemRole), false)
      else Outcome(ns, false)
    case PresentEventName(c) => Outcome(PresentFirstH2(ns, c), false)
    case CreateH1(text) => Outcome(AddH1(ns, text), false)
    case CreateColumnH2(column, text, guarded, must) => AddColumnH2(ns, column, text, guarded, must)
    case Preface(q, prefix, ownText, must) => Retitle(ns, q, prefix, ownText, must)
    case WrapLinks(links) => Outcome(WrapFrom(ns, links, 0), false)
    case FixLandmarks(legacy) => if legacy then LegacyLandmarks(ns) else Outcome(Landmarks.Landmarks(ns), false)
    case AddLiveRegion(legacy) => if legacy then LegacyAddAlert(ns) else Outcome(AddAlert(ns), false)
  }

  /** A pass: the steps in order, up to and including the first that throws. */
  function RunPlan(ns: seq<Element>, plan: seq<Step>): Outcome
    requires AllWellFormed(plan)
    decreases |plan|
  {
    if |plan| == 0 then Outcome(ns, false)
    else
      var r := Run(ns, plan[0]);
      if r.threw then r else RunPlan(r.nodes, plan[1..])
  }

  /** One statement of a pass, applied to the document. The loops over live
      collections run as loops; the other statements are single updates. */
  method RunStep(doc: Document, s: Step) returns (threw: bool)
    requires WellFormed(s)
    modifies doc
    ensures Outcome(doc.nodes, threw) == Run(old(doc.nodes), s)
    ensures doc.title == old(doc.title) && doc.styleBlocks == old(doc.styleBlocks)
  {
    threw := false;
    match s
    case EditEach(q, ed) =>
      ApplyToMatches(doc, q, ed);
    case MarkList(lists, items) =>
      if Count(doc.nodes, lists) > 0 && Count(doc.nodes, items) > 0 {
        ApplyToMatches(doc, lists, ListRole);
        ApplyToMatches(doc, items, ItemRole);
      }
    case WrapLinks(links) =>
      WrapAll(doc, links);
    case _ =>
      var r := Run(doc.nodes, s);
      doc.nodes := r.nodes;
      threw := r.threw;
  }

  /** A pass applied to the document: the statements in order until one throws. */
  method RunSteps(doc: Document, plan: seq<Step>) returns (threw: bool)
    requires AllWellFormed(plan)
    modifies doc
    ensures Outcome(doc.nodes, threw) == RunPlan(old(doc.nodes), plan)
    ensures doc.title == old(doc.title) && doc.styleBlocks == old(doc.styleBlocks)
  {
    threw := false;
    var i := 0;
    while i < |plan| && !threw
      invariant 0 <= i <= |plan|
      invariant !threw ==> RunPlan(doc.nodes, plan[i..]) == RunPlan(old(doc.nodes), plan)
      invariant threw ==> Outcome(doc.nodes, true) == RunPlan(old(doc.nodes), plan)
      invariant doc.title == old(doc.title) && doc.styleBlocks == old(doc.styleBlocks)
      decreases |plan| - i
    {
      assert plan[i..][0] == plan[i] && plan[i..][1..] == plan[i + 1..];
      threw := RunStep(doc, plan[i]);
      i := i + 1;
    }
    if !threw {
      assert plan[i..] == [];
    }
  }

  /** A step that has no `must` lookup and is not one of whova.js's
      unguarded landmark or live-region statements. */
  predicate NeverThrows(s: Step) {
    match s
    case EditOne(_, _, must) => !must
    case CreateColumnH2(_, _, _, must) => !must
    case Preface(_, _, _, must) => !must
    case FixLandmarks(legacy) => !legacy
    case AddLiveRegion(legacy) => !legacy
    case _ => true
  }

  predicate AllNeverThrow(plan: seq<Step>) {
    forall i :: 0 <= i < |plan| ==> NeverThrows(plan[i])
  }

  /** Both properties of plans carry over to a plan made of two. */
  lemma Concat(a: seq<Step>, b: seq<Step>)
    ensures AllWellFormed(a) && AllWellFormed(b) ==> AllWellFormed(a + b)
    ensures AllNeverThrow(a) && AllNeverThrow(b) ==> AllNeverThrow(a + b)
  {
    forall i | 0 <= i < |a + b| ensures (a + b)[i] == if i < |a| then a[i] else b[i - |a|] {
    }
  }

  /** The element a throwing step dereferences is missing. */
  predicate TargetMissing(ns: seq<Element>, s: Step) {
    match s
    case EditOne(q, _, _) => First(ns, q).None?
    case CreateColumnH2(column, _, _, _) => First(ns, column).None?
    case Preface(q, _, _, _) => First(ns, q).None?
    case FixLandmarks(_) => First(ns, AppMain).None?
    case AddLiveRegion(_) => First(ns, Alert).None? && First(ns, PageContent).None?
    case _ => false
  }

  /** A step throws exactly when it may throw and the element it
      dereferences is missing. */
  lemma StepThrows(ns: seq<Element>, s: Step)
    requires WellFormed(s)
    ensures Run(ns, s).threw <==> !NeverThrows(s) && TargetMissing(ns, s)
  {
    match s
    case FixLandmarks(legacy) =>
      if legacy { LegacyLandmarksCount(ns, H1); }
    case AddLiveRegion(legacy) =>
      if legacy { LegacyAddAlertAgrees(ns); }
    case _ =>
  }

  /** A pass none of whose steps may throw runs to its end. */
  lemma {:induction false} PlanNeverThrows(ns: seq<Element>, plan: seq<Step>)
    requires AllWellFormed(plan)
    requires AllNeverThrow(plan)
    ensures !RunPlan(ns, plan).threw
    decreases |plan|
  {
    if |plan| > 0 {
      StepThrows(ns, plan[0]);
      PlanNeverThrows(Run(ns, plan[0]).nodes, plan[1..]);
    }
  }

  /** The page facts every pass keeps: the page is whole, with at most one
      `h1` and at most one live region. */
  predicate Sound(ns: seq<Element>) {
    Rooted(ns) && Count(ns, H1) <= 1 && Count(ns, Alert) <= 1
  }

  lemma KeysSound(ns: seq<Element>, r: seq<Element>)
    requires Sound(ns) && SameKeys(ns, r) && Rooted(r)
    ensures Sound(r)
  {
    SameKeysCount(ns, r, H1);
    SameKeysCount(ns, r, Alert);
  }

  lemma EachSound(ns: seq<Element>, q: Query, ed: Edit)
    requires Sound(ns) && KeepsKeys(ed) && Selector(q)
    ensures Sound(MapMatches(ns, q, ed))
  {
    MapMatchesKeeps(ns, q, ed);
    KeysSound(ns, MapMatches(ns, q, ed));
  }

  lemma OneSound(ns: seq<Element>, q: Query, ed: Edit)
    requires Sound(ns) && KeepsKeys(ed) && Selector(q)
    ensures Sound(EditFirst(ns, q, ed))
  {
    EditFirstCount(ns, q, ed, H1);
    EditFirstCount(ns, q, ed, Alert);
  }

  lemma MarkListSound(ns: seq<Element>, lists: Query, items: Query)
    requires Sound(ns) && Selector(lists) && Selector(items)
    ensures Sound(MapMatches(MapMatches(ns, lists, ListRole), items, ItemRole))
  {
    assert KeepsKeys(ListRole) && KeepsKeys(ItemRole);
    EachSound(ns, lists, ListRole);
    EachSound(MapMatches(ns, lists, ListRole), items, ItemRole);
  }

  lemma EventNameSound(ns: seq<Element>, c: Query)
    requires Sound(ns)
    ensures Sound(PresentFirstH2(ns, c))
  {
    PresentFirstH2Keeps(ns, c);
    KeysSound(ns, PresentFirstH2(ns, c));
  }

  /** A created element added as a first child keeps the page sound when it
      is not a live region and is an `h1` only where there was none. */
  lemma PrependSound(ns: seq<Element>, p: nat, tag: string, text: string)
    requires Sound(ns) && p < |ns| && tag != "h1"
    ensures Sound(PrependChild(ns, p, Fresh(tag, text)))
  {
    FreshMatches(tag, text, H1);
    FreshMatches(tag, text, Alert);
    CountPrependChild(ns, p, Fresh(tag, text), H1);
    CountPrependChild(ns, p, Fresh(tag, text), Alert);
    RootedPrependChild(ns, p, Fresh(tag, text));
  }

  lemma CreateH1Sound(ns: seq<Element>, text: string)
    requires Sound(ns)
    ensures Sound(AddH1(ns, text))
  {
    AddH1Once(ns, text);
    if Count(ns, H1) == 0 {
      match First(ns, PageContent)
      case None =>
      case Some(m) =>
        FreshMatches("h1", text, Alert);
        CountPrependChild(ns, m, Fresh("h1", text), Alert);
        RootedPrependChild(ns, m, Fresh("h1", text));
    }
  }

  lemma PrefaceSound(ns: seq<Element>, q: Query, prefix: string, ownText: bool, must: bool)
    requires Sound(ns) && Selector(q)
    ensures Sound(Retitle(ns, q, prefix, ownText, must).nodes)
  {
    match First(ns, q)
    case None =>
    case Some(k) =>
      RootNotSelected(ns, q);
      var text := prefix + (if ownText then TextContent(ns, k) else "undefined");
      RetitleKeys(ns, k, text, H1);
      RetitleKeys(ns, k, text, Alert);
  }

  lemma LandmarksSound(ns: seq<Element>, legacy: bool)
    requires Sound(ns)
    ensures Sound(if legacy then LegacyLandmarks(ns).nodes else Landmarks.Landmarks(ns))
  {
    if legacy {
      LegacyLandmarksCount(ns, H1);
      LegacyLandmarksCount(ns, Alert);
    } else {
      LandmarksCount(ns, H1);
      LandmarksCount(ns, Alert);
    }
  }

  lemma LiveRegionSound(ns: seq<Element>, legacy: bool)
    requires Sound(ns)
    ensures Sound(if legacy then LegacyAddAlert(ns).nodes else AddAlert(ns))
  {
    AddAlertAtMostOne(ns);
    AddAlertCount(ns, H1);
    LegacyAddAlertAgrees(ns);
  }

  /** Every step keeps the page whole, with at most one `h1` and at most
      one live region, whether or not it throws. */
  lemma StepSound(ns: seq<Element>, s: Step)
    requires WellFormed(s) && Sound(ns)
    ensures Sound(Run(ns, s).nodes)
  {
    match s
    case EditEach(q, ed) => EachSound(ns, q, ed);
    case EditOne(q, ed, must) => OneSound(ns, q, ed);
    case MarkList(lists, items) => MarkListSound(ns, lists, items);
    case PresentEventName(c) => EventNameSound(ns, c);
    case CreateH1(text) => CreateH1Sound(ns, text);
    case CreateColumnH2(column, text, guarded, must) =>
      if First(ns, column).Some? {
        PrependSound(ns, First(ns, column).value, "h2", text);
      }
    case Preface(q, prefix, ownText, must) => PrefaceSound(ns, q, prefix, ownText, must);
    case WrapLinks(links) =>
    case FixLandmarks(legacy) => LandmarksSound(ns, legacy);
    case AddLiveRegion(legacy) => LiveRegionSound(ns, legacy);
  }

  /** A whole pass keeps the page sound, also when it stops at a TypeError. */
  lemma {:induction false} PlanSound(ns: seq<Element>, plan: seq<Step>)
    requires AllWellFormed(plan) && Sound(ns)
    ensures Sound(RunPlan(ns, plan).nodes)
    decreases |plan|
  {
    if |plan| > 0 {
      StepSound(ns, plan[0]);
      var r := Run(ns, plan[0]);
      if !r.threw {
        PlanSound(r.nodes, plan[1..]);
      }
    }
  }
}

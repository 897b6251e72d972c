/** `fixLandmarks` and `addAlert`: the ARIA landmark roles, the banner
    wrapper built around the two header sections, and the live region that
    carries status messages. */
module Landmarks {
  import opened Wrappers
  import opened Dom
  import opened Tree
  import opened Edits

  /** The `<header role="banner">` wrapper. */
  const BannerWrapper: Element := Element("header", map["role" := "banner"], "", 0)

  const WhovaHeader: Query := ByClass("whova-header")
  const EventNameHeader: Query := ByClass("event-name-header")

  /** The parent p of the top header, once the event-name header at b
      (outside p's ancestors) has been moved out of the page `rest`. */
  function ParentAfterCut(rest: seq<Element>, p: nat, b: nat): (p2: nat)
    requires p < |rest| && b < |rest| && !(b <= p < SubtreeEnd(rest, b))
    ensures p2 < |Cut(rest, b)|
  {
    if b < p then p - (SubtreeEnd(rest, b) - b) else p
  }

  /** The banner step when the event-name header at b is moved too: both
      move, in that order, into a new wrapper, first child of the parent. */
  function WrapBoth(ns: seq<Element>, t: nat, p: nat, b: nat): seq<Element>
    requires p < t < |ns|
    requires b < |Cut(ns, t)| && !(b <= p < SubtreeEnd(Cut(ns, t), b))
  {
    var rest := Cut(ns, t);
    Adopt(Cut(rest, b), ParentAfterCut(rest, p, b), BannerWrapper, Subtree(ns, t) + Subtree(rest, b))
  }

  /** The banner step: the first `whova-header` and then the first
      `event-name-header` left in the page are moved, in that order, into a
      new banner wrapper that becomes the first child of the `whova-header`'s
      parent. Nothing happens without a `whova-header`. */
  function Banner(ns: seq<Element>): seq<Element> {
    match First(ns, WhovaHeader)
    case None => ns
    case Some(t) =>
      match ParentOf(ns, t)
      case None => ns
      case Some(p) =>
        match First(Cut(ns, t), EventNameHeader)
        case None => WrapIn(ns, t, p, BannerWrapper)
        case Some(b) =>
          if b <= p < SubtreeEnd(Cut(ns, t), b) then ns
          else WrapBoth(ns, t, p, b)
  }

  /** The banner step builds a wrapper: there is a `whova-header` with a
      parent, and the event-name header to be moved does not enclose that
      parent. */
  predicate BannerBuilt(ns: seq<Element>) {
    match First(ns, WhovaHeader)
    case None => false
    case Some(t) =>
      match ParentOf(ns, t)
      case None => false
      case Some(p) =>
        match First(Cut(ns, t), EventNameHeader)
        case None => true
        case Some(b) => !(b <= p < SubtreeEnd(Cut(ns, t), b))
  }

  lemma WrapBothCount(ns: seq<Element>, t: nat, p: nat, b: nat, q: Query)
    requires p < t < |ns|
    requires b < |Cut(ns, t)| && !(b <= p < SubtreeEnd(Cut(ns, t), b))
    ensures Count(WrapBoth(ns, t, p, b), q) == Count(ns, q) + (if Matches(BannerWrapper, q) then 1 else 0)
  {
    var rest := Cut(ns, t);
    var top := Subtree(ns, t);
    var bottom := Subtree(rest, b);
    CountCut(ns, t, q);
    CountCut(rest, b, q);
    CountConcat(top, bottom, q);
    CountAdopt(Cut(rest, b), ParentAfterCut(rest, p, b), BannerWrapper, top + bottom, q);
  }

  lemma WrapBothRooted(ns: seq<Element>, t: nat, p: nat, b: nat)
    requires Rooted(ns) && 0 < t < |ns| && p < t
    requires 0 < b < |Cut(ns, t)| && !(b <= p < SubtreeEnd(Cut(ns, t), b))
    ensures Rooted(WrapBoth(ns, t, p, b))
  {
    var rest := Cut(ns, t);
    RootedCut(ns, t);
    RootedCut(rest, b);
    RootedAdopt(Cut(rest, b), ParentAfterCut(rest, p, b), BannerWrapper, Subtree(ns, t) + Subtree(rest, b));
  }

  /** The banner step adds the wrapper to every collection the wrapper
      answers, when it builds one, and changes no other collection. */
  lemma BannerCount(ns: seq<Element>, q: Query)
    ensures Count(Banner(ns), q) == Count(ns, q) + (if BannerBuilt(ns) && Matches(BannerWrapper, q) then 1 else 0)
  {
    match First(ns, WhovaHeader)
    case None =>
    case Some(t) =>
      match ParentOf(ns, t)
      case None =>
      case Some(p) =>
        match First(Cut(ns, t), EventNameHeader)
        case None => CountWrapIn(ns, t, p, BannerWrapper, q);
        case Some(b) =>
          if !(b <= p < SubtreeEnd(Cut(ns, t), b)) {
            WrapBothCount(ns, t, p, b, q);
          }
  }

  /** The banner step keeps the page whole. */
  lemma BannerRooted(ns: seq<Element>)
    requires Rooted(ns)
    ensures Rooted(Banner(ns))
  {
    match First(ns, WhovaHeader)
    case None =>
    case Some(t) =>
      RootNotSelected(ns, WhovaHeader);
      match ParentOf(ns, t)
      case None =>
      case Some(p) =>
        match First(Cut(ns, t), EventNameHeader)
        case None => RootedWrapIn(ns, t, p, BannerWrapper);
        case Some(b) =>
          if !(b <= p < SubtreeEnd(Cut(ns, t), b)) {
            RootedCut(ns, t);
            RootNotSelected(Cut(ns, t), EventNameHeader);
            WrapBothRooted(ns, t, p, b);
          }
  }

  /** The banner step is not idempotent: the top header is still there after
      it, so a second pass wraps it again, in a second banner. */
  lemma BannerNotIdempotent(ns: seq<Element>)
    requires BannerBuilt(ns) && BannerBuilt(Banner(ns))
    ensures Count(Banner(Banner(ns)), ByTag("header")) == Count(ns, ByTag("header")) + 2
    ensures Count(Banner(ns), WhovaHeader) == Count(ns, WhovaHeader)
  {
    BannerCount(ns, ByTag("header"));
    BannerCount(Banner(ns), ByTag("header"));
    BannerCount(ns, WhovaHeader);
  }

  /** The banner step of whova.js when the event-name header it looked up
      lies inside the top header at t: the top header moves into the new
      wrapper, then the event-name header moves out of it, to follow it. */
  function WrapNested(ns: seq<Element>, t: nat, p: nat, b: nat): seq<Element>
    requires p < t < |ns| && t < b < SubtreeEnd(ns, t)
  {
    var top := Subtree(ns, t);
    Adopt(Cut(ns, t), p, BannerWrapper, Cut(top, b - t) + Subtree(top, b - t))
  }

  /** Where the element at b, outside the subtree at t, sits once that
      subtree is moved out. */
  function Outside(ns: seq<Element>, t: nat, b: nat): (c: nat)
    requires t < |ns| && b < |ns| && !(t <= b < SubtreeEnd(ns, t))
    ensures c < |Cut(ns, t)| && Cut(ns, t)[c] == ns[b]
  {
    if b < t then b else b - (SubtreeEnd(ns, t) - t)
  }

  /** The banner step of whova.js: it looks up the first `event-name-header`
      before moving the `whova-header`, so the element it moves second may
      be one inside the `whova-header`, or the `whova-header` itself (moved
      to where it already is). */
  function LegacyBanner(ns: seq<Element>): seq<Element> {
    match First(ns, WhovaHeader)
    case None => ns
    case Some(t) =>
      match ParentOf(ns, t)
      case None => ns
      case Some(p) =>
        match First(ns, EventNameHeader)
        case None => WrapIn(ns, t, p, BannerWrapper)
        case Some(b) =>
          if b == t then WrapIn(ns, t, p, BannerWrapper)
          else if t < b < SubtreeEnd(ns, t) then WrapNested(ns, t, p, b)
          else
            var c := Outside(ns, t, b);
            if c <= p < SubtreeEnd(Cut(ns, t), c) then ns else WrapBoth(ns, t, p, c)
  }

  /** whova.js's banner step builds a wrapper: there is a `whova-header`
      with a parent, and the event-name header does not enclose that parent. */
  predicate LegacyBannerBuilt(ns: seq<Element>) {
    match First(ns, WhovaHeader)
    case None => false
    case Some(t) =>
      match ParentOf(ns, t)
      case None => false
      case Some(p) =>
        match First(ns, EventNameHeader)
        case None => true
        case Some(b) =>
          b == t || t < b < SubtreeEnd(ns, t)
          || var c := Outside(ns, t, b); !(c <= p < SubtreeEnd(Cut(ns, t), c))
  }

  lemma WrapNestedCount(ns: seq<Element>, t: nat, p: nat, b: nat, q: Query)
    requires p < t < |ns| && t < b < SubtreeEnd(ns, t)
    ensures Count(WrapNested(ns, t, p, b), q) == Count(ns, q) + (if Matches(BannerWrapper, q) then 1 else 0)
  {
    var top := Subtree(ns, t);
    CountCut(ns, t, q);
    CountCut(top, b - t, q);
    CountConcat(Cut(top, b - t), Subtree(top, b - t), q);
    CountAdopt(Cut(ns, t), p, BannerWrapper, Cut(top, b - t) + Subtree(top, b - t), q);
  }

  /** whova.js's banner step adds the wrapper to every collection the
      wrapper answers, when it builds one, and changes no other collection. */
  lemma LegacyBannerCount(ns: seq<Element>, q: Query)
    ensures Count(LegacyBanner(ns), q) == Count(ns, q) + (if LegacyBannerBuilt(ns) && Matches(BannerWrapper, q) then 1 else 0)
  {
    match First(ns, WhovaHeader)
    case None =>
    case Some(t) =>
      match ParentOf(ns, t)
      case None =>
      case Some(p) =>
        match First(ns, EventNameHeader)
        case None => CountWrapIn(ns, t, p, BannerWrapper, q);
        case Some(b) =>
          if b == t {
            CountWrapIn(ns, t, p, BannerWrapper, q);
          } else if t < b < SubtreeEnd(ns, t) {
            WrapNestedCount(ns, t, p, b, q);
          } else {
            var c := Outside(ns, t, b);
            if !(c <= p < SubtreeEnd(Cut(ns, t), c)) {
              WrapBothCount(ns, t, p, c, q);
            }
          }
  }

  lemma WrapNestedRooted(ns: seq<Element>, t: nat, p: nat, b: nat)
    requires Rooted(ns) && 0 < t && p < t < |ns| && t < b < SubtreeEnd(ns, t)
    ensures Rooted(WrapNested(ns, t, p, b))
  {
    var top := Subtree(ns, t);
    RootedCut(ns, t);
    RootedAdopt(Cut(ns, t), p, BannerWrapper, Cut(top, b - t) + Subtree(top, b - t));
  }

  /** The event-name header found outside the top header is not the root. */
  lemma OutsideNotRoot(ns: seq<Element>, t: nat, b: nat)
    requires Rooted(ns) && 0 < t < |ns| && b < |ns| && !(t <= b < SubtreeEnd(ns, t))
    requires Matches(ns[b], EventNameHeader)
    ensures 0 < Outside(ns, t, b)
  {
    RootNotSelected(ns, EventNameHeader);
  }

  /** whova.js's banner step keeps the page whole. */
  lemma LegacyBannerRooted(ns: seq<Element>)
    requires Rooted(ns)
    ensures Rooted(LegacyBanner(ns))
  {
    match First(ns, WhovaHeader)
    case None =>
    case Some(t) =>
      RootNotSelected(ns, WhovaHeader);
      match ParentOf(ns, t)
      case None =>
      case Some(p) =>
        match First(ns, EventNameHeader)
        case None => RootedWrapIn(ns, t, p, BannerWrapper);
        case Some(b) =>
          if b == t {
            RootedWrapIn(ns, t, p, BannerWrapper);
          } else if t < b < SubtreeEnd(ns, t) {
            WrapNestedRooted(ns, t, p, b);
          } else {
            var c := Outside(ns, t, b);
            if !(c <= p < SubtreeEnd(Cut(ns, t), c)) {
              OutsideNotRoot(ns, t, b);
              WrapBothRooted(ns, t, p, c);
            }
          }
  }

  /** The late lookup of the later script, in the page with the top header
      moved out, finds the element whova.js's early lookup found, when that
      one is not inside the top header. */
  lemma LateLookupAgrees(ns: seq<Element>, t: nat, b: nat)
    requires t < |ns| && First(ns, EventNameHeader) == Some(b) && !(t <= b < SubtreeEnd(ns, t))
    ensures First(Cut(ns, t), EventNameHeader) == Some(Outside(ns, t, b))
  {
    var c := Outside(ns, t, b);
    var rest := Cut(ns, t);
    forall k | 0 <= k < c ensures !Matches(rest[k], EventNameHeader) {
      if k >= t {
        assert rest[k] == ns[k + (SubtreeEnd(ns, t) - t)];
      }
    }
    FirstIs(rest, EventNameHeader, c);
  }

  /** When the first event-name header is not inside the `whova-header`,
      whova.js's early lookup finds the element the later script's late
      lookup finds, and both banner steps agree. */
  lemma LegacyBannerAgrees(ns: seq<Element>)
    requires First(ns, WhovaHeader).Some? && First(ns, EventNameHeader).Some?
    requires var t := First(ns, WhovaHeader).value;
      !(t <= First(ns, EventNameHeader).value < SubtreeEnd(ns, t))
    ensures LegacyBanner(ns) == Banner(ns)
  {
    var t := First(ns, WhovaHeader).value;
    var b := First(ns, EventNameHeader).value;
    LateLookupAgrees(ns, t, b);
    assert First(ns, WhovaHeader) == Some(t) && First(ns, EventNameHeader) == Some(b) && b != t;
    match ParentOf(ns, t)
    case None =>
    case Some(p) =>
      assert !(t < b < SubtreeEnd(ns, t));
  }

  /** The element at index i of a run adopted under p, as it lands in the page. */
  lemma AdoptedAt(ns: seq<Element>, p: nat, w: Element, run: seq<Element>, i: nat)
    requires p < |ns| && i < |run|
    ensures p + 2 + i < |Adopt(ns, p, w, run)|
    ensures Adopt(ns, p, w, run)[p + 2 + i] == run[i].(depth := run[i].depth + ns[p].depth + 2)
  {
    var lifted := Lift(run, ns[p].depth + 2);
    assert Adopt(ns, p, w, run) == ns[..p + 1] + [w.(depth := ns[p].depth + 1)] + lifted + ns[p + 1..];
    assert Adopt(ns, p, w, run)[p + 2 + i] == lifted[i];
  }

  /** When the first event-name header lies inside the `whova-header`,
      whova.js moves it out: the wrapper's first child is the top header and
      the event-name header follows it as the wrapper's next child, no
      longer inside it. */
  lemma LegacyBannerMovesNested(ns: seq<Element>, t: nat, p: nat, b: nat)
    requires First(ns, WhovaHeader) == Some(t) && ParentOf(ns, t) == Some(p)
    requires First(ns, EventNameHeader) == Some(b) && t < b < SubtreeEnd(ns, t)
    ensures var m := p + 2 + |Cut(Subtree(ns, t), b - t)|;
      var r := LegacyBanner(ns);
      m < |r|
      && r[p + 1] == BannerWrapper.(depth := ns[p].depth + 1)
      && r[p + 2] == ns[t].(depth := ns[p].depth + 2)
      && r[m] == ns[b].(depth := ns[p].depth + 2)
  {
    LegacyBannerNested(ns, t, p, b);
    NestedAt(ns, t, p, b);
  }

  lemma LegacyBannerNested(ns: seq<Element>, t: nat, p: nat, b: nat)
    requires First(ns, WhovaHeader) == Some(t) && ParentOf(ns, t) == Some(p)
    requires First(ns, EventNameHeader) == Some(b) && t < b < SubtreeEnd(ns, t)
    ensures LegacyBanner(ns) == WrapNested(ns, t, p, b)
  {
  }

  lemma NestedAt(ns: seq<Element>, t: nat, p: nat, b: nat)
    requires p < t < |ns| && t < b < SubtreeEnd(ns, t)
    ensures var m := p + 2 + |Cut(Subtree(ns, t), b - t)|;
      var r := WrapNested(ns, t, p, b);
      m < |r|
      && r[p + 1] == BannerWrapper.(depth := ns[p].depth + 1)
      && r[p + 2] == ns[t].(depth := ns[p].depth + 2)
      && r[m] == ns[b].(depth := ns[p].depth + 2)
  {
    var top := Subtree(ns, t);
    var front := Cut(top, b - t);
    var run := front + Subtree(top, b - t);
    var rest := Cut(ns, t);
    assert rest[p] == ns[p];
    AdoptedAt(rest, p, BannerWrapper, run, 0);
    AdoptedAt(rest, p, BannerWrapper, run, |front|);
    assert run[0] == top[0];
    assert run[|front|] == Subtree(top, b - t)[0];
  }

  const AppMain: Query := ById("app")
  const SideNav: Query := ByClass("sidenav")
  const PageContent: Query := ByClass("page-content")

  const Presentation: Edit := SetAttrs([("role", "presentation")])
  const NavEdit: Edit := SetAttrs([("role", "navigation"), ("aria-label", "Main")])
  const LegacyNavEdit: Edit := SetAttrs([("role", "navigation")])
  const MainEdit: Edit := SetAttrs([("role", "main")])

  /** The landmark edits write neither `class` nor `id`. */
  lemma LandmarkEditsKeepKeys()
    ensures KeepsKeys(Presentation) && KeepsKeys(NavEdit) && KeepsKeys(LegacyNavEdit) && KeepsKeys(MainEdit)
  {
  }

  /** `fixLandmarks` of the later script: `#app` loses its main role, the
      banner is built, the first side navigation becomes the labelled main
      navigation and the first page content becomes the main landmark. */
  function Landmarks(ns: seq<Element>): seq<Element> {
    var a := EditFirst(ns, AppMain, Presentation);
    var b := Banner(a);
    var c := EditFirst(b, SideNav, NavEdit);
    EditFirst(c, PageContent, MainEdit)
  }

  /** `fixLandmarks` of whova.js: the same without the navigation label, and
      a TypeError before anything changes when there is no `#app`. */
  function LegacyLandmarks(ns: seq<Element>): Outcome {
    if First(ns, AppMain).None? then Outcome(ns, true)
    else
      var a := EditFirst(ns, AppMain, Presentation);
      var b := LegacyBanner(a);
      var c := EditFirst(b, SideNav, LegacyNavEdit);
      Outcome(EditFirst(c, PageContent, MainEdit), false)
  }

  /** Editing the first element of a collection keeps every count and keeps
      the page whole. */
  lemma EditFirstCount(ns: seq<Element>, sel: Query, ed: Edit, q: Query)
    requires KeepsKeys(ed) && Selector(sel)
    ensures Count(EditFirst(ns, sel, ed), q) == Count(ns, q)
    ensures Rooted(ns) ==> Rooted(EditFirst(ns, sel, ed))
  {
    EditFirstKeeps(ns, sel, ed);
    SameKeysCount(ns, EditFirst(ns, sel, ed), q);
  }

  /** The three edits around the later banner step keep counts and
      wholeness, as the banner step itself does. */
  lemma AroundBannerCount(ns: seq<Element>, nav: Edit, q: Query)
    requires KeepsKeys(nav) && !Matches(BannerWrapper, q)
    ensures var a := EditFirst(ns, AppMain, Presentation);
      var c := EditFirst(Banner(a), SideNav, nav);
      Count(EditFirst(c, PageContent, MainEdit), q) == Count(ns, q)
      && (Rooted(ns) ==> Rooted(EditFirst(c, PageContent, MainEdit)))
  {
    LandmarkEditsKeepKeys();
    var a := EditFirst(ns, AppMain, Presentation);
    var b := Banner(a);
    var c := EditFirst(b, SideNav, nav);
    EditFirstCount(ns, AppMain, Presentation, q);
    BannerCount(a, q);
    EditFirstCount(b, SideNav, nav, q);
    EditFirstCount(c, PageContent, MainEdit, q);
    if Rooted(ns) {
      BannerRooted(a);
    }
  }

  /** Apart from the banner wrapper, `fixLandmarks` adds or removes no
      element from any collection, and it keeps the page whole. */
  lemma LandmarksCount(ns: seq<Element>, q: Query)
    requires !Matches(BannerWrapper, q)
    ensures Count(Landmarks(ns), q) == Count(ns, q)
    ensures Rooted(ns) ==> Rooted(Landmarks(ns))
  {
    LandmarkEditsKeepKeys();
    AroundBannerCount(ns, NavEdit, q);
  }

  /** The same for whova.js, which throws exactly when there is no `#app`. */
  lemma LegacyLandmarksCount(ns: seq<Element>, q: Query)
    requires !Matches(BannerWrapper, q)
    ensures Count(LegacyLandmarks(ns).nodes, q) == Count(ns, q)
    ensures Rooted(ns) ==> Rooted(LegacyLandmarks(ns).nodes)
    ensures LegacyLandmarks(ns).threw <==> First(ns, AppMain).None?
  {
    LandmarkEditsKeepKeys();
    if First(ns, AppMain).Some? {
      var a := EditFirst(ns, AppMain, Presentation);
      var b := LegacyBanner(a);
      var c := EditFirst(b, SideNav, LegacyNavEdit);
      EditFirstCount(ns, AppMain, Presentation, q);
      LegacyBannerCount(a, q);
      EditFirstCount(b, SideNav, LegacyNavEdit, q);
      EditFirstCount(c, PageContent, MainEdit, q);
      if Rooted(ns) {
        LegacyBannerRooted(a);
      }
    }
  }

  /** Setting attributes on `c[0]` leaves `c[0]` where it was, with the
      value written last for each attribute written. */
  lemma EditFirstSets(ns: seq<Element>, q: Query, pairs: seq<(string, string)>, name: string)
    requires KeepsKeys(SetAttrs(pairs))
    ensures var r := EditFirst(ns, q, SetAttrs(pairs));
      First(r, q) == First(ns, q)
      && (First(r, q).Some? && Written(pairs, name).Some? ==> Attr(r[First(r, q).value], name) == Written(pairs, name))
      && (Written(pairs, name).None? ==> forall k :: 0 <= k < |r| ==> Attr(r[k], name) == Attr(ns[k], name))
  {
    EditFirstKeeps(ns, q, SetAttrs(pairs));
    SameKeysFirst(ns, EditFirst(ns, q, SetAttrs(pairs)), q);
  }

  /** After `fixLandmarks` the page content, if there is any, is the main
      landmark. */
  lemma LandmarkMainRole(ns: seq<Element>)
    ensures var r := Landmarks(ns);
      (First(r, PageContent).Some? <==> First(ns, PageContent).Some?)
      && (First(r, PageContent).Some? ==> Attr(r[First(r, PageContent).value], "role") == Some("main"))
  {
    var r := Landmarks(ns);
    LandmarksCount(ns, PageContent);
    FirstExists(ns, PageContent);
    FirstExists(r, PageContent);
    var c := EditFirst(Banner(EditFirst(ns, AppMain, Presentation)), SideNav, NavEdit);
    assert Written(MainEdit.pairs, "role") == Some("main");
    EditFirstSets(c, PageContent, MainEdit.pairs, "role");
  }

  /** The label the navigation edit writes survives the main-landmark edit. */
  lemma NavLabelSurvives(b: seq<Element>)
    ensures var r := EditFirst(EditFirst(b, SideNav, NavEdit), PageContent, MainEdit);
      First(r, SideNav) == First(b, SideNav)
      && (First(r, SideNav).Some? ==> Attr(r[First(r, SideNav).value], "aria-label") == Some("Main"))
  {
    var c := EditFirst(b, SideNav, NavEdit);
    var r := EditFirst(c, PageContent, MainEdit);
    assert Written(NavEdit.pairs, "aria-label") == Some("Main");
    EditFirstSets(b, SideNav, NavEdit.pairs, "aria-label");
    assert Written(MainEdit.pairs, "aria-label").None?;
    EditFirstSets(c, PageContent, MainEdit.pairs, "aria-label");
    EditFirstKeeps(c, PageContent, MainEdit);
    SameKeysFirst(c, r, SideNav);
  }

  /** After `fixLandmarks` the first side navigation, if there is one, is
      labelled `Main`. */
  lemma LandmarkNavLabel(ns: seq<Element>)
    ensures var r := Landmarks(ns);
      (First(r, SideNav).Some? <==> First(ns, SideNav).Some?)
      && (First(r, SideNav).Some? ==> Attr(r[First(r, SideNav).value], "aria-label") == Some("Main"))
  {
    LandmarksCount(ns, SideNav);
    FirstExists(ns, SideNav);
    FirstExists(Landmarks(ns), SideNav);
    NavLabelSurvives(Banner(EditFirst(ns, AppMain, Presentation)));
  }

  /** The live region `addAlert` creates. */
  const AlertRegion: Element :=
    Element("div", map["aria-live" := "polite", "aria-atomic" := "true", "id" := "a11y-alert"], "", 0)

  const Alert: Query := ById("a11y-alert")

  /** `addAlert` of the later script: without a `#a11y-alert`, a new live
      region becomes the first child of the first page content, or else of
      `#app`, or is not inserted at all. */
  function AddAlert(ns: seq<Element>): seq<Element> {
    if First(ns, Alert).Some? then ns
    else match First(ns, PageContent)
      case Some(k) => PrependChild(ns, k, AlertRegion)
      case None =>
        match First(ns, AppMain)
        case Some(k) => PrependChild(ns, k, AlertRegion)
        case None => ns
  }

  /** `addAlert` of whova.js: its test of the page-content collection is
      always true, so without page content reading `[0]` throws. */
  function LegacyAddAlert(ns: seq<Element>): Outcome {
    if First(ns, Alert).Some? then Outcome(ns, false)
    else match First(ns, PageContent)
      case Some(k) => Outcome(PrependChild(ns, k, AlertRegion), false)
      case None => Outcome(ns, true)
  }

  /** `addAlert` creates a live region only when there is none and there is
      somewhere to put it, so it never makes a second one; the region it
      creates carries `aria-live=polite` and `aria-atomic=true`. */
  lemma AddAlertAtMostOne(ns: seq<Element>)
    ensures Count(AddAlert(ns), Alert)
         == if Count(ns, Alert) == 0 && (Count(ns, PageContent) > 0 || Count(ns, AppMain) > 0) then 1
            else Count(ns, Alert)
    ensures Count(ns, Alert) <= 1 ==> Count(AddAlert(ns), Alert) <= 1
    ensures Attr(AlertRegion, "aria-live") == Some("polite") && Attr(AlertRegion, "aria-atomic") == Some("true")
  {
    FirstExists(ns, Alert);
    FirstExists(ns, PageContent);
    FirstExists(ns, AppMain);
    assert Matches(AlertRegion, Alert);
    if First(ns, Alert).None? {
      match First(ns, PageContent)
      case Some(k) => CountPrependChild(ns, k, AlertRegion, Alert);
      case None =>
        match First(ns, AppMain)
        case Some(k) => CountPrependChild(ns, k, AlertRegion, Alert);
        case None =>
    }
  }

  /** A second `addAlert` changes nothing. */
  lemma AddAlertIdempotent(ns: seq<Element>)
    ensures AddAlert(AddAlert(ns)) == AddAlert(ns)
  {
    AddAlertAtMostOne(ns);
    FirstExists(AddAlert(ns), Alert);
    FirstExists(ns, Alert);
  }

  /** `addAlert` adds only the live region to any collection, and keeps the page whole. */
  lemma AddAlertCount(ns: seq<Element>, q: Query)
    ensures Count(AddAlert(ns), q) == Count(ns, q)
         + (if AddAlert(ns) != ns && Matches(AlertRegion, q) then 1 else 0)
    ensures Rooted(ns) ==> Rooted(AddAlert(ns))
  {
    if First(ns, Alert).None? {
      match First(ns, PageContent)
      case Some(k) =>
        CountPrependChild(ns, k, AlertRegion, q);
        if Rooted(ns) { RootedPrependChild(ns, k, AlertRegion); }
      case None =>
        match First(ns, AppMain)
        case Some(k) =>
          CountPrependChild(ns, k, AlertRegion, q);
          if Rooted(ns) { RootedPrependChild(ns, k, AlertRegion); }
        case None =>
    }
  }

  /** The older `addAlert` agrees with the later one wherever it does not
      throw, and throws exactly when it would have had to fall back to `#app`. */
  lemma LegacyAddAlertAgrees(ns: seq<Element>)
    ensures LegacyAddAlert(ns).threw <==> First(ns, Alert).None? && First(ns, PageContent).None?
    ensures !LegacyAddAlert(ns).threw ==> LegacyAddAlert(ns).nodes == AddAlert(ns)
  {
  }
}

/** `fixPage` of both scripts: the title, the style sheet and the fix pass,
    with the pass written out page by page as a plan of steps. */
module Remediation {
  import opened Wrappers
  import opened Dom
  import opened Tree
  import opened Classifier
  import opened Labels
  import opened Edits
  import opened Landmarks
  import opened Headings
  import opened Steps

  const EventNameInfo: Query := ByClass("event-name-info")
  const Images: Query := ByTag("img")

  /** A heading promotion of every element of a class collection. */
  function Level(cls: string, level: string): (s: Step)
    ensures WellFormed(s) && NeverThrows(s)
  {
    EditEach(ByClass(cls), Promote(level))
  }

  /** The page-specific statements of `fixHeadings` in the later script. */
  function PageHeadings(p: Page): seq<Step> {
    if p == Some("Agenda") then
      [Level("start-timestamp-header", "2"), Level("icon-title", "3")]
    else if p == Some("Attendees") then
      [Level("last-initial-header", "2"), WrapLinks(ByClass("attendee-name"))]
    else if p == Some("CommunityBoard") then
      [CreateColumnH2(ByClass("left-container"), "List of Topics", true, false),
       Preface(ByClass("topic-title"), "Selected Topic: ", false, false),
       Level("title", "3")]
    else if p == Some("Sponsors") then
      [CreateColumnH2(ById("sponsors-layout-col-0"), "List of Sponsors", true, false),
       Level("company-list-item-header", "3"), Level("sponsor-name", "4"),
       Preface(ById("sponsor-details-name"), "Selected Sponsor: ", true, false),
       EditOne(ByClass("chat-header"), Promote("2"), false)]
    else if p == Some("Exhibitors") then
      [CreateColumnH2(ById("exhibitors-layout-col-0"), "List of Exhibitors", true, false),
       Level("company-list-item-header", "3"), Level("exhibitor-name", "4"),
       Preface(ById("exhibitor-details-name"), "Selected Exhibitor: ", true, false),
       EditOne(ByClass("chat-header"), Promote("2"), false)]
    else if p == Some("Messages") then
      [CreateColumnH2(ByClass("threadlist-root"), "List of Messages", true, false),
       Level("threadlist-name", "3"),
       Preface(ById("thread-recv-name"), "Selected Message: ", true, false)]
    else if p == Some("SessionQA") then
      [Level("text-sm", "2"), Level("sname", "3")]
    else if p == Some("Documents") then
      [Level("documents-header", "2")]
    else if p == Some("Speakers") then
      [Level("last-initial-header", "2"), Level("speaker-name", "3")]
    else []
  }

  /** `fixHeadings` of the later script: the event name only on a full pass,
      then the `h1`, then the page's own statements. */
  function HeadingPlan(p: Page, scope: Scope): seq<Step> {
    (if scope == All then [PresentEventName(EventNameInfo)] else [])
    + [CreateH1(H1Label(p))] + PageHeadings(p)
  }

  /** The page-specific statements of `fixHeadings` in whova.js: no sponsors
      page, unguarded column headings, and lookups that throw when the
      element is missing. */
  function LegacyPageHeadings(p: Page): seq<Step> {
    if p == Some("Agenda") then
      [Level("start-timestamp-header", "2"), Level("icon-title", "3")]
    else if p == Some("Attendees") then
      [Level("last-initial-header", "2"), WrapLinks(ByClass("attendee-name"))]
    else if p == Some("CommunityBoard") then
      [CreateColumnH2(ByClass("left-container"), "List of Topics", false, false),
       Preface(ByClass("topic-title"), "Selected Topic: ", true, true),
       Level("title", "3")]
    else if p == Some("Exhibitors") then
      [CreateColumnH2(ById("exhibitors-layout-col-0"), "List of Exhibitors", false, true),
       Level("company-list-item-header", "3"), Level("exhibitor-name", "4"),
       Preface(ById("exhibitor-details-name"), "Selected Exhibitor: ", true, true),
       EditOne(ByClass("chat-header"), Promote("2"), true)]
    else if p == Some("Messages") then
      [CreateColumnH2(ByClass("threadlist-root"), "List of Messages", false, false),
       Level("threadlist-name", "3"),
       Preface(ById("thread-recv-name"), "Selected Message: ", true, true)]
    else if p == Some("SessionQA") then
      [Level("text-sm", "2"), Level("sname", "3")]
    else if p == Some("Documents") then
      [Level("documents-header", "2")]
    else if p == Some("Speakers") then
      [Level("last-initial-header", "2"), Level("speaker-name", "3")]
    else []
  }

  function LegacyHeadingPlan(p: Page): seq<Step> {
    [CreateH1(H1Label(p))] + LegacyPageHeadings(p)
  }

  const ChatRegion: Edit := SetAttrs([("aria-live", "polite"), ("aria-atomic", "false")])
  const Hidden: Edit := SetAttrs([("aria-hidden", "true")])

  /** `fixOther` of the later script. */
  function OtherPlan(p: Page): seq<Step> {
    if p == Some("Agenda") then
      [EditOne(ById("agenda-type-full-btn"), MakeButton, false),
       EditOne(ById("agenda-type-personal-btn"), MakeButton, false),
       EditOne(ById("agenda-type-rehearsal-btn"), MakeButton, false),
       EditEach(ByClass("agenda-date-tab"), MakeButton)]
    else if p == Some("Exhibitors") then
      [EditOne(ByClass("chat"), ChatRegion, false)]
    else if p == Some("Documents") then
      [MarkList(ByClass("documents-list"), ByClass("document-item")),
       EditEach(ByClass("document-preview"), Hidden)]
    else []
  }

  /** `fixOther` of whova.js: its `makeButton` tests only for `undefined`,
      so a missing button throws, as does a missing chat. */
  function LegacyOtherPlan(p: Page): seq<Step> {
    if p == Some("Agenda") then
      [EditOne(ById("agenda-type-full-btn"), LegacyMakeButton, true),
       EditOne(ById("agenda-type-personal-btn"), LegacyMakeButton, true),
       EditOne(ById("agenda-type-rehearsal-btn"), LegacyMakeButton, true),
       EditEach(ByClass("agenda-date-tab"), LegacyMakeButton)]
    else if p == Some("Exhibitors") then
      [EditOne(ByClass("chat"), ChatRegion, true)]
    else []
  }

  /** The node changes of the later script's `fixPage`: on a full pass the
      landmarks and the live region first, then images, headings and the
      rest. */
  function FixPlan(p: Page, scope: Scope): seq<Step> {
    (if scope == All then [FixLandmarks(false), AddLiveRegion(false)] else [])
    + [EditEach(Images, LabelImage(p))] + HeadingPlan(p, scope) + OtherPlan(p)
  }

  /** The node changes of whova.js's `fixPage`, in its order. */
  function LegacyFixPlan(p: Page): seq<Step> {
    [EditEach(Images, LegacyLabelImage(p)), FixLandmarks(true)]
    + LegacyHeadingPlan(p) + [AddLiveRegion(true)] + LegacyOtherPlan(p)
  }

  lemma PageHeadingsWellFormed(p: Page)
    ensures AllWellFormed(PageHeadings(p)) && AllNeverThrow(PageHeadings(p))
  {
  }

  lemma LegacyPageHeadingsWellFormed(p: Page)
    ensures AllWellFormed(LegacyPageHeadings(p))
  {
  }

  lemma OtherPlansWellFormed(p: Page)
    ensures AllWellFormed(OtherPlan(p)) && AllNeverThrow(OtherPlan(p))
    ensures AllWellFormed(LegacyOtherPlan(p))
  {
  }

  /** The later script's plan is made of well-formed steps none of which
      can throw. */
  lemma FixPlanWellFormed(p: Page, scope: Scope)
    ensures AllWellFormed(FixPlan(p, scope)) && AllNeverThrow(FixPlan(p, scope))
  {
    PageHeadingsWellFormed(p);
    OtherPlansWellFormed(p);
    var lead: seq<Step> := if scope == All then [FixLandmarks(false), AddLiveRegion(false)] else [];
    var ev: seq<Step> := if scope == All then [PresentEventName(EventNameInfo)] else [];
    var h1: seq<Step> := [CreateH1(H1Label(p))];
    var img: seq<Step> := [EditEach(Images, LabelImage(p))];
    assert AllWellFormed(lead) && AllNeverThrow(lead) && AllWellFormed(ev) && AllNeverThrow(ev);
    assert AllWellFormed(h1) && AllNeverThrow(h1) && AllWellFormed(img) && AllNeverThrow(img);
    Concat(ev, h1);
    Concat(ev + h1, PageHeadings(p));
    assert HeadingPlan(p, scope) == ev + h1 + PageHeadings(p);
    Concat(lead, img);
    Concat(lead + img, HeadingPlan(p, scope));
    Concat(lead + img + HeadingPlan(p, scope), OtherPlan(p));
  }

  /** whova.js's plan is made of well-formed steps. */
  lemma LegacyFixPlanWellFormed(p: Page)
    ensures AllWellFormed(LegacyFixPlan(p))
  {
    LegacyPageHeadingsWellFormed(p);
    OtherPlansWellFormed(p);
    var h1: seq<Step> := [CreateH1(H1Label(p))];
    var limg: seq<Step> := [EditEach(Images, LegacyLabelImage(p)), FixLandmarks(true)];
    var alert: seq<Step> := [AddLiveRegion(true)];
    assert AllWellFormed(h1) && AllWellFormed(limg) && AllWellFormed(alert);
    Concat(h1, LegacyPageHeadings(p));
    Concat(limg, LegacyHeadingPlan(p));
    Concat(limg + LegacyHeadingPlan(p), alert);
    Concat(limg + LegacyHeadingPlan(p) + alert, LegacyOtherPlan(p));
  }

  /** No statement of the later script's pass can throw: each lookup is
      tested before it is used. */
  lemma FixPlanNeverThrows(ns: seq<Element>, p: Page, scope: Scope)
    ensures AllWellFormed(FixPlan(p, scope))
    ensures !RunPlan(ns, FixPlan(p, scope)).threw
  {
    FixPlanWellFormed(p, scope);
    PlanNeverThrows(ns, FixPlan(p, scope));
  }

  /** The later script's `fixPage`. The title and the style sheet change
      only on a full pass; the nodes follow the plan, which never throws. */
  method FixPage(doc: Document, p: Page, scope: Scope)
    modifies doc
    ensures AllWellFormed(FixPlan(p, scope))
    ensures doc.title == if scope == All then FixedTitle(p, old(doc.title)) else old(doc.title)
    ensures doc.styleBlocks == old(doc.styleBlocks) + if scope == All then 1 else 0
    ensures doc.nodes == RunPlan(old(doc.nodes), FixPlan(p, scope)).nodes
  {
    FixPlanWellFormed(p, scope);
    if scope == All {
      doc.title := FixedTitle(p, doc.title);
      doc.styleBlocks := doc.styleBlocks + 1;
    }
    var threw := RunSteps(doc, FixPlan(p, scope));
  }

  /** whova.js's `fixPage`: the title and a style sheet first, then the
      plan, which stops at the first TypeError. */
  method LegacyFixPage(doc: Document, p: Page) returns (threw: bool)
    modifies doc
    ensures AllWellFormed(LegacyFixPlan(p))
    ensures doc.title == FixedTitle(p, old(doc.title))
    ensures doc.styleBlocks == old(doc.styleBlocks) + 1
    ensures Outcome(doc.nodes, threw) == RunPlan(old(doc.nodes), LegacyFixPlan(p))
  {
    LegacyFixPlanWellFormed(p);
    doc.title := FixedTitle(p, doc.title);
    doc.styleBlocks := doc.styleBlocks + 1;
    threw := RunSteps(doc, LegacyFixPlan(p));
  }

  /** Every pass of either script keeps the page whole, with at most one
      `h1` and at most one live region, however often it runs. */
  lemma FixPageSound(ns: seq<Element>, p: Page, scope: Scope)
    requires Sound(ns)
    ensures AllWellFormed(FixPlan(p, scope)) && AllWellFormed(LegacyFixPlan(p))
    ensures Sound(RunPlan(ns, FixPlan(p, scope)).nodes)
    ensures Sound(RunPlan(ns, LegacyFixPlan(p)).nodes)
  {
    FixPlanWellFormed(p, scope);
    LegacyFixPlanWellFormed(p);
    PlanSound(ns, FixPlan(p, scope));
    PlanSound(ns, LegacyFixPlan(p));
  }

  /** The steps of whova.js's pass that may throw: the landmarks and the
      live region on every page, and the unguarded lookups of the community
      board, the exhibitors, the messages and the agenda. */
  lemma LegacyThrowingSteps(p: Page, s: Step)
    requires s in LegacyFixPlan(p) && !NeverThrows(s)
    ensures s == FixLandmarks(true) || s == AddLiveRegion(true)
         || p in {Some("CommunityBoard"), Some("Exhibitors"), Some("Messages"), Some("Agenda")}
  {
  }
}

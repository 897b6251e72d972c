/** The event side of both scripts: the mutation observer set up by `init`,
    the guard that keeps it from reacting to the script's own changes, the
    key handlers of `makeButton` and of the search fields, and what each
    call the observer makes does to the page. */
module Observer {
  import opened Wrappers
  import opened Dom
  import opened Tree
  import opened Classifier
  import opened Landmarks
  import opened Headings
  import opened Steps
  import opened Remediation
  import opened Modal
  import opened Announcer
  import opened Text
  import opened Labels
  import opened Images
  import opened Edits

  /** A call the scripts make in answer to an event, in the order they make
      it: `fixPage` (whose body runs later, on a timer), `fixModalDialog`,
      `showSearchCount` (`countSearchResults` in whova.js) and
      `announceViewChange`. */
  datatype Reaction =
    | FixPageIn(page: Page, scope: Scope)
    | FixDialog(page: Page)
    | CountResults(page: Page)
    | AnnounceView(page: Page, name: string)

  /** `fixPage(thisPage, 'main')`. */
  function Fix(page: Page): Reaction {
    FixPageIn(page, MainContent)
  }

  /** The answer to one mutation record: the calls made, whether the
      searching flag is cleared, and whether the handler stopped with a
      TypeError. */
  datatype Response = Response(reactions: seq<Reaction>, clearSearch: bool, threw: bool)

  /** Calls made, nothing cleared, nothing thrown. */
  function Calls(rs: seq<Reaction>): Response {
    Response(rs, false, false)
  }

  /** A result list was redrawn: fix the content, and only when the user was
      typing in a search field, announce the count and stop searching. */
  function Refreshed(page: Page, searching: bool): Response {
    if searching then Response([Fix(page), CountResults(page)], true, false)
    else Calls([Fix(page)])
  }

  /** The details pane of a directory changed: the selected name is read
      from the element with id `nameId` (a TypeError when there is none),
      then the content is fixed and the change announced. */
  function DetailsShown(page: Page, ns: seq<Element>, nameId: string): Response {
    match First(ns, ById(nameId))
    case None => Response([], false, true)
    case Some(k) => Calls([Fix(page), AnnounceView(page, TextContent(ns, k))])
  }

  /** The target is the directory's details header, as a class or as an id. */
  predicate IsDetailsHeader(t: Element, header: string) {
    HasClass(t, header) || Attr(t, "id") == Some(header)
  }

  /** The later script's handling of one record whose target is `t`, on a
      page that has not changed. */
  function OnRecord(page: Page, t: Element, searching: bool, ns: seq<Element>): Response {
    if HasClass(t, "page-content") || HasClass(t, "home-content") then Calls([Fix(page)])
    else if HasClass(t, "modal-open") then Calls([FixDialog(page)])
    else if page == Some("Agenda") then
      if HasClass(t, "sessions") || HasClass(t, "no-sessions") then Calls([Fix(page), CountResults(page)])
      else if HasClass(t, "page-content-inner") then Calls([Fix(page)])
      else Calls([])
    else if page == Some("Attendees") then
      if HasClass(t, "page-content-padding") then Refreshed(page, searching) else Calls([])
    else if page == Some("CommunityBoard") then
      if HasClass(t, "simplebar-content") then Refreshed(page, searching)
      else if HasClass(t, "messages-text") then Calls([Fix(page)])
      else Calls([])
    else if page == Some("Sponsors") then
      if IsDetailsHeader(t, "sponsor-details-header") then DetailsShown(page, ns, "sponsor-details-name")
      else Calls([])
    else if page == Some("Exhibitors") then
      if IsDetailsHeader(t, "exhibitor-details-header") then DetailsShown(page, ns, "exhibitor-details-name")
      else Calls([])
    else if page == Some("Messages") then
      if HasClass(t, "thread-messages") then Calls([Fix(page)]) else Calls([])
    else if page == Some("SessionQA") then
      if HasClass(t, "program-list") then Calls([Fix(page)]) else Calls([])
    else if page == Some("VideoGallery") then
      if HasClass(t, "video-list") then Refreshed(page, searching)
      else if HasClass(t, "video-gallery") then Calls([Fix(page)])
      else Calls([])
    else if page == Some("Documents") then
      if HasClass(t, "documents-list") then Refreshed(page, searching)
      else if HasClass(t, "page-content-padding") then Calls([Fix(page)])
      else Calls([])
    else if page == Some("Polls") then
      if HasClass(t, "page-content-inner") then Refreshed(page, searching) else Calls([])
    else if page == Some("Speakers") then
      if HasClass(t, "speakers-page") then Refreshed(page, searching) else Calls([])
    else Calls([])
  }

  /** The observer's state: the page last fixed, the `a11yFixingPage` guard
      and the `a11ySearching` flag. */
  datatype State = State(prevPage: Page, fixing: bool, searching: bool)

  /** The calls made for one batch of records, the state after it, and
      whether the callback stopped with a TypeError. */
  datatype Transition = Transition(reactions: seq<Reaction>, next: State, threw: bool)

  /** The later script's observer callback for a batch whose records have
      the targets `targets`, at the path `path`, on the page `ns`. While the
      guard is up nothing happens; a new page gets one full fix; otherwise
      the first record alone is handled, and any fix raises the guard. */
  function Dispatch(s: State, path: string, targets: seq<Element>, ns: seq<Element>): Transition {
    var page := GetPage(path);
    if s.fixing then Transition([], s, false)
    else if page != s.prevPage then Transition([FixPageIn(page, All)], State(page, true, s.searching), false)
    else if |targets| == 0 then Transition([], s, false)
    else
      var r := OnRecord(page, targets[0], s.searching, ns);
      Transition(r.reactions, State(s.prevPage, Fix(page) in r.reactions, s.searching && !r.clearSearch), r.threw)
  }

  /** The later script's `init` and the state it shares with its handlers. */
  class Monitor {
    var prevPage: Page
    var fixing: bool
    var searching: bool

    function Snapshot(): State
      reads this
    {
      State(prevPage, fixing, searching)
    }

    /** The script's globals before `init`: nothing fixed, no guard, no search. */
    constructor ()
      ensures Snapshot() == State(None, false, false)
    {
      prevPage := None;
      fixing := false;
      searching := false;
    }

    /** `init`: a full fix of the current page, which is remembered. */
    method Start(path: string) returns (rs: seq<Reaction>)
      modifies this
      ensures rs == [FixPageIn(GetPage(path), All)]
      ensures Snapshot() == State(GetPage(path), true, old(searching))
    {
      var page := GetPage(path);
      rs := [FixPageIn(page, All)];
      fixing := true;
      prevPage := page;
    }

    /** The observer callback. Its loop over the records ends with an
        unconditional `break`, so at most the first record is handled. */
    method OnMutations(path: string, targets: seq<Element>, ns: seq<Element>) returns (rs: seq<Reaction>, threw: bool)
      modifies this
      ensures Transition(rs, Snapshot(), threw) == Dispatch(old(Snapshot()), path, targets, ns)
    {
      rs, threw := [], false;
      if fixing {
        return;
      }
      var page := GetPage(path);
      if page != prevPage {
        rs := [FixPageIn(page, All)];
        fixing := true;
        prevPage := page;
        return;
      }
      if |targets| > 0 {
        var r := OnRecord(page, targets[0], searching, ns);
        rs, threw := r.reactions, r.threw;
        if Fix(page) in rs {
          fixing := true;
        }
        if r.clearSearch {
          searching := false;
        }
      }
    }

    /** The second timer of `fixPage` fires and lowers the guard. */
    method ReleaseGuard()
      modifies this
      ensures Snapshot() == old(Snapshot()).(fixing := false)
    {
      fixing := false;
    }

    /** A key goes down in a search field. */
    method OnSearchKey()
      modifies this
      ensures Snapshot() == old(Snapshot()).(searching := true)
    {
      searching := true;
    }

    /** A key goes down on an element `makeButton` made into a button on
        `page`: Enter and Space fix the content and count the results,
        whatever the guard says. */
    method OnButtonKey(page: Page, keyCode: int) returns (rs: seq<Reaction>)
      modifies this
      ensures rs == KeyReactions(page, keyCode, MainContent)
      ensures Snapshot() == old(Snapshot()).(fixing := old(fixing) || rs != [])
    {
      rs := [];
      if keyCode == 13 || keyCode == 32 {
        rs := [Fix(page), CountResults(page)];
        fixing := true;
      }
    }
  }

  /** The calls a button key makes: Enter (13) and Space (32) fix the page,
      with the given scope, and count the results; other keys do nothing. */
  function KeyReactions(page: Page, keyCode: int, scope: Scope): (rs: seq<Reaction>)
    ensures rs != [] <==> keyCode == 13 || keyCode == 32
    ensures rs != [] ==> rs == [FixPageIn(page, scope), CountResults(page)]
  {
    if keyCode == 13 || keyCode == 32 then [FixPageIn(page, scope), CountResults(page)] else []
  }

  // Properties of the later observer.

  /** While the guard is up, a batch changes nothing and calls nothing. */
  lemma GuardBlocks(s: State, path: string, targets: seq<Element>, ns: seq<Element>)
    requires s.fixing
    ensures Dispatch(s, path, targets, ns) == Transition([], s, false)
  {
  }

  /** On a new page exactly one full fix is made, the page is remembered and
      the guard raised, and no record is looked at. */
  lemma NewPageFixedOnce(s: State, path: string, targets: seq<Element>, ns: seq<Element>,
                         targets': seq<Element>, ns': seq<Element>)
    requires !s.fixing && GetPage(path) != s.prevPage
    ensures var t := Dispatch(s, path, targets, ns);
      t.reactions == [FixPageIn(GetPage(path), All)] && !t.threw
      && t.next == State(GetPage(path), true, s.searching)
      && t == Dispatch(s, path, targets', ns')
  {
  }

  /** Only the first record of a batch is handled; an empty batch changes nothing. */
  lemma FirstRecordOnly(s: State, path: string, targets: seq<Element>, ns: seq<Element>)
    requires !s.fixing && GetPage(path) == s.prevPage
    ensures |targets| == 0 ==> Dispatch(s, path, targets, ns) == Transition([], s, false)
    ensures |targets| > 0 ==> Dispatch(s, path, targets, ns) == Dispatch(s, path, targets[..1], ns)
  {
  }

  /** The guard goes up exactly when the batch made a fix, and every fix on
      an unchanged page covers the main content of that page. */
  lemma GuardFollowsFixes(s: State, path: string, targets: seq<Element>, ns: seq<Element>)
    requires !s.fixing && GetPage(path) == s.prevPage
    ensures var t := Dispatch(s, path, targets, ns);
      t.next.fixing <==> Fix(GetPage(path)) in t.reactions
    ensures forall r | r in Dispatch(s, path, targets, ns).reactions ::
      r.FixPageIn? ==> r == Fix(GetPage(path))
  {
  }

  /** A change of the main content area wins over every other reading of
      the target, a dialog included. */
  lemma MainContentFirst(page: Page, t: Element, searching: bool, ns: seq<Element>)
    requires HasClass(t, "page-content") || HasClass(t, "home-content")
    ensures OnRecord(page, t, searching, ns) == Calls([Fix(page)])
  {
  }

  /** A dialog is handled on every page, and is the only call made. */
  lemma DialogOnEveryPage(page: Page, t: Element, searching: bool, ns: seq<Element>)
    requires !HasClass(t, "page-content") && !HasClass(t, "home-content") && HasClass(t, "modal-open")
    ensures OnRecord(page, t, searching, ns) == Calls([FixDialog(page)])
  {
  }

  /** The agenda's session list counts its results on every redraw, searching or not. */
  lemma AgendaAlwaysCounts(t: Element, searching: bool, ns: seq<Element>)
    requires !HasClass(t, "page-content") && !HasClass(t, "home-content") && !HasClass(t, "modal-open")
    requires HasClass(t, "sessions") || HasClass(t, "no-sessions")
    ensures OnRecord(Some("Agenda"), t, searching, ns)
         == Calls([Fix(Some("Agenda")), CountResults(Some("Agenda"))])
  {
  }

  /** No record clears a flag that was not set, and a count is announced
      outside the agenda only when the flag is cleared. */
  lemma SearchCountNeedsSearching(page: Page, t: Element, searching: bool, ns: seq<Element>)
    ensures var r := OnRecord(page, t, searching, ns);
      (r.clearSearch ==> searching)
      && (page != Some("Agenda") ==> (CountResults(page) in r.reactions <==> r.clearSearch))
  {
    if HasClass(t, "page-content") || HasClass(t, "home-content") || HasClass(t, "modal-open") {
    } else if page == Some("Agenda") {
    } else if page == Some("Sponsors") || page == Some("Exhibitors") {
    } else if ResultList(page, t) {
      assert OnRecord(page, t, searching, ns) == Refreshed(page, searching);
    } else {
      assert !OnRecord(page, t, searching, ns).clearSearch;
      assert OnRecord(page, t, searching, ns).reactions in {[], [Fix(page)]};
    }
  }

  /** The result lists that count only after a search. */
  predicate ResultList(page: Page, t: Element) {
    (page == Some("Attendees") && HasClass(t, "page-content-padding"))
    || (page == Some("CommunityBoard") && HasClass(t, "simplebar-content"))
    || (page == Some("VideoGallery") && HasClass(t, "video-list"))
    || (page == Some("Documents") && HasClass(t, "documents-list"))
    || (page == Some("Polls") && HasClass(t, "page-content-inner"))
    || (page == Some("Speakers") && HasClass(t, "speakers-page"))
  }

  /** A redrawn result list is fixed in every case; its count is announced,
      and the flag cleared, exactly when the user was searching. */
  lemma SearchedListCounted(page: Page, t: Element, searching: bool, ns: seq<Element>)
    requires !HasClass(t, "page-content") && !HasClass(t, "home-content") && !HasClass(t, "modal-open")
    requires ResultList(page, t)
    ensures OnRecord(page, t, searching, ns) == Refreshed(page, searching)
    ensures Fix(page) in Refreshed(page, searching).reactions
    ensures (CountResults(page) in Refreshed(page, searching).reactions) == searching
  {
  }

  /** On a directory, a changed details header makes the callback read the
      selected name: without the name element it stops with a TypeError
      before any call, otherwise it fixes and announces that name. */
  lemma DetailsAnnounced(page: Page, t: Element, searching: bool, ns: seq<Element>)
    requires !HasClass(t, "page-content") && !HasClass(t, "home-content") && !HasClass(t, "modal-open")
    requires (page == Some("Sponsors") && IsDetailsHeader(t, "sponsor-details-header"))
          || (page == Some("Exhibitors") && IsDetailsHeader(t, "exhibitor-details-header"))
    ensures var id := if page == Some("Sponsors") then "sponsor-details-name" else "exhibitor-details-name";
      var r := OnRecord(page, t, searching, ns);
      (First(ns, ById(id)).None? ==> r == Response([], false, true))
      && (First(ns, ById(id)).Some? ==>
            r == Calls([Fix(page), AnnounceView(page, TextContent(ns, First(ns, ById(id)).value))]))
  {
  }

  /** Only a details change can throw, and only on a directory. */
  lemma OnlyDetailsThrow(page: Page, t: Element, searching: bool, ns: seq<Element>)
    ensures OnRecord(page, t, searching, ns).threw ==> page == Some("Sponsors") || page == Some("Exhibitors")
    ensures OnRecord(page, t, searching, ns).threw ==> OnRecord(page, t, searching, ns).reactions == []
  {
  }

  // What the calls do to the page.

  /** The elements after one call of the later script, once its timers
      have fired. */
  function Effect(ns: seq<Element>, r: Reaction): seq<Element>
  {
    match r
    case FixPageIn(p, scope) =>
      FixPlanWellFormed(p, scope);
      RunPlan(ns, FixPlan(p, scope)).nodes
    case FixDialog(p) => FixModal(ns, p)
    case CountResults(p) => ShowCount(ns, p)
    case AnnounceView(p, name) => Announce(ns, p, name)
  }

  /** Carries out one call of the later script on the document. */
  method Perform(doc: Document, r: Reaction)
    modifies doc
    ensures doc.nodes == Effect(old(doc.nodes), r)
    ensures r.FixPageIn? && r.scope == All ==> doc.title == FixedTitle(r.page, old(doc.title))
    ensures !(r.FixPageIn? && r.scope == All) ==> doc.title == old(doc.title)
    ensures doc.styleBlocks == old(doc.styleBlocks) + if r.FixPageIn? && r.scope == All then 1 else 0
  {
    match r
    case FixPageIn(p, scope) => FixPage(doc, p, scope);
    case FixDialog(p) => doc.nodes := FixModal(doc.nodes, p);
    case CountResults(p) => doc.nodes := ShowCount(doc.nodes, p);
    case AnnounceView(p, name) => doc.nodes := Announce(doc.nodes, p, name);
  }

  /** Replacing one element changes the collection by that element alone. */
  lemma {:induction false} CountReplace(ns: seq<Element>, k: nat, e: Element, q: Query)
    requires k < |ns|
    ensures Count(ns[k := e], q) + (if Matches(ns[k], q) then 1 else 0)
         == Count(ns, q) + (if Matches(e, q) then 1 else 0)
    decreases k
  {
    var r := ns[k := e];
    if k == 0 {
      assert r[1..] == ns[1..];
    } else {
      assert r[1..] == ns[1..][k - 1 := e];
      CountReplace(ns[1..], k - 1, e, q);
    }
  }

  /** A title id always ends in `-title`, so it is never the live region's id. */
  lemma TitleIdNotAlert(d: Element)
    ensures TitleId(d) != Alert.id
  {
    var id := TitleId(d);
    if |id| == |Alert.id| {
      assert id[|id| - 1] == 'e';
      assert Alert.id[|id| - 1] == 't';
    }
  }

  /** Labelling counts as renaming the title alone: the dialog keeps its key. */
  lemma LabelCount(ns: seq<Element>, d: nat, t: nat, q: Query)
    requires d < |ns| && t < |ns|
    ensures var e := SetAll(ns[t], TitleWrites(TitleId(ns[d])));
      Count(Label(ns, d, t), q) == Count(ns[t := e], q)
  {
    var e := SetAll(ns[t], TitleWrites(TitleId(ns[d])));
    var a := ns[t := e];
    var r := Label(ns, d, t);
    assert SameKeys(a, r);
    SameKeysCount(a, r, q);
  }

  /** Labelling renames only the title, never to the live region's id,
      and changes no tag. */
  lemma LabelCounts(ns: seq<Element>, d: nat, t: nat)
    requires d < |ns| && t < |ns|
    ensures Count(Label(ns, d, t), H1) == Count(ns, H1)
    ensures Count(Label(ns, d, t), Alert) <= Count(ns, Alert)
  {
    var id := TitleId(ns[d]);
    var e := SetAll(ns[t], TitleWrites(id));
    TitleWritesValues(id);
    TitleIdNotAlert(ns[d]);
    assert e.tag == ns[t].tag && !Matches(e, Alert);
    CountReplace(ns, t, e, Alert);
    CountReplace(ns, t, e, H1);
    LabelCount(ns, d, t, Alert);
    LabelCount(ns, d, t, H1);
  }

  /** The dialog fix keeps the page sound. */
  lemma ModalSound(ns: seq<Element>, p: Page)
    requires Sound(ns)
    ensures Sound(FixModal(ns, p))
  {
    ModalRooted(ns, p);
    if IsDirectory(p) && First(ns, Dialog).Some? && First(ns, DialogTitle).Some? {
      LabelCounts(ns, First(ns, Dialog).value, First(ns, DialogTitle).value);
    }
  }

  /** Every call the later script makes keeps the page sound: whole, with at
      most one `h1` and at most one live region. */
  lemma ReactionSound(ns: seq<Element>, r: Reaction)
    requires Sound(ns)
    ensures Sound(Effect(ns, r))
  {
    match r
    case FixPageIn(p, scope) => FixPageSound(ns, p, scope);
    case FixDialog(p) => ModalSound(ns, p);
    case CountResults(p) =>
      WriteAlertKeeps(ns, CountText(ns, p), H1);
      WriteAlertKeeps(ns, CountText(ns, p), Alert);
    case AnnounceView(p, name) =>
      if p == Some("Sponsors") || p == Some("Exhibitors") {
        WriteAlertKeeps(ns, AnnounceMessage(name), H1);
        WriteAlertKeeps(ns, AnnounceMessage(name), Alert);
      }
  }

  // The observer of whova.js.

  /** whova.js tests the whole class attribute, so a target with any class
      besides `modal-open` does not count. */
  predicate OpensDialog(t: Element) {
    Attr(t, "class") == Some("modal-open")
  }

  /** A `fixModalDialog` call, made without a page, for each record whose
      target opens a dialog, in record order. */
  function DialogCalls(targets: seq<Element>): (rs: seq<Reaction>)
    ensures forall r | r in rs :: r == FixDialog(None)
    decreases |targets|
  {
    if |targets| == 0 then []
    else
      var last := targets[|targets| - 1];
      DialogCalls(targets[..|targets| - 1]) + (if OpensDialog(last) then [FixDialog(None)] else [])
  }

  /** The records of a batch that open a dialog. */
  function Openers(targets: seq<Element>): set<nat> {
    set i: nat | i < |targets| && OpensDialog(targets[i])
  }

  /** One call per opening record, no more and no fewer. */
  lemma {:induction false} DialogCallsCount(targets: seq<Element>)
    ensures |DialogCalls(targets)| == |Openers(targets)|
    decreases |targets|
  {
    if |targets| > 0 {
      var n := |targets| - 1;
      var init := targets[..n];
      DialogCallsCount(init);
      assert forall i :: 0 <= i < n ==> targets[i] == init[i];
      assert n !in Openers(init);
      if OpensDialog(targets[n]) {
        assert Openers(targets) == Openers(init) + {n};
      } else {
        assert Openers(targets) == Openers(init);
      }
    }
  }

  /** The calls whova.js's observer makes for a batch: a full fix on a new
      page, otherwise one per record that opens a dialog. */
  function LegacyDispatch(prevPage: Page, path: string, targets: seq<Element>): seq<Reaction> {
    var page := LegacyGetPage(path);
    if page != prevPage then [FixPageIn(page, All)] else DialogCalls(targets)
  }

  /** whova.js's load handler and observer, with no guard. */
  class LegacyMonitor {
    var prevPage: Page

    constructor ()
      ensures prevPage == None
    {
      prevPage := None;
    }

    /** The load handler: the current page is fixed and remembered. */
    method Start(path: string) returns (rs: seq<Reaction>)
      modifies this
      ensures rs == [FixPageIn(LegacyGetPage(path), All)] && prevPage == LegacyGetPage(path)
    {
      prevPage := LegacyGetPage(path);
      rs := [FixPageIn(prevPage, All)];
    }

    /** The observer callback: every record is looked at. */
    method OnMutations(path: string, targets: seq<Element>) returns (rs: seq<Reaction>)
      modifies this
      ensures rs == LegacyDispatch(old(prevPage), path, targets)
      ensures prevPage == LegacyGetPage(path)
    {
      var page := LegacyGetPage(path);
      if page != prevPage {
        rs := [FixPageIn(page, All)];
        prevPage := page;
        return;
      }
      rs := [];
      var i := 0;
      while i < |targets|
        invariant 0 <= i <= |targets|
        invariant rs == DialogCalls(targets[..i])
      {
        assert targets[..i + 1][..i] == targets[..i];
        if OpensDialog(targets[i]) {
          rs := rs + [FixDialog(None)];
        }
        i := i + 1;
      }
      assert targets[..i] == targets;
    }
  }

  /** A target whose class list holds `modal-open` among other classes
      opens a dialog for the later script, unless it is also main content,
      but never for whova.js, which compares the whole class attribute. */
  lemma LegacyMissesCompoundClass(page: Page, t: Element, searching: bool, ns: seq<Element>)
    requires HasClass(t, "modal-open") && Attr(t, "class") != Some("modal-open")
    ensures !OpensDialog(t) && DialogCalls([t]) == []
    ensures !HasClass(t, "page-content") && !HasClass(t, "home-content") ==>
      OnRecord(page, t, searching, ns) == Calls([FixDialog(page)])
  {
    assert [t][..0] == [];
  }

  /** For example, `class="modal-open fade"`. */
  lemma CompoundModalExample()
    ensures var t := Element("div", map["class" := "modal-open fade"], "", 1);
      HasClass(t, "modal-open") && Attr(t, "class") != Some("modal-open")
  {
    TokensOfTwoWords("modal-open", "fade");
    assert "modal-open" + " " + "fade" == "modal-open fade";
  }

  /** The elements after one call of whova.js, and whether it threw. Its
      `fixModalDialog` does nothing. */
  function LegacyEffect(ns: seq<Element>, r: Reaction): Outcome {
    match r
    case FixPageIn(p, _) =>
      LegacyFixPlanWellFormed(p);
      RunPlan(ns, LegacyFixPlan(p))
    case FixDialog(_) => Outcome(ns, false)
    case CountResults(p) => Outcome(LegacyShowCount(ns, p), false)
    case AnnounceView(_, _) => Outcome(ns, false)
  }

  /** Carries out one call of whova.js on the document. */
  method LegacyPerform(doc: Document, r: Reaction) returns (threw: bool)
    modifies doc
    ensures Outcome(doc.nodes, threw) == LegacyEffect(old(doc.nodes), r)
    ensures r.FixPageIn? ==> doc.title == FixedTitle(r.page, old(doc.title))
    ensures !r.FixPageIn? ==> doc.title == old(doc.title)
    ensures doc.styleBlocks == old(doc.styleBlocks) + if r.FixPageIn? then 1 else 0
  {
    threw := false;
    match r
    case FixPageIn(p, _) => threw := LegacyFixPage(doc, p);
    case FixDialog(_) =>
    case CountResults(p) => doc.nodes := LegacyShowCount(doc.nodes, p);
    case AnnounceView(_, _) =>
  }

  /** Every call whova.js makes keeps the page sound too, however far its
      pass got before a TypeError. */
  lemma LegacyReactionSound(ns: seq<Element>, r: Reaction)
    requires Sound(ns)
    ensures Sound(LegacyEffect(ns, r).nodes)
  {
    match r
    case FixPageIn(p, _) => FixPageSound(ns, p, All);
    case FixDialog(_) =>
    case CountResults(p) =>
      LegacyShowCountAgrees(ns, p);
      WriteAlertKeeps(ns, CountText(ns, p), H1);
      WriteAlertKeeps(ns, CountText(ns, p), Alert);
    case AnnounceView(_, _) =>
  }
}

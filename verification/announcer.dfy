/** The messages written into the live region: the result count of
    `showSearchCount` (`countSearchResults` in whova.js) and the sentence of
    `announceViewChange`. */
module Announcer {
  import opened Wrappers
  import opened Dom
  import opened Tree
  import opened Classifier
  import opened Labels
  import opened Landmarks

  /** The inline `display: block` that makes the region visible. */
  const Shown: string := "display: block"

  /** The message written into the element at k, which is then shown. */
  function WriteAt(ns: seq<Element>, k: nat, msg: string): (r: seq<Element>)
    requires k < |ns|
    ensures k < |r|
  {
    var t := SetText(ns, k, msg);
    t[k := SetAttr(t[k], "style", Shown)]
  }

  /** The message written into `#a11y-alert` when the page has one. */
  function WriteAlert(ns: seq<Element>, msg: string): seq<Element> {
    match First(ns, Alert)
    case None => ns
    case Some(k) => WriteAt(ns, k, msg)
  }

  /** The region then holds exactly the message and is shown. */
  lemma WriteAtShows(ns: seq<Element>, k: nat, msg: string)
    requires k < |ns|
    ensures var r := WriteAt(ns, k, msg);
      TextContent(r, k) == msg && Attr(r[k], "style") == Some(Shown)
  {
    var t := SetText(ns, k, msg);
    var r := WriteAt(ns, k, msg);
    assert r[k].depth == ns[k].depth && r[k].text == msg;
    if k + 1 < |r| {
      assert r[k + 1] == ns[SubtreeEnd(ns, k)];
    }
    assert SubtreeEnd(r, k) == k + 1;
    assert r[k..k + 1] == [r[k]];
    assert Texts([r[k]]) == r[k].text + Texts([]);
  }

  /** The region stays the first `#a11y-alert`, no collection gains an
      element, and the page stays whole. */
  lemma WriteAtKeeps(ns: seq<Element>, k: nat, msg: string, q: Query)
    requires First(ns, Alert) == Some(k)
    ensures var r := WriteAt(ns, k, msg);
      First(r, Alert) == Some(k) && Count(r, q) <= Count(ns, q)
      && (Rooted(ns) ==> Rooted(r))
  {
    var t := SetText(ns, k, msg);
    var r := WriteAt(ns, k, msg);
    FirstKept(ns, r, Alert, k);
    CountSetText(ns, k, msg, q);
    assert SameKeys(t, r);
    SameKeysCount(t, r, q);
    if Rooted(ns) {
      RootNotSelected(ns, Alert);
      RootedSetText(ns, k, msg);
      RootedUpdate(t, k, SetAttr(t[k], "style", Shown));
    }
  }

  /** The message of `showSearchCount`: the number of results on the page
      and their noun, or, on a page the table does not list, the empty text
      that assigning `undefined` leaves. */
  function CountText(ns: seq<Element>, p: Page): string {
    match ResultsOf(p)
    case None => ""
    case Some(res) => CountMessage(Count(ns, ByClass(res.cls)), res.noun)
  }

  /** `showSearchCount`, on the page as it is when its timer fires. */
  function ShowCount(ns: seq<Element>, p: Page): seq<Element> {
    WriteAlert(ns, CountText(ns, p))
  }

  /** `countSearchResults` of whova.js. Without a live region the timer's
      callback throws on `null` when it fires and changes nothing; that
      error ends the callback alone, not the call that set the timer. */
  function LegacyShowCount(ns: seq<Element>, p: Page): seq<Element> {
    match LegacyResultsOf(p)
    case None => WriteAlert(ns, "")
    case Some(res) => WriteAlert(ns, CountMessage(Count(ns, ByClass(res.cls)), res.noun))
  }

  /** With a live region, the region reports the number of results the
      page had, which can be read back from the message; on an unlisted
      page it is emptied; in every case it is shown. Without one nothing
      changes. */
  lemma ShowCountReports(ns: seq<Element>, p: Page)
    ensures First(ns, Alert).None? ==> ShowCount(ns, p) == ns
    ensures First(ns, Alert).Some? ==>
      var k := First(ns, Alert).value;
      var r := ShowCount(ns, p);
      Attr(r[k], "style") == Some(Shown)
      && (ResultsOf(p).Some? ==>
            ReadCount(TextContent(r, k)) == Some(Count(ns, ByClass(ResultsOf(p).value.cls))))
      && (ResultsOf(p).None? ==> TextContent(r, k) == "")
  {
    if First(ns, Alert).Some? {
      var k := First(ns, Alert).value;
      WriteAtShows(ns, k, CountText(ns, p));
      if ResultsOf(p).Some? {
        var res := ResultsOf(p).value;
        CountMessageRoundTrip(Count(ns, ByClass(res.cls)), res.noun);
      }
    }
  }

  /** Both scripts write the same message. */
  lemma LegacyShowCountAgrees(ns: seq<Element>, p: Page)
    ensures LegacyShowCount(ns, p) == ShowCount(ns, p)
  {
    ResultTablesAgree(p);
  }

  /** The video gallery's own name is not in the table, so its region is
      emptied instead of counting videos. */
  lemma VideoGalleryNotCounted(ns: seq<Element>)
    requires First(ns, Alert).Some?
    ensures TextContent(ShowCount(ns, Some("VideoGallery")), First(ns, Alert).value) == ""
  {
    ResultTablesAgree(Some("VideoGallery"));
    ShowCountReports(ns, Some("VideoGallery"));
  }

  /** `announceViewChange`: only on the sponsors and exhibitors pages, and
      only with a live region. The label goes into the sentence whole: the
      statement meant to drop a "Selected ...: " preface discards its result. */
  function Announce(ns: seq<Element>, p: Page, name: string): seq<Element> {
    if p == Some("Sponsors") || p == Some("Exhibitors") then WriteAlert(ns, AnnounceMessage(name))
    else ns
  }

  /** On those pages the region names the label it was given, preface and
      all, and is shown; elsewhere nothing changes. */
  lemma AnnounceNames(ns: seq<Element>, p: Page, name: string)
    ensures !(p == Some("Sponsors") || p == Some("Exhibitors")) || First(ns, Alert).None? ==>
      Announce(ns, p, name) == ns
    ensures (p == Some("Sponsors") || p == Some("Exhibitors")) && First(ns, Alert).Some? ==>
      var k := First(ns, Alert).value;
      var r := Announce(ns, p, name);
      AnnouncedLabel(TextContent(r, k)) == Some(name) && Attr(r[k], "style") == Some(Shown)
  {
    if (p == Some("Sponsors") || p == Some("Exhibitors")) && First(ns, Alert).Some? {
      var k := First(ns, Alert).value;
      WriteAtShows(ns, k, AnnounceMessage(name));
      AnnounceRoundTrip(name);
    }
  }

  /** A message keeps the page whole, adds no element to any collection and
      leaves the live region where it was. */
  lemma WriteAlertKeeps(ns: seq<Element>, msg: string, q: Query)
    ensures First(WriteAlert(ns, msg), Alert) == First(ns, Alert)
    ensures Count(WriteAlert(ns, msg), q) <= Count(ns, q)
    ensures Rooted(ns) ==> Rooted(WriteAlert(ns, msg))
  {
    if First(ns, Alert).Some? {
      WriteAtKeeps(ns, First(ns, Alert).value, msg, q);
    }
  }
}

/** The label and message tables: the title prefix of `fixTitle`, the `h1`
    text of `fixHeadings`, the result classes and nouns of
    `showSearchCount`/`countSearchResults`, and the sentence of
    `announceViewChange`. */
module Labels {
  import opened Wrappers
  import opened Text
  import opened Classifier

  /** A page identity as string concatenation renders it: the JavaScript
      `undefined` becomes the word `undefined`. */
  function PageText(p: Page): (s: string)
    ensures p.Some? ==> s == p.value
    ensures p.None? ==> s == "undefined"
  {
    match p
    case Some(name) => name
    case None => "undefined"
  }

  /** The label `fixTitle` (both scripts) puts in front of the title. */
  function TitleLabel(p: Page): string {
    if p == Some("CommunityBoard") then "Community"
    else if p == Some("SessionQA") then "Session Q&A"
    else if p == Some("VideoGallery") then "Video Gallery"
    else PageText(p)
  }

  const TitleBar: string := " | "

  /** `fixTitle`: the label and a bar in front of the title as it was. */
  function FixedTitle(p: Page, title: string): (t: string)
    ensures |t| == |TitleLabel(p)| + |TitleBar| + |title|
    ensures t[|t| - |title|..] == title
  {
    TitleLabel(p) + TitleBar + title
  }

  /** The title a fixed title was made from, when it carries the page's prefix. */
  function OriginalTitle(p: Page, t: string): Option<string> {
    var prefix := TitleLabel(p) + TitleBar;
    if |prefix| <= |t| && t[..|prefix|] == prefix then Some(t[|prefix|..]) else None
  }

  /** The old title can always be recovered: `fixTitle` loses nothing. */
  lemma FixedTitleRoundTrip(p: Page, title: string)
    ensures OriginalTitle(p, FixedTitle(p, title)) == Some(title)
  {
    var prefix := TitleLabel(p) + TitleBar;
    var t := FixedTitle(p, title);
    assert t == prefix + title;
    assert t[..|prefix|] == prefix;
    assert t[|prefix|..] == title;
  }

  /** The title after n passes of `fixTitle`. */
  function TitleAfter(p: Page, title: string, n: nat): string
    decreases n
  {
    if n == 0 then title else FixedTitle(p, TitleAfter(p, title, n - 1))
  }

  /** `fixTitle` is not idempotent: every pass prepends the label once more,
      so the title grows by the same amount each time. */
  lemma {:induction false} TitleGrowsEachPass(p: Page, title: string, n: nat)
    ensures |TitleAfter(p, title, n)| == |title| + n * (|TitleLabel(p)| + |TitleBar|)
    ensures n > 0 ==> TitleAfter(p, title, n) != title
    decreases n
  {
    if n > 0 {
      var step := |TitleLabel(p)| + |TitleBar|;
      TitleGrowsEachPass(p, title, n - 1);
      assert |TitleAfter(p, title, n)| == |TitleAfter(p, title, n - 1)| + step;
      assert (n - 1) * step + step == n * step;
    }
  }

  /** The text of the `h1` that `fixHeadings` adds (both scripts). Assigning
      `undefined` to `textContent` leaves the text empty. */
  function H1Label(p: Page): string {
    if p == Some("CommunityBoard") then "Community"
    else if p == Some("SessionQA") then "Session Q&A"
    else if p == Some("VideoGallery") then "Video Gallery"
    else if p == Some("WhovaGuides") then "Whova Guides"
    else p.GetOr("")
  }

  /** The `h1` repeats the title's label, except on the Whova Guides page,
      which only the `h1` table knows, and on an undefined page, which the
      title spells out and the `h1` leaves empty. */
  lemma H1LabelAgreesWithTitle(p: Page)
    ensures p.Some? && p != Some("WhovaGuides") ==> H1Label(p) == TitleLabel(p)
    ensures H1Label(Some("WhovaGuides")) == "Whova Guides" != TitleLabel(Some("WhovaGuides"))
    ensures H1Label(None) == "" && TitleLabel(None) == "undefined"
  {
  }

  /** What a search count counts on a page: the class of a result and the noun. */
  datatype Results = Results(cls: string, noun: string)

  /** The page table of `showSearchCount`. It names the video page `Videos`,
      which `getPage` never produces for the video gallery. */
  function ResultsOf(p: Page): Option<Results> {
    if p == Some("Agenda") then Some(Results("session", "sessions"))
    else if p == Some("Attendees") then Some(Results("attendee-content", "attendees"))
    else if p == Some("CommunityBoard") then Some(Results("single-topic", "topics"))
    else if p == Some("Exhibitors") then Some(Results("exhibitor-list-item", "exhibitors"))
    else if p == Some("Messages") then Some(Results("threadlist-container", "messages"))
    else if p == Some("SessionQA") then Some(Results("one-session-qa-program", "sessions"))
    else if p == Some("Videos") then Some(Results("video-info", "videos"))
    else if p == Some("Documents") then Some(Results("document-item", "documents"))
    else if p == Some("Polls") then Some(Results("polls-item", "polls"))
    else if p == Some("Speakers") then Some(Results("speaker-content", "speakers"))
    else None
  }

  /** The page table of `countSearchResults` in whova.js, with its three
      repeated `Videos` branches, which can never be reached. */
  function LegacyResultsOf(p: Page): Option<Results> {
    if p == Some("Agenda") then Some(Results("session", "sessions"))
    else if p == Some("Attendees") then Some(Results("attendee-content", "attendees"))
    else if p == Some("CommunityBoard") then Some(Results("single-topic", "topics"))
    else if p == Some("Exhibitors") then Some(Results("exhibitor-list-item", "exhibitors"))
    else if p == Some("Messages") then Some(Results("threadlist-container", "messages"))
    else if p == Some("SessionQA") then Some(Results("one-session-qa-program", "sessions"))
    else if p == Some("Videos") then Some(Results("video-info", "videos"))
    else if p == Some("Documents") then Some(Results("document-item", "documents"))
    else if p == Some("Polls") then Some(Results("polls-item", "polls"))
    else if p == Some("Speakers") then Some(Results("speaker-content", "speakers"))
    else if p == Some("Videos") then Some(Results("video-info", "videos"))
    else if p == Some("Videos") then Some(Results("video-info", "videos"))
    else if p == Some("Videos") then Some(Results("video-info", "videos"))
    else None
  }

  /** Both scripts count the same results with the same nouns, and neither
      counts anything on the video gallery page. */
  lemma ResultTablesAgree(p: Page)
    ensures LegacyResultsOf(p) == ResultsOf(p)
    ensures ResultsOf(Some("VideoGallery")).None?
  {
  }

  const ShowingPrefix: string := "Showing "

  /** "Showing N noun": a count rendered as JavaScript renders a number. */
  function CountMessage(n: nat, noun: string): (m: string)
    ensures |m| > |ShowingPrefix| && m[..|ShowingPrefix|] == ShowingPrefix
  {
    ShowingPrefix + NatToString(n) + " " + noun
  }

  /** The count a "Showing N ..." message reports. */
  function ReadCount(m: string): Option<nat> {
    if |m| >= |ShowingPrefix| && m[..|ShowingPrefix|] == ShowingPrefix then
      var digits := DigitRun(m[|ShowingPrefix|..]);
      if |digits| > 0 then Some(ParseNat(digits)) else None
    else None
  }

  /** A count message reports exactly the count it was built from. */
  lemma CountMessageRoundTrip(n: nat, noun: string)
    ensures ReadCount(CountMessage(n, noun)) == Some(n)
  {
    var m := CountMessage(n, noun);
    var digits := NatToString(n);
    assert m[|ShowingPrefix|..] == digits + (" " + noun);
    DigitRunStops(digits, " " + noun);
    ParseNatToString(n);
  }

  const NowShowing: string := "Now showing "
  const HeadingNote: string := ". The new content is marked with a level 2 heading."

  /** The sentence `announceViewChange` writes for the label of the new view. */
  function AnnounceMessage(name: string): (m: string)
    ensures |m| == |NowShowing| + |name| + |HeadingNote|
    ensures m[..|NowShowing|] == NowShowing && m[|m| - |HeadingNote|..] == HeadingNote
  {
    NowShowing + name + HeadingNote
  }

  /** The label an announcement names, when the message has the announcement's shape. */
  function AnnouncedLabel(m: string): Option<string> {
    if |m| >= |NowShowing| + |HeadingNote| && m[..|NowShowing|] == NowShowing
       && m[|m| - |HeadingNote|..] == HeadingNote
    then Some(m[|NowShowing|..|m| - |HeadingNote|])
    else None
  }

  /** An announcement names the label it was given, whole: a "Selected ...: "
      preface on the label stays in the message. */
  lemma AnnounceRoundTrip(name: string)
    ensures AnnouncedLabel(AnnounceMessage(name)) == Some(name)
  {
    var m := AnnounceMessage(name);
    assert m == NowShowing + name + HeadingNote;
    assert m[|NowShowing|..|m| - |HeadingNote|] == name;
  }
}

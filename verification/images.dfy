/** The alt-text tables of `fixImages`: which text an image that has no `alt`
    attribute receives, by page, class and `src`, in the later script
    (class-list tests) and in whova.js (exact class-attribute tests). */
module Images {
  import opened Wrappers
  import opened Text
  import opened Dom
  import opened Classifier

  const GridSrc: string := "/static/app_frontend/webapp/selected-grid.png"
  const ListSrc: string := "/static/app_frontend/webapp/list.png"
  const PreviousSrc: string := "/static/app_frontend/webapp/previous.png"
  const NextSrc: string := "/static/app_frontend/webapp/next.png"

  /** The conference banner's description, an opaque constant of the script. */
  const BannerAlt: string :=
    "Accessing Higher Ground Accessible Media, Web & Technology Conference. Presented by AHEAD in collaboration with ATHEN"

  /** The two people directories, whose view icons and page arrows are labelled. */
  predicate IsDirectory(p: Page) {
    p == Some("Attendees") || p == Some("Speakers")
  }

  /** The label of a view icon or a page arrow, chosen by its `src`. */
  function IconAlt(e: Element, arrow: bool): Option<string> {
    var src := Attr(e, "src");
    if !arrow then
      if src == Some(GridSrc) then Some("Grid View")
      else if src == Some(ListSrc) then Some("List View")
      else None
    else
      if src == Some(PreviousSrc) then Some("Previous Attendees Page")
      else if src == Some(NextSrc) then Some("Next Attendees Page")
      else None
  }

  /** The alt the later script gives an image that has none, or `None` when
      it leaves the image alone. */
  function ImageAlt(p: Page, e: Element): Option<string> {
    if HasClass(e, "whova-logo") then Some("Whova")
    else if p == Some("Home") then
      if HasClass(e, "event-banner-web") then Some(BannerAlt) else None
    else if IsDirectory(p) then
      if HasClass(e, "view-icon") then IconAlt(e, false)
      else if HasClass(e, "arrow") then IconAlt(e, true)
      else Some("")
    else Some("")
  }

  /** The pages on which whova.js marks every other image decorative. */
  predicate LegacyDecorativePage(p: Page) {
    p == Some("CommunityBoard") || p == Some("Exhibitors") || p == Some("Messages")
    || p == Some("VideoGallery") || p == Some("Documents") || p == Some("Polls")
    || p == Some("Surveys")
  }

  /** The alt whova.js gives an image that has none: it compares the whole
      class attribute, and knows no home-page banner. */
  function LegacyImageAlt(p: Page, e: Element): Option<string> {
    var cls := Attr(e, "class");
    if cls == Some("whova-logo") then Some("Whova")
    else if IsDirectory(p) then
      if cls == Some("view-icon") then IconAlt(e, false)
      else if cls == Some("arrow") then IconAlt(e, true)
      else Some("")
    else if LegacyDecorativePage(p) then Some("")
    else None
  }

  /** The later table, rule by rule: the logo everywhere; on the home page
      only the logo and the banner; on the directories a `src`-specific label
      or nothing for icons and arrows, empty for every other image; empty
      elsewhere. */
  lemma ImageAltRules(p: Page, e: Element)
    ensures HasClass(e, "whova-logo") ==> ImageAlt(p, e) == Some("Whova")
    ensures p == Some("Home") ==>
      (ImageAlt(p, e).Some? <==> HasClass(e, "whova-logo") || HasClass(e, "event-banner-web"))
    ensures IsDirectory(p) && !HasClass(e, "whova-logo") && HasClass(e, "view-icon") ==>
      ImageAlt(p, e) == (if Attr(e, "src") == Some(GridSrc) then Some("Grid View")
                         else if Attr(e, "src") == Some(ListSrc) then Some("List View") else None)
    ensures IsDirectory(p) && !HasClass(e, "whova-logo") && !HasClass(e, "view-icon") && HasClass(e, "arrow") ==>
      ImageAlt(p, e) == (if Attr(e, "src") == Some(PreviousSrc) then Some("Previous Attendees Page")
                         else if Attr(e, "src") == Some(NextSrc) then Some("Next Attendees Page") else None)
    ensures IsDirectory(p) && !HasClass(e, "whova-logo") && !HasClass(e, "view-icon") && !HasClass(e, "arrow") ==>
      ImageAlt(p, e) == Some("")
    ensures p != Some("Home") && !IsDirectory(p) && !HasClass(e, "whova-logo") ==> ImageAlt(p, e) == Some("")
  {
  }

  /** The older table, rule by rule: the logo everywhere; on the directories
      a `src`-specific label or nothing for an image whose class attribute is
      exactly `view-icon` or `arrow`, empty for every other image; empty on
      the listed decorative pages; and images on the home page, the agenda,
      the sponsors page and any unlisted page are never labelled unless the
      class attribute is exactly `whova-logo`. */
  lemma LegacyImageAltRules(p: Page, e: Element)
    ensures Attr(e, "class") == Some("whova-logo") ==> LegacyImageAlt(p, e) == Some("Whova")
    ensures IsDirectory(p) && Attr(e, "class") == Some("view-icon") ==>
      LegacyImageAlt(p, e) == (if Attr(e, "src") == Some(GridSrc) then Some("Grid View")
                               else if Attr(e, "src") == Some(ListSrc) then Some("List View") else None)
    ensures IsDirectory(p) && Attr(e, "class") == Some("arrow") ==>
      LegacyImageAlt(p, e) == (if Attr(e, "src") == Some(PreviousSrc) then Some("Previous Attendees Page")
                               else if Attr(e, "src") == Some(NextSrc) then Some("Next Attendees Page") else None)
    ensures IsDirectory(p) && Attr(e, "class") !in {Some("whova-logo"), Some("view-icon"), Some("arrow")} ==>
      LegacyImageAlt(p, e) == Some("")
    ensures !IsDirectory(p) && !LegacyDecorativePage(p) && Attr(e, "class") != Some("whova-logo") ==>
      LegacyImageAlt(p, e).None?
    ensures LegacyDecorativePage(p) && Attr(e, "class") != Some("whova-logo") ==>
      LegacyImageAlt(p, e) == Some("")
  {
  }

  /** On the people directories the two scripts agree on every image whose
      class attribute is one of the classes they test, written alone. */
  lemma {:induction false} DirectoriesAgreeOnExactClasses(p: Page, e: Element, w: string)
    requires IsDirectory(p)
    requires w == "whova-logo" || w == "view-icon" || w == "arrow"
    requires Attr(e, "class") == Some(w)
    ensures ImageAlt(p, e) == LegacyImageAlt(p, e)
  {
    SingleClass(e, w, "whova-logo");
    SingleClass(e, w, "view-icon");
    SingleClass(e, w, "arrow");
  }

  /** The later script labels every logo, whatever further classes it
      carries; whova.js, comparing the whole class attribute, never gives
      such an image the logo label, and on the home page leaves it without
      any alt. */
  lemma CompoundLogoClass(p: Page, e: Element)
    requires HasClass(e, "whova-logo") && Attr(e, "class") != Some("whova-logo")
    ensures ImageAlt(p, e) == Some("Whova")
    ensures LegacyImageAlt(p, e) != Some("Whova")
    ensures p == Some("Home") ==> LegacyImageAlt(p, e).None?
  {
  }
}

# Whova accessibility fix, modelled in Dafny

Two userscripts repair the accessibility of the Whova conference web app.
`WhovaA11yFix.user.js` is the later script and `whova.js` the older one.
On every page of the app they:

- give the document title a per-page prefix;
- correct the ARIA landmarks (a presentation role on `#app`, a `banner`
  wrapper around the two header parts, a labelled navigation and a main
  region);
- add a polite live region (`#a11y-alert`);
- give images alternative text;
- turn visual headings into real ones (a created `h1`, `role=heading` with
  `aria-level`, created column `h2`s, "Selected ...: " details headings, and
  attendee links wrapped in `h3`s);
- make agenda controls keyboard buttons and make the exhibitors' chat a
  live region.

Only the later script also gives the document lists `list` and `listitem`
roles and hides the document previews from screen readers; `whova.js` has
nothing there but a note.

A single-page app changes views without loading a page. So each script
watches the document with a mutation observer:

- a new URL is a new page, which is fixed in full;
- otherwise the changed element tells which part of the page to fix again;
- the later script also announces result counts and newly selected
  directory entries in the live region;
- a guard flag keeps the later script from reacting to the mutations its own
  fixes cause.

The model is organised as follows.

**Pages and elements.**

- The page is a flat sequence of elements in document order (`Dom`, `Tree`).
  Each element has a tag, attributes, its own text and a depth, and its
  subtree is the deeper run that follows it.
- The `Document` class holds those elements, the title text and the number
  of style blocks added to the head.
- Live collections (`getElementsByClassName`, `getElementsByTagName`) and
  `getElementById` are `Count`, `Nth` and `First` over that sequence.
- A page is the name `getPage` derives from the path (`Classifier`).
  `None` stands for JavaScript's `undefined`.

**A fix pass.**

- Each statement of a pass is a `Step` (`Steps`). A pass is the list of its
  steps for a page (`Remediation`).
- The methods `RunStep` and `RunSteps` carry the steps out on the document.
  The loops over live collections stay loops (`Edits.ApplyToMatches`,
  `Headings.WrapAll`).
- In `whova.js` many lookups are not checked and throw a TypeError. The
  model carries that as an `Outcome` whose `threw` flag stops the pass.

**Events.**

- `Observer` models the event side: the observer callbacks of both scripts
  as state machines over the page last fixed, the guard and the searching
  flag, and the key handlers.
- The calls a callback makes are returned as `Reaction` values, which
  `Perform` and `LegacyPerform` carry out.

**Soundness.**

- The central invariant is `Steps.Sound`: the page is whole (one root, the
  `html` element, which no query selects), with at most one `h1` and at most
  one live region.
- Every step and every reaction of both scripts keeps it, including a pass
  that stops at a TypeError.

## Model

| member | source | states |
|---|---|---|
| Classifier.GetPageRefinesLegacy | WhovaA11yFix.user.js:210-236 | the later `getPage` is the older one followed by the `exhibitors`/`sponsors` capitalisation |
| Classifier.RouteNamesPage | WhovaA11yFix.user.js:219-232 | for `/portal/webapp/<conference>/<name>...` the page is the fifth piece, capitalised for the two directories in the later script and as written in the older one |
| Classifier.EmptyPagePieceIsHome | WhovaA11yFix.user.js:220-223 | an empty page piece yields `Home` in both scripts |
| Classifier.ConferenceRouteIsUndefined | WhovaA11yFix.user.js:220-232 | a route that stops after the conference piece yields `undefined`, because the test `pathParts[4] !== ''` passes |
| Classifier.ForeignPathIsHome | whova.js:69-86 | a path with two or more pieces whose first two are not `portal` and `webapp` yields `Home` in both scripts |
| Classifier.ShortPathIsHome | whova.js:79-84 | a path with at most one separator, `/` and `/x` among them, yields `Home` in both scripts |
| Text.JoinSplit | WhovaA11yFix.user.js:219 | joining the pieces of `split('/')` gives back the path, so splitting loses nothing |
| Text.SplitJoin | WhovaA11yFix.user.js:219 | splitting a join of separator-free pieces gives back the pieces |
| Text.ParseNatToString | WhovaA11yFix.user.js:955 | a count rendered as a decimal string is read back as the same number |
| Dom.SingleClass | whova.js:207 | an element whose class attribute is exactly one word `w` has `classList.contains(c)` exactly when `c == w` |
| Dom.CountZero | WhovaA11yFix.user.js:312 | a live collection has length 0 exactly when no element answers it |
| Dom.FirstExists | WhovaA11yFix.user.js:312-314 | `c[0]` exists exactly when `c.length > 0` |
| Dom.Nth | WhovaA11yFix.user.js:524-527 | item `i` of a live collection answers the query and has exactly `i` answering elements before it |
| Dom.Document.constructor | WhovaA11yFix.user.js:276 | a document starts with the given title and elements and no added style block |
| Tree.CountPrependChild | WhovaA11yFix.user.js:514 | `prepend` of a created element adds it, and only it, to every collection it answers |
| Tree.CountWrapIn | WhovaA11yFix.user.js:548-551 | moving a subtree into a new wrapper adds the wrapper to its collections and changes no other count |
| Tree.RootedWrapIn | WhovaA11yFix.user.js:548-551 | moving a subtree into a new first child of a parent keeps the page whole |
| Edits.ApplyKeepsKey | WhovaA11yFix.user.js:525-526 | an edit that writes neither `class` nor `id` keeps the element in its collections, keeps its text and depth, and keeps every attribute it does not write |
| Edits.ApplyIdempotent | WhovaA11yFix.user.js:896-906 | applying an attribute edit (heading levels, `makeButton`, the alt step) a second time changes nothing |
| Edits.MapMatchesKeeps | WhovaA11yFix.user.js:523-527 | a promotion pass edits exactly the answering elements, keeps every collection and text, and keeps the page whole |
| Edits.MapMatchesIdempotent | WhovaA11yFix.user.js:523-527 | a second promotion pass changes nothing |
| Edits.ApplyToMatches | WhovaA11yFix.user.js:433-475 | the loop over a live collection, reading its length each time, edits every answering element once, as `MapMatches` says |
| Edits.EditFirstKeeps | WhovaA11yFix.user.js:620-624 | editing `c[0]` keeps every collection, and a second edit changes nothing |
| Labels.FixedTitleRoundTrip | WhovaA11yFix.user.js:271-291 | the old title can be recovered from the fixed title, so `fixTitle` loses nothing |
| Labels.TitleGrowsEachPass | whova.js:106-125 | `fixTitle` is not idempotent: `n` passes add `n` prefixes, so the title grows by the same length each time |
| Labels.H1LabelAgreesWithTitle | WhovaA11yFix.user.js:499-513 | the `h1` text equals the title prefix except on `WhovaGuides` and on an undefined page |
| Labels.ResultTablesAgree | whova.js:664-715 | the count tables of both scripts agree, and neither has an entry for `VideoGallery` |
| Labels.CountMessageRoundTrip | WhovaA11yFix.user.js:955 | a "Showing N noun" message reports exactly N |
| Labels.AnnounceRoundTrip | WhovaA11yFix.user.js:1010-1018 | the announcement names the label whole; the "Selected ...:" prefix is not removed, because the result of `slice` is discarded |
| Images.ImageAltRules | WhovaA11yFix.user.js:427-476 | the later alt table rule by rule: the logo on every page; on Home only the logo and the banner; on the directories `src`-specific labels or none for view icons and arrows, and an empty alt for every other image; empty alt on every other page |
| Images.LegacyImageAltRules | whova.js:197-259 | the older table rule by rule: an exact `whova-logo` class is labelled everywhere; on the directories an exact `view-icon` or `arrow` class gets its `src`-specific label or none, and every other image an empty alt; on its listed decorative pages other images get an empty alt; on Home, Agenda, Sponsors and unlisted pages they stay unlabelled |
| Edits.LabelImageAlt | WhovaA11yFix.user.js:432-475 | an image that already has `alt` is left exactly as it was by both scripts; one without gets the alt its script's table gives, or none |
| Edits.LabelKeepsAlt | whova.js:203-204 | a `fixImages` pass of either script leaves every image with an `alt`, and every element that is not an image, unchanged |
| Edits.MakeButtonAttrs | WhovaA11yFix.user.js:896-906 | `makeButton` sets `role=button` and `tabindex=0`; the later script sets `aria-current=page` exactly when the element has class `active`, and whova.js (whova.js:594-599) never does |
| Images.DirectoriesAgreeOnExactClasses | whova.js:210-235 | on the directories both tables agree on any image whose class attribute is one tested class alone |
| Images.CompoundLogoClass | whova.js:207 | any logo image with further classes is labelled `Whova` by the later script and never by the older one, which compares the whole attribute; on Home the older one leaves it without alt |
| Landmarks.BannerCount | WhovaA11yFix.user.js:311-322 | the banner step adds only the `header role=banner` wrapper to any collection |
| Landmarks.BannerRooted | WhovaA11yFix.user.js:311-322 | the banner step keeps the page whole |
| Landmarks.BannerNotIdempotent | WhovaA11yFix.user.js:311-322 | a second pass wraps the header again, in a second banner |
| Landmarks.LegacyBannerCount | whova.js:279-290 | the older banner step, which looks up the event-name header before moving the top header, adds only the wrapper to any collection |
| Landmarks.LegacyBannerRooted | whova.js:279-290 | the older banner step keeps the page whole |
| Landmarks.LegacyBannerAgrees | whova.js:279-290 | when the first event-name header is not inside the `whova-header`, the early lookup finds what the later script's late lookup finds, and both banner steps give the same page |
| Landmarks.LegacyBannerMovesNested | whova.js:279-290 | when the first event-name header is inside the `whova-header`, whova.js moves it out: the wrapper's first child is the top header and the event-name header is its next child |
| Landmarks.LandmarksCount | WhovaA11yFix.user.js:293-334 | apart from the banner wrapper, `fixLandmarks` adds no element to any collection, and keeps the page whole |
| Landmarks.LegacyLandmarksCount | whova.js:261-301 | the same for whova.js with its own banner step, which throws exactly when there is no `#app` (its `typeof` test lets `null` through) |
| Landmarks.LandmarkMainRole | WhovaA11yFix.user.js:330-333 | after `fixLandmarks` the first page content has `role=main` |
| Landmarks.LandmarkNavLabel | WhovaA11yFix.user.js:324-328 | after `fixLandmarks` the first side navigation has `role=navigation` and `aria-label=Main` |
| Landmarks.AddAlertAtMostOne | WhovaA11yFix.user.js:407-425 | `addAlert` creates one polite, atomic region only when none exists and there is page content or `#app`, so there is never a second one |
| Landmarks.AddAlertIdempotent | WhovaA11yFix.user.js:413 | a second `addAlert` changes nothing |
| Landmarks.AddAlertCount | WhovaA11yFix.user.js:414-423 | `addAlert` adds only the region to any collection, and keeps the page whole |
| Landmarks.LegacyAddAlertAgrees | whova.js:177-195 | the older `addAlert` agrees with the later one where it does not throw, and throws exactly when it would need the `#app` fallback, because its collection test is always true |
| Headings.PresentFirstH2Keeps | WhovaA11yFix.user.js:483-492 | the first `h2` inside the event name gets `role=presentation`; no element changes its tag, class or id, and the page stays whole |
| Headings.AddH1Once | WhovaA11yFix.user.js:495-516 | an `h1` with the page label becomes the first child of the page content only when there is no `h1`; there is never a second one; a second pass changes nothing |
| Headings.ColumnH2Guarded | WhovaA11yFix.user.js:558-565 | the later script's column heading changes the page exactly when there is a column without an `h2`; afterwards the column holds an `h2`, and a second pass changes nothing |
| Headings.ColumnH2Unguarded | whova.js:371-376 | the older column heading adds one more `h2` on every pass |
| Headings.RetitleText | WhovaA11yFix.user.js:612-617 | the details heading holds exactly its new text and is a level-2 heading |
| Headings.RetitleKeys | WhovaA11yFix.user.js:612-617 | the rewritten heading is still the first answer of its query, no collection gains an element, and the page stays whole |
| Headings.RetitleStacks | WhovaA11yFix.user.js:655-660 | the "Selected ...: " prefix is added again on every pass |
| Headings.TopicTitleAsWritten | WhovaA11yFix.user.js:569-574 | the topic title always reads `Selected Topic: undefined`, because it reads the collection's text, so a second pass changes nothing |
| Headings.WrapAtCount | WhovaA11yFix.user.js:548-551 | wrapping one attendee link adds the `h3` and nothing else to any collection |
| Headings.NextWrap | WhovaA11yFix.user.js:547-552 | wrapping link `i` of the live collection keeps every collection but the `h3`s, the links among them, and on a whole page adds exactly one `h3` |
| Headings.WrapFrom | WhovaA11yFix.user.js:546-552 | the attendee loop adds one `h3` per link and keeps every other collection and the page whole |
| Headings.WrapAll | WhovaA11yFix.user.js:546-552 | the loop on the document leaves the page that `WrapFrom` describes |
| Headings.WrapOne | WhovaA11yFix.user.js:548-551 | one loop body moves the link into a new `h3`, the first child of its parent |
| Headings.AttendeeWrapTwice | whova.js:360-366 | the attendee pass is not idempotent: two passes add two `h3`s per link |
| Steps.RunStep | WhovaA11yFix.user.js:523-527 | one statement carried out on the document leaves the elements and throw flag that `Run` gives, and changes neither the title nor the style blocks |
| Steps.RunSteps | whova.js:88-104 | a pass on the document runs its statements in order and stops at the first TypeError, as `RunPlan` says |
| Steps.StepThrows | whova.js:380-383 | a statement throws exactly when it is an unchecked lookup and its target is missing |
| Steps.PlanNeverThrows | WhovaA11yFix.user.js:250-262 | a pass none of whose statements can throw runs to its end |
| Steps.StepSound | WhovaA11yFix.user.js:478-750 | every statement keeps the page sound: whole, at most one `h1`, at most one live region |
| Steps.PlanSound | whova.js:88-104 | a whole pass keeps the page sound, also when it stops at a TypeError |
| Remediation.FixPlanNeverThrows | WhovaA11yFix.user.js:238-269 | no statement of the later script's pass can throw |
| Remediation.FixPage | WhovaA11yFix.user.js:238-269 | the later `fixPage`: title, style block, landmarks and live region only on a full pass, then images, headings and the rest, as `FixPlan` says |
| Remediation.LegacyFixPage | whova.js:88-104 | the older `fixPage`: title and style first, then its pass, which may stop at a TypeError |
| Remediation.FixPageSound | WhovaA11yFix.user.js:238-269 | every pass of either script keeps the page sound, however often it runs |
| Remediation.LegacyThrowingSteps | whova.js:303-592 | the older pass can throw only in landmarks, the live region and the unchecked lookups of the community board, exhibitors, messages and agenda pages |
| Announcer.WriteAtShows | WhovaA11yFix.user.js:993-994 | the region holds exactly the message and is shown with `display: block` |
| Announcer.ShowCountReports | WhovaA11yFix.user.js:933-997 | with a live region, the message reports the count of the page's results (read back from the text), is empty on unlisted pages, and is shown; without one nothing changes |
| Announcer.LegacyShowCountAgrees | whova.js:646-720 | both scripts write the same count message |
| Announcer.VideoGalleryNotCounted | WhovaA11yFix.user.js:977-980 | on the video gallery the region is emptied instead of counting videos, because the table names `Videos` |
| Announcer.AnnounceNames | WhovaA11yFix.user.js:999-1024 | on the two directories with a region, the region names the label, prefix and all, and is shown; elsewhere nothing changes |
| Announcer.WriteAlertKeeps | WhovaA11yFix.user.js:1019-1020 | a message keeps the page whole, adds no element to any collection and leaves the region in place |
| Modal.ModalLabelled | WhovaA11yFix.user.js:770-782 | the dialog's `aria-labelledby` equals the title's new id, which is the dialog id (or `null`) plus `-title`; the title is a level-1 heading |
| Modal.ModalOnlyWhenPresent | WhovaA11yFix.user.js:760-775 | nothing changes off the directories or without a dialog and a title |
| Modal.ModalKeepsClasses | WhovaA11yFix.user.js:777-781 | the fix writes no class, so the dialog and the title are found again |
| Modal.ModalRooted | WhovaA11yFix.user.js:770-782 | the fix keeps the page whole |
| Modal.ModalIdempotent | WhovaA11yFix.user.js:770-782 | when the dialog is not its own title, a second pass changes nothing |
| Modal.ModalSelfTitled | WhovaA11yFix.user.js:773-777 | when the dialog is its own title, each pass appends another `-title` to its id |
| Observer.Monitor.constructor | WhovaA11yFix.user.js:13-15 | the script starts with no guard and no search in progress |
| Observer.Monitor.Start | WhovaA11yFix.user.js:49-51 | `init` makes one full fix of the current page, remembers it and raises the guard |
| Observer.Monitor.OnMutations | WhovaA11yFix.user.js:54-198 | the callback's calls, new state and TypeError are those of `Dispatch` |
| Observer.Monitor.ReleaseGuard | WhovaA11yFix.user.js:266-268 | the second timer of `fixPage` lowers the guard and changes nothing else |
| Observer.Monitor.OnSearchKey | WhovaA11yFix.user.js:925-929 | a key in a search field sets the searching flag and changes nothing else |
| Observer.Monitor.OnButtonKey | WhovaA11yFix.user.js:907-916 | Enter or Space on a made button fixes the main content, counts the results and raises the guard; other keys do nothing |
| Observer.KeyReactions | whova.js:600-608 | a button key reacts exactly on key codes 13 and 32, with a fix and a count |
| Observer.GuardBlocks | WhovaA11yFix.user.js:56-58 | while the guard is up a batch calls nothing and changes nothing |
| Observer.NewPageFixedOnce | WhovaA11yFix.user.js:62-67 | a new page gets exactly one full fix, is remembered and raises the guard, whatever the records are |
| Observer.FirstRecordOnly | WhovaA11yFix.user.js:71-197 | only the first record of a batch is handled, because of the unconditional `break`; an empty batch changes nothing |
| Observer.GuardFollowsFixes | WhovaA11yFix.user.js:247 | on an unchanged page the guard goes up exactly when the batch made a fix, and every such fix covers the main content |
| Observer.MainContentFirst | WhovaA11yFix.user.js:78-81 | a change of `page-content` or `home-content` wins over every other branch, dialogs included |
| Observer.DialogOnEveryPage | WhovaA11yFix.user.js:82-85 | an opened dialog is handled on every page, and is the only call |
| Observer.AgendaAlwaysCounts | WhovaA11yFix.user.js:86-92 | a redrawn agenda session list fixes and counts, searching or not |
| Observer.SearchCountNeedsSearching | WhovaA11yFix.user.js:97-105 | the flag is cleared only when it was set, and outside the agenda a count is made exactly when the flag is cleared |
| Observer.SearchedListCounted | WhovaA11yFix.user.js:154-196 | a redrawn result list is always fixed, and counted exactly when the user was searching |
| Observer.DetailsAnnounced | WhovaA11yFix.user.js:118-137 | a changed details header reads the selected name: without the name element the callback throws before any call; otherwise it fixes and announces that name |
| Observer.OnlyDetailsThrow | WhovaA11yFix.user.js:121-124 | only a details change on a directory can throw, and then no call is made |
| Observer.Perform | WhovaA11yFix.user.js:238-262 | a call of the later script does to the elements what `Effect` says, and changes the title and adds a style block only on a full fix |
| Observer.ModalSound | WhovaA11yFix.user.js:776-781 | the dialog fix keeps the page sound: the new id ends in `-title`, so it is never the live region's |
| Observer.ReactionSound | WhovaA11yFix.user.js:54-198 | every call the later observer makes keeps the page sound |
| Observer.DialogCalls | whova.js:47-52 | the older observer makes only `fixModalDialog` calls without a page on an unchanged page |
| Observer.DialogCallsCount | whova.js:47-52 | it makes one call per record whose class attribute is exactly `modal-open` |
| Observer.LegacyMonitor.constructor | whova.js:15 | no page is remembered before the load handler runs |
| Observer.LegacyMonitor.Start | whova.js:30-32 | the load handler fixes the current page and remembers it |
| Observer.LegacyMonitor.OnMutations | whova.js:35-57 | a new page gets one fix; otherwise every record is examined, as `LegacyDispatch` says |
| Observer.LegacyMissesCompoundClass | whova.js:51 | any target with `modal-open` among other classes opens a dialog for the later script (unless it is also main content) and never for the older one |
| Observer.CompoundModalExample | whova.js:51 | such targets exist: `class="modal-open fade"` has the class among others |
| Observer.LegacyPerform | whova.js:88-104 | a call of the older script does what `LegacyEffect` says; every `fixPage` call changes the title and adds one more style block; its `fixModalDialog` is an empty stub |
| Observer.LegacyReactionSound | whova.js:35-57 | every call the older observer makes keeps the page sound |

## Left out

- Timers are not modelled as time. `fixPage` is the call that raises the guard. Its deferred body is `Perform`. The guard's release is `Monitor.ReleaseGuard`. The interleavings of these steps are not modelled.
- The load and ready-state bootstrap, `MutationObserver` registration and its options, and `console` logging are event wiring outside the model.
- Browser calls are not modelled: `click`, `focus`, `preventDefault` and `addEventListener`. The listeners are modelled by the handlers they would run (`OnButtonKey`, `OnSearchKey`).
- `fixModalDialog` moves focus to a single close button. This is not modelled (focus is not page state here).
- `addStyle` is reduced to one more style block. The CSS text and the `a11y-nav-link` class it puts on navigation links are not modelled.
- `addEventListeners` of whova.js is not modelled: the pagination listeners on the attendee page and the immediate count on each search key. It is outside the modelled core.
- Announcer.ShowCount: the later `showSearchCount` looks the region up before its timer. The model looks it up on the page the timer sees.
- Announcer.ShowCount: the `display: block` style is modelled as the `style` attribute.
- Mutation targets that are not elements (text nodes, whose `classList` is undefined) are not modelled. Targets are elements.
- The title element is assumed present. Both `fixTitle`s read `getElementsByTagName('title')[0]`.
- Landmarks.Banner: a page where the `whova-header` is the root, or the event-name header encloses the header's parent, is left unchanged. The browser would move both headers into the detached wrapper and then raise a hierarchy error, which would also stop the later script's deferred pass; `Remediation.FixPlanNeverThrows` does not cover that case.
- Landmarks.LegacyBanner: the same pathological pages are left unchanged. The hierarchy error, which would also stop whova.js's pass, is not modelled.
- Headings.WrapAt: a link without a parent is left in place. On a whole page every link has a parent (`NextWrap`).
- Statements without loops are modelled as functions on the element sequence and carried out by `Steps.RunStep`. Examples are the `h1`, the column headings, the details headings, the landmarks and the live region.
- The legacy `makeButton` key reaction is modelled as `KeyReactions` with a full fix, since whova.js's `fixPage` has no scope. The older script has no guard, so no state changes with it.

/** The page classifier: `getPage` in both scripts derives the page name from
    `window.location.pathname`, split on '/'. */
module Classifier {
  import opened Wrappers
  import opened Text

  /** A page identity as the scripts hold it: a page name, or `None` for the
      JavaScript `undefined` that `getPage` returns when the path has no
      fifth piece. */
  type Page = Option<string>

  /** `pathParts[k]`, `None` (undefined) past the end. */
  function Segment(parts: seq<string>, k: nat): Option<string> {
    if k < |parts| then Some(parts[k]) else None
  }

  /** The path has the shape `/portal/webapp/...`. */
  predicate IsAppRoute(parts: seq<string>) {
    Segment(parts, 1) == Some("portal") && Segment(parts, 2) == Some("webapp")
  }

  /** The later script's capitalisation of two route tokens. */
  function Alias(seg: Page): (p: Page)
    ensures p.Some? <==> seg.Some?
    ensures seg != Some("exhibitors") && seg != Some("sponsors") ==> p == seg
  {
    if seg == Some("exhibitors") then Some("Exhibitors")
    else if seg == Some("sponsors") then Some("Sponsors")
    else seg
  }

  /** `getPage` of WhovaA11yFix.user.js. */
  function GetPage(path: string): Page {
    var parts := Split(path, '/');
    if IsAppRoute(parts) && Segment(parts, 4) != Some("") then Alias(Segment(parts, 4))
    else Some("Home")
  }

  /** `getPage` of whova.js: the same route test, no aliases. */
  function LegacyGetPage(path: string): Page {
    var parts := Split(path, '/');
    if IsAppRoute(parts) && Segment(parts, 4) != Some("") then Segment(parts, 4)
    else Some("Home")
  }

  /** The later classifier is the earlier one followed by the alias table. */
  lemma GetPageRefinesLegacy(path: string)
    ensures GetPage(path) == Alias(LegacyGetPage(path))
  {
  }

  /** A piece without separators is split off the front unchanged. */
  lemma SplitCons(w: string, t: string)
    requires '/' !in w
    ensures Split(w + "/" + t, '/') == [w] + Split(t, '/')
  {
    assert Split("/" + t, '/') == [""] + Split(t, '/') by {
      assert ("/" + t)[1..] == t;
    }
    SplitPrefix(w, "/" + t, '/');
    assert w + "/" + t == w + ("/" + t);
    assert w + "" == w;
  }

  /** Three separator-free pieces are split off the front unchanged. */
  lemma SplitThree(a: string, b: string, c: string, t: string)
    requires '/' !in a && '/' !in b && '/' !in c
    ensures Split(a + "/" + b + "/" + c + "/" + t, '/') == [a, b, c] + Split(t, '/')
  {
    SplitCons(c, t);
    SplitCons(b, c + "/" + t);
    assert b + "/" + (c + "/" + t) == b + "/" + c + "/" + t;
    SplitCons(a, b + "/" + c + "/" + t);
    assert a + "/" + (b + "/" + c + "/" + t) == a + "/" + b + "/" + c + "/" + t;
  }

  /** The first piece of a tail that is empty or starts a new piece is empty. */
  lemma TailStartsPiece(tail: string)
    requires tail == "" || tail[0] == '/'
    ensures Split(tail, '/')[0] == ""
  {
    if tail != "" {
      assert Split(tail, '/') == [""] + Split(tail[1..], '/');
    }
  }

  /** The pieces of `<conference>/<name><tail>` begin with the two names. */
  lemma RestParts(conference: string, name: string, tail: string)
    requires '/' !in conference && '/' !in name
    requires tail == "" || tail[0] == '/'
    ensures var pr := Split(conference + "/" + name + tail, '/');
      |pr| >= 2 && pr[0] == conference && pr[1] == name
  {
    TailStartsPiece(tail);
    SplitPrefix(name, tail, '/');
    assert Split(name + tail, '/')[0] == name by {
      assert name + "" == name;
    }
    SplitCons(conference, name + tail);
    assert conference + "/" + (name + tail) == conference + "/" + name + tail;
  }

  /** The pieces of `/portal/webapp/<conference>/<name><tail>` when the tail
      is empty or starts a further piece. */
  lemma RouteParts(conference: string, name: string, tail: string)
    requires '/' !in conference && '/' !in name
    requires tail == "" || tail[0] == '/'
    ensures var parts := Split("/portal/webapp/" + conference + "/" + name + tail, '/');
      |parts| >= 5 && parts[..5] == ["", "portal", "webapp", conference, name]
  {
    var rest := conference + "/" + name + tail;
    RestParts(conference, name, tail);
    SplitThree("", "portal", "webapp", rest);
    RoutePrefix(rest);
    Regroup("/portal/webapp/", conference, name, tail);
    var parts := Split("/portal/webapp/" + conference + "/" + name + tail, '/');
    assert parts == ["", "portal", "webapp"] + Split(rest, '/');
  }

  /** The literal route prefix, regrouped. */
  lemma RoutePrefix(rest: string)
    ensures "" + "/" + "portal" + "/" + "webapp" + "/" + rest == "/portal/webapp/" + rest
  {
  }

  /** Re-association of a path built by concatenation. */
  lemma Regroup(p: string, a: string, b: string, t: string)
    ensures p + a + "/" + b + t == p + (a + "/" + b + t)
  {
  }

  /** A page route names its page: the fifth piece, with the two aliases
      applied, whatever follows it. */
  lemma RouteNamesPage(conference: string, name: string, tail: string)
    requires '/' !in conference && '/' !in name && name != ""
    requires tail == "" || tail[0] == '/'
    ensures GetPage("/portal/webapp/" + conference + "/" + name + tail) == Alias(Some(name))
    ensures LegacyGetPage("/portal/webapp/" + conference + "/" + name + tail) == Some(name)
  {
    RouteParts(conference, name, tail);
  }

  /** A route with an empty page piece is the home page. */
  lemma EmptyPagePieceIsHome(conference: string, tail: string)
    requires '/' !in conference
    requires tail == "" || tail[0] == '/'
    ensures GetPage("/portal/webapp/" + conference + "/" + tail) == Some("Home")
    ensures LegacyGetPage("/portal/webapp/" + conference + "/" + tail) == Some("Home")
  {
    RouteParts(conference, "", tail);
    assert "/portal/webapp/" + conference + "/" + "" + tail == "/portal/webapp/" + conference + "/" + tail;
  }

  /** A route that stops after the conference piece has no fifth piece, so
      both classifiers return `undefined` rather than the home page. */
  lemma ConferenceRouteIsUndefined(conference: string)
    requires '/' !in conference
    ensures GetPage("/portal/webapp/" + conference) == None
    ensures LegacyGetPage("/portal/webapp/" + conference) == None
  {
    SplitPrefix(conference, "", '/');
    assert conference + "" == conference;
    assert Split(conference, '/') == [conference];
    SplitThree("", "portal", "webapp", conference);
    assert "" + "/" + "portal" + "/" + "webapp" + "/" + conference == "/portal/webapp/" + conference;
  }

  /** A path whose first two pieces are not `portal` and `webapp` is the home page. */
  lemma ForeignPathIsHome(first: string, second: string, tail: string)
    requires '/' !in first && '/' !in second
    requires first != "portal" || second != "webapp"
    requires tail == "" || tail[0] == '/'
    ensures GetPage("/" + first + "/" + second + tail) == Some("Home")
    ensures LegacyGetPage("/" + first + "/" + second + tail) == Some("Home")
  {
    TailStartsPiece(tail);
    SplitPrefix(second, tail, '/');
    assert second + "" == second;
    SplitCons(first, second + tail);
    assert first + "/" + (second + tail) == first + "/" + second + tail;
    SplitCons("", first + "/" + second + tail);
    assert "" + "/" + (first + "/" + second + tail) == "/" + first + "/" + second + tail;
  }

  /** A path with at most one separator, the root `/` among them, has no
      `webapp` piece, so it is the home page in both scripts. */
  lemma ShortPathIsHome(first: string)
    requires '/' !in first
    ensures GetPage(first) == Some("Home") && LegacyGetPage(first) == Some("Home")
    ensures GetPage("/" + first) == Some("Home") && LegacyGetPage("/" + first) == Some("Home")
  {
    SplitPrefix(first, "", '/');
    assert first + "" == first;
    assert Split(first, '/') == [first];
    SplitCons("", first);
    assert "" + "/" + first == "/" + first;
  }

  /** The part of the page a fix pass covers: the `'all'` and `'main'` scopes. */
  datatype Scope = All | MainContent
}

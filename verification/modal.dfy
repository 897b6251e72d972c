/** `fixModalDialog` of the later script: on the two people directories
    the first dialog is labelled by its first title, which becomes a level-1
    heading. */
module Modal {
  import opened Wrappers
  import opened Dom
  import opened Tree
  import opened Classifier
  import opened Edits
  import opened Images

  const Dialog: Query := ByClass("modal")
  const DialogTitle: Query := ByClass("modal-title")

  /** The title's new id: the dialog's id, or `null` when it has none, then `-title`. */
  function TitleId(dialog: Element): string {
    Attr(dialog, "id").GetOr("null") + "-title"
  }

  /** The writes to the title. */
  function TitleWrites(id: string): seq<(string, string)> {
    [("id", id), ("role", "heading"), ("aria-level", "1")]
  }

  /** The title at t gets its id and heading role, then the dialog at d
      is labelled by that id. */
  function Label(ns: seq<Element>, d: nat, t: nat): (r: seq<Element>)
    requires d < |ns| && t < |ns|
    ensures |r| == |ns|
  {
    var id := TitleId(ns[d]);
    var a := ns[t := SetAll(ns[t], TitleWrites(id))];
    a[d := SetAttr(a[d], "aria-labelledby", id)]
  }

  function FixModal(ns: seq<Element>, p: Page): seq<Element> {
    if !IsDirectory(p) then ns
    else match First(ns, Dialog)
      case None => ns
      case Some(d) =>
        match First(ns, DialogTitle)
        case None => ns
        case Some(t) => Label(ns, d, t)
  }

  lemma TitleWritesValues(id: string)
    ensures Written(TitleWrites(id), "id") == Some(id)
    ensures Written(TitleWrites(id), "role") == Some("heading")
    ensures Written(TitleWrites(id), "aria-level") == Some("1")
    ensures Written(TitleWrites(id), "class").None?
  {
    var w := TitleWrites(id);
    var w2 := w[..2];
    var w1 := w2[..1];
    assert w2 == [("id", id), ("role", "heading")] && w1 == [("id", id)] && w1[..0] == [];
    assert Written(w1, "id") == Some(id) && Written(w1, "class").None?;
    assert Written(w2, "id") == Some(id) && Written(w2, "class").None?;
  }

  /** On a directory page with a dialog and a title, the dialog's
      `aria-labelledby` names the title's new id, which is the dialog's id
      with `-title`, and the title is a level-1 heading. */
  lemma ModalLabelled(ns: seq<Element>, p: Page)
    requires IsDirectory(p) && First(ns, Dialog).Some? && First(ns, DialogTitle).Some?
    ensures var d := First(ns, Dialog).value;
      var t := First(ns, DialogTitle).value;
      var r := FixModal(ns, p);
      Attr(r[d], "aria-labelledby") == Attr(r[t], "id") == Some(TitleId(ns[d]))
      && Attr(r[t], "role") == Some("heading") && Attr(r[t], "aria-level") == Some("1")
  {
    var t := First(ns, DialogTitle).value;
    TitleWritesValues(TitleId(ns[First(ns, Dialog).value]));
  }

  /** Only directory pages with both a dialog and a title change. */
  lemma ModalOnlyWhenPresent(ns: seq<Element>, p: Page)
    ensures !IsDirectory(p) || First(ns, Dialog).None? || First(ns, DialogTitle).None? ==>
      FixModal(ns, p) == ns
  {
  }

  /** Two sequences whose elements have the same class attributes, index by index. */
  predicate SameClasses(a: seq<Element>, b: seq<Element>) {
    |a| == |b| && forall k :: 0 <= k < |a| ==> Attr(a[k], "class") == Attr(b[k], "class")
  }

  lemma SameClassesFirst(a: seq<Element>, b: seq<Element>, c: string)
    requires SameClasses(a, b)
    ensures First(a, ByClass(c)) == First(b, ByClass(c))
  {
    forall k | 0 <= k < |a| ensures Matches(a[k], ByClass(c)) == Matches(b[k], ByClass(c)) {
      assert ClassList(a[k]) == ClassList(b[k]);
    }
  }

  /** The fix writes no class, so the dialog and the title are found again
      at the same places. */
  lemma ModalKeepsClasses(ns: seq<Element>, p: Page)
    ensures SameClasses(ns, FixModal(ns, p))
  {
    if IsDirectory(p) && First(ns, Dialog).Some? && First(ns, DialogTitle).Some? {
      TitleWritesValues(TitleId(ns[First(ns, Dialog).value]));
    }
  }

  /** The fix keeps the page whole: the root is neither a dialog nor a title. */
  lemma ModalRooted(ns: seq<Element>, p: Page)
    requires Rooted(ns)
    ensures Rooted(FixModal(ns, p))
  {
    if IsDirectory(p) && First(ns, Dialog).Some? && First(ns, DialogTitle).Some? {
      var d := First(ns, Dialog).value;
      var t := First(ns, DialogTitle).value;
      RootNotSelected(ns, Dialog);
      RootNotSelected(ns, DialogTitle);
      var id := TitleId(ns[d]);
      var a := ns[t := SetAll(ns[t], TitleWrites(id))];
      RootedUpdate(ns, t, SetAll(ns[t], TitleWrites(id)));
      RootedUpdate(a, d, SetAttr(a[d], "aria-labelledby", id));
    }
  }

  /** Labelling twice, with the dialog apart from the title, is labelling once. */
  lemma LabelTwice(ns: seq<Element>, d: nat, t: nat)
    requires d < |ns| && t < |ns| && d != t
    ensures Label(Label(ns, d, t), d, t) == Label(ns, d, t)
  {
    var r := Label(ns, d, t);
    var id := TitleId(ns[d]);
    assert r[d] == SetAttr(ns[d], "aria-labelledby", id);
    assert Attr(r[d], "id") == Attr(ns[d], "id");
    assert TitleId(r[d]) == id;
    SetAllTwice(ns[t], TitleWrites(id));
    assert r[t := SetAll(r[t], TitleWrites(id))] == r;
    assert SetAttr(r[d], "aria-labelledby", id) == r[d];
  }

  /** When the dialog is not itself the title, a second pass writes the
      same values again and changes nothing. */
  lemma ModalIdempotent(ns: seq<Element>, p: Page)
    requires First(ns, Dialog) != First(ns, DialogTitle) || First(ns, Dialog).None?
    ensures FixModal(FixModal(ns, p), p) == FixModal(ns, p)
  {
    var r := FixModal(ns, p);
    if IsDirectory(p) && First(ns, Dialog).Some? && First(ns, DialogTitle).Some? {
      var d := First(ns, Dialog).value;
      var t := First(ns, DialogTitle).value;
      ModalKeepsClasses(ns, p);
      SameClassesFirst(ns, r, "modal");
      SameClassesFirst(ns, r, "modal-title");
      LabelTwice(ns, d, t);
    }
  }

  /** When the dialog is itself the title, its id is replaced by the
      title's, so every pass appends another `-title`. */
  lemma ModalSelfTitled(ns: seq<Element>, p: Page)
    requires IsDirectory(p) && First(ns, Dialog).Some? && First(ns, Dialog) == First(ns, DialogTitle)
    ensures var d := First(ns, Dialog).value;
      Attr(FixModal(FixModal(ns, p), p)[d], "id") == Some(TitleId(ns[d]) + "-title")
  {
    var d := First(ns, Dialog).value;
    var r := FixModal(ns, p);
    ModalKeepsClasses(ns, p);
    SameClassesFirst(ns, r, "modal");
    SameClassesFirst(ns, r, "modal-title");
    TitleWritesValues(TitleId(ns[d]));
    assert Attr(r[d], "id") == Some(TitleId(ns[d]));
    TitleWritesValues(TitleId(r[d]));
  }
}

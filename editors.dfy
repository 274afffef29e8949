/**
 * The workbench helpers of `Editors`: choosing the active page with its
 * fallbacks, listing and closing editor references (sparing the editors that
 * outlive a database), reading the active editor and the guard of
 * `addRefresh`. The Eclipse workbench is plain data here: an optional
 * workbench with an optional active window and an optional window array,
 * each window with an optional active page and an optional page array.
 */
module Editors {
  import opened Wrappers

  /** The editor classes `closeAll` tells apart, and all others. */
  datatype EditorKind = SqlEditor | PythonEditor | StartPage | LogFileEditor | OtherEditor(editorId: string)

  /** An editor reference; `editor` is `getEditor(false)`, null when the editor is not restored. */
  datatype EditorReference = EditorReference(id: nat, editor: Option<EditorKind>)

  datatype Page = Page(editorReferences: seq<EditorReference>, activeEditor: Option<EditorKind>)

  datatype Window = Window(activePage: Option<Page>, pages: Option<seq<Page>>)

  datatype Workbench = Workbench(activeWindow: Option<Window>, windows: Option<seq<Window>>)

  /** A Java call that either returns a value or throws. */
  datatype Outcome<T> = Returned(value: T) | NullPointerException

  /**
   * The fallback both steps of `getActivePage` use: the preferred element when
   * there is one, else the first element of a non-null, non-empty array, else null.
   */
  function PreferredOrFirst<T>(preferred: Option<T>, fallback: Option<seq<T>>): (r: Option<T>)
    ensures preferred.Some? ==> r == preferred
    ensures preferred.None? ==> (r.None? <==> fallback.None? || |fallback.value| == 0)
    ensures r.Some? ==> r == preferred || (fallback.Some? && 0 < |fallback.value| && r.value == fallback.value[0])
  {
    if preferred.Some? then preferred
    else if fallback.None? || |fallback.value| == 0 then None
    else Some(fallback.value[0])
  }

  /** The window `getActivePage` looks into: the active one, else the first one. */
  function ChosenWindow(wb: Option<Workbench>): (r: Option<Window>)
  {
    match wb
    case None => None
    case Some(w) => PreferredOrFirst(w.activeWindow, w.windows)
  }

  /**
   * `getActivePage`: null without a workbench or without any window; otherwise
   * the active page of the chosen window, else its first page, else null.
   */
  function GetActivePage(wb: Option<Workbench>): (r: Option<Page>)
    ensures wb.None? ==> r.None?
    ensures wb.Some? && wb.value.activeWindow.None? && (wb.value.windows.None? || |wb.value.windows.value| == 0) ==> r.None?
    ensures wb.Some? && wb.value.activeWindow.Some? ==> ChosenWindow(wb) == wb.value.activeWindow
    ensures r.Some? <==> ChosenWindow(wb).Some? && (ChosenWindow(wb).value.activePage.Some? || (ChosenWindow(wb).value.pages.Some? && |ChosenWindow(wb).value.pages.value| > 0))
    ensures r.Some? && ChosenWindow(wb).value.activePage.Some? ==> r == ChosenWindow(wb).value.activePage
    ensures r.Some? && ChosenWindow(wb).value.activePage.None? ==> r.value == ChosenWindow(wb).value.pages.value[0]
  {
    match ChosenWindow(wb)
    case None => None
    case Some(window) => PreferredOrFirst(window.activePage, window.pages)
  }

  /**
   * `getReferences`: the editor references of the active page; an empty array
   * when there is no page (the NullPointerException is caught).
   */
  function GetReferences(wb: Option<Workbench>): (r: seq<EditorReference>)
    ensures GetActivePage(wb).None? ==> r == []
    ensures GetActivePage(wb).Some? ==> r == GetActivePage(wb).value.editorReferences
  {
    match GetActivePage(wb)
    case None => []
    case Some(page) => page.editorReferences
  }

  /**
   * `getActive`: the active editor of the active page. Without a page the call
   * on null throws a NullPointerException, which the handler for
   * ClassCastException does not catch.
   */
  function GetActive(wb: Option<Workbench>): (r: Outcome<Option<EditorKind>>)
    ensures r.NullPointerException? <==> GetActivePage(wb).None?
    ensures r.Returned? ==> r.value == GetActivePage(wb).value.activeEditor
  {
    match GetActivePage(wb)
    case None => NullPointerException
    case Some(page) => Returned(page.activeEditor)
  }

  /** The editors that must stay open when a database is closed. */
  predicate KeptOpen(ref: EditorReference)
  {
    match ref.editor
    case Some(SqlEditor) => true
    case Some(PythonEditor) => true
    case Some(StartPage) => true
    case Some(LogFileEditor) => true
    case _ => false
  }

  /** The references `closeAll` collects, in their order. */
  function Closable(refs: seq<EditorReference>): (r: seq<EditorReference>)
    ensures |r| <= |refs|
    ensures forall i :: 0 <= i < |r| ==> !KeptOpen(r[i])
  {
    if refs == [] then []
    else Closable(refs[..|refs| - 1]) + (if KeptOpen(refs[|refs| - 1]) then [] else [refs[|refs| - 1]])
  }

  /** Exactly the references that are not kept open are collected. */
  lemma {:induction false} ClosableMember(refs: seq<EditorReference>, x: EditorReference)
    ensures x in Closable(refs) <==> x in refs && !KeptOpen(x)
  {
    if refs != [] {
      var init := refs[..|refs| - 1];
      ClosableMember(init, x);
      assert refs == init + [refs[|refs| - 1]];
    }
  }

  /**
   * `closeAll`: the references are filtered in a loop; when nothing is left it
   * returns true without calling `closeEditors`, otherwise it returns what
   * `closeEditors` returns, or false when that throws (`None`). `passed` is
   * what was handed to `closeEditors`, `None` when it was not called.
   */
  method CloseAll(wb: Option<Workbench>, closeEditors: seq<EditorReference> -> Option<bool>)
    returns (closed: bool, passed: Option<seq<EditorReference>>)
    ensures passed.None? <==> forall x :: x in GetReferences(wb) ==> KeptOpen(x)
    ensures passed.None? ==> closed
    ensures passed.Some? ==> passed.value == Closable(GetReferences(wb))
    ensures passed.Some? ==> forall x :: x in passed.value <==> x in GetReferences(wb) && !KeptOpen(x)
    ensures passed.Some? ==> closed == (closeEditors(passed.value) == Some(true))
  {
    var refs := GetReferences(wb);
    var rest := [];
    for i := 0 to |refs|
      invariant rest == Closable(refs[..i])
    {
      assert refs[..i + 1][..i] == refs[..i];
      var ref := refs[i];
      if ref.editor == Some(SqlEditor) { continue; }
      if ref.editor == Some(PythonEditor) { continue; }
      if ref.editor == Some(StartPage) { continue; }
      if ref.editor == Some(LogFileEditor) { continue; }
      rest := rest + [ref];
    }
    assert refs[..|refs|] == refs;
    forall x {
      ClosableMember(refs, x);
    }
    if |rest| == 0 {
      return true, None;
    }
    assert rest[0] in refs && !KeptOpen(rest[0]);
    passed := Some(rest);
    match closeEditors(rest)
    case Some(result) => closed := result;
    case None => closed := false;
  }

  /** The contributions an editor page's tool-bar can hold. */
  datatype ToolbarAction = Reload(model: nat)

  /** A form page (`ScrolledForm`) with its tool-bar. */
  class ScrolledForm {
    var toolbar: seq<ToolbarAction>

    constructor ()
      ensures toolbar == []
    {
      toolbar := [];
    }
  }

  /** A model editor; `model` identifies what `getModel()` returns. */
  datatype ModelEditor = ModelEditor(model: nat)

  /**
   * `addRefresh`: nothing happens when the form or the editor is null;
   * otherwise one reload action for the editor's model joins the tool-bar.
   */
  method AddRefresh(form: ScrolledForm?, editor: Option<ModelEditor>)
    modifies form
    ensures form == null || editor.None? ==> form == null || form.toolbar == old(form.toolbar)
    ensures form != null && editor.Some? ==> form.toolbar == old(form.toolbar) + [Reload(editor.value.model)]
  {
    if form == null || editor.None? {
      return;
    }
    form.toolbar := form.toolbar + [Reload(editor.value.model)];
  }
}

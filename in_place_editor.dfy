/**
 * The in-place editor of src/pages/EditEditor.js: a stored CV is fetched,
 * then edited through seven freely selectable tabs and written back with
 * PUT, without any validation. The fetch and the PUT are inputs here.
 */
module InPlaceEditing {
  import opened Js
  import opened Document

  const TabTitles: seq<string> := ["Basic", "Education", "Experience", "Projects", "Skills", "Social", "Design"]

  /** The result of `GET /api/cv/:id`: a body (possibly `null`), or a thrown request. */
  datatype FetchResponse = Fetched(body: Option<Cv>) | FetchFailed

  datatype PutResponse = Updated | PutFailed

  /** What the component renders. */
  datatype Screen = Loading | NotFound | Editing(cv: Cv)

  function ScreenOf(loading: bool, cv: Option<Cv>): (s: Screen)
    ensures s == Loading <==> loading
    ensures s == NotFound <==> !loading && cv.None?
    ensures s.Editing? <==> !loading && cv.Some?
    ensures s.Editing? ==> s.cv == cv.value
  {
    if loading then Loading else if cv.None? then NotFound else Editing(cv.value)
  }

  /** The print dialog's document title: `(cv?.basic?.name || "Resume") + ".pdf"`. */
  function PrintTitle(cv: Option<Cv>): (title: string)
    ensures cv.Some? && Truthy(Get(cv.value.basic, "name")) ==> title == Show(Get(cv.value.basic, "name")) + ".pdf"
    ensures (cv.None? || !Truthy(Get(cv.value.basic, "name"))) ==> title == "Resume.pdf"
    ensures |title| > 4 && title[|title| - 4..] == ".pdf"
  {
    (if cv.Some? then Or(Get(cv.value.basic, "name"), "Resume") else "Resume") + ".pdf"
  }

  /**
   * The intended effect of a fetch: whatever the outcome, loading ends; a
   * failed or empty fetch shows "CV Not Found".
   */
  function CorrectedLoad(r: FetchResponse): (s: Screen)
    ensures s != Loading
    ensures s == NotFound <==> r.FetchFailed? || r.body.None?
    ensures r.Fetched? && r.body.Some? ==> s == Editing(r.body.value)
  {
    match r
    case Fetched(body) => ScreenOf(false, body)
    case FetchFailed => NotFound
  }

  class InPlaceEditor {
    var tab: nat
    var loading: bool
    var cv: Option<Cv>
    /** Set once the PUT succeeded and the editor navigated back to the list. */
    var left: bool

    ghost predicate Valid()
      reads this
    {
      tab < |TabTitles|
    }

    function Screen(): Screen
      reads this
    {
      ScreenOf(loading, cv)
    }

    /** Mounting: the first tab, a spinner, and no document yet. */
    constructor ()
      ensures Valid() && tab == 0 && loading && cv.None? && !left
      ensures Screen() == Loading
    {
      tab := 0;
      loading := true;
      cv := None;
      left := false;
    }

    /**
     * The fetch effect as written: a response puts its body in place and ends
     * loading; a failed request reaches `setError`, which the component never
     * declares, so the handler throws before `setLoading(false)` and the
     * spinner stays.
     */
    method Load(r: FetchResponse)
      requires Valid() && loading
      modifies this`loading, this`cv
      ensures Valid()
      ensures r.Fetched? ==> !loading && cv == r.body
      ensures r.FetchFailed? ==> loading && cv == old(cv)
    {
      match r
      case Fetched(body) =>
        cv := body;
        loading := false;
      case FetchFailed =>
    }

    /**
     * The fetch effect with the failure path reaching `setLoading(false)`:
     * loading always ends, and on the first load (no document yet) the
     * screen is the corrected one.
     */
    method LoadCorrected(r: FetchResponse)
      requires Valid() && loading
      modifies this`loading, this`cv
      ensures Valid() && !loading
      ensures r.Fetched? ==> cv == r.body
      ensures r.FetchFailed? ==> cv == old(cv)
      ensures old(cv).None? ==> Screen() == CorrectedLoad(r)
    {
      match r
      case Fetched(body) =>
        cv := body;
        loading := false;
      case FetchFailed =>
        loading := false;
    }

    /** Selecting tab i: any of the seven, in any order, with no validation. */
    method SetTab(i: nat)
      requires Valid() && i < |TabTitles|
      modifies this`tab
      ensures Valid() && tab == i
    {
      tab := i;
    }

    /** `updateField(group, key, value)` on the loaded document. */
    method UpdateField(g: Group, key: string, v: Value)
      requires Valid() && Screen().Editing?
      modifies this`cv
      ensures Valid() && cv == Some(Document.UpdateField(old(cv).value, g, key, v))
    {
      cv := Some(Document.UpdateField(cv.value, g, key, v));
    }

    /**
     * `updateItem(section, i, key, value)`. The copied array shares its records
     * with the previous state and record i is written in place; no other
     * holder of the record is observable here, so this is the copy-on-write
     * update. A missing record throws and nothing changes.
     */
    method UpdateItem(s: Section, i: int, key: string, v: Value) returns (ok: bool)
      requires Valid() && Screen().Editing?
      modifies this`cv
      ensures Valid()
      ensures ok <==> 0 <= i < |old(cv).value.Items(s)|
      ensures cv == if ok then Document.UpdateItem(old(cv).value, s, i, key, v) else old(cv)
    {
      var r := Document.UpdateItem(cv.value, s, i, key, v);
      ok := r.Some?;
      if ok {
        cv := r;
      }
    }

    method AddItem(s: Section)
      requires Valid() && Screen().Editing?
      modifies this`cv
      ensures Valid() && cv == Some(Document.AddItem(old(cv).value, s))
    {
      cv := Some(Document.AddItem(cv.value, s));
    }

    /** "+ Add" below the current tab, shown on tabs 1 to 5. */
    method AddForTab()
      requires Valid() && Screen().Editing? && 1 <= tab <= 5
      modifies this`cv
      ensures Valid() && cv == Some(Document.AddItem(old(cv).value, SectionOfTab(tab)))
    {
      AddItem(SectionOfTab(tab));
    }

    method RemoveItem(s: Section, i: int)
      requires Valid() && Screen().Editing?
      modifies this`cv
      ensures Valid() && cv == Some(Document.RemoveItem(old(cv).value, s, i))
    {
      cv := Some(Document.RemoveItem(cv.value, s, i));
    }

    /**
     * "Save Changes": PUTs the whole current document, whatever it holds. A
     * success leaves the page; a failure only alerts, keeping tab and document.
     */
    method SaveCV(r: PutResponse) returns (put: Cv)
      requires Valid() && Screen().Editing?
      modifies this`left
      ensures put == cv.value
      ensures left == (old(left) || r.Updated?)
    {
      put := cv.value;
      if r.Updated? {
        left := true;
      }
    }
  }

  /** A failed fetch leaves the editor on "Loading..." for good, where the intended screen is "CV Not Found". */
  method FailedLoadKeepsSpinner() returns (e: InPlaceEditor)
    ensures e.Screen() == Loading && CorrectedLoad(FetchFailed) == NotFound
  {
    e := new InPlaceEditor();
    e.Load(FetchFailed);
  }

  /** With the corrected effect the same failure shows "CV Not Found". */
  method CorrectedFailedLoadShowsNotFound() returns (e: InPlaceEditor)
    ensures e.Screen() == NotFound
  {
    e := new InPlaceEditor();
    e.LoadCorrected(FetchFailed);
  }

  /** A successful fetch behaves the same in the code and in the corrected reading. */
  method LoadedEditorMatchesCorrection(r: FetchResponse) returns (e: InPlaceEditor)
    requires r.Fetched?
    ensures e.Screen() == CorrectedLoad(r)
  {
    e := new InPlaceEditor();
    e.Load(r);
  }
}

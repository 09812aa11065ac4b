/**
 * The CV document: a group of scalar profile fields (`basic`), five ordered
 * sections of records, and the design tokens (`design`), together with the
 * copy-on-write operations both editors apply to it (src/pages/Editor.js and
 * src/pages/EditEditor.js share them).
 */
module Document {
  import opened Js

  /** The five repeatable sections, in tab order. */
  datatype Section = Education | Experience | Projects | Skills | Social

  /** The two scalar groups that `updateField` edits. */
  datatype Group = Basic | Design

  datatype Cv = Cv(
    basic: Record,
    education: seq<Record>,
    experience: seq<Record>,
    projects: seq<Record>,
    skills: seq<Record>,
    social: seq<Record>,
    design: Record)
  {
    /** `cv[section]` */
    function Items(s: Section): seq<Record> {
      match s
      case Education => education
      case Experience => experience
      case Projects => projects
      case Skills => skills
      case Social => social
    }

    /** `{ ...cv, [section]: xs }` */
    function WithItems(s: Section, xs: seq<Record>): (r: Cv)
      ensures r.Items(s) == xs
      ensures forall t :: t != s ==> r.Items(t) == Items(t)
      ensures r.basic == basic && r.design == design
    {
      match s
      case Education => this.(education := xs)
      case Experience => this.(experience := xs)
      case Projects => this.(projects := xs)
      case Skills => this.(skills := xs)
      case Social => this.(social := xs)
    }

    /** `cv[group]` */
    function Scalars(g: Group): Record {
      match g
      case Basic => basic
      case Design => design
    }

    /** `{ ...cv, [group]: m }` */
    function WithScalars(g: Group, m: Record): (r: Cv)
      ensures r.Scalars(g) == m
      ensures forall h :: h != g ==> r.Scalars(h) == Scalars(h)
      ensures forall t :: r.Items(t) == Items(t)
    {
      match g
      case Basic => this.(basic := m)
      case Design => this.(design := m)
    }
  }

  /** Two documents with the same groups and sections are the same document. */
  lemma CvExtensional(a: Cv, b: Cv)
    requires a.basic == b.basic && a.design == b.design
    requires forall t :: a.Items(t) == b.Items(t)
    ensures a == b
  {
    assert a.Items(Education) == b.Items(Education);
    assert a.Items(Experience) == b.Items(Experience);
    assert a.Items(Projects) == b.Items(Projects);
    assert a.Items(Skills) == b.Items(Skills);
    assert a.Items(Social) == b.Items(Social);
  }

  /** The wizard's initial document (src/pages/Editor.js:30-43). */
  const DefaultCv: Cv := Cv(
    map["name" := Text(""), "email" := Text(""), "contact" := Text(""), "intro" := Text("")],
    [], [], [], [], [],
    map["fontFamily" := Text("Arial"), "fontSize" := Num(14),
        "primaryColor" := Text("#000000"), "accentColor" := Text("#4F46E5")])

  /** The empty record `{}` that "+ Add" appends. */
  const EmptyRecord: Record := map[]

  /** `addItem(section)`: append one empty record to the section. */
  function AddItem(cv: Cv, s: Section): (r: Cv)
    ensures r.Items(s) == cv.Items(s) + [EmptyRecord]
    ensures forall t :: t != s ==> r.Items(t) == cv.Items(t)
    ensures r.basic == cv.basic && r.design == cv.design
  {
    cv.WithItems(s, cv.Items(s) + [EmptyRecord])
  }

  /** The index `Array.prototype.splice(i, 1)` starts at, for an array of length n. */
  function SpliceStart(n: nat, i: int): (k: nat)
    ensures k <= n
    ensures 0 <= i <= n ==> k == i
    ensures i > n ==> k == n
    ensures i < 0 ==> k == if n + i < 0 then 0 else n + i
  {
    if i < 0 then (if n + i < 0 then 0 else n + i) else if i > n then n else i
  }

  /** `xs.splice(i, 1)` applied to a copy of xs. */
  function Splice1<T>(xs: seq<T>, i: int): seq<T> {
    var k := SpliceStart(|xs|, i);
    if k < |xs| then xs[..k] + xs[k + 1..] else xs
  }

  /**
   * Removing index i (0 <= i < n) leaves n - 1 elements: those before i in
   * place and those after i shifted down by one, so no gap is left.
   */
  lemma Splice1InRange<T>(xs: seq<T>, i: int)
    requires 0 <= i < |xs|
    ensures |Splice1(xs, i)| == |xs| - 1
    ensures forall k :: 0 <= k < i ==> Splice1(xs, i)[k] == xs[k]
    ensures forall k :: i <= k < |xs| - 1 ==> Splice1(xs, i)[k] == xs[k + 1]
  {
  }

  /**
   * An index at or past the end removes nothing; a negative one counts from
   * the end, and one below -n is clamped to 0, which removes the first record.
   */
  lemma Splice1OutOfRange<T>(xs: seq<T>, i: int)
    ensures i >= |xs| ==> Splice1(xs, i) == xs
    ensures -|xs| <= i < 0 ==> Splice1(xs, i) == Splice1(xs, |xs| + i)
    ensures i < -|xs| && |xs| > 0 ==> Splice1(xs, i) == xs[1..]
  {
  }

  /** `removeItem(section, index)` */
  function RemoveItem(cv: Cv, s: Section, i: int): (r: Cv)
    ensures r.Items(s) == Splice1(cv.Items(s), i)
    ensures forall t :: t != s ==> r.Items(t) == cv.Items(t)
    ensures r.basic == cv.basic && r.design == cv.design
  {
    cv.WithItems(s, Splice1(cv.Items(s), i))
  }

  /**
   * `updateItem(section, i, key, value)`: sets one key of record i. When
   * there is no record i, `updated[i][key] = value` throws a TypeError and
   * the document is left as it was (None).
   */
  function UpdateItem(cv: Cv, s: Section, i: int, key: string, v: Value): (r: Option<Cv>)
    ensures r.Some? <==> 0 <= i < |cv.Items(s)|
    ensures r.Some? ==> |r.value.Items(s)| == |cv.Items(s)|
    ensures r.Some? ==> forall k :: 0 <= k < |cv.Items(s)| && k != i ==> r.value.Items(s)[k] == cv.Items(s)[k]
    ensures r.Some? ==> Get(r.value.Items(s)[i], key) == Some(v)
    ensures r.Some? ==> forall k' :: k' != key ==> Get(r.value.Items(s)[i], k') == Get(cv.Items(s)[i], k')
    ensures r.Some? ==> forall t :: t != s ==> r.value.Items(t) == cv.Items(t)
    ensures r.Some? ==> r.value.basic == cv.basic && r.value.design == cv.design
  {
    var xs := cv.Items(s);
    if 0 <= i < |xs| then Some(cv.WithItems(s, xs[i := xs[i][key := v]])) else None
  }

  /** `updateField(group, key, value)`: replaces one key of `basic` or `design`. */
  function UpdateField(cv: Cv, g: Group, key: string, v: Value): (r: Cv)
    ensures Get(r.Scalars(g), key) == Some(v)
    ensures forall k' :: k' != key ==> Get(r.Scalars(g), k') == Get(cv.Scalars(g), k')
    ensures forall h :: h != g ==> r.Scalars(h) == cv.Scalars(h)
    ensures forall t :: r.Items(t) == cv.Items(t)
  {
    cv.WithScalars(g, cv.Scalars(g)[key := v])
  }

  /** `["education", "experience", "projects", "skills", "social"][t - 1]` */
  function SectionOfTab(t: int): (s: Section)
    requires 1 <= t <= 5
  {
    [Education, Experience, Projects, Skills, Social][t - 1]
  }

  /** Tabs 1 to 5 name the five sections in order, each a different one. */
  lemma SectionOfTabInjective()
    ensures SectionOfTab(1) == Education && SectionOfTab(2) == Experience && SectionOfTab(3) == Projects
    ensures SectionOfTab(4) == Skills && SectionOfTab(5) == Social
    ensures forall t1, t2 :: 1 <= t1 <= 5 && 1 <= t2 <= 5 && t1 != t2 ==> SectionOfTab(t1) != SectionOfTab(t2)
  {
  }

  /** Adding a record and then removing the new last record restores the document. */
  lemma AddThenRemoveLast(cv: Cv, s: Section)
    ensures RemoveItem(AddItem(cv, s), s, |cv.Items(s)|) == cv
  {
    var xs := cv.Items(s);
    var ys := xs + [EmptyRecord];
    assert ys[..|xs|] + ys[|xs| + 1..] == xs;
    CvExtensional(RemoveItem(AddItem(cv, s), s, |xs|), cv);
  }

  /** Updating a key of an existing record never changes any section's length. */
  lemma UpdateKeepsShape(cv: Cv, s: Section, i: int, key: string, v: Value)
    requires UpdateItem(cv, s, i, key, v).Some?
    ensures forall t :: |UpdateItem(cv, s, i, key, v).value.Items(t)| == |cv.Items(t)|
  {
  }

  /** Two edits of the same key keep only the later value. */
  lemma UpdateFieldLastWins(cv: Cv, g: Group, key: string, v1: Value, v2: Value)
    ensures UpdateField(UpdateField(cv, g, key, v1), g, key, v2) == UpdateField(cv, g, key, v2)
  {
    var m := cv.Scalars(g);
    assert m[key := v1][key := v2] == m[key := v2];
  }

  /** Writing a key's previous value back undoes an edit. */
  lemma UpdateFieldUndo(cv: Cv, g: Group, key: string, v: Value)
    requires key in cv.Scalars(g)
    ensures UpdateField(UpdateField(cv, g, key, v), g, key, cv.Scalars(g)[key]) == cv
  {
    var m := cv.Scalars(g);
    assert m[key := v][key := m[key]] == m;
    CvExtensional(UpdateField(UpdateField(cv, g, key, v), g, key, m[key]), cv);
  }

  /** Writing a record key's previous value back undoes an item edit. */
  lemma UpdateItemUndo(cv: Cv, s: Section, i: int, key: string, v: Value)
    requires 0 <= i < |cv.Items(s)| && key in cv.Items(s)[i]
    ensures UpdateItem(UpdateItem(cv, s, i, key, v).value, s, i, key, cv.Items(s)[i][key]) == Some(cv)
  {
    var xs := cv.Items(s);
    var once := UpdateItem(cv, s, i, key, v).value;
    var twice := UpdateItem(once, s, i, key, xs[i][key]).value;
    assert xs[i][key := v][key := xs[i][key]] == xs[i];
    assert twice.Items(s) == xs;
    CvExtensional(twice, cv);
  }
}

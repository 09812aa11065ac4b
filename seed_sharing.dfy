/**
 * The creation wizard's document as the heap holds it after seeding
 * (src/pages/Editor.js:47-54, 183-192). `{ ...cvData, design }` copies only
 * the top level, so every record of a seeded section is the seed's own
 * object, and `updated[index][key] = value` writes into that object: the
 * edit reaches `cvData` too. `removeItem` and `addItem` copy the array, so
 * they leave `cvData` alone.
 *
 * A record's origin is the index of the seed record it is, or None for a
 * record the wizard created (`{}` from addItem). The seeding effect, which
 * re-runs on every design edit, reads `cvData` as the edits have left it.
 */
module SeedSharing {
  import opened Js
  import opened Document
  import opened Wizard

  /** The wizard's document, the seed objects it may share records with, and which record is which. */
  datatype Linked = Linked(cv: Cv, seedData: Cv, layoutDesign: Option<Record>, origin: map<Section, seq<Option<nat>>>)

  /**
   * Every section has an origin entry of its length; a shared record names a
   * seed record of its section holding the same contents (it is that object),
   * and no two records are the same object.
   */
  predicate Wf(st: Linked) {
    forall t :: t in st.origin && OriginsOk(st.origin[t], st.cv.Items(t), st.seedData.Items(t))
  }

  predicate OriginsOk(o: seq<Option<nat>>, rs: seq<Record>, seed: seq<Record>) {
    && |o| == |rs|
    && (forall k :: 0 <= k < |o| && o[k].Some? ==> o[k].value < |seed| && seed[o[k].value] == rs[k])
    && (forall j, k :: 0 <= j < k < |o| && o[j].Some? ==> o[j] != o[k])
  }

  /** The origins right after seeding: record k of each section is seed record k. */
  function Identity(n: nat): (o: seq<Option<nat>>)
    ensures |o| == n && forall k :: 0 <= k < n ==> o[k] == Some(k)
  {
    seq(n, k => Some(k))
  }

  lemma IdentityOk(rs: seq<Record>)
    ensures OriginsOk(Identity(|rs|), rs, rs)
  {
  }

  /** Origins of a document that is the seed, record for record. */
  function IdentityOrigins(d: Cv): (m: map<Section, seq<Option<nat>>>)
    ensures forall t :: t in m && m[t] == Identity(|d.Items(t)|)
    ensures forall t :: OriginsOk(m[t], d.Items(t), d.Items(t))
  {
    var m := map[Education := Identity(|d.education|), Experience := Identity(|d.experience|),
                 Projects := Identity(|d.projects|), Skills := Identity(|d.skills|), Social := Identity(|d.social|)];
    assert forall t :: t in m && m[t] == Identity(|d.Items(t)|) by {
      forall t ensures t in m && m[t] == Identity(|d.Items(t)|) {
        assert t.Education? || t.Experience? || t.Projects? || t.Skills? || t.Social?;
      }
    }
    assert forall t :: OriginsOk(m[t], d.Items(t), d.Items(t)) by {
      forall t ensures OriginsOk(m[t], d.Items(t), d.Items(t)) {
        IdentityOk(d.Items(t));
      }
    }
    m
  }

  /** Mounting with `location.state`: the seeding effect over the default document. */
  function Mount(seed: Seed): (st: Linked)
    ensures Wf(st)
    ensures st.cv == Seeded(seed, DefaultCv.design) && st.seedData == seed.cvData
    ensures forall t :: st.origin[t] == Identity(|st.cv.Items(t)|)
  {
    Linked(Seeded(seed, DefaultCv.design), seed.cvData, seed.layoutDesign, IdentityOrigins(seed.cvData))
  }

  /**
   * updateItem as the heap runs it: the wizard's document gets the edit of
   * Document.UpdateItem, and when the record is a seed object the seed gets
   * the same edit; a record the wizard created leaves the seed alone.
   */
  function SharedUpdate(st: Linked, s: Section, i: int, key: string, v: Value): (r: Option<Linked>)
    requires Wf(st)
    ensures r.Some? <==> 0 <= i < |st.cv.Items(s)|
    ensures r.Some? ==> Wf(r.value) && Some(r.value.cv) == UpdateItem(st.cv, s, i, key, v)
    ensures r.Some? && st.origin[s][i].Some? ==> Some(r.value.seedData) == UpdateItem(st.seedData, s, st.origin[s][i].value, key, v)
    ensures r.Some? && st.origin[s][i].None? ==> r.value.seedData == st.seedData
    ensures r.Some? ==> r.value.origin == st.origin && r.value.layoutDesign == st.layoutDesign
  {
    if 0 <= i < |st.cv.Items(s)| then
      var cv := UpdateItem(st.cv, s, i, key, v).value;
      var seedData := if st.origin[s][i].Some? then UpdateItem(st.seedData, s, st.origin[s][i].value, key, v).value else st.seedData;
      var r := Linked(cv, seedData, st.layoutDesign, st.origin);
      assert OriginsOk(st.origin[s], st.cv.Items(s), st.seedData.Items(s));
      assert Wf(r) by {
        forall t ensures t in r.origin && OriginsOk(r.origin[t], r.cv.Items(t), r.seedData.Items(t)) {
          assert OriginsOk(st.origin[t], st.cv.Items(t), st.seedData.Items(t));
        }
      }
      Some(r)
    else
      None
  }

  /** The record of the spliced sequence at index m is the record at this index of the original. */
  function SpliceSource(n: nat, i: int, m: nat): nat {
    if SpliceStart(n, i) < n && m >= SpliceStart(n, i) then m + 1 else m
  }

  lemma SpliceIndex<T>(xs: seq<T>, i: int)
    ensures forall m :: 0 <= m < |Splice1(xs, i)| ==> SpliceSource(|xs|, i, m) < |xs| && Splice1(xs, i)[m] == xs[SpliceSource(|xs|, i, m)]
    ensures |Splice1(xs, i)| == if SpliceStart(|xs|, i) < |xs| then |xs| - 1 else |xs|
  {
  }

  /** Splicing the records and their origins at the same index keeps them in step. */
  lemma SpliceKeepsOrigins(o: seq<Option<nat>>, rs: seq<Record>, seed: seq<Record>, i: int)
    requires OriginsOk(o, rs, seed)
    ensures OriginsOk(Splice1(o, i), Splice1(rs, i), seed)
  {
    SpliceIndex(o, i);
    SpliceIndex(rs, i);
    var o', rs' := Splice1(o, i), Splice1(rs, i);
    forall j, k | 0 <= j < k < |o'| && o'[j].Some? ensures o'[j] != o'[k] {
      assert SpliceSource(|o|, i, j) < SpliceSource(|o|, i, k);
    }
  }

  /** removeItem: the array is copied, so the seed keeps every record, the removed one included. */
  function SharedRemove(st: Linked, s: Section, i: int): (r: Linked)
    requires Wf(st)
    ensures Wf(r)
    ensures r.cv == RemoveItem(st.cv, s, i) && r.seedData == st.seedData && r.layoutDesign == st.layoutDesign
    ensures r.origin == st.origin[s := Splice1(st.origin[s], i)]
  {
    var r := Linked(RemoveItem(st.cv, s, i), st.seedData, st.layoutDesign, st.origin[s := Splice1(st.origin[s], i)]);
    assert Wf(r) by {
      forall t ensures t in r.origin && OriginsOk(r.origin[t], r.cv.Items(t), r.seedData.Items(t)) {
        assert OriginsOk(st.origin[t], st.cv.Items(t), st.seedData.Items(t));
        if t == s {
          SpliceKeepsOrigins(st.origin[s], st.cv.Items(s), st.seedData.Items(s), i);
        }
      }
    }
    r
  }

  /** addItem: a fresh `{}` that no seed shares. */
  function SharedAdd(st: Linked, s: Section): (r: Linked)
    requires Wf(st)
    ensures Wf(r)
    ensures r.cv == AddItem(st.cv, s) && r.seedData == st.seedData && r.layoutDesign == st.layoutDesign
    ensures r.origin == st.origin[s := st.origin[s] + [None]]
  {
    var r := Linked(AddItem(st.cv, s), st.seedData, st.layoutDesign, st.origin[s := st.origin[s] + [None]]);
    assert Wf(r) by {
      forall t ensures t in r.origin && OriginsOk(r.origin[t], r.cv.Items(t), r.seedData.Items(t)) {
        assert OriginsOk(st.origin[t], st.cv.Items(t), st.seedData.Items(t));
      }
    }
    r
  }

  /** The auto-append effect, which creates its record with addItem. */
  function SharedAutoAppend(step: nat, st: Linked): (r: Linked)
    requires Wf(st)
    ensures Wf(r) && r.cv == AutoAppend(step, st.cv) && r.seedData == st.seedData && r.layoutDesign == st.layoutDesign
  {
    match ListSection(step)
    case Some(s) => if |st.cv.Items(s)| == 0 then SharedAdd(st, s) else st
    case None => st
  }

  /**
   * A design control: the edit re-runs the seeding effect, which puts back the
   * seed objects as the earlier edits left them. That is the wizard's DesignEdit
   * with the seed in its current state, and every record is a seed object again.
   */
  function SharedDesignEdit(st: Linked, key: string, v: Value): (r: Linked)
    requires Wf(st)
    ensures Wf(r) && r.seedData == st.seedData && r.layoutDesign == st.layoutDesign
    ensures r.cv == DesignEdit(Some(Seed(st.seedData, st.layoutDesign)), st.cv, key, v)
    ensures forall t :: r.origin[t] == Identity(|r.cv.Items(t)|)
  {
    var seed := Seed(st.seedData, st.layoutDesign);
    Linked(DesignEdit(Some(seed), st.cv, key, v), st.seedData, st.layoutDesign, IdentityOrigins(st.seedData))
  }

  /** The seeded education record, and that record with its degree cleared. */
  const SeedEducation: Record := DemoEducationList[0]
  const ClearedEducation: Record := DemoEducationList[0]["degree" := Text("")]

  /** The filled-in education record of the scenario below. */
  const FilledEducation: Record := map["degree" := Text("MSc"), "institution" := Text("UVW"), "percentage" := Num(70)]

  /**
   * A state of the scenario below: the wizard opened from the Classic layout
   * with the demonstration data, the education section, its origins and the
   * seed's education as given, and the profile and other sections as seeded.
   */
  predicate Shape(st: Linked, education: seq<Record>, origins: seq<Option<nat>>, seedEducation: seq<Record>) {
    && Wf(st)
    && st.cv.education == education && st.origin[Education] == origins && st.seedData.education == seedEducation
    && st.layoutDesign == Some(ClassicDesign)
    && st.cv.basic == DemoProfile(map[])
    && (forall t :: t != Education ==> st.cv.Items(t) == DemoCv(map[]).Items(t))
  }

  lemma MountShape()
    ensures Shape(Mount(Seed(DemoCv(map[]), Some(ClassicDesign))), [SeedEducation], [Some(0)], [SeedEducation])
  {
    var st := Mount(Seed(DemoCv(map[]), Some(ClassicDesign)));
    assert |st.origin[Education]| == 1 && st.origin[Education][0] == Some(0);
  }

  /** Clearing the degree of the seeded record writes into the seed's own object. */
  lemma ClearShape(st: Linked)
    requires Shape(st, [SeedEducation], [Some(0)], [SeedEducation])
    ensures SharedUpdate(st, Education, 0, "degree", Text("")).Some?
    ensures Shape(SharedUpdate(st, Education, 0, "degree", Text("")).value, [ClearedEducation], [Some(0)], [ClearedEducation])
  {
  }

  /** Removing it copies the array, and the auto-append effect adds a fresh `{}`. */
  lemma RemoveShape(st: Linked)
    requires Shape(st, [ClearedEducation], [Some(0)], [ClearedEducation])
    ensures Shape(SharedAutoAppend(1, SharedRemove(st, Education, 0)), [EmptyRecord], [None], [ClearedEducation])
  {
    var r := SharedRemove(st, Education, 0);
    assert r.cv.education == [] && r.origin[Education] == [];
    SectionOfTabInjective();
  }

  /** Filling in the fresh record leaves the seed alone. */
  lemma FillShape(st: Linked, rec: Record, key: string, v: Value)
    requires Shape(st, [rec], [None], [ClearedEducation])
    ensures SharedUpdate(st, Education, 0, key, v).Some?
    ensures Shape(SharedUpdate(st, Education, 0, key, v).value, [rec[key := v]], [None], [ClearedEducation])
  {
  }

  /** The design edit puts the seed's education back. */
  lemma DesignEditShape(st: Linked, key: string, v: Value)
    requires Shape(st, [FilledEducation], [None], [ClearedEducation])
    ensures SharedDesignEdit(st, key, v).cv.education == [ClearedEducation]
  {
  }

  /**
   * The seed objects leak an abandoned edit back into the posted document.
   * Opened from the Classic layout, the user clears the degree of the seeded
   * education record (the seed's own object), removes that record, and fills
   * in the empty one the auto-append effect adds: `fixed` passes every step.
   * A font pick on the Design step re-runs the seeding effect, which brings
   * back the seed's education record with its degree cleared. `saveCV`
   * validates only the Design step, so it posts `posted`, which fails the
   * Education step.
   */
  method SharedSeedPostsFailingCv() returns (fixed: Cv, posted: Cv)
    ensures PassesAll(fixed)
    ensures StepError(LastStep, posted).None? && !PassedStep(1, posted)
    ensures posted.education == [ClearedEducation]
  {
    var st := AbandonSeedRecord();
    st := FillIn(st);
    fixed := st.cv;
    FixedPassesAll(st);
    DesignEditShape(st, "fontFamily", Text("Inter"));
    posted := SharedDesignEdit(st, "fontFamily", Text("Inter")).cv;
    ClearedFailsEducation(posted);
  }

  /** Mount, clear the seeded record's degree, remove the record; the effect adds a fresh one. */
  method AbandonSeedRecord() returns (st: Linked)
    ensures Shape(st, [EmptyRecord], [None], [ClearedEducation])
  {
    st := Mount(Seed(DemoCv(map[]), Some(ClassicDesign)));
    MountShape();
    ClearShape(st);
    st := SharedUpdate(st, Education, 0, "degree", Text("")).value;
    RemoveShape(st);
    st := SharedAutoAppend(1, SharedRemove(st, Education, 0));
  }

  /** Fill in degree, institution and percentage of the fresh record. */
  method FillIn(st0: Linked) returns (st: Linked)
    requires Shape(st0, [EmptyRecord], [None], [ClearedEducation])
    ensures Shape(st, [FilledEducation], [None], [ClearedEducation])
  {
    FillShape(st0, EmptyRecord, "degree", Text("MSc"));
    st := SharedUpdate(st0, Education, 0, "degree", Text("MSc")).value;
    FillShape(st, EmptyRecord["degree" := Text("MSc")], "institution", Text("UVW"));
    st := SharedUpdate(st, Education, 0, "institution", Text("UVW")).value;
    FillShape(st, EmptyRecord["degree" := Text("MSc")]["institution" := Text("UVW")], "percentage", Num(70));
    st := SharedUpdate(st, Education, 0, "percentage", Num(70)).value;
    assert EmptyRecord["degree" := Text("MSc")]["institution" := Text("UVW")]["percentage" := Num(70)] == FilledEducation;
  }

  /** A document whose only education record has no degree fails the Education step. */
  lemma ClearedFailsEducation(cv: Cv)
    requires cv.education == [ClearedEducation]
    ensures !PassedStep(1, cv)
  {
    SectionOfTabInjective();
    assert !RecordValid(Education, cv.education[0]);
  }

  /** The demonstration CV with its education replaced by the filled-in record passes every step. */
  lemma FixedPassesAll(st: Linked)
    requires Shape(st, [FilledEducation], [None], [ClearedEducation])
    ensures PassesAll(st.cv)
  {
    var fixed := st.cv;
    var demo := DemoCv(map[]);
    DemoPassesAll(map[]);
    SectionOfTabInjective();
    assert RecordValid(Education, fixed.education[0]);
    ListStepPasses(1, fixed, fixed.education);
    forall k | 0 <= k < LastStep ensures PassedStep(k, fixed) {
      if k != 1 {
        assert PassedStep(k, demo);
        StepFrame(k, demo, fixed);
      }
    }
  }
}

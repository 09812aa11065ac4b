/**
 * The creation wizard of src/pages/Editor.js: seven steps over a new CV,
 * forward moves gated by a per-step validation, backward moves free, an
 * effect that gives every list step at least one editable record, and a
 * final POST of the document.
 *
 * React runs an effect after each render whose dependencies changed. The
 * auto-append effect (dependencies: the step and the five section lengths)
 * is applied here at the end of every handler that can change one of them,
 * which gives the state React settles into once the effect has run.
 */
module Wizard {
  import opened Js
  import opened Document
  import Patterns

  const StepTitles: seq<string> := ["Basic", "Education", "Experience", "Projects", "Skills", "Social", "Design"]

  /** `STEP_TITLES.length - 1`, the Design step. */
  const LastStep: nat := |StepTitles| - 1

  /** The section a list step (1 to 5) edits. */
  function ListSection(step: nat): Option<Section> {
    if 1 <= step <= 5 then Some(SectionOfTab(step)) else None
  }

  /** The rule a record of a list step must meet for that step to pass. */
  predicate RecordValid(s: Section, r: Record) {
    match s
    case Education => Truthy(Get(r, "degree")) && Truthy(Get(r, "institution")) && Truthy(Get(r, "percentage"))
    case Experience => Truthy(Get(r, "organization")) && Truthy(Get(r, "position"))
    case Projects => Truthy(Get(r, "title")) && Truthy(Get(r, "description"))
    case Skills =>
      Truthy(Get(r, "name")) && !LooseLess(Get(r, "percentage"), 0) && !LooseGreater(Get(r, "percentage"), 100)
    case Social => !Truthy(Get(r, "link")) || Patterns.IsHttpUrl(Show(Get(r, "link")))
  }

  /** The message a failing list step shows. */
  function SectionMessage(s: Section): string {
    match s
    case Education => "All Education fields are required."
    case Experience => "All Experience fields are required."
    case Projects => "All Project fields are required."
    case Skills => "Each skill must have a name and valid percentage."
    case Social => "Invalid URL format for social link."
  }

  const MissingNameOrEmail := "Name and Email are required."
  const BadEmail := "Invalid email format."

  /**
   * What validateStep decides for `step`: None when it returns true,
   * otherwise the one message it leaves in `error`.
   */
  function StepError(step: nat, cv: Cv): Option<string> {
    if step == 0 then
      var name, email := Get(cv.basic, "name"), Get(cv.basic, "email");
      if !Truthy(name) || !Truthy(email) then Some(MissingNameOrEmail)
      else if !Patterns.IsEmail(Show(email)) then Some(BadEmail)
      else None
    else match ListSection(step)
      case Some(s) =>
        if forall k :: 0 <= k < |cv.Items(s)| ==> RecordValid(s, cv.Items(s)[k]) then None else Some(SectionMessage(s))
      case None => None
  }

  function MessageOf(e: Option<string>): string {
    match e
    case None => ""
    case Some(m) => m
  }

  /**
   * The loop of validateStep over one section: the index of the first record
   * that breaks the rule, or -1 when every record keeps it.
   */
  method FirstInvalid(s: Section, items: seq<Record>) returns (k: int)
    ensures -1 <= k < |items|
    ensures k == -1 <==> forall j :: 0 <= j < |items| ==> RecordValid(s, items[j])
    ensures k >= 0 ==> !RecordValid(s, items[k]) && forall j :: 0 <= j < k ==> RecordValid(s, items[j])
  {
    var i := 0;
    while i < |items|
      invariant 0 <= i <= |items|
      invariant forall j :: 0 <= j < i ==> RecordValid(s, items[j])
    {
      if !RecordValid(s, items[i]) {
        return i;
      }
      i := i + 1;
    }
    return -1;
  }

  /** The effect's condition is met: a list step always shows at least one record. */
  predicate Settled(step: nat, cv: Cv) {
    ListSection(step).Some? ==> |cv.Items(ListSection(step).value)| > 0
  }

  /**
   * The auto-append effect: on a list step whose section is empty, append one
   * empty record; otherwise change nothing.
   */
  function AutoAppend(step: nat, cv: Cv): (r: Cv)
    ensures Settled(step, r)
    ensures Settled(step, cv) ==> r == cv
    ensures !Settled(step, cv) ==> r.Items(ListSection(step).value) == [EmptyRecord]
    ensures forall t :: ListSection(step) != Some(t) ==> r.Items(t) == cv.Items(t)
    ensures r.basic == cv.basic && r.design == cv.design
  {
    match ListSection(step)
    case Some(s) => if |cv.Items(s)| == 0 then AddItem(cv, s) else cv
    case None => cv
  }

  /**
   * `location.state` when the wizard is opened from a layout card. The wizard
   * holds it by value, as a deep copy would: its edits never reach the seed.
   * In the code the seeded records are the seed's own objects; module
   * SeedSharing models that.
   */
  datatype Seed = Seed(cvData: Cv, layoutDesign: Option<Record>)

  /** The seeding effect: `{ ...cvData, design: layoutDesign || cv.design }`. */
  function Seeded(seed: Seed, currentDesign: Record): (r: Cv)
    ensures r.basic == seed.cvData.basic
    ensures forall t :: r.Items(t) == seed.cvData.Items(t)
    ensures r.design == if seed.layoutDesign.Some? then seed.layoutDesign.value else currentDesign
  {
    seed.cvData.(design := if seed.layoutDesign.Some? then seed.layoutDesign.value else currentDesign)
  }

  /**
   * The seeding effect settles: run again on the document it produced (whose
   * `design` it has just changed, which re-triggers it), it changes nothing.
   */
  lemma SeedingSettles(seed: Seed, currentDesign: Record)
    ensures Seeded(seed, Seeded(seed, currentDesign).design) == Seeded(seed, currentDesign)
  {
  }

  /**
   * A design edit as the code runs it: the edit replaces `cv.design`, which is
   * a dependency of the seeding effect, so a seeded wizard re-runs that effect
   * and resets the document to the seed. Without a seed the edit is the
   * intended one; with a seed every edit of profile or sections is lost, and
   * with a layout design the result depends neither on the document nor on
   * the edit.
   */
  function DesignEdit(seed: Option<Seed>, cv: Cv, key: string, v: Value): (r: Cv)
    ensures seed.None? ==> r == IntendedDesignEdit(cv, key, v)
    ensures seed.Some? ==> r.basic == seed.value.cvData.basic && forall t :: r.Items(t) == seed.value.cvData.Items(t)
    ensures seed.Some? && seed.value.layoutDesign.Some? ==> r == Seeded(seed.value, DefaultCv.design)
    ensures seed.Some? && seed.value.layoutDesign.None? ==> r.design == IntendedDesignEdit(cv, key, v).design
  {
    var edited := UpdateField(cv, Design, key, v);
    if seed.Some? then Seeded(seed.value, edited.design) else edited
  }

  /** The edit a design control is meant to make: that key of `design` and nothing else. */
  function IntendedDesignEdit(cv: Cv, key: string, v: Value): (r: Cv)
    ensures Get(r.design, key) == Some(v)
    ensures forall k :: k != key ==> Get(r.design, k) == Get(cv.design, k)
    ensures r.basic == cv.basic && forall t :: r.Items(t) == cv.Items(t)
  {
    UpdateField(cv, Design, key, v)
  }

  /** Step k has been passed: it validates, and a list step's section is not empty. */
  predicate PassedStep(k: nat, cv: Cv) {
    StepError(k, cv).None? && (ListSection(k).Some? ==> |cv.Items(ListSection(k).value)| > 0)
  }

  /** Every step before `step` has been passed. */
  predicate PassedBefore(step: nat, cv: Cv) {
    forall k :: 0 <= k < step ==> PassedStep(k, cv)
  }

  /** Passing the current step extends the passed prefix by one. */
  lemma PassedOneMore(step: nat, cv: Cv)
    requires PassedBefore(step, cv) && PassedStep(step, cv)
    ensures PassedBefore(step + 1, cv) && PassedBefore(Min(step + 1, LastStep), cv)
  {
  }

  /** Every step can be passed with this document (used for seed data). */
  predicate PassesAll(cv: Cv) { PassedBefore(LastStep, cv) }

  /** Step k's verdict reads only `basic` (k = 0) or step k's own section. */
  lemma StepFrame(k: nat, a: Cv, b: Cv)
    requires a.basic == b.basic
    requires ListSection(k).Some? ==> a.Items(ListSection(k).value) == b.Items(ListSection(k).value)
    ensures StepError(k, a) == StepError(k, b) && (PassedStep(k, a) <==> PassedStep(k, b))
  {
  }

  /** Changing only the section of step s keeps every other step's verdict. */
  lemma PassedFrame(step: nat, s: nat, a: Cv, b: Cv)
    requires a.basic == b.basic
    requires forall t :: ListSection(s) != Some(t) ==> a.Items(t) == b.Items(t)
    requires step <= s
    requires PassedBefore(step, a)
    ensures PassedBefore(step, b)
  {
    forall k | 0 <= k < step ensures PassedStep(k, b) {
      assert PassedStep(k, a);
      if ListSection(k).Some? {
        SectionOfTabInjective();
        assert ListSection(s) != ListSection(k);
      }
      StepFrame(k, a, b);
    }
  }

  datatype SaveResponse = Created | Rejected(msg: Option<string>)

  class CreationWizard {
    var step: nat
    var error: string
    var cv: Cv
    /** Set once the POST succeeded and the wizard navigated back to the list. */
    var saved: bool
    const seed: Option<Seed>

    /** The seed, if any, holds data that passes every step. */
    predicate SeedPasses() {
      seed.None? || PassesAll(seed.value.cvData)
    }

    ghost predicate Valid()
      reads this
    {
      step <= LastStep && Settled(step, cv) && (SeedPasses() ==> PassedBefore(step, cv))
    }

    /** Mounting: the default document, then the seeding effect when a seed was passed. */
    constructor (seed: Option<Seed>)
      ensures Valid() && this.seed == seed
      ensures step == 0 && error == "" && !saved
      ensures cv == if seed.Some? then Seeded(seed.value, DefaultCv.design) else DefaultCv
    {
      this.seed := seed;
      step := 0;
      error := "";
      saved := false;
      cv := if seed.Some? then Seeded(seed.value, DefaultCv.design) else DefaultCv;
    }

    /** validateStep: clears `error`, then sets the step's message if the step fails. */
    method ValidateStep() returns (ok: bool)
      modifies this`error
      ensures ok <==> StepError(step, cv).None?
      ensures error == MessageOf(StepError(step, cv))
    {
      error := "";
      if step == 0 {
        var name, email := Get(cv.basic, "name"), Get(cv.basic, "email");
        if !Truthy(name) || !Truthy(email) {
          error := MissingNameOrEmail;
          return false;
        }
        if !Patterns.IsEmail(Show(email)) {
          error := BadEmail;
          return false;
        }
        return true;
      }
      var section := ListSection(step);
      if section.Some? {
        var k := FirstInvalid(section.value, cv.Items(section.value));
        if k >= 0 {
          error := SectionMessage(section.value);
          return false;
        }
      }
      return true;
    }

    /** "Next": advance one step, never past Design, only when the step validates. */
    method NextStep()
      requires Valid()
      modifies this`step, this`error, this`cv
      ensures Valid() && saved == old(saved)
      ensures error == MessageOf(StepError(old(step), old(cv)))
      ensures step == if StepError(old(step), old(cv)).None? then Min(old(step) + 1, LastStep) else old(step)
      ensures cv == AutoAppend(step, old(cv))
    {
      var ok := ValidateStep();
      if !ok {
        return;
      }
      var from := step;
      step := Min(step + 1, LastStep);
      var before := cv;
      cv := AutoAppend(step, cv);
      if SeedPasses() {
        assert PassedStep(from, before);
        PassedOneMore(from, before);
        PassedFrame(step, step, before, cv);
      }
    }

    /** "Previous": back one step, never below Basic, with no validation. */
    method PrevStep()
      requires Valid()
      modifies this`step, this`cv
      ensures Valid() && error == old(error) && saved == old(saved)
      ensures step == if old(step) == 0 then 0 else old(step) - 1
      ensures cv == AutoAppend(step, old(cv))
    {
      step := if step == 0 then 0 else step - 1;
      var before := cv;
      cv := AutoAppend(step, cv);
      if SeedPasses() {
        PassedFrame(step, step, before, cv);
      }
    }

    /**
     * "Save CV" on the Design step: POSTs the document only when the step
     * validates. Every document the wizard posts passes every step's rule and
     * has at least one record in each list section, provided its seed (if any)
     * did. That rests on the seed being held by value; with the seed objects
     * shared, as in the code, it fails (SeedSharing.SharedSeedPostsFailingCv).
     */
    method SaveCV(response: SaveResponse) returns (posted: Option<Cv>)
      requires Valid() && step == LastStep
      modifies this`error, this`saved
      ensures Valid()
      ensures posted == if StepError(step, cv).None? then Some(cv) else None
      ensures saved == (old(saved) || (posted.Some? && response.Created?))
      ensures error == if posted.None? || response.Created? then MessageOf(StepError(step, cv))
                       else OrElse(response.msg, "Failed to save CV")
      ensures posted.Some? && SeedPasses() ==> forall k :: 0 <= k <= LastStep ==> PassedStep(k, posted.value)
    {
      var ok := ValidateStep();
      if !ok {
        return None;
      }
      posted := Some(cv);
      match response
      case Created => saved := true;
      case Rejected(msg) => error := OrElse(msg, "Failed to save CV");
    }

    /** addItem on the current list step's section ("+ Add" and the UI rows). */
    method AddItem(s: Section)
      requires Valid() && ListSection(step) == Some(s)
      modifies this`cv
      ensures Valid()
      ensures cv == Document.AddItem(old(cv), s)
    {
      var before := cv;
      cv := Document.AddItem(cv, s);
      assert AutoAppend(step, cv) == cv;
      if SeedPasses() {
        PassedFrame(step, step, before, cv);
      }
    }

    /** "+ Add": the section is picked by the step index. */
    method AddForStep()
      requires Valid() && 1 <= step <= 5
      modifies this`cv
      ensures Valid()
      ensures cv == Document.AddItem(old(cv), SectionOfTab(step))
    {
      AddItem(SectionOfTab(step));
    }

    /**
     * removeItem on the current step's section. The section's length is a
     * dependency of the auto-append effect, so emptying it re-appends a record.
     */
    method RemoveItem(s: Section, i: int)
      requires Valid() && ListSection(step) == Some(s)
      modifies this`cv
      ensures Valid()
      ensures cv == AutoAppend(step, Document.RemoveItem(old(cv), s, i))
    {
      var before := cv;
      cv := AutoAppend(step, Document.RemoveItem(cv, s, i));
      if SeedPasses() {
        PassedFrame(step, step, before, cv);
      }
    }

    /** updateItem on the current step's section; a missing record throws and changes nothing. */
    method UpdateItem(s: Section, i: int, key: string, v: Value) returns (ok: bool)
      requires Valid() && ListSection(step) == Some(s)
      modifies this`cv
      ensures Valid()
      ensures ok <==> 0 <= i < |old(cv).Items(s)|
      ensures cv == if ok then Document.UpdateItem(old(cv), s, i, key, v).value else old(cv)
    {
      var r := Document.UpdateItem(cv, s, i, key, v);
      ok := r.Some?;
      if ok {
        var before := cv;
        cv := r.value;
        if SeedPasses() {
          PassedFrame(step, step, before, cv);
        }
      }
    }

    /** The Basic step's inputs: `{ ...cv, basic: { ...cv.basic, [key]: v } }`. */
    method SetBasicField(key: string, v: Value)
      requires Valid() && step == 0
      modifies this`cv
      ensures Valid()
      ensures cv == UpdateField(old(cv), Basic, key, v)
    {
      cv := UpdateField(cv, Basic, key, v);
    }

    /** The Design step's controls, followed by the seeding effect they re-trigger. */
    method SetDesignField(key: string, v: Value)
      requires Valid() && step == LastStep
      modifies this`cv
      ensures Valid()
      ensures cv == DesignEdit(seed, old(cv), key, v)
    {
      var before := cv;
      cv := DesignEdit(seed, cv, key, v);
      if SeedPasses() {
        if seed.Some? {
          assert PassesAll(seed.value.cvData);
          forall k | 0 <= k < step ensures PassedStep(k, cv) {
            assert PassedStep(k, seed.value.cvData);
            StepFrame(k, seed.value.cvData, cv);
          }
        } else {
          PassedFrame(step, step, before, cv);
        }
      }
    }

    /** A design control that changes only its own key, with the seeding effect run once at mount only. */
    method SetDesignFieldIntended(key: string, v: Value)
      requires Valid() && step == LastStep
      modifies this`cv
      ensures Valid()
      ensures cv == IntendedDesignEdit(old(cv), key, v)
    {
      var before := cv;
      cv := IntendedDesignEdit(cv, key, v);
      if SeedPasses() {
        PassedFrame(step, step, before, cv);
      }
    }
  }

  function Min(a: int, b: int): int { if a < b then a else b }

  /** Step 0 passes exactly when name and email are set and the email has the e-mail shape. */
  lemma BasicStepRule(cv: Cv)
    ensures StepError(0, cv).None? <==>
      Truthy(Get(cv.basic, "name")) && Truthy(Get(cv.basic, "email")) && Patterns.IsEmail(Show(Get(cv.basic, "email")))
  {
  }

  /** The examples the e-mail rule is known by, applied to the Basic step. */
  lemma BasicStepExamples(cv: Cv)
    requires Get(cv.basic, "name") == Some(Text("A"))
    ensures Get(cv.basic, "email") == Some(Text("a@b.co")) ==> StepError(0, cv).None?
    ensures Get(cv.basic, "email") == Some(Text("a@b")) ==> StepError(0, cv) == Some(BadEmail)
    ensures Get(cv.basic, "email") == Some(Text("a.com")) ==> StepError(0, cv) == Some(BadEmail)
    ensures Get(cv.basic, "email") == Some(Text("")) ==> StepError(0, cv) == Some(MissingNameOrEmail)
  {
    var email := Get(cv.basic, "email");
    assert Truthy(Get(cv.basic, "name"));
    if email == Some(Text("a@b.co")) {
      assert Patterns.IsEmail("a@b.co") by { Patterns.EmailExamples(); }
    } else if email == Some(Text("a@b")) || email == Some(Text("a.com")) {
      assert !Patterns.IsEmail("a@b") && !Patterns.IsEmail("a.com") by { Patterns.EmailExamples(); }
    }
  }

  /** A list step with no records passes; Design passes whatever the document. */
  lemma StepsThatAlwaysPass(cv: Cv, step: nat)
    requires (ListSection(step).Some? && |cv.Items(ListSection(step).value)| == 0) || step >= LastStep
    ensures StepError(step, cv).None?
  {
  }

  /** The skill rule at its boundaries: 0 and 100 pass, -1 and 101 fail, a missing percentage passes. */
  lemma SkillBoundaries()
    ensures RecordValid(Skills, map["name" := Text("Go"), "percentage" := Num(0)])
    ensures RecordValid(Skills, map["name" := Text("Go"), "percentage" := Num(100)])
    ensures !RecordValid(Skills, map["name" := Text("Go"), "percentage" := Num(-1)])
    ensures !RecordValid(Skills, map["name" := Text("Go"), "percentage" := Num(101)])
    ensures RecordValid(Skills, map["name" := Text("Go")])
    ensures !RecordValid(Skills, map["percentage" := Num(50)])
    ensures !RecordValid(Skills, map["name" := Text("Go"), "percentage" := Text("101")])
    ensures RecordValid(Skills, map["name" := Text("Go"), "percentage" := Text("85%")])
  {
    var t := "101";
    assert t[..|t| - 1] == "10" && "10"[..1] == "1";
    assert DigitsValue(t) == 101;
    assert ToNumber(t) == Some(101);
    assert !AllDigits("85%") by { assert !IsDigit("85%"[2]); }
    assert "85%"[0] != '-' && "85%"[0] != '+';
  }

  /** The social rule: an http(s) link or no link passes; a link without a scheme fails. */
  lemma SocialExamples()
    ensures RecordValid(Social, map["link" := Text("https://x.com")])
    ensures !RecordValid(Social, map["link" := Text("x.com")])
    ensures RecordValid(Social, map["link" := Text("")])
    ensures RecordValid(Social, map["platform" := Text("GitHub")])
  {
    Patterns.UrlExamples();
  }

  /**
   * The effect on entering a list step: an empty section gets exactly one
   * empty record, a non-empty one is left alone, and running it again changes nothing.
   */
  lemma AutoAppendOnEntry(step: nat, cv: Cv)
    requires ListSection(step).Some?
    ensures var s := ListSection(step).value;
      (|cv.Items(s)| == 0 ==> AutoAppend(step, cv).Items(s) == [EmptyRecord]) &&
      (|cv.Items(s)| > 0 ==> AutoAppend(step, cv) == cv) &&
      AutoAppend(step, AutoAppend(step, cv)) == AutoAppend(step, cv)
  {
  }

  /** Removing the last record of the step's own section brings back one empty record. */
  lemma RemovingLastRecordReappends(step: nat, cv: Cv)
    requires ListSection(step).Some? && |cv.Items(ListSection(step).value)| == 1
    ensures var s := ListSection(step).value;
      AutoAppend(step, Document.RemoveItem(cv, s, 0)).Items(s) == [EmptyRecord]
  {
  }

  /** The first layout preset of the gallery for new users. */
  const ClassicDesign: Record := map["fontFamily" := Text("Arial, sans-serif"), "fontSize" := Num(20),
                                     "primaryColor" := Text("#1f6937"), "accentColor" := Text("#2563eb")]

  /**
   * The demonstration profile the layout gallery seeds the wizard with: the
   * signed-in user's own name, e-mail and contact where they are set, the
   * demonstration values where they are not. `user` is the user object, and
   * the empty record when nobody is signed in (`user?.x` is then undefined).
   */
  function DemoProfile(user: Record): Record {
    map["name" := OrValue(Get(user, "username"), Text("John Doe")),
        "email" := OrValue(Get(user, "email"), Text("john@example.com")),
        "contact" := OrValue(Get(user, "contact"), Text("1234567890")),
        "intro" := Text("A passionate developer ready to take on challenges.")]
  }
  const DemoEducationList: seq<Record> :=
    [map["degree" := Text("B.Sc. in Computer Science"), "institution" := Text("XYZ University"), "percentage" := Text("85%")]]
  const DemoExperienceList: seq<Record> :=
    [map["organization" := Text("ABC Corp"), "position" := Text("Software Engineer"), "location" := Text("New York")]]
  const DemoProjectList: seq<Record> :=
    [map["title" := Text("Portfolio Website"), "technologies" := Text("React, Tailwind"),
         "description" := Text("A personal portfolio website.")]]
  const DemoSkillList: seq<Record> :=
    [map["name" := Text("JavaScript"), "percentage" := Num(90)], map["name" := Text("React"), "percentage" := Num(85)]]
  const DemoSocialList: seq<Record> :=
    [map["platform" := Text("LinkedIn"), "link" := Text("https://linkedin.com/in/example")],
     map["platform" := Text("GitHub"), "link" := Text("https://github.com/example")]]

  /** The dummy data the layout picker seeds the wizard with (it has no `design` key). */
  function DemoCv(user: Record): Cv {
    Cv(DemoProfile(user), DemoEducationList, DemoExperienceList, DemoProjectList,
       DemoSkillList, DemoSocialList, map[])
  }

  /** The user's e-mail, if set, has the e-mail shape; the demonstration one always has. */
  predicate UserEmailOk(user: Record) {
    !Truthy(Get(user, "email")) || Patterns.IsEmail(Show(Get(user, "email")))
  }

  /** A list step passes when its section has records and every one of them keeps the rule. */
  lemma ListStepPasses(step: nat, cv: Cv, rs: seq<Record>)
    requires 1 <= step <= 5 && cv.Items(SectionOfTab(step)) == rs && |rs| > 0
    requires forall k :: 0 <= k < |rs| ==> RecordValid(SectionOfTab(step), rs[k])
    ensures PassedStep(step, cv)
  {
  }

  /** The Basic step: the name is always truthy, so only a malformed e-mail of the user's own can fail it. */
  lemma DemoBasic(user: Record)
    ensures PassedStep(0, DemoCv(user)) <==> UserEmailOk(user)
  {
    var b := DemoCv(user).basic;
    assert Truthy(Some(Text("John Doe"))) && Truthy(Some(Text("john@example.com")));
    assert Truthy(Get(b, "name")) && Truthy(Get(b, "email"));
    if Truthy(Get(user, "email")) {
      assert Get(b, "email") == Get(user, "email");
    } else {
      assert Show(Get(b, "email")) == "john@example.com";
      Patterns.SampleEmail();
    }
  }

  lemma DemoEducation(user: Record) ensures PassedStep(1, DemoCv(user)) {
    SectionOfTabInjective();
    assert RecordValid(Education, DemoEducationList[0]);
    ListStepPasses(1, DemoCv(user), DemoEducationList);
  }

  lemma DemoExperience(user: Record) ensures PassedStep(2, DemoCv(user)) {
    SectionOfTabInjective();
    assert RecordValid(Experience, DemoExperienceList[0]);
    ListStepPasses(2, DemoCv(user), DemoExperienceList);
  }

  lemma DemoProjects(user: Record) ensures PassedStep(3, DemoCv(user)) {
    SectionOfTabInjective();
    assert RecordValid(Projects, DemoProjectList[0]);
    ListStepPasses(3, DemoCv(user), DemoProjectList);
  }

  lemma DemoSkills(user: Record) ensures PassedStep(4, DemoCv(user)) {
    SectionOfTabInjective();
    assert RecordValid(Skills, DemoSkillList[0]) && RecordValid(Skills, DemoSkillList[1]);
    ListStepPasses(4, DemoCv(user), DemoSkillList);
  }

  lemma DemoSocial(user: Record) ensures PassedStep(5, DemoCv(user)) {
    Patterns.SampleLinks();
    SectionOfTabInjective();
    assert RecordValid(Social, DemoSocialList[0]) && RecordValid(Social, DemoSocialList[1]);
    ListStepPasses(5, DemoCv(user), DemoSocialList);
  }

  /**
   * The demonstration CV passes every step exactly when the user's own e-mail,
   * if set, has the e-mail shape; a wizard seeded with it then keeps the full invariant.
   */
  lemma DemoPassesAll(user: Record)
    ensures PassesAll(DemoCv(user)) <==> UserEmailOk(user)
  {
    DemoBasic(user);
    if UserEmailOk(user) {
      DemoEducation(user); DemoExperience(user); DemoProjects(user); DemoSkills(user); DemoSocial(user);
      assert LastStep == 6;
      forall k | 0 <= k < LastStep ensures PassedStep(k, DemoCv(user)) {
        assert k == 0 || k == 1 || k == 2 || k == 3 || k == 4 || k == 5;
      }
    }
  }

  /** Concretely: picking "Inter" after starting from the Classic layout leaves "Arial, sans-serif". */
  lemma FontChoiceLostAfterSeeding(cvData: Cv, cv: Cv)
    ensures var r := DesignEdit(Some(Seed(cvData, Some(ClassicDesign))), cv, "fontFamily", Text("Inter"));
      Get(r.design, "fontFamily") == Some(Text("Arial, sans-serif")) &&
      Get(IntendedDesignEdit(cv, "fontFamily", Text("Inter")).design, "fontFamily") == Some(Text("Inter"))
  {
  }
}

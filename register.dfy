/**
 * The sign-up form of src/pages/Register.js: four fields validated live as
 * they change and all together on submit. The submit handler queues the
 * revalidation of every field but decides whether to post from the error
 * map of the last render, which holds only the fields touched so far.
 */
module Register {
  import opened Js
  import Patterns

  /** A form or an error map: field name to text. */
  type Fields = map<string, string>

  const FieldNames: set<string> := {"username", "email", "contact", "password"}

  const Required := "This field is required"
  const BadEmail := "Invalid email format"
  const ShortPassword := "Password must be at least 6 characters"
  const BadContact := "Contact must be 10 digits"

  /** A blank form, as the component starts. */
  const BlankForm: Fields := map["username" := "", "email" := "", "contact" := "", "password" := ""]

  /** validate's message for one field, "" when the field passes. */
  function FieldError(field: string, value: string): (msg: string)
    ensures msg == Required <==> value == ""
    ensures msg == BadEmail <==> value != "" && field == "email" && !Patterns.IsEmail(value)
    ensures msg == ShortPassword <==> value != "" && field == "password" && |value| < 6
    ensures msg == BadContact <==> value != "" && field == "contact" && !Patterns.IsTenDigits(value)
    ensures msg == "" <==> (value != "" && (field == "email" ==> Patterns.IsEmail(value))
                            && (field == "password" ==> |value| >= 6) && (field == "contact" ==> Patterns.IsTenDigits(value)))
  {
    if value == "" then Required
    else if field == "email" then (if !Patterns.IsEmail(value) then BadEmail else "")
    else if field == "password" then (if |value| < 6 then ShortPassword else "")
    else if field == "contact" then (if !Patterns.IsTenDigits(value) then BadContact else "")
    else ""
  }

  /** The rule the form as a whole is meant to pass. */
  predicate FormPasses(form: Fields)
    requires form.Keys == FieldNames
  {
    form["username"] != "" && Patterns.IsEmail(form["email"]) &&
    Patterns.IsTenDigits(form["contact"]) && |form["password"]| >= 6
  }

  /** `Object.values(errors).some((msg) => msg)`: some entry holds a message. */
  predicate AnyMessage(errs: Fields) {
    exists f :: f in errs && errs[f] != ""
  }

  /** Every field's current message. */
  function Verdicts(form: Fields): (v: Fields)
    ensures v.Keys == form.Keys
    ensures forall f :: f in form ==> v[f] == FieldError(f, form[f])
  {
    map f | f in form :: FieldError(f, form[f])
  }

  /** The error map after `validate` has run on every entry of the form: each field's entry is its current message. */
  function Revalidated(errs: Fields, form: Fields): (r: Fields)
    ensures r.Keys == errs.Keys + form.Keys
    ensures forall f :: f in form ==> r[f] == FieldError(f, form[f])
    ensures forall f :: f in errs && f !in form ==> r[f] == errs[f]
  {
    errs + Verdicts(form)
  }

  /** The entries of m whose keys are in d. */
  function Restrict(m: Fields, d: set<string>): (r: Fields)
    ensures r.Keys == m.Keys * d
  {
    map f | f in m && f in d :: m[f]
  }

  /** Writing one more entry of m over a map extends the restriction by that key. */
  lemma RestrictStep(errs: Fields, m: Fields, d: set<string>, f: string)
    requires f in m
    ensures (errs + Restrict(m, d))[f := m[f]] == errs + Restrict(m, d + {f})
  {
    var a := (errs + Restrict(m, d))[f := m[f]];
    var b := errs + Restrict(m, d + {f});
    assert a.Keys == b.Keys;
    SameEntries(a, b);
  }

  /** The `forEach` of submitForm, one `validate` after another. */
  method ValidateEach(errs: Fields, form: Fields) returns (r: Fields)
    ensures r == Revalidated(errs, form)
  {
    ghost var v := Verdicts(form);
    ghost var done: set<string> := {};
    r := errs;
    var todo := form.Keys;
    while todo != {}
      invariant done + todo == v.Keys
      invariant r == errs + Restrict(v, done)
      decreases todo
    {
      var f :| f in todo;
      RestrictStep(errs, v, done, f);
      r := r[f := FieldError(f, form[f])];
      done, todo := done + {f}, todo - {f};
    }
    DoneRestrict(v, done);
  }

  lemma DoneRestrict(m: Fields, d: set<string>)
    requires m.Keys <= d
    ensures Restrict(m, d) == m
  {
  }

  /** Two maps with the same keys and the same entries are equal. */
  lemma SameEntries(a: Fields, b: Fields)
    requires a.Keys == b.Keys && forall k :: k in a ==> a[k] == b[k]
    ensures a == b
  {
  }

  /** An error map whose every entry is the current verdict on a field of the form. */
  predicate Current(errs: Fields, form: Fields) {
    forall f :: f in errs ==> f in form && errs[f] == FieldError(f, form[f])
  }

  /** Revalidating a map of the form's fields leaves a current map. */
  lemma RevalidatedIsCurrent(errs: Fields, form: Fields)
    requires errs.Keys <= form.Keys
    ensures Current(Revalidated(errs, form), form)
  {
  }

  /** On a current error map the submit gate stops exactly when some touched field fails. */
  lemma StaleGate(errs: Fields, form: Fields)
    requires Current(errs, form)
    ensures AnyMessage(errs) <==> exists f :: f in errs && FieldError(f, form[f]) != ""
  {
  }

  /** The rule holds exactly when every field's own message is "". */
  lemma PassesByField(form: Fields)
    requires form.Keys == FieldNames
    ensures FormPasses(form) <==> forall f :: f in form ==> FieldError(f, form[f]) == ""
  {
    if FormPasses(form) {
      assert form["email"] != "" && form["contact"] != "";
      forall f | f in form
        ensures FieldError(f, form[f]) == ""
      {
        assert f in FieldNames;
      }
    }
    if forall f :: f in form ==> FieldError(f, form[f]) == "" {
      assert FieldError("username", form["username"]) == "" && FieldError("email", form["email"]) == "";
      assert FieldError("contact", form["contact"]) == "" && FieldError("password", form["password"]) == "";
    }
  }

  /** Gating on the revalidated map stops exactly when the form fails the rule. */
  lemma FreshGate(errs: Fields, form: Fields)
    requires form.Keys == FieldNames && errs.Keys <= form.Keys
    ensures !AnyMessage(Revalidated(errs, form)) <==> FormPasses(form)
  {
    var r := Revalidated(errs, form);
    assert r.Keys == form.Keys;
    assert forall f :: f in r ==> r[f] == FieldError(f, form[f]);
    PassesByField(form);
  }

  /** Once every field has been touched, the stale gate and the fresh gate agree. */
  lemma GatesAgreeWhenAllTouched(errs: Fields, form: Fields)
    requires Current(errs, form) && errs.Keys == form.Keys
    ensures AnyMessage(errs) <==> AnyMessage(Revalidated(errs, form))
  {
    var r := Revalidated(errs, form);
    assert forall f :: f in r ==> f in errs && r[f] == errs[f];
  }

  datatype RegisterResponse = Registered(msg: Option<string>) | Rejected(msg: Option<string>)

  class RegisterForm {
    var form: Fields
    var errors: Fields
    var serverError: string
    var loading: bool
    /** The route the router shows. */
    var route: string

    /** The four fields are there and every shown message is current. */
    ghost predicate Valid()
      reads this
    {
      form.Keys == FieldNames && Current(errors, form)
    }

    constructor ()
      ensures Valid() && form == BlankForm && errors == map[]
      ensures serverError == "" && !loading && route == "/register"
    {
      form := BlankForm;
      errors := map[];
      serverError := "";
      loading := false;
      route := "/register";
    }

    /** handleChange: stores the value and records its message, "" included. */
    method HandleChange(field: string, value: string)
      requires Valid() && field in form
      modifies this`form, this`errors
      ensures Valid()
      ensures form == old(form)[field := value]
      ensures errors == old(errors)[field := FieldError(field, value)]
    {
      form := form[field := value];
      errors := errors[field := FieldError(field, value)];
    }

    /** The request and its answer: an alert and the login page, or the server's message; `loading` is cleared. */
    method Post(r: RegisterResponse) returns (notice: Option<string>)
      requires !loading
      modifies this`serverError, this`loading, this`route
      ensures !loading
      ensures r.Registered? ==> notice == Some(OrElse(r.msg, "Registration successful!")) && route == "/login" && serverError == ""
      ensures r.Rejected? ==> notice.None? && route == old(route) && serverError == OrElse(r.msg, "Something went wrong")
    {
      serverError := "";
      loading := true;
      match r {
        case Registered(msg) =>
          notice := Some(OrElse(msg, "Registration successful!"));
          route := "/login";
        case Rejected(msg) =>
          notice := None;
          serverError := OrElse(msg, "Something went wrong");
      }
      loading := false;
    }

    /**
     * submitForm as written: every field is revalidated, but the gate reads
     * the error map of the render the click came from, so fields never
     * touched do not stop the request.
     */
    method SubmitForm(r: RegisterResponse) returns (posted: Option<Fields>, notice: Option<string>)
      requires Valid() && !loading
      modifies this`errors, this`serverError, this`loading, this`route
      ensures Valid() && !loading
      ensures errors == Revalidated(old(errors), form)
      ensures posted.Some? <==> !AnyMessage(old(errors))
      ensures posted.Some? ==> posted.value == form
      ensures posted.None? ==> notice.None? && serverError == old(serverError) && route == old(route)
      ensures posted.Some? && r.Registered? ==> notice == Some(OrElse(r.msg, "Registration successful!")) && route == "/login" && serverError == ""
      ensures posted.Some? && r.Rejected? ==> notice.None? && route == old(route) && serverError == OrElse(r.msg, "Something went wrong")
    {
      var stale := errors;
      RevalidatedIsCurrent(errors, form);
      errors := ValidateEach(errors, form);
      if AnyMessage(stale) {
        return None, None;
      }
      posted := Some(form);
      notice := Post(r);
    }

    /** The submit that gates on the revalidated map: only a form that passes the rule is posted. */
    method SubmitFormFresh(r: RegisterResponse) returns (posted: Option<Fields>, notice: Option<string>)
      requires Valid() && !loading
      modifies this`errors, this`serverError, this`loading, this`route
      ensures Valid() && !loading
      ensures errors == Revalidated(old(errors), form)
      ensures posted.Some? <==> FormPasses(form)
      ensures posted.Some? ==> posted.value == form
      ensures posted.None? ==> notice.None? && serverError == old(serverError) && route == old(route)
      ensures posted.Some? && r.Registered? ==> notice == Some(OrElse(r.msg, "Registration successful!")) && route == "/login" && serverError == ""
      ensures posted.Some? && r.Rejected? ==> notice.None? && route == old(route) && serverError == OrElse(r.msg, "Something went wrong")
    {
      var before := errors;
      RevalidatedIsCurrent(before, form);
      FreshGate(before, form);
      errors := ValidateEach(before, form);
      var passes := !AnyMessage(errors);
      assert passes <==> FormPasses(form);
      if !passes {
        return None, None;
      }
      posted := Some(form);
      notice := Post(r);
    }
  }

  /** Clicking Register on the untouched form posts four empty fields. */
  method UntouchedFormIsPosted() returns (posted: Option<Fields>, errors: Fields)
    ensures posted == Some(BlankForm)
    ensures "username" in errors && errors["username"] == Required
    ensures "password" in errors && errors["password"] == Required
  {
    var page := new RegisterForm();
    var notice;
    posted, notice := page.SubmitForm(Rejected(None));
    errors := page.errors;
  }

  /** The fresh gate refuses the untouched form. */
  method UntouchedFormIsRefused() returns (posted: Option<Fields>)
    ensures posted.None?
  {
    var page := new RegisterForm();
    var notice;
    posted, notice := page.SubmitFormFresh(Rejected(None));
  }

  lemma FieldErrorExamples()
    ensures FieldError("contact", "98765") == BadContact && FieldError("contact", "9876543210") == ""
    ensures FieldError("contact", "") == Required && FieldError("username", "ann") == ""
    ensures FieldError("email", "ann@x") == BadEmail && FieldError("password", "abc") == ShortPassword
  {
    Patterns.EmailExamples();
    Patterns.ContactExamples();
  }
}

/**
 * The sign-in form of src/pages/Login.js: two fields validated live as they
 * change and all together on submit, where any failing field stops the
 * request. The server's answer is an input.
 */
module Login {
  import opened Js
  import Patterns

  /** A form or an error map: field name to text, as the component's objects hold them. */
  type Fields = map<string, string>

  const Required := "This field is required"
  const BadEmail := "Invalid email format"
  const ShortPassword := "Password must be at least 6 characters"

  /** The message for one field, "" when the field passes. */
  function FieldError(field: string, value: string): (msg: string)
    ensures msg == Required <==> value == ""
    ensures msg == BadEmail <==> value != "" && field == "email" && !Patterns.IsEmail(value)
    ensures msg == ShortPassword <==> value != "" && field == "password" && |value| < 6
    ensures msg == "" <==> value != "" && (field == "email" ==> Patterns.IsEmail(value)) && (field == "password" ==> |value| >= 6)
  {
    if value == "" then Required
    else if field == "email" then (if !Patterns.IsEmail(value) then BadEmail else "")
    else if field == "password" then (if |value| < 6 then ShortPassword else "")
    else ""
  }

  /** The submit-time error map: exactly the failing fields, each with its message. */
  function FailingFields(form: Fields): (errs: Fields)
    ensures forall f :: f in errs <==> f in form && FieldError(f, form[f]) != ""
    ensures forall f :: f in errs ==> errs[f] == FieldError(f, form[f])
  {
    map f | f in form && FieldError(f, form[f]) != "" :: FieldError(f, form[f])
  }

  /** A login form passes exactly when the e-mail has the e-mail shape and the password has six characters or more. */
  lemma FormPassesRule(form: Fields)
    requires form.Keys == {"email", "password"}
    ensures FailingFields(form) == map[] <==> Patterns.IsEmail(form["email"]) && |form["password"]| >= 6
  {
    Patterns.EmailExamples();
    if FailingFields(form) == map[] {
      assert "email" !in FailingFields(form) && "password" !in FailingFields(form);
    }
  }

  /** The `forEach` over the form's entries that fills `validationErrors`. */
  method CollectErrors(form: Fields) returns (errs: Fields)
    ensures errs == FailingFields(form)
  {
    errs := map[];
    var todo := form.Keys;
    while todo != {}
      invariant todo <= form.Keys
      invariant forall f :: f in errs <==> f in form && f !in todo && FieldError(f, form[f]) != ""
      invariant forall f :: f in errs ==> errs[f] == FieldError(f, form[f])
      decreases todo
    {
      var f :| f in todo;
      var message := FieldError(f, form[f]);
      if message != "" {
        errs := errs[f := message];
      }
      todo := todo - {f};
    }
  }

  datatype LoginResponse = LoggedIn(user: string, token: string) | Rejected(msg: Option<string>)

  datatype Session = Session(user: string, token: string)

  class LoginForm {
    var form: Fields
    var errors: Fields
    var serverError: string
    var loading: bool
    /** What `login(user, token)` stored in the auth context. */
    var session: Option<Session>

    /** Every shown message is the live rule's verdict on the field's current value. */
    ghost predicate Valid()
      reads this
    {
      form.Keys == {"email", "password"} &&
      forall f :: f in errors ==> f in form && errors[f] == FieldError(f, form[f])
    }

    constructor ()
      ensures Valid() && form == map["email" := "", "password" := ""] && errors == map[]
      ensures serverError == "" && !loading && session.None?
    {
      form := map["email" := "", "password" := ""];
      errors := map[];
      serverError := "";
      loading := false;
      session := None;
    }

    /** validate(field, value): records the field's message, "" included. */
    method Validate(field: string, value: string)
      modifies this`errors
      ensures errors == old(errors)[field := FieldError(field, value)]
    {
      errors := errors[field := FieldError(field, value)];
    }

    /** handleChange: stores the value, then validates it. */
    method HandleChange(field: string, value: string)
      requires Valid() && field in form
      modifies this`form, this`errors
      ensures Valid()
      ensures form == old(form)[field := value]
      ensures errors == old(errors)[field := FieldError(field, value)]
    {
      form := form[field := value];
      Validate(field, value);
    }

    /**
     * submit: replaces the error map by the failing fields and, only when
     * there are none, posts the form; a success opens a session, a failure
     * shows the server's message or the fallback. The button is disabled
     * while a request is running.
     */
    method Submit(r: LoginResponse) returns (posted: Option<Fields>)
      requires Valid() && !loading
      modifies this`errors, this`serverError, this`loading, this`session
      ensures Valid() && !loading
      ensures errors == FailingFields(form)
      ensures posted.Some? <==> FailingFields(form) == map[]
      ensures posted.Some? ==> posted.value == form && Patterns.IsEmail(form["email"]) && |form["password"]| >= 6
      ensures posted.None? ==> serverError == old(serverError) && session == old(session)
      ensures posted.Some? && r.LoggedIn? ==> session == Some(Session(r.user, r.token)) && serverError == ""
      ensures posted.Some? && r.Rejected? ==> session == old(session) && serverError == OrElse(r.msg, "Something went wrong")
    {
      var errs := CollectErrors(form);
      errors := errs;
      if |errs| > 0 {
        return None;
      }
      FormPassesRule(form);
      serverError := "";
      loading := true;
      posted := Some(form);
      match r {
        case LoggedIn(user, token) => session := Some(Session(user, token));
        case Rejected(msg) => serverError := OrElse(msg, "Something went wrong");
      }
      loading := false;
    }
  }

  lemma FieldErrorExamples()
    ensures FieldError("email", "") == Required && FieldError("password", "") == Required
    ensures FieldError("email", "a@b") == BadEmail && FieldError("email", "a@b.co") == ""
    ensures FieldError("password", "12345") == ShortPassword && FieldError("password", "123456") == ""
  {
    Patterns.EmailExamples();
  }
}

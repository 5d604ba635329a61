/**
 * The sign-in form: `validateForm`, the gate in front of `login`, and `handleChange`, which
 * clears the field's message and any sign-in error held by the authentication state.
 */
module LoginForm {

  import opened Wrappers
  import opened Text
  import opened Forms
  import AuthContext

  /** `formData`. */
  datatype Form = Form(login: string, password: string)

  datatype Field = LoginField | PasswordField

  function FieldName(f: Field): string {
    match f
    case LoginField => "login"
    case PasswordField => "password"
  }

  const LoginRequiredMessage: string := "Email or username is required"
  const PasswordRequiredMessage: string := "Password is required"

  const InitialForm: Form := Form("", "")

  /** A form `validateForm` accepts: a login that is not blank and a password that is not empty. */
  predicate FormValid(form: Form) {
    Trim(form.login) != [] && form.password != []
  }

  /** `validateForm`: the messages of the failing fields; valid iff there are none. */
  method ValidateForm(form: Form) returns (errors: Errors, valid: bool)
    ensures "login" in errors <==> Trim(form.login) == []
    ensures "login" in errors ==> errors["login"] == Some(LoginRequiredMessage)
    ensures "password" in errors <==> form.password == []
    ensures "password" in errors ==> errors["password"] == Some(PasswordRequiredMessage)
    ensures forall k :: k in errors ==> k == "login" || k == "password"
    ensures valid <==> errors == map[]
    ensures valid <==> FormValid(form)
  {
    errors := map[];
    if Trim(form.login) == [] {
      errors := errors["login" := Some(LoginRequiredMessage)];
    }
    assert errors.Keys <= {"login"} && ("login" in errors <==> Trim(form.login) == []);
    if form.password == [] {
      errors := errors["password" := Some(PasswordRequiredMessage)];
    }
    valid := |errors| == 0;
  }

  /**
   * `handleSubmit`: the credentials handed to `login` (untrimmed) when the form is valid, none
   * otherwise, and the errors shown.
   */
  method HandleSubmit(form: Form) returns (errors: Errors, credentials: Option<Form>)
    ensures credentials.Some? <==> FormValid(form)
    ensures "login" in errors <==> Trim(form.login) == []
    ensures "login" in errors ==> errors["login"] == Some(LoginRequiredMessage)
    ensures "password" in errors <==> form.password == []
    ensures "password" in errors ==> errors["password"] == Some(PasswordRequiredMessage)
    ensures forall k :: k in errors ==> k == "login" || k == "password"
    ensures credentials.Some? ==> errors == map[] && credentials.value == form
  {
    var valid;
    errors, valid := ValidateForm(form);
    if valid {
      credentials := Some(form);
    } else {
      credentials := None;
    }
  }

  /** Credentials the form lets through are never refused by the server for being missing. */
  lemma SubmittedNotMissing(form: Form)
    requires FormValid(form)
    ensures form.login != [] && form.password != []
  {
    if form.login == [] {
      TrimEmptyIffBlank(form.login);
    }
  }

  /**
   * `handleChange`: the field takes the new text, its own message is cleared, and a sign-in
   * error in the authentication state (a message that is not empty) is cleared with
   * `CLEAR_ERROR`; nothing else changes.
   */
  function HandleChange(form: Form, errors: Errors, auth: AuthContext.State, field: Field, value: string)
    : (r: (Form, Errors, AuthContext.State))
    ensures r.1 == ClearField(errors, FieldName(field))
    ensures r.0.login == if field == LoginField then value else form.login
    ensures r.0.password == if field == PasswordField then value else form.password
    ensures r.2.error.None? || r.2.error == Some([])
    ensures r.2 == if auth.error.Some? && auth.error.value != [] then auth.(error := None) else auth
  {
    var f := match field
      case LoginField => form.(login := value)
      case PasswordField => form.(password := value);
    var s := if auth.error.Some? && auth.error.value != [] then AuthContext.Reduce(auth, AuthContext.ClearError) else auth;
    (f, ClearField(errors, FieldName(field)), s)
  }
}

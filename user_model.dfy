/**
 * The User schema: a unique trimmed username, a unique trimmed lower-case e-mail address, a
 * password that only accounts without a Google id must have, names, and activity fields; the
 * pre-save hook that hashes a new password, `comparePassword`, and the password-free `toJSON`.
 *
 * bcrypt is symbolic: `Hashed(p)` is the hash of the plain text `p`, and comparing a candidate
 * with it succeeds exactly for `p` (bcrypt's truncation to 72 bytes is not modelled).
 */
module UserModel {

  import opened Wrappers
  import opened Text
  import Dates

  /** A password as stored: plain text set but not yet saved, or a bcrypt hash of some text. */
  datatype Secret = Plain(text: string) | Hashed(text: string)

  datatype User = User(
    id: nat,
    username: string,
    email: string,
    password: Option<Secret>,
    googleId: Option<string>,
    firstName: string,
    lastName: string,
    isActive: bool,
    lastLogin: Dates.Timestamp,
    createdAt: Dates.Timestamp)

  /** JavaScript truthiness of an optional string. */
  predicate Present(s: Option<string>) {
    s.Some? && s.value != []
  }

  /** The `trim` and `lowercase` setters of the e-mail path. */
  function EmailKey(s: string): (r: string)
    ensures Trimmed(r) && Lower(r) == r
  {
    LowerIdempotent(Trim(s));
    TrimTrimmed(s);
    LowerTrimmed(Trim(s));
    Lower(Trim(s))
  }

  /** What the `trim` setters (and, on the e-mail, `lowercase`) leave in a document. */
  predicate SetterForm(u: User) {
    && Trimmed(u.username)
    && Trimmed(u.email) && Lower(u.email) == u.email
    && Trimmed(u.firstName) && Trimmed(u.lastName)
  }

  // ---------------------------------------------------------------------------------------
  // Validation. Each path runs its validators in order, `required` first, and reports the
  // message of the first one that fails; the other rules are Mongoose's built-in ones with
  // their default messages.

  predicate UsernameOk(s: string) {
    3 <= Utf16Length(s) <= 30
  }

  /** `email` must be present and match the address pattern `emailOk`. */
  predicate EmailOk(s: string, emailOk: string -> bool) {
    s != [] && emailOk(s)
  }

  /**
   * `required` unless the account has a Google id; `minlength: 6` on text that is still plain
   * (validation runs before the pre-save hook, and a bcrypt hash is 60 characters long).
   */
  predicate PasswordOk(password: Option<Secret>, googleId: Option<string>) {
    && (!Present(googleId) ==> password.Some? && password.value.text != [])
    && (password.Some? && password.value.Plain? ==> Utf16Length(password.value.text) >= 6)
  }

  predicate NameOk(s: string) {
    s != [] && Utf16Length(s) <= 50
  }

  /** The default message of a failed `required`. */
  function RequiredMessage(path: string): string {
    "Path `" + path + "` is required."
  }

  /** The default message of a failed `minlength`. */
  function ShorterMessage(path: string, value: string, min: nat): string {
    "Path `" + path + "` (`" + value + "`) is shorter than the minimum allowed length (" + NatString(min) + ")."
  }

  /** The default message of a failed `maxlength`. */
  function LongerMessage(path: string, value: string, max: nat): string {
    "Path `" + path + "` (`" + value + "`) is longer than the maximum allowed length (" + NatString(max) + ")."
  }

  /** The message the schema gives the e-mail pattern. */
  const InvalidEmailMessage: string := "Please enter a valid email"

  /** `username`: `required`, then `minlength: 3`, then `maxlength: 30`. */
  function UsernameError(s: string): (e: Option<string>)
    ensures e.None? <==> UsernameOk(s)
  {
    if s == [] then Some(RequiredMessage("username"))
    else if Utf16Length(s) < 3 then Some(ShorterMessage("username", s, 3))
    else if Utf16Length(s) > 30 then Some(LongerMessage("username", s, 30))
    else None
  }

  /** `email`: `required`, then `match` (which lets the empty string through). */
  function EmailError(s: string, emailOk: string -> bool): (e: Option<string>)
    ensures e.None? <==> EmailOk(s, emailOk)
  {
    if s == [] then Some(RequiredMessage("email"))
    else if !emailOk(s) then Some(InvalidEmailMessage)
    else None
  }

  /** `password`: `required` when there is no Google id, then `minlength: 6` when a value is set. */
  function PasswordError(password: Option<Secret>, googleId: Option<string>): (e: Option<string>)
    ensures e.None? <==> PasswordOk(password, googleId)
  {
    if !Present(googleId) && (password.None? || password.value.text == []) then Some(RequiredMessage("password"))
    else if password.Some? && password.value.Plain? && Utf16Length(password.value.text) < 6 then
      Some(ShorterMessage("password", password.value.text, 6))
    else None
  }

  /** `firstName` and `lastName`: `required`, then `maxlength: 50`. */
  function NameError(path: string, s: string): (e: Option<string>)
    ensures e.None? <==> NameOk(s)
  {
    if s == [] then Some(RequiredMessage(path))
    else if Utf16Length(s) > 50 then Some(LongerMessage(path, s, 50))
    else None
  }

  /** One entry of a `ValidationError`'s `errors`: the path and its validator's message. */
  datatype Violation = Violation(path: string, message: string)

  /** Each checked path of `u` in schema order, with its outcome (`None` when it passes). */
  function Checks(u: User, emailOk: string -> bool): seq<(string, Option<string>)> {
    [("username", UsernameError(u.username)), ("email", EmailError(u.email, emailOk)),
     ("password", PasswordError(u.password, u.googleId)),
     ("firstName", NameError("firstName", u.firstName)), ("lastName", NameError("lastName", u.lastName))]
  }

  /** The validation errors of `u`, one per failing path, in schema order. */
  function Problems(u: User, emailOk: string -> bool): seq<Violation> {
    Violations(Checks(u, emailOk))
  }

  /** The errors of the failing checks, in the order of the checks. */
  function Violations(checks: seq<(string, Option<string>)>): seq<Violation>
    decreases |checks|
  {
    if checks == [] then [] else Listed(checks[0].0, checks[0].1) + Violations(checks[1..])
  }

  function Listed(path: string, e: Option<string>): seq<Violation> {
    if e.Some? then [Violation(path, e.value)] else []
  }

  /** `Object.values(error.errors).map(err => err.message)`. */
  function Messages(ps: seq<Violation>): (ms: seq<string>)
    ensures |ms| == |ps|
    ensures forall i :: 0 <= i < |ps| ==> ms[i] == ps[i].message
  {
    seq(|ps|, i requires 0 <= i < |ps| => ps[i].message)
  }

  /** The checked paths. */
  function PathsOf(checks: seq<(string, Option<string>)>): (r: seq<string>)
    ensures |r| == |checks| && forall k :: 0 <= k < |checks| ==> r[k] == checks[k].0
  {
    seq(|checks|, k requires 0 <= k < |checks| => checks[k].0)
  }

  /** No path is checked twice. */
  predicate DistinctPaths(checks: seq<(string, Option<string>)>) {
    forall i, j :: 0 <= i < j < |checks| ==> checks[i].0 != checks[j].0
  }

  /** `ps` reports path `path` exactly when `e` is a message, and then with that message. */
  ghost predicate Reports(ps: seq<Violation>, path: string, e: Option<string>) {
    && (forall i :: 0 <= i < |ps| && ps[i].path == path ==> e == Some(ps[i].message))
    && (e.Some? ==> exists i :: 0 <= i < |ps| && ps[i].path == path)
  }

  /** Only checked paths are reported. */
  lemma {:induction false} ViolationsPaths(checks: seq<(string, Option<string>)>)
    ensures forall i :: 0 <= i < |Violations(checks)| ==> Violations(checks)[i].path in PathsOf(checks)
    decreases |checks|
  {
    if checks != [] {
      ViolationsPaths(checks[1..]);
      var rest := Violations(checks[1..]);
      forall i | 0 <= i < |rest| ensures rest[i].path in PathsOf(checks) {
        var k :| 0 <= k < |checks[1..]| && PathsOf(checks[1..])[k] == rest[i].path;
        assert PathsOf(checks)[k + 1] == rest[i].path;
      }
      assert PathsOf(checks)[0] == checks[0].0;
    }
  }

  /** With distinct paths, every check is reported with its own outcome. */
  lemma {:induction false} ViolationsReport(checks: seq<(string, Option<string>)>, k: nat)
    requires DistinctPaths(checks) && k < |checks|
    ensures Reports(Violations(checks), checks[k].0, checks[k].1)
    decreases |checks|
  {
    var head := Listed(checks[0].0, checks[0].1);
    var tail := checks[1..];
    var rest := Violations(tail);
    var path := checks[k].0;
    assert Violations(checks) == head + rest;
    if k == 0 {
      ViolationsPaths(tail);
      forall i | 0 <= i < |rest| ensures rest[i].path != path {
        var j :| 0 <= j < |tail| && PathsOf(tail)[j] == rest[i].path;
        assert tail[j] == checks[j + 1];
      }
      if checks[0].1.Some? {
        assert (head + rest)[0].path == path;
      }
    } else {
      assert DistinctPaths(tail) by {
        forall i, j | 0 <= i < j < |tail| ensures tail[i].0 != tail[j].0 {
          assert tail[i] == checks[i + 1] && tail[j] == checks[j + 1];
        }
      }
      assert tail[k - 1] == checks[k];
      ViolationsReport(tail, k - 1);
      assert checks[0].0 != path;
      if checks[k].1.Some? {
        var i :| 0 <= i < |rest| && rest[i].path == path;
        assert (head + rest)[|head| + i] == rest[i];
      }
    }
  }

  /** There is no error exactly when every check passes. */
  lemma {:induction false} ViolationsEmptyIff(checks: seq<(string, Option<string>)>)
    ensures Violations(checks) == [] <==> forall k :: 0 <= k < |checks| ==> checks[k].1.None?
    decreases |checks|
  {
    if checks != [] {
      ViolationsEmptyIff(checks[1..]);
      assert forall k :: 1 <= k < |checks| ==> checks[k] == checks[1..][k - 1];
    }
  }

  /** A document that saving accepts, in the form the setters leave. */
  predicate Valid(u: User, emailOk: string -> bool) {
    && SetterForm(u)
    && UsernameOk(u.username)
    && EmailOk(u.email, emailOk)
    && PasswordOk(u.password, u.googleId)
    && NameOk(u.firstName)
    && NameOk(u.lastName)
    && Dates.Valid(u.lastLogin)
    && Dates.Valid(u.createdAt)
  }

  /** Validation reports a problem exactly when a document the setters shaped is invalid (instants aside). */
  lemma ProblemsIffInvalid(u: User, emailOk: string -> bool)
    requires SetterForm(u) && Dates.Valid(u.lastLogin) && Dates.Valid(u.createdAt)
    ensures Problems(u, emailOk) == [] <==> Valid(u, emailOk)
  {
    var cs := Checks(u, emailOk);
    ViolationsEmptyIff(cs);
    assert cs[0].1 == UsernameError(u.username) && cs[1].1 == EmailError(u.email, emailOk);
    assert cs[2].1 == PasswordError(u.password, u.googleId);
    assert cs[3].1 == NameError("firstName", u.firstName) && cs[4].1 == NameError("lastName", u.lastName);
  }

  /**
   * The errors name schema paths only, and each of them exactly when one of its validators
   * fails, with the message of the first that does.
   */
  lemma ProblemsNameFields(u: User, emailOk: string -> bool)
    ensures var ps := Problems(u, emailOk);
      && (forall i :: 0 <= i < |ps| ==> ps[i].path in ["username", "email", "password", "firstName", "lastName"])
      && Reports(ps, "username", UsernameError(u.username))
      && Reports(ps, "email", EmailError(u.email, emailOk))
      && Reports(ps, "password", PasswordError(u.password, u.googleId))
      && Reports(ps, "firstName", NameError("firstName", u.firstName))
      && Reports(ps, "lastName", NameError("lastName", u.lastName))
  {
    var cs := Checks(u, emailOk);
    ViolationsPaths(cs);
    assert PathsOf(cs) == ["username", "email", "password", "firstName", "lastName"];
    SchemaPathsReport(cs, UsernameError(u.username), EmailError(u.email, emailOk),
      PasswordError(u.password, u.googleId), NameError("firstName", u.firstName), NameError("lastName", u.lastName));
  }

  /** The five schema paths, whatever their outcomes, each report their own outcome. */
  lemma SchemaPathsReport(cs: seq<(string, Option<string>)>, e0: Option<string>, e1: Option<string>,
                          e2: Option<string>, e3: Option<string>, e4: Option<string>)
    requires cs == [("username", e0), ("email", e1), ("password", e2), ("firstName", e3), ("lastName", e4)]
    ensures var ps := Violations(cs);
      && Reports(ps, "username", e0) && Reports(ps, "email", e1) && Reports(ps, "password", e2)
      && Reports(ps, "firstName", e3) && Reports(ps, "lastName", e4)
  {
    assert DistinctPaths(cs);
    ViolationsReport(cs, 0);
    ViolationsReport(cs, 1);
    ViolationsReport(cs, 2);
    ViolationsReport(cs, 3);
    ViolationsReport(cs, 4);
  }

  /**
   * A username of one or two UTF-16 code units, everything else valid: the only message is the
   * `minlength` sentence, which quotes the username.
   */
  lemma ShortUsernameMessage(u: User, emailOk: string -> bool)
    requires 0 < Utf16Length(u.username) < 3
    requires EmailOk(u.email, emailOk) && PasswordOk(u.password, u.googleId) && NameOk(u.firstName) && NameOk(u.lastName)
    ensures Messages(Problems(u, emailOk)) == [ShorterMessage("username", u.username, 3)]
  {
    var cs := Checks(u, emailOk);
    ViolationsEmptyIff(cs[1..]);
    assert Problems(u, emailOk) == [Violation("username", ShorterMessage("username", u.username, 3))] + [];
  }

  /** A stored document: valid, and its password (if any) hashed by the pre-save hook. */
  predicate Stored(u: User, emailOk: string -> bool) {
    Valid(u, emailOk) && (u.password.Some? ==> u.password.value.Hashed?)
  }

  // ---------------------------------------------------------------------------------------
  // The hooks and methods.

  /** The pre-save hook: a modified, non-empty password is replaced by its hash. */
  function PreSave(u: User, passwordModified: bool): (r: User)
    ensures r == u.(password := r.password)
    ensures passwordModified && u.password.Some? && u.password.value.text != [] && u.password.value.Plain? ==>
      r.password == Some(Hashed(u.password.value.text))
    ensures !(passwordModified && u.password.Some? && u.password.value.text != [] && u.password.value.Plain?) ==>
      r == u
  {
    match u.password
    case Some(Plain(t)) => if passwordModified && t != [] then u.(password := Some(Hashed(t))) else u
    case _ => u
  }

  /** Hashing keeps a document valid, and a valid document with a new password becomes storable. */
  lemma PreSaveStores(u: User, emailOk: string -> bool)
    requires Valid(u, emailOk) && (u.password.Some? ==> u.password.value.Plain?)
    ensures Stored(PreSave(u, true), emailOk)
  {
  }

  /**
   * `comparePassword`: false without a stored password; otherwise bcrypt's comparison, which
   * accepts exactly the text a hash was made from (and no text against a value that is no hash).
   */
  function ComparePassword(u: User, candidate: string): (ok: bool)
    ensures ok <==> u.password == Some(Hashed(candidate))
  {
    match u.password
    case None => false
    case Some(Plain(_)) => false
    case Some(Hashed(t)) => t == candidate
  }

  /** After a password is set and saved, it and only it passes the comparison. */
  lemma SavedPasswordCompares(u: User, p: string, q: string)
    requires p != []
    ensures ComparePassword(PreSave(u.(password := Some(Plain(p))), true), p)
    ensures q != p ==> !ComparePassword(PreSave(u.(password := Some(Plain(p))), true), q)
  {
  }

  /** An account without a password never passes the comparison. */
  lemma NoPasswordNeverCompares(u: User, candidate: string)
    requires u.password.None?
    ensures !ComparePassword(u, candidate)
  {
  }

  /** The JSON form of a user: every field but the password. */
  datatype PublicUser = PublicUser(
    id: nat,
    username: string,
    email: string,
    googleId: Option<string>,
    firstName: string,
    lastName: string,
    isActive: bool,
    lastLogin: Dates.Timestamp,
    createdAt: Dates.Timestamp)

  function ToJson(u: User): (j: PublicUser)
    ensures j.id == u.id && j.username == u.username && j.email == u.email && j.googleId == u.googleId
    ensures j.firstName == u.firstName && j.lastName == u.lastName && j.isActive == u.isActive
    ensures j.lastLogin == u.lastLogin && j.createdAt == u.createdAt
  {
    PublicUser(u.id, u.username, u.email, u.googleId, u.firstName, u.lastName, u.isActive, u.lastLogin, u.createdAt)
  }

  /** The JSON form does not depend on the password, and determines every other field. */
  lemma ToJsonHidesPassword(u: User, v: User)
    ensures ToJson(u) == ToJson(v) <==> u.(password := v.password) == v
  {
  }
}

/**
 * The authentication routes: registration, login with e-mail or username, Google sign-in
 * (find by Google id, else link by e-mail, else create), profile update and password change.
 *
 * JWT signing is symbolic (`Token(userId)`), Google's token verification is the `payload`
 * parameter (`None` when verification fails), and the e-mail pattern is `emailOk`.
 */
module AuthRoute {

  import opened Wrappers
  import opened Text
  import Dates
  import opened Store
  import opened Http
  import opened UserModel

  /** `generateToken(userId)`. */
  datatype Token = Token(userId: nat)

  /** A successful sign-in: the message, the token and the user as JSON. */
  datatype Session = Session(message: string, token: Token, user: PublicUser)

  const AllRequiredMessage: string := "All fields are required: username, email, password, firstName, lastName"
  const EmailExistsMessage: string := "User with this email already exists"
  const UsernameTakenMessage: string := "Username already taken"
  const RegisteredMessage: string := "User registered successfully"
  const LoginRequiredMessage: string := "Email/username and password are required"
  const InvalidMessage: string := "Invalid credentials"
  const DeactivatedMessage: string := "Account is deactivated"
  const LoggedInMessage: string := "Login successful"
  const TokenRequiredMessage: string := "Google ID token is required"
  const GoogleFailedMessage: string := "Google login failed on server"
  const GoogleLoggedInMessage: string := "Google login successful"
  const EmailInUseMessage: string := "Email already in use"
  const PasswordsRequiredMessage: string := "Current password and new password are required"
  const TooShortMessage: string := "New password must be at least 6 characters long"
  const GoogleOnlyMessage: string := "Password cannot be changed for Google-authenticated accounts without a local password."
  const WrongPasswordMessage: string := "Current password is incorrect"
  const ChangeErrorMessage: string := "Server error changing password"
  const ChangedMessage: string := "Password changed successfully"

  /** The message of a duplicate-key error on `field`: the name capitalised, then "already exists". */
  function DuplicateKeyMessage(field: string): (m: string)
    ensures |m| == |field| + |" already exists"| && m[|field|..] == " already exists"
    ensures field != [] ==> m[0] == UpperChar(field[0]) && m[1..|field|] == field[1..]
  {
    Capitalize(field) + " already exists"
  }

  /** The message the unique index on e-mail produces. */
  lemma DuplicateEmailMessage()
    ensures DuplicateKeyMessage("email") == "Email already exists"
  {
    var f := "email";
    assert f[1..] == "mail";
    assert Capitalize(f) == ['E'] + "mail" == "Email";
    assert DuplicateKeyMessage(f) == "Email" + " already exists";
  }

  /** The message the unique index on username produces. */
  lemma DuplicateUsernameMessage()
    ensures DuplicateKeyMessage("username") == "Username already exists"
  {
    var f := "username";
    assert f[1..] == "sername";
    assert Capitalize(f) == ['U'] + "sername" == "Username";
    assert DuplicateKeyMessage(f) == "Username" + " already exists";
  }

  /** `messages.join(', ')`. */
  function JoinMessages(ms: seq<string>): string
    decreases |ms|
  {
    if ms == [] then [] else if |ms| == 1 then ms[0] else ms[0] + ", " + JoinMessages(ms[1..])
  }

  /** Two accounts that the unique indexes on username and e-mail, and the sparse one on the Google id, allow side by side. */
  predicate Apart(a: User, b: User) {
    && a.username != b.username
    && a.email != b.email
    && (a.googleId.Some? && b.googleId.Some? ==> a.googleId != b.googleId)
  }

  ghost predicate UniqueIndexes(docs: map<Id, User>) {
    forall i, j :: i in docs && j in docs && i != j ==> Apart(docs[i], docs[j])
  }

  /** What the collection keeps: coherent, filed by id, every account storable, the indexes unique. */
  ghost predicate StoreValid(docs: map<Id, User>, order: seq<Id>, nextId: nat, emailOk: string -> bool) {
    && Coherent(docs, order)
    && AllFiled(docs, nextId, emailOk)
    && UniqueIndexes(docs)
  }

  /** Every account is storable, filed under its own id, and below the next id. */
  ghost predicate AllFiled(docs: map<Id, User>, nextId: nat, emailOk: string -> bool) {
    forall id :: id in docs ==> id < nextId && docs[id].id == id && Stored(docs[id], emailOk)
  }

  /** An account apart from every other can be rewritten in place. */
  lemma RewriteValid(docs: map<Id, User>, order: seq<Id>, nextId: nat, emailOk: string -> bool, u: User)
    requires StoreValid(docs, order, nextId, emailOk) && u.id in docs && Stored(u, emailOk)
    requires forall j :: j in docs && j != u.id ==> Apart(docs[j], u)
    ensures StoreValid(docs[u.id := u], order, nextId, emailOk)
  {
    RewriteApart(docs, u);
    RewriteFiled(docs, nextId, emailOk, u);
    assert docs[u.id := u].Keys == docs.Keys;
  }

  /** A storable account replacing its own document keeps every account filed. */
  lemma RewriteFiled(docs: map<Id, User>, nextId: nat, emailOk: string -> bool, u: User)
    requires AllFiled(docs, nextId, emailOk) && u.id in docs && Stored(u, emailOk)
    ensures AllFiled(docs[u.id := u], nextId, emailOk)
  {
  }

  /** The unique indexes still hold once an account apart from every other replaces its own document. */
  lemma RewriteApart(docs: map<Id, User>, u: User)
    requires UniqueIndexes(docs) && u.id in docs
    requires forall j :: j in docs && j != u.id ==> Apart(docs[j], u)
    ensures UniqueIndexes(docs[u.id := u])
  {
  }

  /** An account apart from every stored one can be added under the next id. */
  lemma InsertValid(docs: map<Id, User>, order: seq<Id>, nextId: nat, emailOk: string -> bool, u: User)
    requires StoreValid(docs, order, nextId, emailOk) && u.id == nextId && Stored(u, emailOk)
    requires forall j :: j in docs ==> Apart(docs[j], u)
    ensures nextId !in docs
    ensures StoreValid(docs[nextId := u], order + [nextId], nextId + 1, emailOk)
  {
    AppendCoherent(docs, order, nextId, u);
  }

  /** An account with the index keys of the one it replaces is apart from every other. */
  lemma SameKeysApart(docs: map<Id, User>, id: Id, u: User)
    requires UniqueIndexes(docs) && id in docs
    requires u.username == docs[id].username && u.email == docs[id].email && u.googleId == docs[id].googleId
    ensures forall j :: j in docs && j != id ==> Apart(docs[j], u)
  {
    forall j | j in docs && j != id ensures Apart(docs[j], u) {
      assert Apart(docs[j], docs[id]);
    }
  }

  /** The document `findOne` returns from a valid collection is the one filed under its id. */
  lemma FoundIsFiled(docs: map<Id, User>, order: seq<Id>, nextId: nat, emailOk: string -> bool, matches: User -> bool)
    requires StoreValid(docs, order, nextId, emailOk)
    ensures var r := FindOne(docs, order, matches);
      r.Some? ==> r.value.id in docs && docs[r.value.id] == r.value && Stored(r.value, emailOk)
  {
  }

  /** A stored address is its own key. */
  lemma StoredEmailKey(s: string)
    requires Trimmed(s) && Lower(s) == s
    ensures EmailKey(s) == s
  {
    TrimmedIff(s);
  }

  // The filters the handlers pass to `findOne`, after the path setters.

  /** `{ $or: [{ email }, { username }] }` of a registration. */
  function ByEmailOrUsername(email: string, username: string): User -> bool {
    (u: User) => u.email == EmailKey(email) || u.username == Trim(username)
  }

  /** `{ googleId }`. */
  function ByGoogleId(sub: string): User -> bool {
    (u: User) => u.googleId == Some(sub)
  }

  /** `{ email }`. */
  function ByEmail(email: string): User -> bool {
    (u: User) => u.email == EmailKey(email)
  }

  /** The duplicate-key check of the unique username index. */
  function ByUsername(username: string): User -> bool {
    (u: User) => u.username == username
  }

  /** `{ email, _id: { $ne: userId } }`. */
  function ByEmailOfOther(email: string, userId: Id): User -> bool {
    (u: User) => u.email == EmailKey(email) && u.id != userId
  }

  // ---------------------------------------------------------------------------------------
  // Registration.

  datatype RegisterRequest = RegisterRequest(username: string, email: string, password: string, firstName: string, lastName: string)

  predicate MissingField(req: RegisterRequest) {
    req.username == [] || req.email == [] || req.password == [] || req.firstName == [] || req.lastName == []
  }

  /** The message for an existing account: the raw e-mail is compared with the stored one. */
  function ExistingMessage(existing: User, email: string): (m: string)
    ensures m == EmailExistsMessage <==> existing.email == email
    ensures m == UsernameTakenMessage <==> existing.email != email
  {
    if existing.email == email then EmailExistsMessage else UsernameTakenMessage
  }

  /**
   * The stored address is lower-cased, so an address typed with a capital letter finds the
   * account by e-mail but is answered as a taken username.
   */
  lemma CapitalisedEmailReadsAsUsername(existing: User, req: RegisterRequest)
    requires existing.email == EmailKey(req.email) && EmailKey(req.email) != req.email
    ensures ByEmailOrUsername(req.email, req.username)(existing)
    ensures ExistingMessage(existing, req.email) == UsernameTakenMessage
  {
  }

  /** `new User({...})`: the setters trim and lower-case; the account is active, stamped `now`. */
  function NewUser(req: RegisterRequest, id: nat, now: Dates.Timestamp): (u: User)
    ensures u.id == id && u.username == Trim(req.username) && u.email == EmailKey(req.email)
    ensures u.password == Some(Plain(req.password)) && u.googleId.None?
    ensures u.firstName == Trim(req.firstName) && u.lastName == Trim(req.lastName)
    ensures u.isActive && u.lastLogin == now && u.createdAt == now
    ensures SetterForm(u)
  {
    TrimTrimmed(req.username);
    TrimTrimmed(req.firstName);
    TrimTrimmed(req.lastName);
    User(id, Trim(req.username), EmailKey(req.email), Some(Plain(req.password)), None,
         Trim(req.firstName), Trim(req.lastName), true, now, now)
  }

  // ---------------------------------------------------------------------------------------
  // Google sign-in.

  /** The claims of a verified Google token that the handler reads; "" is an absent claim. */
  datatype GooglePayload = GooglePayload(sub: string, email: string, name: Option<string>, givenName: string, familyName: string)

  /** `firstName || name.split(' ')[0] || 'Google User'`; `None` when `name` is read but absent. */
  function GoogleFirstName(p: GooglePayload): (r: Option<string>)
    ensures p.givenName != [] ==> r == Some(p.givenName)
    ensures p.givenName == [] && p.name.None? ==> r.None?
    ensures r.Some? ==> r.value != []
  {
    if p.givenName != [] then Some(p.givenName)
    else match p.name
      case None => None
      case Some(n) => var w := Split(n, ' ')[0]; Some(if w != [] then w else "Google User")
  }

  /** `lastName || name.split(' ')[1] || ''`; `None` when `name` is read but absent. */
  function GoogleLastName(p: GooglePayload): (r: Option<string>)
    ensures p.familyName != [] ==> r == Some(p.familyName)
    ensures p.familyName == [] && p.name.None? ==> r.None?
  {
    if p.familyName != [] then Some(p.familyName)
    else match p.name
      case None => None
      case Some(n) => match SplitPart(n, ' ', 1)
        case Some(w) => Some(w)
        case None => Some("")
  }

  /** The account created for a Google user no account knows: the username is the address's local part. */
  function NewGoogleUser(p: GooglePayload, id: nat, now: Dates.Timestamp): (r: Option<User>)
    ensures r.Some? <==> GoogleFirstName(p).Some? && GoogleLastName(p).Some?
    ensures r.Some? ==>
      && r.value.id == id
      && r.value.username == Trim(Split(p.email, '@')[0])
      && r.value.email == EmailKey(p.email)
      && r.value.password.None? && r.value.googleId == Some(p.sub)
      && r.value.firstName == Trim(GoogleFirstName(p).value)
      && r.value.lastName == Trim(GoogleLastName(p).value)
      && r.value.isActive && r.value.lastLogin == now && r.value.createdAt == now
  {
    match (GoogleFirstName(p), GoogleLastName(p))
    case (Some(first), Some(last)) =>
      Some(User(id, Trim(Split(p.email, '@')[0]), EmailKey(p.email), None, Some(p.sub),
                Trim(first), Trim(last), true, now, now))
    case _ => None
  }

  /** A one-word name and no family name give an empty last name, which validation refuses. */
  lemma OneWordNameFailsValidation(sub: string, email: string, now: Dates.Timestamp)
    ensures var p := GooglePayload(sub, email, Some("Cher"), [], []);
      && NewGoogleUser(p, 0, now).Some?
      && NewGoogleUser(p, 0, now).value.firstName == "Cher"
      && NewGoogleUser(p, 0, now).value.lastName == []
      && !NameOk(NewGoogleUser(p, 0, now).value.lastName)
  {
    var p := GooglePayload(sub, email, Some("Cher"), [], []);
    SplitWithoutSeparator("Cher", ' ');
    assert GoogleFirstName(p) == Some("Cher");
    assert SplitPart("Cher", ' ', 1).None?;
    assert GoogleLastName(p) == Some("");
    TrimUntouched("Cher");
    TrimUntouched("");
  }

  /** Linking an account found by e-mail: the Google id is set, empty names are filled in. */
  function Linked(u: User, p: GooglePayload): (r: User)
    ensures r == u.(googleId := Some(p.sub), firstName := r.firstName, lastName := r.lastName)
    ensures r.firstName == (if u.firstName == [] && p.givenName != [] then Trim(p.givenName) else u.firstName)
    ensures r.lastName == (if u.lastName == [] && p.familyName != [] then Trim(p.familyName) else u.lastName)
  {
    u.(googleId := Some(p.sub),
       firstName := if u.firstName == [] && p.givenName != [] then Trim(p.givenName) else u.firstName,
       lastName := if u.lastName == [] && p.familyName != [] then Trim(p.familyName) else u.lastName)
  }

  /**
   * A stored account always has both names, so linking never changes them; with a non-empty
   * Google id the linked account is still storable.
   */
  lemma LinkedKeepsNames(u: User, p: GooglePayload, emailOk: string -> bool)
    requires Stored(u, emailOk)
    ensures Linked(u, p).firstName == u.firstName && Linked(u, p).lastName == u.lastName
    ensures p.sub != [] ==> Stored(Linked(u, p), emailOk)
  {
  }

  /** The fields a profile update writes: only those given (truthy), through their setters. */
  function ProfileUpdate(u: User, firstName: string, lastName: string, email: string): (r: User)
    ensures r == u.(firstName := r.firstName, lastName := r.lastName, email := r.email)
    ensures r.firstName == if firstName != [] then Trim(firstName) else u.firstName
    ensures r.lastName == if lastName != [] then Trim(lastName) else u.lastName
    ensures r.email == if email != [] then EmailKey(email) else u.email
  {
    u.(firstName := if firstName != [] then Trim(firstName) else u.firstName,
       lastName := if lastName != [] then Trim(lastName) else u.lastName,
       email := if email != [] then EmailKey(email) else u.email)
  }

  /** The account created for a Google user is in the form the setters leave. */
  lemma NewGoogleUserForm(p: GooglePayload, id: nat, now: Dates.Timestamp)
    requires NewGoogleUser(p, id, now).Some?
    ensures SetterForm(NewGoogleUser(p, id, now).value)
  {
    TrimTrimmed(Split(p.email, '@')[0]);
    TrimTrimmed(GoogleFirstName(p).value);
    TrimTrimmed(GoogleLastName(p).value);
  }

  /** Linking keeps an account in the form the setters leave. */
  lemma LinkedForm(u: User, p: GooglePayload)
    requires SetterForm(u)
    ensures SetterForm(Linked(u, p))
  {
    TrimTrimmed(p.givenName);
    TrimTrimmed(p.familyName);
  }

  /** A profile update keeps an account in the form the setters leave. */
  lemma ProfileUpdateForm(u: User, firstName: string, lastName: string, email: string)
    requires SetterForm(u)
    ensures SetterForm(ProfileUpdate(u, firstName, lastName, email))
  {
    TrimTrimmed(firstName);
    TrimTrimmed(lastName);
  }

  /** A registration that `findOne` found no clash for cannot hit a unique index. */
  lemma RegistrationApart(docs: map<Id, User>, order: seq<Id>, req: RegisterRequest, id: Id, now: Dates.Timestamp)
    requires Coherent(docs, order)
    requires FindOne(docs, order, ByEmailOrUsername(req.email, req.username)).None?
    ensures forall j :: j in docs ==> Apart(docs[j], NewUser(req, id, now))
  {
    forall j | j in docs ensures Apart(docs[j], NewUser(req, id, now)) {
      assert !ByEmailOrUsername(req.email, req.username)(docs[j]);
    }
  }

  /** A registration with no clash and no validation problem can be saved, hashed, under id `id`. */
  lemma RegistrationStored(docs: map<Id, User>, order: seq<Id>, emailOk: string -> bool,
                           req: RegisterRequest, id: Id, now: Dates.Timestamp)
    requires Coherent(docs, order) && Dates.Valid(now)
    requires FindOne(docs, order, ByEmailOrUsername(req.email, req.username)).None?
    requires Problems(NewUser(req, id, now), emailOk) == []
    ensures var saved := PreSave(NewUser(req, id, now), true);
      && saved.id == id && Stored(saved, emailOk)
      && forall j :: j in docs ==> Apart(docs[j], saved)
  {
    var u := NewUser(req, id, now);
    ProblemsIffInvalid(u, emailOk);
    PreSaveStores(u, emailOk);
    RegistrationApart(docs, order, req, id, now);
  }

  /**
   * A new Google account whose Google id, e-mail and username no account has cannot hit a
   * unique index.
   */
  lemma GoogleAccountApart(docs: map<Id, User>, order: seq<Id>, p: GooglePayload, u: User)
    requires Coherent(docs, order)
    requires u.googleId == Some(p.sub) && u.email == EmailKey(p.email)
    requires FindOne(docs, order, ByGoogleId(p.sub)).None?
    requires FindOne(docs, order, ByEmail(p.email)).None?
    requires FindOne(docs, order, ByUsername(u.username)).None?
    ensures forall j :: j in docs ==> Apart(docs[j], u)
  {
    forall j | j in docs ensures Apart(docs[j], u) {
      assert !ByGoogleId(p.sub)(docs[j]) && !ByEmail(p.email)(docs[j]) && !ByUsername(u.username)(docs[j]);
    }
  }

  /** Linking the account found by e-mail to a Google id that no account has keeps it apart from the others. */
  lemma LinkedApart(docs: map<Id, User>, order: seq<Id>, nextId: nat, emailOk: string -> bool, id: Id, p: GooglePayload, now: Dates.Timestamp)
    requires StoreValid(docs, order, nextId, emailOk) && id in docs
    requires FindOne(docs, order, ByGoogleId(p.sub)).None?
    ensures forall j :: j in docs && j != id ==> Apart(docs[j], Linked(docs[id], p).(lastLogin := now))
  {
    var u := Linked(docs[id], p).(lastLogin := now);
    forall j | j in docs && j != id ensures Apart(docs[j], u) {
      assert Apart(docs[j], docs[id]);
      assert !ByGoogleId(p.sub)(docs[j]);
    }
  }

  /** Whether a profile update is refused because another account has the new address. */
  function EmailInUse(docs: map<Id, User>, order: seq<Id>, userId: Id, email: string): bool
    requires Coherent(docs, order) && userId in docs
  {
    email != [] && email != docs[userId].email && FindOne(docs, order, ByEmailOfOther(email, userId)).Some?
  }

  /** A profile update that is not refused for its address keeps the account apart from the others. */
  lemma ProfileUpdateApart(docs: map<Id, User>, order: seq<Id>, nextId: nat, emailOk: string -> bool,
                           userId: Id, firstName: string, lastName: string, email: string)
    requires StoreValid(docs, order, nextId, emailOk) && userId in docs
    requires !EmailInUse(docs, order, userId, email)
    ensures forall j :: j in docs && j != userId ==> Apart(docs[j], ProfileUpdate(docs[userId], firstName, lastName, email))
  {
    var current := docs[userId];
    var u := ProfileUpdate(current, firstName, lastName, email);
    if email == [] || email == current.email {
      if email != [] {
        StoredEmailKey(current.email);
      }
      SameKeysApart(docs, userId, u);
    } else {
      forall j | j in docs && j != userId ensures Apart(docs[j], u) {
        assert Apart(docs[j], current);
        assert docs[j].id == j;
        assert !ByEmailOfOther(email, userId)(docs[j]);
      }
    }
  }

  /** A profile update with the address free and no validation problem can be saved in place. */
  lemma ProfileStored(docs: map<Id, User>, order: seq<Id>, nextId: nat, emailOk: string -> bool,
                      userId: Id, firstName: string, lastName: string, email: string)
    requires StoreValid(docs, order, nextId, emailOk) && userId in docs
    requires !EmailInUse(docs, order, userId, email)
    requires Problems(ProfileUpdate(docs[userId], firstName, lastName, email), emailOk) == []
    ensures var u := ProfileUpdate(docs[userId], firstName, lastName, email);
      && u.id == userId && Stored(u, emailOk)
      && (forall j :: j in docs && j != userId ==> Apart(docs[j], u))
      && ProfileUpdated(docs, order, userId, firstName, lastName, email, docs[userId := u], Success(200, ToJson(u)), emailOk)
  {
    var current := docs[userId];
    assert current.id == userId && Stored(current, emailOk);
    var u := ProfileUpdate(current, firstName, lastName, email);
    ProfileUpdateForm(current, firstName, lastName, email);
    ProblemsIffInvalid(u, emailOk);
    ProfileUpdateApart(docs, order, nextId, emailOk, userId, firstName, lastName, email);
  }

  /**
   * The outcome of PUT `/profile` for account `userId`: 400 when a new e-mail belongs to
   * another account, 400 with the validators' messages when validation fails; otherwise only the
   * given fields are written.
   */
  ghost predicate ProfileUpdated(docs0: map<Id, User>, order0: seq<Id>, userId: Id,
                                 firstName: string, lastName: string, email: string,
                                 docs1: map<Id, User>, r: Reply<PublicUser>, emailOk: string -> bool)
    requires Coherent(docs0, order0) && userId in docs0
  {
    var u := ProfileUpdate(docs0[userId], firstName, lastName, email);
    var inUse := EmailInUse(docs0, order0, userId, email);
    && (inUse ==> r == Failure(400, EmailInUseMessage) && docs1 == docs0)
    && (!inUse && Problems(u, emailOk) != [] ==> r == Failure(400, JoinMessages(Messages(Problems(u, emailOk)))) && docs1 == docs0)
    && (!inUse && Problems(u, emailOk) == [] ==> docs1 == docs0[userId := u] && r == Success(200, ToJson(u)))
  }

  /** A profile update to an address another account has is refused. */
  lemma ProfileEmailRefused(docs: map<Id, User>, order: seq<Id>, userId: Id,
                            firstName: string, lastName: string, email: string, emailOk: string -> bool)
    requires Coherent(docs, order) && userId in docs && EmailInUse(docs, order, userId, email)
    ensures ProfileUpdated(docs, order, userId, firstName, lastName, email, docs, Failure(400, EmailInUseMessage), emailOk)
  {
  }

  /** A profile update that fails validation is refused with its validators' messages. */
  lemma ProfileInvalidRefused(docs: map<Id, User>, order: seq<Id>, userId: Id,
                              firstName: string, lastName: string, email: string, emailOk: string -> bool)
    requires Coherent(docs, order) && userId in docs && !EmailInUse(docs, order, userId, email)
    requires Problems(ProfileUpdate(docs[userId], firstName, lastName, email), emailOk) != []
    ensures var ps := Problems(ProfileUpdate(docs[userId], firstName, lastName, email), emailOk);
      ProfileUpdated(docs, order, userId, firstName, lastName, email, docs, Failure(400, JoinMessages(Messages(ps))), emailOk)
  {
  }

  /**
   * The outcome of a Google sign-in with claims `p`, from collection `docs0`/`order0`/`next0`
   * to `docs1`/`order1`/`next1`: the account with that Google id, else the account with that
   * e-mail linked to the Google id, else a new account; 500 when the account to save does
   * not validate or its username is taken. The account's last login becomes `now`.
   */
  ghost predicate SignedInWithGoogle(docs0: map<Id, User>, order0: seq<Id>, next0: nat,
                                     docs1: map<Id, User>, order1: seq<Id>, next1: nat,
                                     p: GooglePayload, now: Dates.Timestamp, r: Reply<Session>,
                                     emailOk: string -> bool)
    requires Coherent(docs0, order0)
  {
    var byGoogle := FindOne(docs0, order0, ByGoogleId(p.sub));
    var byEmail := FindOne(docs0, order0, ByEmail(p.email));
    && (byGoogle.Some? ==>
         var u := byGoogle.value.(lastLogin := now);
         && docs1 == docs0[u.id := u] && order1 == order0 && next1 == next0
         && r == Success(200, Session(GoogleLoggedInMessage, Token(u.id), ToJson(u))))
    && (byGoogle.None? && byEmail.Some? ==>
         var u := Linked(byEmail.value, p).(lastLogin := now);
         && (Problems(u, emailOk) != [] ==> r == Failure(500, GoogleFailedMessage))
         && (Problems(u, emailOk) == [] ==>
              && docs1 == docs0[u.id := u] && order1 == order0 && next1 == next0
              && r == Success(200, Session(GoogleLoggedInMessage, Token(u.id), ToJson(u)))))
    && (byGoogle.None? && byEmail.None? ==> CreatedForGoogle(docs0, order0, next0, docs1, order1, next1, p, now, r, emailOk))
  }

  /** The outcome of creating the account for claims `p` that no account knows. */
  ghost predicate CreatedForGoogle(docs0: map<Id, User>, order0: seq<Id>, next0: nat,
                                   docs1: map<Id, User>, order1: seq<Id>, next1: nat,
                                   p: GooglePayload, now: Dates.Timestamp, r: Reply<Session>,
                                   emailOk: string -> bool)
    requires Coherent(docs0, order0)
  {
    var created := NewGoogleUser(p, next0, now);
    && (created.None? ==> r == Failure(500, GoogleFailedMessage))
    && (created.Some? && Problems(created.value, emailOk) != [] ==> r == Failure(500, GoogleFailedMessage))
    && (created.Some? && Problems(created.value, emailOk) == [] ==>
         var taken := FindOne(docs0, order0, ByUsername(created.value.username));
         && (taken.Some? ==> r == Failure(500, GoogleFailedMessage))
         && (taken.None? ==>
              && docs1 == docs0[next0 := created.value]
              && order1 == order0 + [next0] && next1 == next0 + 1
              && r == Success(200, Session(GoogleLoggedInMessage, Token(next0), ToJson(created.value)))))
  }

  /** Storing the new account for claims `p` that no account knows keeps the collection valid. */
  lemma GoogleAccountStored(docs: map<Id, User>, order: seq<Id>, nextId: nat, emailOk: string -> bool,
                            p: GooglePayload, now: Dates.Timestamp)
    requires StoreValid(docs, order, nextId, emailOk) && Dates.Valid(now)
    requires FindOne(docs, order, ByGoogleId(p.sub)).None? && FindOne(docs, order, ByEmail(p.email)).None?
    requires NewGoogleUser(p, nextId, now).Some?
    requires Problems(NewGoogleUser(p, nextId, now).value, emailOk) == []
    requires FindOne(docs, order, ByUsername(NewGoogleUser(p, nextId, now).value.username)).None?
    ensures var u := NewGoogleUser(p, nextId, now).value;
      && u.id == nextId && Stored(u, emailOk)
      && (forall j :: j in docs ==> Apart(docs[j], u))
      && CreatedForGoogle(docs, order, nextId, docs[nextId := u], order + [nextId], nextId + 1, p, now,
                          Success(200, Session(GoogleLoggedInMessage, Token(nextId), ToJson(u))), emailOk)
  {
    var u := NewGoogleUser(p, nextId, now).value;
    NewGoogleUserForm(p, nextId, now);
    ProblemsIffInvalid(u, emailOk);
    GoogleAccountApart(docs, order, p, u);
  }

  /** The `users` collection, with the e-mail pattern its schema checks. */
  class UserStore {
    const emailOk: string -> bool
    var docs: map<Id, User>
    var order: seq<Id>
    var nextId: nat

    ghost predicate Valid()
      reads this
    {
      StoreValid(docs, order, nextId, emailOk)
    }

    constructor (emailOk: string -> bool)
      ensures Valid() && this.emailOk == emailOk && docs == map[] && order == []
    {
      this.emailOk := emailOk;
      docs := map[];
      order := [];
      nextId := 0;
    }

    /** `save()` of an account already filed under its id: the stored document is replaced. */
    method Put(u: User)
      requires Valid() && u.id in docs && Stored(u, emailOk)
      requires forall j :: j in docs && j != u.id ==> Apart(docs[j], u)
      modifies this
      ensures Valid() && docs == old(docs)[u.id := u] && order == old(order) && nextId == old(nextId)
    {
      RewriteValid(docs, order, nextId, emailOk, u);
      docs := docs[u.id := u];
    }

    /** `save()` of a new account: filed under the next id, last in natural order. */
    method Add(u: User)
      requires Valid() && u.id == nextId && Stored(u, emailOk)
      requires forall j :: j in docs ==> Apart(docs[j], u)
      modifies this
      ensures Valid() && old(nextId) !in old(docs)
      ensures docs == old(docs)[old(nextId) := u] && order == old(order) + [old(nextId)] && nextId == old(nextId) + 1
    {
      InsertValid(docs, order, nextId, emailOk, u);
      docs := docs[nextId := u];
      order := order + [nextId];
      nextId := nextId + 1;
    }

    /**
     * POST `/register`: 400 for a missing field, 400 for an existing account, 400 with the
     * validators' messages when validation fails; otherwise the account is stored with its password
     * hashed, and signed in (201).
     */
    method Register(req: RegisterRequest, now: Dates.Timestamp) returns (r: Reply<Session>)
      requires Valid() && Dates.Valid(now)
      modifies this
      ensures Valid()
      ensures r.Failure? ==> docs == old(docs) && order == old(order) && nextId == old(nextId)
      ensures MissingField(req) ==> r == Failure(400, AllRequiredMessage)
      ensures !MissingField(req) ==>
        var existing := FindOne(old(docs), old(order), ByEmailOrUsername(req.email, req.username));
        var u := NewUser(req, old(nextId), now);
        && (existing.Some? ==> r == Failure(400, ExistingMessage(existing.value, req.email)))
        && (existing.None? && Problems(u, emailOk) != [] ==> r == Failure(400, JoinMessages(Messages(Problems(u, emailOk)))))
        && (existing.None? && Problems(u, emailOk) == [] ==>
             && old(nextId) !in old(docs)
             && docs == old(docs)[old(nextId) := PreSave(u, true)]
             && order == old(order) + [old(nextId)] && nextId == old(nextId) + 1
             && r == Success(201, Session(RegisteredMessage, Token(old(nextId)), ToJson(PreSave(u, true)))))
    {
      if MissingField(req) {
        return Failure(400, AllRequiredMessage);
      }
      var existing := FindOne(docs, order, ByEmailOrUsername(req.email, req.username));
      if existing.Some? {
        return Failure(400, ExistingMessage(existing.value, req.email));
      }
      var u := NewUser(req, nextId, now);
      var problems := Problems(u, emailOk);
      if problems != [] {
        return Failure(400, JoinMessages(Messages(problems)));
      }
      RegistrationStored(docs, order, emailOk, req, nextId, now);
      var saved := PreSave(u, true);
      Add(saved);
      r := Success(201, Session(RegisteredMessage, Token(saved.id), ToJson(saved)));
    }

    /**
     * POST `/login`: 400 without both fields; the account found by lower-cased e-mail or by
     * username must exist (else 401), be active (else 401) and accept the password (else
     * 401); then its last login becomes `now`.
     */
    method Login(login: string, password: string, now: Dates.Timestamp) returns (r: Reply<Session>)
      requires Valid() && Dates.Valid(now)
      modifies this
      ensures Valid() && order == old(order) && nextId == old(nextId)
      ensures r.Failure? ==> docs == old(docs)
      ensures login == [] || password == [] ==> r == Failure(400, LoginRequiredMessage)
      ensures login != [] && password != [] ==>
        var found := FindOne(old(docs), old(order), ByEmailOrUsername(Lower(login), login));
        && (found.None? ==> r == Failure(401, InvalidMessage))
        && (found.Some? && !found.value.isActive ==> r == Failure(401, DeactivatedMessage))
        && (found.Some? && found.value.isActive && !ComparePassword(found.value, password) ==> r == Failure(401, InvalidMessage))
        && (found.Some? && found.value.isActive && ComparePassword(found.value, password) ==>
             var u := found.value.(lastLogin := now);
             && u.id in old(docs)
             && docs == old(docs)[u.id := u]
             && r == Success(200, Session(LoggedInMessage, Token(u.id), ToJson(u))))
    {
      if login == [] || password == [] {
        return Failure(400, LoginRequiredMessage);
      }
      var found := FindOne(docs, order, ByEmailOrUsername(Lower(login), login));
      FoundIsFiled(docs, order, nextId, emailOk, ByEmailOrUsername(Lower(login), login));
      if found.None? {
        return Failure(401, InvalidMessage);
      }
      var user := found.value;
      if !user.isActive {
        return Failure(401, DeactivatedMessage);
      }
      if !ComparePassword(user, password) {
        return Failure(401, InvalidMessage);
      }
      var u := user.(lastLogin := now);
      SameKeysApart(docs, u.id, u);
      Put(u);
      r := Success(200, Session(LoggedInMessage, Token(u.id), ToJson(u)));
    }

    /**
     * POST `/google-login`: 400 without a token, 500 when it does not verify; otherwise the
     * verified claims sign in (`SignInWithGoogle`).
     */
    method GoogleLogin(idToken: string, payload: Option<GooglePayload>, now: Dates.Timestamp) returns (r: Reply<Session>)
      requires Valid() && Dates.Valid(now)
      modifies this
      ensures Valid()
      ensures r.Failure? ==> docs == old(docs) && order == old(order) && nextId == old(nextId)
      ensures idToken == [] ==> r == Failure(400, TokenRequiredMessage)
      ensures idToken != [] && payload.None? ==> r == Failure(500, GoogleFailedMessage)
      ensures idToken != [] && payload.Some? ==> SignedInWithGoogle(old(docs), old(order), old(nextId), docs, order, nextId, payload.value, now, r, emailOk)
    {
      if idToken == [] {
        return Failure(400, TokenRequiredMessage);
      }
      if payload.None? {
        return Failure(500, GoogleFailedMessage);
      }
      r := SignInWithGoogle(payload.value, now);
    }

    /** The sign-in with verified claims `p`. */
    method SignInWithGoogle(p: GooglePayload, now: Dates.Timestamp) returns (r: Reply<Session>)
      requires Valid() && Dates.Valid(now)
      modifies this
      ensures Valid()
      ensures r.Failure? ==> docs == old(docs) && order == old(order) && nextId == old(nextId)
      ensures SignedInWithGoogle(old(docs), old(order), old(nextId), docs, order, nextId, p, now, r, emailOk)
    {
      var byGoogle := FindOne(docs, order, ByGoogleId(p.sub));
      FoundIsFiled(docs, order, nextId, emailOk, ByGoogleId(p.sub));
      if byGoogle.Some? {
        var u := byGoogle.value.(lastLogin := now);
        SameKeysApart(docs, u.id, u);
        Put(u);
        return Success(200, Session(GoogleLoggedInMessage, Token(u.id), ToJson(u)));
      }
      var byEmail := FindOne(docs, order, ByEmail(p.email));
      FoundIsFiled(docs, order, nextId, emailOk, ByEmail(p.email));
      if byEmail.Some? {
        var u := Linked(byEmail.value, p).(lastLogin := now);
        if Problems(u, emailOk) != [] {
          return Failure(500, GoogleFailedMessage);
        }
        LinkedForm(byEmail.value, p);
        ProblemsIffInvalid(u, emailOk);
        LinkedApart(docs, order, nextId, emailOk, u.id, p, now);
        Put(u);
        return Success(200, Session(GoogleLoggedInMessage, Token(u.id), ToJson(u)));
      }
      r := CreateForGoogle(p, now);
    }

    /** Creating the account for claims `p` that no account knows. */
    method CreateForGoogle(p: GooglePayload, now: Dates.Timestamp) returns (r: Reply<Session>)
      requires Valid() && Dates.Valid(now)
      requires FindOne(docs, order, ByGoogleId(p.sub)).None? && FindOne(docs, order, ByEmail(p.email)).None?
      modifies this
      ensures Valid()
      ensures r.Failure? ==> docs == old(docs) && order == old(order) && nextId == old(nextId)
      ensures CreatedForGoogle(old(docs), old(order), old(nextId), docs, order, nextId, p, now, r, emailOk)
    {
      var created := NewGoogleUser(p, nextId, now);
      if created.None? {
        return Failure(500, GoogleFailedMessage);
      }
      var u := created.value;
      var taken := FindOne(docs, order, ByUsername(u.username));
      if Problems(u, emailOk) != [] || taken.Some? {
        return Failure(500, GoogleFailedMessage);
      }
      r := Success(200, Session(GoogleLoggedInMessage, Token(nextId), ToJson(u)));
      GoogleAccountStored(docs, order, nextId, emailOk, p, now);
      Add(u);
    }

    /** PUT `/profile` for the signed-in account `userId`. */
    method UpdateProfile(userId: Id, firstName: string, lastName: string, email: string) returns (r: Reply<PublicUser>)
      requires Valid() && userId in docs
      modifies this
      ensures Valid() && order == old(order) && nextId == old(nextId)
      ensures r.Failure? ==> docs == old(docs)
      ensures ProfileUpdated(old(docs), old(order), userId, firstName, lastName, email, docs, r, emailOk)
    {
      var current := docs[userId];
      if email != [] && email != current.email {
        var other := FindOne(docs, order, ByEmailOfOther(email, userId));
        if other.Some? {
          ProfileEmailRefused(docs, order, userId, firstName, lastName, email, emailOk);
          return Failure(400, EmailInUseMessage);
        }
      }
      var u := ProfileUpdate(current, firstName, lastName, email);
      var problems := Problems(u, emailOk);
      if problems != [] {
        ProfileInvalidRefused(docs, order, userId, firstName, lastName, email, emailOk);
        return Failure(400, JoinMessages(Messages(problems)));
      }
      ProfileStored(docs, order, nextId, emailOk, userId, firstName, lastName, email);
      Put(u);
      r := Success(200, ToJson(u));
    }

    /**
     * PUT `/change-password` for account `userId`: both passwords, a new one of at least 6
     * UTF-16 code units, an account that exists and is not Google-only, and the right current
     * password; then the new password is stored hashed.
     */
    method ChangePassword(userId: Id, current: string, newPassword: string) returns (r: Reply<string>)
      requires Valid()
      modifies this
      ensures Valid() && order == old(order) && nextId == old(nextId)
      ensures r.Failure? ==> docs == old(docs)
      ensures current == [] || newPassword == [] ==> r == Failure(400, PasswordsRequiredMessage)
      ensures current != [] && newPassword != [] && Utf16Length(newPassword) < 6 ==> r == Failure(400, TooShortMessage)
      ensures current != [] && Utf16Length(newPassword) >= 6 && userId !in old(docs) ==> r == Failure(500, ChangeErrorMessage)
      ensures current != [] && Utf16Length(newPassword) >= 6 && userId in old(docs) ==>
        var u := old(docs)[userId];
        && (u.password.None? && Present(u.googleId) ==> r == Failure(400, GoogleOnlyMessage))
        && (!(u.password.None? && Present(u.googleId)) && !ComparePassword(u, current) ==>
             r == Failure(401, WrongPasswordMessage))
        && (!(u.password.None? && Present(u.googleId)) && ComparePassword(u, current) ==>
             docs == old(docs)[userId := u.(password := Some(Hashed(newPassword)))] && r == Success(200, ChangedMessage))
    {
      if current == [] || newPassword == [] {
        return Failure(400, PasswordsRequiredMessage);
      }
      if Utf16Length(newPassword) < 6 {
        return Failure(400, TooShortMessage);
      }
      if userId !in docs {
        return Failure(500, ChangeErrorMessage);
      }
      var u := docs[userId];
      if u.password.None? && Present(u.googleId) {
        return Failure(400, GoogleOnlyMessage);
      }
      if !ComparePassword(u, current) {
        return Failure(401, WrongPasswordMessage);
      }
      var changed := u.(password := Some(Plain(newPassword)));
      PreSaveStores(changed, emailOk);
      var saved := PreSave(changed, true);
      SameKeysApart(docs, userId, saved);
      Put(saved);
      r := Success(200, ChangedMessage);
    }
  }
}

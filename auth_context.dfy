/**
 * The client's authentication state and its reducer. A user is the JSON object the server
 * returned, seen as a map from field names to values.
 */
module AuthContext {

  import opened Wrappers

  /** A JSON user object: field name to (uninterpreted) value. */
  type UserJson = map<string, string>

  datatype State = State(
    user: Option<UserJson>,
    token: Option<string>,
    isAuthenticated: bool,
    loading: bool,
    error: Option<string>)

  datatype Action =
    | AuthStart
    | AuthSuccess(user: UserJson, token: string)
    | AuthFail(failure: Option<string>)
    | Logout
    | ClearError
    | UpdateUser(fields: UserJson)
    | Unknown(name: string)

  /** `initialState`, with the token read from storage. */
  function Initial(stored: Option<string>): (s: State)
    ensures s.user.None? && s.token == stored && !s.isAuthenticated && s.loading && s.error.None?
  {
    State(None, stored, false, true, None)
  }

  /** `{ ...state.user, ...payload }`: spreading `null` gives no fields; the payload wins. */
  function Merge(user: Option<UserJson>, fields: UserJson): (r: UserJson)
    ensures forall k :: k in r <==> k in fields || (user.Some? && k in user.value)
    ensures forall k :: k in fields ==> r[k] == fields[k]
    ensures forall k :: user.Some? && k in user.value && k !in fields ==> r[k] == user.value[k]
  {
    user.GetOr(map[]) + fields
  }

  /** `authReducer`. */
  function Reduce(s: State, a: Action): (r: State)
    ensures a.AuthStart? ==> r == s.(loading := true, error := None)
    ensures a.AuthSuccess? ==>
      r == State(Some(a.user), Some(a.token), true, false, None)
    ensures a.AuthFail? ==> r == State(None, None, false, false, a.failure)
    ensures a.Logout? ==> r == State(None, None, false, s.loading, None)
    ensures a.ClearError? ==> r == s.(error := None)
    ensures a.UpdateUser? ==> r == s.(user := Some(Merge(s.user, a.fields)))
    ensures a.Unknown? ==> r == s
  {
    match a
    case AuthStart => s.(loading := true, error := None)
    case AuthSuccess(user, token) =>
      s.(loading := false, isAuthenticated := true, user := Some(user), token := Some(token), error := None)
    case AuthFail(failure) =>
      s.(loading := false, isAuthenticated := false, user := None, token := None, error := failure)
    case Logout => s.(isAuthenticated := false, user := None, token := None, error := None)
    case ClearError => s.(error := None)
    case UpdateUser(fields) => s.(user := Some(Merge(s.user, fields)))
    case Unknown(_) => s
  }

  /** Only a successful sign-in turns `isAuthenticated` on. */
  lemma OnlySuccessAuthenticates(s: State, a: Action)
    requires !s.isAuthenticated && Reduce(s, a).isAuthenticated
    ensures a.AuthSuccess?
  {
  }

  /** The state after a sequence of actions. */
  function Run(s: State, actions: seq<Action>): State
    decreases |actions|
  {
    if actions == [] then s else Run(Reduce(s, actions[0]), actions[1..])
  }

  /** Without a successful sign-in among the actions, a signed-out state stays signed out. */
  lemma {:induction false} NoSuccessNoSession(s: State, actions: seq<Action>)
    requires !s.isAuthenticated
    requires forall i :: 0 <= i < |actions| ==> !actions[i].AuthSuccess?
    ensures !Run(s, actions).isAuthenticated
    decreases |actions|
  {
    if actions != [] {
      NoSuccessNoSession(Reduce(s, actions[0]), actions[1..]);
    }
  }

  /** A signed-in state has a user and a token; every action keeps that so. */
  predicate SessionComplete(s: State) {
    s.isAuthenticated ==> s.user.Some? && s.token.Some?
  }

  lemma {:induction false} RunKeepsSessionComplete(s: State, actions: seq<Action>)
    requires SessionComplete(s)
    ensures SessionComplete(Run(s, actions))
    decreases |actions|
  {
    if actions != [] {
      RunKeepsSessionComplete(Reduce(s, actions[0]), actions[1..]);
    }
  }
}

/**
 * Signup. The password encoder and the token provider are parameters.
 */
module AuthService {

  import opened Base
  import opened Entities
  import opened Db

  datatype SignupRequest = SignupRequest(email: string, password: string, role: Option<UserRole>)

  datatype AuthResponse = AuthResponse(token: string, email: string, role: Option<UserRole>)

  /** The role a signup stores: the requested one, DEVELOPER when none is given. */
  function SignupRole(requested: Option<UserRole>): (r: UserRole)
    ensures requested.Some? ==> r == requested.value
    ensures requested.None? ==> r == Developer
  {
    if requested.Some? then requested.value else Developer
  }

  /**
   * `signup`: a registered email is refused and nothing is stored; otherwise
   * an active user with the encoded password and the signup role is stored,
   * found again by its email, and the response carries a token for that email.
   */
  method Signup(store: Store, request: SignupRequest, newId: Id, encode: string -> string, token: string -> string)
    returns (r: Result<AuthResponse>)
    requires store.Valid()
    requires newId !in store.users
    modifies store`users
    ensures store.Valid()
    ensures r.Err? <==> EmailTaken(old(store.users), request.email)
    ensures r.Err? ==> r.error == ValidationOf("email", "Email is already registered") && store.users == old(store.users)
    ensures r.Ok? ==>
      var u := User(newId, request.email, None, None, encode(request.password), Some(SignupRole(request.role)), None, true);
      store.users == old(store.users)[newId := u]
      && FindByEmail(store.users, request.email) == Some(u)
      && r.value == AuthResponse(token(request.email), request.email, Some(SignupRole(request.role)))
  {
    if EmailTaken(store.users, request.email) {
      return Err(ValidationOf("email", "Email is already registered"));
    }
    var u := User(newId, request.email, None, None, encode(request.password), Some(SignupRole(request.role)), None, true);
    AddUserKeepsUsersOk(store.users, u);
    AddUserKeepsReferences(store.users, store.organizations, store.projects, store.bugs, store.comments, u);
    store.users := store.users[newId := u];
    FindByEmailOfStored(store.users, u);
    return Ok(AuthResponse(token(u.email), u.email, u.role));
  }

  /** Once an email is registered, signing up with it again is refused. */
  lemma {:induction false} RegisteredEmailIsTaken(users: map<Id, User>, u: User)
    ensures EmailTaken(users[u.id := u], u.email)
  {
    assert users[u.id := u][u.id].email == u.email;
  }
}

/**
 * The login decision and the two route guards `requireAuth` and
 * `requireAdmin`. The password check (`bcrypt.compare`) is a parameter.
 */
module Auth {
  import opened Wrappers
  import opened Tables
  import opened Http

  /** `requireAuth`: `None` lets the handler run; otherwise the response sent instead. */
  function RequireAuth(user: Option<Principal>): (gate: Option<Outcome>)
    ensures gate.None? <==> user.Some?
    ensures gate.Some? ==> gate.value == Redirect(LoginPage)
  {
    if user.None? then Some(Redirect(LoginPage)) else None
  }

  /** `requireAdmin`: only a principal with the admin flag gets through. */
  function RequireAdmin(user: Option<Principal>): (gate: Option<Outcome>)
    ensures gate.None? <==> user.Some? && user.value.isAdmin
    ensures gate.None? ==> RequireAuth(user).None?
    ensures gate.Some? ==> gate.value == Text(403, "Admin only")
  {
    if user.None? || !user.value.isAdmin then Some(Text(403, "Admin only")) else None
  }

  /** `email` is a UNIQUE column of `users`. */
  predicate UniqueEmails(users: seq<User>) {
    forall i, j :: 0 <= i < j < |users| ==> users[i].email != users[j].email
  }

  /** `SELECT * FROM users WHERE email = ?`: the first row with that email, if any. */
  function FindByEmail(users: seq<User>, email: string): (u: Option<User>)
    ensures u.Some? ==> u.value in users && u.value.email == email
    ensures u.None? <==> forall i :: 0 <= i < |users| ==> users[i].email != email
  {
    if users == [] then None
    else if users[0].email == email then Some(users[0])
    else
      var rest := FindByEmail(users[1..], email);
      assert forall i :: 1 <= i < |users| ==> users[i] == users[1..][i - 1];
      rest
  }

  /** The session principal stored for an account. */
  function PrincipalOf(u: User): Principal {
    Principal(u.id, u.email, u.name, u.isAdmin)
  }

  /** The 401 page a failed login renders, whatever the reason. */
  const InvalidCredentials: Outcome := Render(401, "login", Some("Invalid credentials"))

  /** The response of `POST /login` and the principal it puts in the session, if any. */
  datatype LoginResult = LoginResult(outcome: Outcome, principal: Option<Principal>)

  /** `POST /login`. `matches(password, hash)` is `bcrypt.compare`. */
  function Authenticate(users: seq<User>, email: string, password: string, matches: (string, string) -> bool): (r: LoginResult)
    ensures r.principal.Some? <==>
      FindByEmail(users, email).Some? && matches(password, FindByEmail(users, email).value.passwordHash)
    ensures r.principal.Some? ==> r.principal.value == PrincipalOf(FindByEmail(users, email).value)
    ensures r.principal.Some? ==> r.outcome == Redirect(Home)
    ensures r.principal.None? ==> r == LoginResult(InvalidCredentials, None)
  {
    match FindByEmail(users, email)
    case None => LoginResult(InvalidCredentials, None)
    case Some(u) =>
      if !matches(password, u.passwordHash) then LoginResult(InvalidCredentials, None)
      else LoginResult(Redirect(Home), Some(PrincipalOf(u)))
  }

  /** An unknown email and a wrong password give the same response and leave the
      session alike. */
  lemma LoginFailuresAlike(users1: seq<User>, users2: seq<User>, email: string, password: string, matches: (string, string) -> bool)
    requires forall i :: 0 <= i < |users1| ==> users1[i].email != email
    requires forall i :: 0 <= i < |users2| && users2[i].email == email ==> !matches(password, users2[i].passwordHash)
    ensures Authenticate(users1, email, password, matches) == Authenticate(users2, email, password, matches)
  {
  }

  /** With unique emails, a login whose password matches the account with that
      email signs in as exactly that account. */
  lemma LoginSignsInAccount(users: seq<User>, email: string, password: string, matches: (string, string) -> bool, i: nat)
    requires UniqueEmails(users)
    requires i < |users| && users[i].email == email && matches(password, users[i].passwordHash)
    ensures Authenticate(users, email, password, matches) == LoginResult(Redirect(Home), Some(PrincipalOf(users[i])))
  {
    var u := FindByEmail(users, email);
    var j :| 0 <= j < |users| && users[j] == u.value;
    assert j == i;
  }
}

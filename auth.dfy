/**
 * The credential store (the `user` table) and the login decision: a session
 * is Anonymous or Authenticated as one user, and a login form submission
 * moves it from the first state to the second only for a user whose name
 * matches exactly and whose stored hash verifies the password.
 */
module Auth {
  import opened Forms

  /** One row of the `user` table, without its id (the key it is stored under). */
  datatype User = User(username: string, passwordHash: string)

  type Users = map<int, User>

  /**
   * `check_password_hash(hash, password)`, left uninterpreted: a salted one-way
   * hash comparison that the model does not look inside.
   */
  type PasswordCheck = (string, string) -> bool

  /** What the session cookie says about the client. */
  datatype Session = Anonymous | Authenticated(userId: int)

  /** A request to the login route: the GET that shows the form, or the POST of it. */
  datatype LoginRequest = ShowForm | Submit(username: Field, password: Field)

  /** How the login route answers. */
  datatype LoginResult = AlreadySignedIn | SignedIn | InvalidCredentials | FormShown

  datatype LoginResponse = LoginResponse(result: LoginResult, session: Session)

  /** The credential pair seeded at first boot. */
  const DefaultUsername: string := "admin"
  const DefaultPassword: string := "password123"

  /** The `unique=True` constraint on `username`. */
  ghost predicate UniqueUsernames(users: Users)
  {
    forall a, b :: a in users && b in users && users[a].username == users[b].username ==> a == b
  }

  /** Some user is called exactly `username` and its stored hash verifies `password`. */
  ghost predicate Verifies(users: Users, username: string, password: string, check: PasswordCheck)
  {
    exists k :: k in users && users[k].username == username && check(users[k].passwordHash, password)
  }

  /**
   * `User.query.filter_by(username=name).first()`: the id of the user whose
   * name is exactly `name`, if there is one. With usernames unique there is
   * at most one candidate, so which row is "first" does not matter.
   */
  function FindUser(users: Users, name: string): (r: Option<int>)
    requires UniqueUsernames(users)
    ensures r.Some? <==> exists k :: k in users && users[k].username == name
    ensures r.Some? ==> r.value in users && users[r.value].username == name
  {
    if exists k :: k in users && users[k].username == name then
      var k :| k in users && users[k].username == name;
      Some(k)
    else
      None
  }

  /**
   * The decision made by the login route. An authenticated session
   * short-circuits; the GET only shows the form; a submission signs in the
   * user found by exact name when the password verifies, and otherwise
   * leaves the session Anonymous. An absent username matches no row (the
   * column is NOT NULL); an absent password never signs in (the hash check
   * would raise).
   */
  function LoginStep(s: Session, req: LoginRequest, users: Users, check: PasswordCheck): (r: LoginResponse)
    requires UniqueUsernames(users)
    ensures s.Authenticated? ==> r == LoginResponse(AlreadySignedIn, s)
    ensures s.Anonymous? && req.ShowForm? ==> r == LoginResponse(FormShown, Anonymous)
    ensures s.Anonymous? && req.Submit? ==>
              (r.session.Authenticated? <==>
                 req.username.Some? && req.password.Some? &&
                 Verifies(users, req.username.value, req.password.value, check))
    ensures s.Anonymous? && r.session.Anonymous? ==> r.result in {FormShown, InvalidCredentials}
    ensures s.Anonymous? && req.Submit? && r.session.Anonymous? ==> r.result == InvalidCredentials
    ensures s.Anonymous? && r.session.Authenticated? ==>
              && r.result == SignedIn
              && req.Submit? && req.username.Some? && req.password.Some?
              && r.session.userId in users
              && users[r.session.userId].username == req.username.value
              && check(users[r.session.userId].passwordHash, req.password.value)
  {
    if s.Authenticated? then
      LoginResponse(AlreadySignedIn, s)
    else
      match req
      case ShowForm => LoginResponse(FormShown, Anonymous)
      case Submit(username, password) =>
        var found := if username.Some? then FindUser(users, username.value) else None;
        if found.Some? && password.Some? && check(users[found.value].passwordHash, password.value) then
          LoginResponse(SignedIn, Authenticated(found.value))
        else
          LoginResponse(InvalidCredentials, Anonymous)
  }

  /**
   * First-boot seeding: when the user table is empty, one user named
   * "admin" is created with the given hash (the hash of the default password
   * under a fresh salt) and receives the first id; otherwise nothing changes.
   */
  function SeedStep(users: Users, hash: string): (r: Users)
    ensures users == map[] ==> r.Keys == {1} && r[1] == User(DefaultUsername, hash)
    ensures users != map[] ==> r == users
    ensures UniqueUsernames(users) ==> UniqueUsernames(r)
  {
    if users == map[] then map[1 := User(DefaultUsername, hash)] else users
  }

  /** Seeding happens at most once: a second boot keeps the first admin, whatever salt it uses. */
  lemma SeedOnce(users: Users, hash: string, hash': string)
    ensures SeedStep(SeedStep(users, hash), hash') == SeedStep(users, hash)
  {
  }

  /** After the first boot, the default credentials sign in, and only if the stored hash verifies them. */
  lemma DefaultAdminSignsIn(hash: string, password: string, check: PasswordCheck)
    ensures UniqueUsernames(SeedStep(map[], hash))
    ensures LoginStep(Anonymous, Submit(Some(DefaultUsername), Some(password)), SeedStep(map[], hash), check)
            == if check(hash, password) then LoginResponse(SignedIn, Authenticated(1))
               else LoginResponse(InvalidCredentials, Anonymous)
  {
  }

  /** The seeded pair itself: when the stored hash verifies the default password, `admin` signs in as user 1. */
  lemma DefaultCredentialsSignIn(hash: string, check: PasswordCheck)
    requires check(hash, DefaultPassword)
    ensures UniqueUsernames(SeedStep(map[], hash))
    ensures LoginStep(Anonymous, Submit(Some(DefaultUsername), Some(DefaultPassword)), SeedStep(map[], hash), check)
            == LoginResponse(SignedIn, Authenticated(1))
  {
    DefaultAdminSignsIn(hash, DefaultPassword, check);
  }

  /** The `user` table, which only the first-boot seeding writes. */
  class UserTable {
    var users: Users

    ghost predicate Valid()
      reads this
    {
      UniqueUsernames(users)
    }

    /** Opens the table with the rows already persisted. */
    constructor Open(persisted: Users)
      requires UniqueUsernames(persisted)
      ensures Valid() && users == persisted
    {
      users := persisted;
    }

    /** `if not User.query.first(): ... db.session.add(admin); db.session.commit()` */
    method SeedDefaultAdmin(hash: string)
      requires Valid()
      modifies this
      ensures Valid()
      ensures users == SeedStep(old(users), hash)
    {
      if users == map[] {
        var admin := User(DefaultUsername, hash);
        users := users[1 := admin];
      }
    }
  }

  /** The session of one client, as Flask-Login keeps it. */
  class UserSession {
    var state: Session

    constructor ()
      ensures state == Anonymous
    {
      state := Anonymous;
    }

    /** The login route. */
    method Login(req: LoginRequest, users: Users, check: PasswordCheck) returns (result: LoginResult)
      requires UniqueUsernames(users)
      modifies this
      ensures LoginResponse(result, state) == LoginStep(old(state), req, users, check)
    {
      if state.Authenticated? {
        return AlreadySignedIn;
      }
      if req.ShowForm? {
        return FormShown;
      }
      var username, password := req.username, req.password;
      if username.Some? && exists k :: k in users && users[k].username == username.value {
        var k :| k in users && users[k].username == username.value;
        if password.Some? && check(users[k].passwordHash, password.value) {
          state := Authenticated(k);
          return SignedIn;
        }
      }
      result := InvalidCredentials;
    }

    /** The logout route: whether or not a user was signed in, the session ends Anonymous. */
    method Logout()
      modifies this
      ensures state == Anonymous
    {
      state := Anonymous;
    }
  }
}

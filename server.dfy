/**
 * The application as a whole: the persisted user and employee tables and one
 * client's session, answering requests one at a time. Every route that
 * touches employees sits behind the login guard, so a client that never
 * signs in changes nothing, and the checks of the handlers keep the
 * uniqueness of emails in every state the application can reach.
 */
module Server {
  import opened Forms
  import opened Auth
  import opened Employees

  /** The routes that change state. */
  datatype Request =
    | Login(login: LoginRequest)
    | Logout
    | Add(form: EmployeeForm)
    | Edit(id: int, form: EmployeeForm)
    | Delete(id: int)

  datatype State = State(users: Users, session: Session, db: Db)

  /** The constraints of both tables hold, and a signed-in session names an existing user. */
  ghost predicate Good(st: State)
  {
    && UniqueUsernames(st.users)
    && Inv(st.db)
    && (st.session.Authenticated? ==> st.session.userId in st.users)
  }

  /** Process start: seed the user table if it is empty; clients start Anonymous. */
  function Boot(users: Users, db: Db, hash: string): (st: State)
    requires UniqueUsernames(users) && Inv(db)
    ensures Good(st) && st.session == Anonymous && st.db == db
    ensures users == map[] ==> st.users == map[1 := User(DefaultUsername, hash)]
    ensures users != map[] ==> st.users == users
  {
    State(SeedStep(users, hash), Anonymous, db)
  }

  /** One request. The login and logout routes touch only the session; the others only the employees. */
  function Handle(st: State, req: Request, parse: NumberParser, check: PasswordCheck): (r: State)
    requires Good(st)
    ensures Good(r) && r.users == st.users
    ensures req.Login? || req.Logout? ==> r.db == st.db
    ensures !req.Login? && !req.Logout? ==> r.session == st.session
    ensures req.Logout? ==> r.session == Anonymous
    ensures !req.Login? && st.session.Anonymous? ==> r.db == st.db && r.session == Anonymous
  {
    match req
    case Login(login) => st.(session := LoginStep(st.session, login, st.users, check).session)
    case Logout => st.(session := Anonymous)
    case Add(f) => st.(db := AddStep(st.db, st.session, f, parse).db)
    case Edit(id, f) => st.(db := UpdateStep(st.db, st.session, id, f, parse).db)
    case Delete(id) => st.(db := DeleteStep(st.db, st.session, id).db)
  }

  /** A sequence of requests, each seeing what the previous one committed. */
  function Run(st: State, reqs: seq<Request>, parse: NumberParser, check: PasswordCheck): (r: State)
    requires Good(st)
    ensures Good(r) && r.users == st.users
    decreases |reqs|
  {
    if reqs == [] then st else Run(Handle(st, reqs[0], parse, check), reqs[1..], parse, check)
  }

  /** The email constraint is never violated, however many requests are served after boot. */
  lemma EmailsStayUnique(users: Users, db: Db, hash: string, reqs: seq<Request>, parse: NumberParser, check: PasswordCheck)
    requires UniqueUsernames(users) && Inv(db)
    ensures UniqueEmails(Run(Boot(users, db, hash), reqs, parse, check).db.table)
  {
  }

  /** A client that never submits the login form cannot change any employee, whatever it sends. */
  lemma {:induction false} AnonymousCannotWrite(st: State, reqs: seq<Request>, parse: NumberParser, check: PasswordCheck)
    requires Good(st) && st.session.Anonymous?
    requires forall i :: 0 <= i < |reqs| ==> !reqs[i].Login?
    ensures Run(st, reqs, parse, check).db == st.db
    ensures Run(st, reqs, parse, check).session == Anonymous
    decreases |reqs|
  {
    if reqs != [] {
      var next := Handle(st, reqs[0], parse, check);
      assert forall i :: 0 <= i < |reqs[1..]| ==> reqs[1..][i] == reqs[i + 1];
      AnonymousCannotWrite(next, reqs[1..], parse, check);
    }
  }
}

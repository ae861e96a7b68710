# Employee records with login: a verified model

This project models the logic of a small Flask application that keeps a
table of employees (name, position, department, email, salary) behind a
username/password login. Everything the application decides by itself is
here: which form submissions the add and edit routes accept and which error
they report, what the add, edit and delete routes write, who may reach them,
when the login route signs a client in, and the seeding of a default
`admin` user at first boot.

- `forms.dfy` (module `Forms`): a submitted field (`Option<string>`), Python
  truthiness of a field (`Present`: absent and `""` are false, whitespace is
  true), and the salary conversion, where Python's `float` is a parser given
  as a parameter.
- `auth.dfy` (module `Auth`): the `user` table, the session
  (`Anonymous | Authenticated(userId)`), the login decision `LoginStep`, the
  seeding `SeedStep`, and the classes `UserTable` and `UserSession` that
  perform them in place. Password hashing is a parameter
  (`PasswordCheck`), never looked inside.
- `employees.dfy` (module `Employees`): the `employee` table as a map from id
  to row with a next-id counter, its invariant `Inv` (ids below the counter,
  non-empty name and email, at most one employee per email), the shared
  validation `Validate`, and the three routes as functions `AddStep`,
  `UpdateStep`, `DeleteStep` from the table before to a result code and the
  table after.
- `employee_store.dfy` (module `EmployeeStore`): class `Store` holding the
  map and the counter; its methods `Add`, `Update`, `Delete` run the checks
  in the source's order with early returns and are proved to do exactly what
  the step functions say. `AnnAndBobOnStore` is a client that walks through
  a short session using only the methods' contracts.
- `server.dfy` (module `Server`): the application serving a sequence of
  requests; the invariants of both tables hold after any sequence, and a
  client that never submits the login form changes no employee.

Result codes (`Success`, `Unauthenticated`, `NotFound`,
`MissingRequiredField`, `DuplicateEmail`, `InvalidNumber`) stand in for the
flash messages and redirects.

The model follows the code where it is more lenient than its field names suggest:
- the required-field test is Python truthiness with no trimming, so a name
  or email made only of whitespace is accepted (`Employees.BlankIsNotMissing`);
- `position` is not checked at all: an empty position is stored;
- the salary conversion is whatever `float` accepts, which includes `nan`
  and `inf`; the model leaves the parser uninterpreted, so it covers those.

## Model

| member | source | states |
|---|---|---|
| Auth.FindUser | app.py:75 | the lookup by username finds a user exactly when one has that exact name, and the id it returns is that user's |
| Auth.LoginStep | app.py:68-84 | a signed-in session short-circuits unchanged; a GET only shows the form; a submission signs in iff username and password are present and some user with exactly that name has a hash that verifies the password, the session then naming that user; every other submission answers InvalidCredentials and leaves the session Anonymous |
| Auth.SeedStep | app.py:57-62 | an empty user table receives one user `admin` with the given hash under id 1; a non-empty table is left alone; username uniqueness is preserved |
| Auth.SeedOnce | app.py:58 | seeding twice is seeding once, even with a different salt: the admin is created at most once |
| Auth.DefaultAdminSignsIn | app.py:58-84 | after the first boot, `admin` with a password signs in as user 1 iff the stored hash verifies that password, and otherwise stays Anonymous |
| Auth.DefaultCredentialsSignIn | app.py:58-78 | when the stored hash verifies the default password, the seeded pair `admin`/`password123` signs in as user 1 |
| Auth.UserTable.Open | app.py:54-55 | opening the database keeps the persisted users, whose names are unique |
| Auth.UserTable.SeedDefaultAdmin | app.py:57-62 | the table after seeding is SeedStep of the table before, and usernames stay unique |
| Auth.UserSession.constructor | app.py:16-18 | a new client starts Anonymous |
| Auth.UserSession.Login | app.py:67-84 | the result and the new session are exactly those of LoginStep on the old session |
| Auth.UserSession.Logout | app.py:86-90 | after logout the session is Anonymous, whether or not anyone was signed in |
| Employees.FirstHolderDecides | app.py:152-153 | under email uniqueness, "the first holder of the email has a different id" is the same test as "some other employee holds the email", and on add any holder is a conflict |
| Employees.Validate | app.py:104-121 | the three checks in order: MissingRequiredField iff name or email is absent or empty; DuplicateEmail iff both are present and another employee holds the email; InvalidNumber iff both pass and a non-empty salary does not parse; otherwise the record carries the submitted fields verbatim and the salary, 0.0 when the field is absent or empty |
| Employees.BlankIsNotMissing | app.py:108 | every non-empty name and email made only of whitespace pass the required-field check: nothing is trimmed |
| Employees.AddStep | app.py:100-134 | without a session: Unauthenticated and nothing written; any failed check returns its code with the table unchanged; on success exactly one row is inserted under a fresh id, every other row is untouched, that row is the only one with the email, and the invariant (email uniqueness included) is kept |
| Employees.UpdateStep | app.py:138-172 | without a session: Unauthenticated; an unknown id is NotFound whatever the form holds; a failed check returns its code with the table unchanged; on success only the edited id is rewritten, with all five fields from the form, the set of ids and the counter stay the same, and the invariant is kept |
| Employees.DeleteStep | app.py:176-185 | without a session: Unauthenticated; otherwise Success iff the id exists, NotFound and no change otherwise; on success exactly that id is removed, every other row is untouched, and the invariant is kept |
| Employees.AddRejectsHeldEmail | app.py:112-114 | adding with an email any employee already holds gives DuplicateEmail and the same table, whatever the salary field says |
| Employees.UpdateKeepsOwnEmail | app.py:152-155 | editing a record while keeping its own email (with a valid name and salary) succeeds and the email is kept |
| Employees.UpdateRejectsOthersEmail | app.py:153-155 | editing a record to take the email of a different record gives DuplicateEmail and the same table |
| Employees.AnnAndBob | app.py:102-185 | the walk-through: Ann is added under id 1; Bob with Ann's email is rejected before his salary is parsed; Ann's email changes; deleting Ann empties the table |
| EmployeeStore.Store.constructor | app.py:54-55 | a fresh database is empty, ids start at 1, and the invariant holds |
| EmployeeStore.Store.Add | app.py:102-134 | the code returned and the new table and counter are exactly AddStep of the old ones; the invariant is kept |
| EmployeeStore.Store.Update | app.py:140-172 | the code returned and the new table are exactly UpdateStep of the old ones; the invariant is kept |
| EmployeeStore.Store.Delete | app.py:178-185 | the code returned and the new table are exactly DeleteStep of the old ones; the invariant is kept |
| Server.Boot | app.py:54-62 | at start the user table is seeded if empty, the employees are the persisted ones and the client is Anonymous; both tables' constraints hold |
| Server.Handle | app.py:67-185 | one request keeps both tables' constraints; login and logout touch only the session, the employee routes only the employees; an Anonymous client that does not log in changes nothing |
| Server.Run | app.py:67-185 | any sequence of requests keeps both tables' constraints and never changes the user table |
| Server.EmailsStayUnique | app.py:44 | after boot and any sequence of requests, no two employees share an email: the handlers' own checks keep the column constraint |
| Server.AnonymousCannotWrite | app.py:86-185 | a client that starts Anonymous and never submits the login form leaves every employee as it was and stays Anonymous |

## Left out

- HTML rendering, routing, `flash` messages and redirects: replaced by result codes.
- The listing route (`index`) and the GET of the edit form: they only read and render; the edit form's lookup of an unknown id is the same NotFound as its POST.
- SQLite and SQLAlchemy persistence, `db.create_all`, `commit` and the configuration: the tables are in-memory maps.
- Python's `float` and floating-point salaries: the parser is a parameter and salaries are `real`.
- Werkzeug's `generate_password_hash` and `check_password_hash`: the hash of the default password is a parameter of the seeding, and the check is a parameter of login.
- Flask-Login plumbing (`load_user`, cookies): the session is the two-state value `Session`; no user is ever deleted, so a signed-in session always names an existing user.
- `request.form['position']` and `['department']` raising when the field is absent: both are always present in `EmployeeForm`, possibly empty.
- An absent password on the login form: Werkzeug would raise on it; the model gives InvalidCredentials, so either way the session stays Anonymous.
- A NULL `password_hash` (the column allows it): every user carries a hash, as the seeding creates it.
- Id allocation: SQLite gives a new row the largest id plus one and may reuse the id of a deleted last row; the model uses a counter that only grows. Both give an id no current row has, which is all the properties use.
- Column lengths (`String(20)`, `String(100)`): SQLite does not enforce them, and neither does the model.
- Concurrent requests racing on the same email: requests are served one at a time.
- The startup `print` of the default credentials and `app.run(debug=True)`.

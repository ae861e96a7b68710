/**
 * The employee records and the rules of the three handlers that change them:
 * add, edit and delete. Each handler is given here as a function from the
 * table before the request to a result code and the table after it; the
 * class in EmployeeStore performs the same steps in place.
 */
module Employees {
  import opened Forms
  import opened Auth

  /** One row of the `employee` table, without its id (the key it is stored under). */
  datatype Employee = Employee(name: string, position: string, department: string, email: string, salary: real)

  /**
   * What the add and edit forms submit. Name, email and salary are read with
   * `request.form.get` and may be absent; position and department are read
   * with `request.form[...]` and are always present, possibly empty.
   */
  datatype EmployeeForm = EmployeeForm(name: Field, email: Field, salary: Field, position: string, department: string)

  /** The result of a handler, in place of its flash message and redirect. */
  datatype Code = Success | Unauthenticated | NotFound | MissingRequiredField | DuplicateEmail | InvalidNumber

  type Table = map<int, Employee>

  /** The persisted employees and the id the next insertion receives. */
  datatype Db = Db(table: Table, nextId: int)

  datatype Response = Response(code: Code, db: Db)

  /** The result of the shared validation: the record to write, or the code of the first failed check. */
  datatype Verdict = Accept(record: Employee) | Reject(code: Code)

  /** The `unique=True` constraint on `email`: at most one employee per email. */
  ghost predicate UniqueEmails(t: Table)
  {
    forall a, b :: a in t && b in t && t[a].email == t[b].email ==> a == b
  }

  /**
   * What every reachable table satisfies: ids are positive and below the
   * next id, every row passed the required-field check, and emails are unique.
   */
  ghost predicate Inv(db: Db)
  {
    && 0 < db.nextId
    && (forall k :: k in db.table ==> 0 < k < db.nextId)
    && (forall k :: k in db.table ==> db.table[k].name != "" && db.table[k].email != "")
    && UniqueEmails(db.table)
  }

  /** A fresh database: no employees, ids start at 1. */
  const EmptyDb: Db := Db(map[], 1)

  /**
   * Some employee other than `self` holds `email`. Add passes None (any
   * holder is a conflict); edit passes the id being edited, so a record may
   * keep its own email.
   */
  predicate EmailTaken(t: Table, email: string, self: Option<int>)
  {
    exists k :: k in t && t[k].email == email && Some(k) != self
  }

  /**
   * The edit handler asks for the first employee holding the email and
   * rejects when that employee's id differs from the edited one. Under the
   * uniqueness constraint the holder is the only one, so that test is exactly
   * EmailTaken; and when nobody holds the email, nothing is taken.
   */
  lemma FirstHolderDecides(t: Table, email: string, holder: int, id: int)
    requires UniqueEmails(t)
    requires holder in t && t[holder].email == email
    ensures EmailTaken(t, email, Some(id)) <==> holder != id
    ensures EmailTaken(t, email, None)
  {
  }

  /**
   * The checks shared by add and edit, in the order both handlers run them:
   * required fields, then email uniqueness, then the salary conversion. The
   * first failing check decides the code; the later ones are not consulted.
   */
  function Validate(t: Table, self: Option<int>, f: EmployeeForm, parse: NumberParser): (r: Verdict)
    ensures r == Reject(MissingRequiredField) <==> !Present(f.name) || !Present(f.email)
    ensures r == Reject(DuplicateEmail) <==>
              Present(f.name) && Present(f.email) && EmailTaken(t, f.email.value, self)
    ensures r == Reject(InvalidNumber) <==>
              && Present(f.name) && Present(f.email) && !EmailTaken(t, f.email.value, self)
              && Present(f.salary) && parse(f.salary.value).None?
    ensures r.Reject? ==> r.code in {MissingRequiredField, DuplicateEmail, InvalidNumber}
    ensures r.Accept? ==>
              && Present(f.name) && r.record.name == f.name.value
              && Present(f.email) && r.record.email == f.email.value
              && r.record.position == f.position
              && r.record.department == f.department
              && !EmailTaken(t, r.record.email, self)
    ensures r.Accept? ==>
              r.record.salary == if Present(f.salary) then parse(f.salary.value).value else 0.0
  {
    if !Present(f.name) || !Present(f.email) then
      Reject(MissingRequiredField)
    else if EmailTaken(t, f.email.value, self) then
      Reject(DuplicateEmail)
    else
      match ParseSalary(f.salary, parse)
      case None => Reject(InvalidNumber)
      case Some(salary) => Accept(Employee(f.name.value, f.position, f.department, f.email.value, salary))
  }

  /** A non-empty string made only of whitespace. */
  predicate Blank(s: string)
  {
    |s| > 0 && forall i :: 0 <= i < |s| ==> s[i] in " \t\n\r"
  }

  /** No trimming: any name and email made only of whitespace pass the required-field check. */
  lemma BlankIsNotMissing(t: Table, self: Option<int>, f: EmployeeForm, parse: NumberParser)
    requires f.name.Some? && Blank(f.name.value) && f.email.Some? && Blank(f.email.value)
    ensures Validate(t, self, f, parse) != Reject(MissingRequiredField)
  {
  }

  /** The add handler, behind the login guard. */
  function AddStep(db: Db, s: Session, f: EmployeeForm, parse: NumberParser): (r: Response)
    requires Inv(db)
    ensures Inv(r.db)
    ensures !s.Authenticated? ==> r == Response(Unauthenticated, db)
    ensures s.Authenticated? ==>
              match Validate(db.table, None, f, parse)
              case Reject(c) => r == Response(c, db)
              case Accept(e) => r.code == Success && db.nextId in r.db.table && r.db.table[db.nextId] == e
    ensures r.code != Success ==> r.db == db
    ensures r.code == Success ==>
              && db.nextId !in db.table
              && r.db.table.Keys == db.table.Keys + {db.nextId}
              && r.db.nextId > db.nextId
              && (forall k :: k in db.table ==> r.db.table[k] == db.table[k])
              && (forall k :: k in r.db.table ==> (r.db.table[k].email == f.email.value <==> k == db.nextId))
  {
    if !s.Authenticated? then
      Response(Unauthenticated, db)
    else
      match Validate(db.table, None, f, parse)
      case Reject(c) => Response(c, db)
      case Accept(e) => Response(Success, Db(db.table[db.nextId := e], db.nextId + 1))
  }

  /** The edit handler, behind the login guard. */
  function UpdateStep(db: Db, s: Session, id: int, f: EmployeeForm, parse: NumberParser): (r: Response)
    requires Inv(db)
    ensures Inv(r.db)
    ensures !s.Authenticated? ==> r == Response(Unauthenticated, db)
    ensures s.Authenticated? && id !in db.table ==> r == Response(NotFound, db)
    ensures s.Authenticated? && id in db.table ==>
              match Validate(db.table, Some(id), f, parse)
              case Reject(c) => r == Response(c, db)
              case Accept(e) => r.code == Success && id in r.db.table && r.db.table[id] == e
    ensures r.code != Success ==> r.db == db
    ensures r.code == Success ==>
              && id in db.table
              && r.db.table.Keys == db.table.Keys
              && r.db.nextId == db.nextId
              && (forall k :: k in db.table && k != id ==> r.db.table[k] == db.table[k])
  {
    if !s.Authenticated? then
      Response(Unauthenticated, db)
    else if id !in db.table then
      Response(NotFound, db)
    else
      match Validate(db.table, Some(id), f, parse)
      case Reject(c) => Response(c, db)
      case Accept(e) => Response(Success, db.(table := db.table[id := e]))
  }

  /** The delete handler, behind the login guard. */
  function DeleteStep(db: Db, s: Session, id: int): (r: Response)
    requires Inv(db)
    ensures Inv(r.db)
    ensures !s.Authenticated? ==> r == Response(Unauthenticated, db)
    ensures s.Authenticated? ==> (r.code == Success <==> id in db.table)
    ensures s.Authenticated? && id !in db.table ==> r.code == NotFound
    ensures r.code != Success ==> r.db == db
    ensures r.code == Success ==>
              && r.db.table.Keys == db.table.Keys - {id}
              && r.db.nextId == db.nextId
              && (forall k :: k in r.db.table ==> r.db.table[k] == db.table[k])
  {
    if !s.Authenticated? then
      Response(Unauthenticated, db)
    else if id !in db.table then
      Response(NotFound, db)
    else
      Response(Success, db.(table := db.table - {id}))
  }

  /** Adding an email any employee already holds fails, whatever the salary says, and writes nothing. */
  lemma AddRejectsHeldEmail(db: Db, s: Session, f: EmployeeForm, parse: NumberParser, holder: int)
    requires Inv(db) && s.Authenticated?
    requires Present(f.name) && holder in db.table && f.email == Some(db.table[holder].email)
    ensures AddStep(db, s, f, parse) == Response(DuplicateEmail, db)
  {
  }

  /** Editing a record while keeping its own email passes the uniqueness check. */
  lemma UpdateKeepsOwnEmail(db: Db, s: Session, id: int, f: EmployeeForm, parse: NumberParser)
    requires Inv(db) && s.Authenticated?
    requires id in db.table && Present(f.name) && f.email == Some(db.table[id].email)
    requires ParseSalary(f.salary, parse).Some?
    ensures UpdateStep(db, s, id, f, parse).code == Success
    ensures UpdateStep(db, s, id, f, parse).db.table[id].email == db.table[id].email
  {
  }

  /** Editing a record to take the email of a different record fails, and writes nothing. */
  lemma UpdateRejectsOthersEmail(db: Db, s: Session, id: int, other: int, f: EmployeeForm, parse: NumberParser)
    requires Inv(db) && s.Authenticated?
    requires id in db.table && other in db.table && other != id
    requires Present(f.name) && f.email == Some(db.table[other].email)
    ensures UpdateStep(db, s, id, f, parse) == Response(DuplicateEmail, db)
  {
  }

  /**
   * The walk-through: add Ann; adding Bob under Ann's email fails before
   * Bob's salary is even read; Ann changes her email; Ann is deleted and the
   * table is empty again.
   */
  lemma AnnAndBob(s: Session, parse: NumberParser)
    requires s.Authenticated? && parse("50000") == Some(50000.0)
    ensures
      var ann := EmployeeForm(Some("Ann"), Some("ann@x.com"), Some("50000"), "Eng", "R&D");
      var bob := EmployeeForm(Some("Bob"), Some("ann@x.com"), Some("60000"), "Eng", "R&D");
      var ann2 := ann.(email := Some("ann2@x.com"));
      var r1 := AddStep(EmptyDb, s, ann, parse);
      var r2 := AddStep(r1.db, s, bob, parse);
      var r3 := UpdateStep(r2.db, s, 1, ann2, parse);
      var r4 := DeleteStep(r3.db, s, 1);
      && r1.code == Success && r1.db.table == map[1 := Employee("Ann", "Eng", "R&D", "ann@x.com", 50000.0)]
      && r2 == Response(DuplicateEmail, r1.db)
      && r3.code == Success && r3.db.table == map[1 := Employee("Ann", "Eng", "R&D", "ann2@x.com", 50000.0)]
      && r4.code == Success && r4.db.table == map[]
  {
  }
}

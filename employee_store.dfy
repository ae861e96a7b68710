/**
 * The employee table as the handlers change it in place: a map from id to
 * row and the id the next insertion receives. Each handler runs its checks
 * in the source's order and returns before any write when one fails.
 */
module EmployeeStore {
  import opened Forms
  import opened Auth
  import opened Employees

  class Store {
    var employees: Table
    var nextId: int

    ghost predicate Valid()
      reads this
    {
      Inv(Db(employees, nextId))
    }

    /** The table and id counter as a value, for the specifications. */
    function Snapshot(): Db
      reads this
    {
      Db(employees, nextId)
    }

    /** A fresh database. */
    constructor ()
      ensures Valid() && Snapshot() == EmptyDb
    {
      employees := map[];
      nextId := 1;
    }

    /** The add route (POST), behind the login guard. */
    method Add(s: Session, f: EmployeeForm, parse: NumberParser) returns (code: Code)
      requires Valid()
      modifies this
      ensures Valid()
      ensures Response(code, Snapshot()) == AddStep(old(Snapshot()), s, f, parse)
    {
      if !s.Authenticated? {
        return Unauthenticated;
      }
      var name, email, salaryInput := f.name, f.email, f.salary;
      if !Present(name) || !Present(email) {
        return MissingRequiredField;
      }
      if EmailTaken(employees, email.value, None) {
        return DuplicateEmail;
      }
      var salary := ParseSalary(salaryInput, parse);
      if salary.None? {
        return InvalidNumber;
      }
      var newEmployee := Employee(name.value, f.position, f.department, email.value, salary.value);
      employees := employees[nextId := newEmployee];
      nextId := nextId + 1;
      code := Success;
    }

    /** The edit route (POST), behind the login guard. */
    method Update(s: Session, id: int, f: EmployeeForm, parse: NumberParser) returns (code: Code)
      requires Valid()
      modifies this
      ensures Valid()
      ensures Response(code, Snapshot()) == UpdateStep(old(Snapshot()), s, id, f, parse)
    {
      if !s.Authenticated? {
        return Unauthenticated;
      }
      if id !in employees {
        return NotFound;
      }
      var employee := employees[id];
      var name, email, salaryInput := f.name, f.email, f.salary;
      if !Present(name) || !Present(email) {
        return MissingRequiredField;
      }
      if EmailTaken(employees, email.value, Some(id)) {
        return DuplicateEmail;
      }
      var salary := ParseSalary(salaryInput, parse);
      if salary.None? {
        return InvalidNumber;
      }
      employee := employee.(name := name.value);
      employee := employee.(position := f.position);
      employee := employee.(department := f.department);
      employee := employee.(email := email.value);
      employee := employee.(salary := salary.value);
      employees := employees[id := employee];
      code := Success;
    }

    /** The delete route, behind the login guard. */
    method Delete(s: Session, id: int) returns (code: Code)
      requires Valid()
      modifies this
      ensures Valid()
      ensures Response(code, Snapshot()) == DeleteStep(old(Snapshot()), s, id)
    {
      if !s.Authenticated? {
        return Unauthenticated;
      }
      if id !in employees {
        return NotFound;
      }
      employees := employees - {id};
      code := Success;
    }
  }

  /** The walk-through run against the store itself, seen only through the methods' contracts. */
  method AnnAndBobOnStore(parse: NumberParser)
    requires parse("50000") == Some(50000.0)
  {
    var store := new Store();
    var admin := Authenticated(1);
    var ann := EmployeeForm(Some("Ann"), Some("ann@x.com"), Some("50000"), "Eng", "R&D");
    var bob := EmployeeForm(Some("Bob"), Some("ann@x.com"), Some("60000"), "Eng", "R&D");
    var code := store.Add(admin, ann, parse);
    assert code == Success && store.employees == map[1 := Employee("Ann", "Eng", "R&D", "ann@x.com", 50000.0)];
    code := store.Add(admin, bob, parse);
    assert store.employees[1].email == "ann@x.com";
    assert code == DuplicateEmail && store.employees.Keys == {1};
    code := store.Update(admin, 1, ann.(email := Some("ann2@x.com")), parse);
    assert code == Success && store.employees[1].email == "ann2@x.com";
    code := store.Delete(Anonymous, 1);
    assert code == Unauthenticated && 1 in store.employees;
    code := store.Delete(admin, 1);
    assert code == Success && store.employees == map[];
  }
}

/**
 * The employee handlers: listing, lookup, update with validators and the
 * unique indexes, and removal, which hands the linked user back the
 * candidate role.
 */
module EmployeeController {
  import opened Common
  import opened Query
  import opened EmployeeModel
  import UserRecord
  import Database

  const EmployeeNotFound := Rejection(404, "Employee not found")

  /** The role a removed employee's user is given back. */
  const CandidateRole := "candidate"

  /** `getEmployees`: every employee, each once, the most recent `dateJoined` first. */
  method GetEmployees(s: Database.Store) returns (r: seq<Id>)
    ensures forall id :: id in r <==> id in s.employees
    ensures |r| == |s.employees|
    ensures Distinct(r)
    ensures forall i, j :: 0 <= i < j < |r| ==>
      r[i] in s.employees && r[j] in s.employees && s.employees[r[i]].dateJoined >= s.employees[r[j]].dateJoined
  {
    var emps := s.employees;
    r := SelectSorted(emps.Keys, id => true, id => if id in emps then -emps[id].dateJoined else 0);
    DistinctCoversKeys(r, emps.Keys);
  }

  /** A duplicate-free sequence holding exactly the keys of a set is as long as the set. */
  lemma {:induction false} DistinctCoversKeys(r: seq<Id>, keys: set<Id>)
    requires Distinct(r)
    requires forall id :: id in r <==> id in keys
    ensures |r| == |keys|
    decreases |r|
  {
    if r != [] {
      var last := r[|r| - 1];
      var front := r[..|r| - 1];
      assert forall id :: id in front <==> id in keys - {last} by {
        forall id
          ensures id in front <==> id in keys - {last}
        {
          if id in front {
            var k :| 0 <= k < |front| && front[k] == id;
            assert r[k] == id && k != |r| - 1;
          }
          if id in keys - {last} {
            assert id in r;
            var k :| 0 <= k < |r| && r[k] == id;
            assert k != |r| - 1;
            assert front[k] == id;
          }
        }
      }
      DistinctCoversKeys(front, keys - {last});
    } else {
      assert forall id :: id !in keys by {
        forall id
          ensures id !in keys
        {
          assert id !in r;
        }
      }
      assert keys == {};
    }
  }

  /** `getEmployee`: the employee under `id`, or 404. */
  method GetEmployee(s: Database.Store, id: Id) returns (r: Reply<Employee>)
    ensures r.Ok? <==> id in s.employees
    ensures r.Ok? ==> r.code == 200 && r.data == s.employees[id]
    ensures !r.Ok? ==> r == Refused(EmployeeNotFound)
  {
    if id !in s.employees {
      return Refused(EmployeeNotFound);
    }
    r := Ok(200, s.employees[id]);
  }

  /** The body of `PUT /employees/:id`, written as it is; salary is addressed field by field. */
  datatype EmployeePatch = EmployeePatch(
    user: Option<Id>,
    employeeId: Option<string>,
    department: Option<string>,
    position: Option<string>,
    dateJoined: Option<int>,
    status: Option<string>,
    salaryAmount: Option<int>,
    salaryCurrency: Option<string>,
    createdBy: Option<Id>)

  /** `runValidators`: required strings stay non-empty and a written status is in the enum. */
  predicate PatchPassesValidators(p: EmployeePatch) {
    (p.employeeId.Some? ==> p.employeeId.value != "")
    && (p.department.Some? ==> p.department.value != "")
    && (p.position.Some? ==> p.position.value != "")
    && (p.status.Some? ==> ParseStatus(p.status.value).Some?)
  }

  /** An employee after the update: each supplied field written, the others kept, the timestamp `now`. */
  function Patched(e: Employee, p: EmployeePatch, now: int): (r: Employee)
    requires PatchPassesValidators(p)
    ensures Sets(p.user, e.user, r.user) && Sets(p.employeeId, e.employeeId, r.employeeId)
    ensures Sets(p.department, e.department, r.department) && Sets(p.position, e.position, r.position)
    ensures Sets(p.dateJoined, e.dateJoined, r.dateJoined)
    ensures p.status.Some? ==> StatusName(r.status) == p.status.value
    ensures p.status.None? ==> r.status == e.status
    ensures Sets(p.salaryAmount, e.salaryAmount, r.salaryAmount)
    ensures Sets(p.salaryCurrency, e.salaryCurrency, r.salaryCurrency)
    ensures p.createdBy.Some? ==> r.createdBy == p.createdBy
    ensures p.createdBy.None? ==> r.createdBy == e.createdBy
    ensures r.createdAt == e.createdAt && r.updatedAt == now
    ensures WellFormed(e) ==> WellFormed(r)
  {
    Employee(Override(p.user, e.user), Override(p.employeeId, e.employeeId),
             Override(p.department, e.department), Override(p.position, e.position),
             Override(p.dateJoined, e.dateJoined),
             if p.status.Some? then ParseStatus(p.status.value).value else e.status,
             Override(p.salaryAmount, e.salaryAmount), Override(p.salaryCurrency, e.salaryCurrency),
             if p.createdBy.Some? then p.createdBy else e.createdBy, e.createdAt, now)
  }

  /**
   * `updateEmployee`: validators first, then 404, then the write, which the
   * unique indexes refuse when another employee holds the new user or
   * employee number.
   */
  method UpdateEmployee(s: Database.Store, id: Id, p: EmployeePatch, now: int) returns (r: Reply<Employee>)
    requires s.Valid()
    modifies s`employees
    ensures s.Valid()
    ensures r == Thrown(ValidationError) <==> !PatchPassesValidators(p)
    ensures r.Refused? <==> PatchPassesValidators(p) && id !in old(s.employees)
    ensures r.Refused? ==> r.why == EmployeeNotFound
    ensures r == Thrown(DuplicateKey) <==>
      PatchPassesValidators(p) && id in old(s.employees) && Collides(old(s.employees), id, Patched(old(s.employees)[id], p, now))
    ensures !r.Ok? ==> s.employees == old(s.employees)
    ensures r.Ok? ==> r.code == 200 && id in old(s.employees) && r.data == Patched(old(s.employees)[id], p, now)
    ensures r.Ok? ==> s.employees == old(s.employees)[id := r.data]
  {
    if !PatchPassesValidators(p) {
      return Thrown(ValidationError);
    }
    if id !in s.employees {
      return Refused(EmployeeNotFound);
    }
    var e := Patched(s.employees[id], p, now);
    RewriteKeepsUniqueKeys(s.employees, id, e);
    if Collides(s.employees, id, e) {
      return Thrown(DuplicateKey);
    }
    s.employees := s.employees[id := e];
    r := Ok(200, e);
  }

  /**
   * `deleteEmployee`: 404 for an unknown id; otherwise the linked user, when
   * it exists, gets the candidate role (nothing else of any user changes),
   * and exactly that employee is removed.
   */
  method DeleteEmployee(s: Database.Store, id: Id) returns (r: Reply<()>)
    requires s.Valid()
    modifies s`employees, s`users
    ensures s.Valid()
    ensures r.Ok? <==> id in old(s.employees)
    ensures !r.Ok? ==> r == Refused(EmployeeNotFound) && s.employees == old(s.employees) && s.users == old(s.users)
    ensures r.Ok? ==> r.code == 200 && s.employees == old(s.employees) - {id}
    ensures r.Ok? && old(s.employees)[id].user in old(s.users) ==>
      var u := old(s.employees)[id].user;
      s.users == old(s.users)[u := old(s.users)[u].(role := CandidateRole)]
    ensures r.Ok? && old(s.employees)[id].user !in old(s.users) ==> s.users == old(s.users)
  {
    if id !in s.employees {
      return Refused(EmployeeNotFound);
    }
    var u := s.employees[id].user;
    if u in s.users {
      var user := s.users[u].(role := CandidateRole);
      UserRecord.RewriteKeepsUniqueEmails(s.users, u, user);
      s.users := s.users[u := user];
    }
    s.employees := s.employees - {id};
    r := Ok(200, ());
  }
}

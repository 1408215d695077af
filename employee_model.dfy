/**
 * The Employee schema: the linked user and the employee number (both unique),
 * the status enum, defaults, and the generated default employee number.
 */
module EmployeeModel {
  import opened Common

  datatype EmployeeStatus = Active | Probation | Terminated | Resigned | OnLeave

  function StatusName(st: EmployeeStatus): string {
    match st
    case Active => "active"
    case Probation => "probation"
    case Terminated => "terminated"
    case Resigned => "resigned"
    case OnLeave => "on-leave"
  }

  /** The enum check on `status`. */
  function ParseStatus(s: string): (r: Option<EmployeeStatus>)
    ensures forall st :: r == Some(st) <==> StatusName(st) == s
  {
    if s == "active" then Some(Active)
    else if s == "probation" then Some(Probation)
    else if s == "terminated" then Some(Terminated)
    else if s == "resigned" then Some(Resigned)
    else if s == "on-leave" then Some(OnLeave)
    else None
  }

  datatype Employee = Employee(
    user: Id,
    employeeId: string,
    department: string,
    position: string,
    dateJoined: int,
    status: EmployeeStatus,
    salaryAmount: int,
    salaryCurrency: string,
    createdBy: Option<Id>,
    createdAt: int,
    updatedAt: int)

  /** The required string fields are non-empty. */
  predicate WellFormed(e: Employee) {
    e.employeeId != "" && e.department != "" && e.position != ""
  }

  /** The unique indexes on `user` and on `employeeId`. */
  predicate UniqueKeys(emps: map<Id, Employee>) {
    forall i, j :: i in emps && j in emps && i != j ==>
      emps[i].user != emps[j].user && emps[i].employeeId != emps[j].employeeId
  }

  /** Another employee than the one under `id` already holds `e`'s user or employee number. */
  predicate Collides(emps: map<Id, Employee>, id: Id, e: Employee) {
    exists other :: other in emps && other != id && (emps[other].user == e.user || emps[other].employeeId == e.employeeId)
  }

  /**
   * Rewriting the employee under `id` keeps both unique indexes satisfied
   * exactly when the new document collides with no other employee.
   */
  lemma RewriteKeepsUniqueKeys(emps: map<Id, Employee>, id: Id, e: Employee)
    requires UniqueKeys(emps) && id in emps
    ensures UniqueKeys(emps[id := e]) <==> !Collides(emps, id, e)
  {
    var after := emps[id := e];
    if Collides(emps, id, e) {
      var other :| other in emps && other != id && (emps[other].user == e.user || emps[other].employeeId == e.employeeId);
      assert after[other] == emps[other] && after[id] == e;
    } else {
      forall i, j | i in after && j in after && i != j
        ensures after[i].user != after[j].user && after[i].employeeId != after[j].employeeId
      {
        if i == id {
          assert after[j] == emps[j];
        } else if j == id {
          assert after[i] == emps[i];
        }
      }
    }
  }

  predicate EmployeesValid(emps: map<Id, Employee>) {
    (forall id :: id in emps ==> WellFormed(emps[id])) && UniqueKeys(emps)
  }

  /**
   * `Employee.create` with the fields it needs: status probation, salary 0 in
   * USD, `dateJoined` and timestamps at `now`.
   */
  function Create(user: Id, employeeId: string, department: string, position: string,
                  createdBy: Option<Id>, now: int): (e: Employee)
    requires employeeId != "" && department != "" && position != ""
    ensures WellFormed(e)
    ensures e.status == Probation && e.salaryAmount == 0 && e.salaryCurrency == "USD"
    ensures e.dateJoined == now
  {
    Employee(user, employeeId, department, position, now, Probation, 0, "USD", createdBy, now, now)
  }

  predicate IsDigit(c: char) {
    '0' <= c <= '9'
  }

  function Digit(d: nat): (c: char)
    requires d < 10
    ensures IsDigit(c)
  {
    ('0' as int + d) as char
  }

  /** The decimal rendering of a natural number (`String(n)`). */
  function Decimal(n: nat): (s: string)
    ensures |s| >= 1
    ensures forall i :: 0 <= i < |s| ==> IsDigit(s[i])
  {
    if n < 10 then [Digit(n)] else Decimal(n / 10) + [Digit(n % 10)]
  }

  /** The number a string of decimal digits denotes. */
  function DigitsValue(s: string): nat
    requires forall i :: 0 <= i < |s| ==> IsDigit(s[i])
  {
    if s == [] then 0
    else
      assert IsDigit(s[|s| - 1]);
      DigitsValue(s[..|s| - 1]) * 10 + (s[|s| - 1] as int - '0' as int)
  }

  /** Reading a rendered number back gives the number. */
  lemma {:induction false} DecimalRoundTrip(n: nat)
    ensures DigitsValue(Decimal(n)) == n
  {
    if n >= 10 {
      var s := Decimal(n);
      assert s[..|s| - 1] == Decimal(n / 10);
      DecimalRoundTrip(n / 10);
    }
  }

  /** Four-digit numbers render as four characters. */
  lemma DecimalFourDigits(n: nat)
    requires 1000 <= n <= 9999
    ensures |Decimal(n)| == 4
  {
    assert |Decimal(n / 1000)| == 1;
    assert |Decimal(n / 100)| == 2;
    assert |Decimal(n / 10)| == 3;
  }

  /**
   * The schema's default employee number, `'EMP-' + Math.floor(1000 +
   * Math.random() * 9000)`, for a draw `u` of `Math.random()`: "EMP-" and
   * four digits denoting a number in 1000..9999.
   */
  function DefaultEmployeeId(u: real): (r: string)
    requires 0.0 <= u < 1.0
    ensures |r| == 8 && r[..4] == "EMP-"
    ensures forall i :: 4 <= i < 8 ==> IsDigit(r[i])
    ensures 1000 <= DigitsValue(r[4..]) <= 9999
  {
    var n := (1000.0 + u * 9000.0).Floor;
    assert 1000 <= n <= 9999;
    DecimalFourDigits(n);
    DecimalRoundTrip(n);
    assert ("EMP-" + Decimal(n))[4..] == Decimal(n);
    "EMP-" + Decimal(n)
  }
}

/**
  The dashboard's figures: head counts by status, the five most recently created employees and
  the per-department head counts. Records are read by `status`, `createdAt`, `department` and
  `name`; a creation time is an integer timestamp.
*/
module Dashboard {
  import opened Js
  import opened Seqs
  import opened Sorting

  predicate HasStatus(emp: Object, status: string) {
    Get(emp, "status") == Str(status)
  }

  datatype Stats = Stats(totalEmployees: nat, activeEmployees: nat, totalDepartments: nat, onLeaveEmployees: nat)

  /** `stats`. */
  function StatsOf(employees: seq<Object>, departments: seq<Object>): (s: Stats)
    ensures s.totalEmployees == |employees| && s.totalDepartments == |departments|
    ensures s.activeEmployees <= s.totalEmployees && s.onLeaveEmployees <= s.totalEmployees
    ensures s.activeEmployees + s.onLeaveEmployees <= s.totalEmployees
    ensures s.activeEmployees == |Filter(employees, e => HasStatus(e, "active"))|
    ensures s.onLeaveEmployees == |Filter(employees, e => HasStatus(e, "on-leave"))|
  {
    var active := (emp: Object) => HasStatus(emp, "active");
    var onLeave := (emp: Object) => HasStatus(emp, "on-leave");
    CountThreeDisjoint(employees, active, onLeave, (emp: Object) => false);
    Stats(|employees|, Count(employees, active), |departments|, Count(employees, onLeave))
  }

  /** An employee is counted as active, or on leave, exactly when its status says so. */
  lemma StatsMembers(employees: seq<Object>, emp: Object, status: string)
    ensures emp in Filter(employees, e => HasStatus(e, status)) <==> emp in employees && Get(emp, "status") == Str(status)
  {
    FilterMembership(employees, e => HasStatus(e, status), emp);
  }

  /**
    The creation time an employee sorts by: `new Date(createdAt)` of a timestamp. A record
    without one sorts as the oldest.
  */
  function CreatedKey(emp: Object): SortKey {
    match Get(emp, "createdAt")
    case Num(n) => NumberKey(n)
    case _ => Missing
  }

  /** `.slice(0, 5)`. */
  function FirstFive(s: seq<Object>): (r: seq<Object>)
    ensures |r| <= 5 && |r| <= |s| && r == s[..|r|]
    ensures |s| >= 5 ==> |r| == 5
    ensures |s| < 5 ==> r == s
  {
    if |s| <= 5 then s else s[..5]
  }

  /**
    In a list sorted newest first, the first five are kept, and none left out was created
    later than any kept.
  */
  lemma NewestKept(sorted: seq<Object>)
    requires Ordered(sorted, CreatedKey, true)
    ensures var recent := FirstFive(sorted);
      forall i, j :: 0 <= i < |recent| <= j < |sorted| ==> !Below(CreatedKey(recent[i]), CreatedKey(sorted[j]))
    ensures var recent := FirstFive(sorted);
      forall i :: 0 <= i < |recent| - 1 ==> !Below(CreatedKey(recent[i]), CreatedKey(recent[i + 1]))
  {
    var recent := FirstFive(sorted);
    forall i, j | 0 <= i < |recent| <= j < |sorted|
      ensures !Below(CreatedKey(recent[i]), CreatedKey(sorted[j]))
    {
      assert recent[i] == sorted[i];
      assert !After(CreatedKey, true, sorted[i], sorted[j]);
    }
    forall i | 0 <= i < |recent| - 1
      ensures !Below(CreatedKey(recent[i]), CreatedKey(recent[i + 1]))
    {
      assert recent[i] == sorted[i] && recent[i + 1] == sorted[i + 1];
      assert !After(CreatedKey, true, sorted[i], sorted[i + 1]);
    }
  }

  datatype DepartmentStat = DepartmentStat(name: JsValue, count: nat, budget: JsValue)

  /** `emp.department === dept.name`. */
  predicate InDepartment(emp: Object, dept: Object) {
    StrictEquals(Get(emp, "department"), Get(dept, "name"))
  }

  /** `departmentStats`: one entry per department, in order. */
  function DepartmentStatsOf(departments: seq<Object>, employees: seq<Object>): (r: seq<DepartmentStat>)
    ensures |r| == |departments|
    ensures forall i :: 0 <= i < |r| ==> r[i].count <= |employees|
  {
    seq(|departments|, i requires 0 <= i < |departments| =>
      var dept := departments[i];
      DepartmentStat(Get(dept, "name"), Count(employees, emp => InDepartment(emp, dept)), Get(dept, "budget")))
  }

  /** Each entry names its department and counts exactly the employees in it. */
  lemma DepartmentStatsProperties(departments: seq<Object>, employees: seq<Object>, i: int, emp: Object)
    requires 0 <= i < |departments|
    ensures var stat := DepartmentStatsOf(departments, employees)[i];
      stat.name == Get(departments[i], "name") && stat.budget == Get(departments[i], "budget") &&
      stat.count == |Filter(employees, e => InDepartment(e, departments[i]))|
    ensures emp in Filter(employees, e => InDepartment(e, departments[i])) <==>
      emp in employees && StrictEquals(Get(emp, "department"), Get(departments[i], "name"))
  {
    FilterMembership(employees, e => InDepartment(e, departments[i]), emp);
  }

  /** The page's state: the employee list it sorts. */
  class DashboardPage {
    var employees: array<Object>

    constructor (loaded: seq<Object>)
      ensures employees[..] == loaded && fresh(employees)
    {
      employees := new Object[|loaded|](i requires 0 <= i < |loaded| => loaded[i]);
    }

    /**
      `recentEmployees`: sorts the page's own list by creation time, newest first, in place,
      and takes its first five.
    */
    method RecentEmployees() returns (recent: seq<Object>)
      modifies employees
      ensures Ordered(employees[..], CreatedKey, true)
      ensures multiset(employees[..]) == old(multiset(employees[..]))
      ensures recent == FirstFive(employees[..])
    {
      SortByKey(employees, CreatedKey, true);
      recent := if employees.Length <= 5 then employees[..] else employees[..5];
    }
  }
}

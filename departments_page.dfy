/**
  The departments page's figures: each department's head count by status, and the total
  budget. Records are read by `department`, `status` and `budget`.
*/
module DepartmentsPage {
  import opened Wrappers
  import opened Js
  import opened Seqs

  predicate HasStatus(emp: Object, status: string) {
    Get(emp, "status") == Str(status)
  }

  /** `emp.department === deptName`. */
  predicate InDepartment(emp: Object, deptName: JsValue) {
    StrictEquals(Get(emp, "department"), deptName)
  }

  datatype DepartmentStats = DepartmentStats(total: nat, active: nat, onLeave: nat, inactive: nat)

  /** The employees of a department. */
  function Members(employees: seq<Object>, deptName: JsValue): seq<Object> {
    Filter(employees, emp => InDepartment(emp, deptName))
  }

  /** `getDepartmentStats`. */
  function DepartmentStatsOf(employees: seq<Object>, deptName: JsValue): (s: DepartmentStats)
    ensures s.total == |Members(employees, deptName)| && s.total <= |employees|
    ensures s.active + s.onLeave + s.inactive <= s.total
    ensures s.active == |Filter(Members(employees, deptName), e => HasStatus(e, "active"))|
    ensures s.onLeave == |Filter(Members(employees, deptName), e => HasStatus(e, "on-leave"))|
    ensures s.inactive == |Filter(Members(employees, deptName), e => HasStatus(e, "inactive"))|
  {
    var members := Members(employees, deptName);
    var active := (emp: Object) => HasStatus(emp, "active");
    var onLeave := (emp: Object) => HasStatus(emp, "on-leave");
    var inactive := (emp: Object) => HasStatus(emp, "inactive");
    CountThreeDisjoint(members, active, onLeave, inactive);
    DepartmentStats(|members|, Count(members, active), Count(members, onLeave), Count(members, inactive))
  }

  /**
    An employee is counted under a status of a department exactly when it belongs to the
    department and has that status; when every member has one of the three statuses, they add
    up to the department's total.
  */
  lemma DepartmentStatsProperties(employees: seq<Object>, deptName: JsValue, emp: Object, status: string)
    ensures emp in Filter(Members(employees, deptName), e => HasStatus(e, status)) <==>
      emp in employees && StrictEquals(Get(emp, "department"), deptName) && Get(emp, "status") == Str(status)
    ensures var members := Members(employees, deptName);
      (forall i :: 0 <= i < |members| ==>
        HasStatus(members[i], "active") || HasStatus(members[i], "on-leave") || HasStatus(members[i], "inactive")) ==>
      var s := DepartmentStatsOf(employees, deptName); s.active + s.onLeave + s.inactive == s.total
  {
    var members := Members(employees, deptName);
    FilterMembership(employees, e => InDepartment(e, deptName), emp);
    FilterMembership(members, e => HasStatus(e, status), emp);
    CountThreeDisjoint(members, e => HasStatus(e, "active"), e => HasStatus(e, "on-leave"), e => HasStatus(e, "inactive"));
  }

  /**
    What `sum + dept.budget` adds to a numeric sum: a number or `null` (as 0) or a boolean (as
    0 or 1) keeps the sum a number; any other value makes it not a number.
  */
  function BudgetTerm(budget: JsValue): Option<int> {
    match budget
    case Num(n) => Some(n)
    case Null => Some(0)
    case Bool(b) => Some(if b then 1 else 0)
    case _ => None
  }

  predicate NumericBudget(dept: Object) {
    BudgetTerm(Get(dept, "budget")).Some?
  }

  function BudgetOf(dept: Object): int {
    BudgetTerm(Get(dept, "budget")).GetOr(0)
  }

  /**
    `departments.reduce((sum, dept) => sum + dept.budget, 0)`: the sum of the budgets, or none
    when some budget does not add as a number.
  */
  function TotalBudget(departments: seq<Object>): (r: Option<int>)
    ensures r.Some? <==> forall i :: 0 <= i < |departments| ==> NumericBudget(departments[i])
    ensures r.Some? ==> r.value == Sum(departments, BudgetOf)
  {
    if departments == [] then Some(0)
    else
      var head := BudgetTerm(Get(departments[0], "budget"));
      var rest := TotalBudget(departments[1..]);
      assert forall i :: 1 <= i < |departments| ==> departments[1..][i - 1] == departments[i];
      if head.Some? && rest.Some? then Some(head.value + rest.value) else None
  }

  /** With non-negative numeric budgets, the total is at least each department's budget. */
  lemma TotalBudgetBounds(departments: seq<Object>, i: int)
    requires 0 <= i < |departments|
    requires forall k :: 0 <= k < |departments| ==> Get(departments[k], "budget").Num? && Get(departments[k], "budget").n >= 0
    ensures TotalBudget(departments).Some?
    ensures BudgetOf(departments[i]) <= TotalBudget(departments).value
  {
    SumAtLeastTerm(departments, BudgetOf, i);
  }
}

/**
  The reports page's metrics: head counts, the salary total and average, the status
  distribution and the per-department analytics. Divisions are kept as unevaluated fractions:
  only their zero guards are modelled.
*/
module Reports {
  import opened Js
  import opened Seqs
  import EmployeesPage

  /** A quotient `numerator / denominator`, left unevaluated. */
  datatype Fraction = Fraction(numerator: int, denominator: nat)

  /** `count > 0 ? total / count : 0`. */
  function Average(total: int, count: nat): (r: Fraction)
    ensures r.denominator > 0
  {
    if count > 0 then Fraction(total, count) else Fraction(0, 1)
  }

  /** `emp.salary_c || 0`, for a salary stored as a number. */
  function SalaryOf(emp: Object): int {
    match Get(emp, "salary_c")
    case Num(n) => n
    case _ => 0
  }

  predicate HasStatus(emp: Object, status: string) {
    Get(emp, "status_c") == Str(status)
  }

  /** The salary sum of a list. */
  function TotalSalary(employees: seq<Object>): int {
    Sum(employees, SalaryOf)
  }

  datatype Metrics = Metrics(
    totalEmployees: nat, activeEmployees: nat, totalSalary: int, avgSalary: Fraction, activeRate: Fraction)

  /**
    The key metrics. The active rate is `activeEmployees / totalEmployees * 100` behind the
    same zero guard as the average, and is never above 100 percent.
  */
  function MetricsOf(employees: seq<Object>): (m: Metrics)
    ensures m.totalEmployees == |employees|
    ensures m.activeEmployees == |Filter(employees, e => HasStatus(e, "active"))| <= m.totalEmployees
    ensures m.totalSalary == TotalSalary(employees)
    ensures m.totalEmployees == 0 ==> m.avgSalary == Fraction(0, 1) && m.totalSalary == 0
    ensures m.totalEmployees > 0 ==> m.avgSalary == Fraction(m.totalSalary, m.totalEmployees)
    ensures m.totalEmployees == 0 ==> m.activeRate == Fraction(0, 1)
    ensures m.totalEmployees > 0 ==> m.activeRate == Fraction(m.activeEmployees * 100, m.totalEmployees)
    ensures 0 <= m.activeRate.numerator <= 100 * m.activeRate.denominator
  {
    var total := |employees|;
    var active := Count(employees, emp => HasStatus(emp, "active"));
    var salary := TotalSalary(employees);
    Metrics(total, active, salary, Average(salary, total), Average(active * 100, total))
  }

  /**
    The salary total grows by each employee's salary: an employee without a salary adds nothing,
    and with non-negative salaries the total is non-negative.
  */
  lemma TotalSalaryProperties(employees: seq<Object>, emp: Object)
    ensures TotalSalary(employees + [emp]) == TotalSalary(employees) + SalaryOf(emp)
    ensures !Truthy(Get(emp, "salary_c")) ==> TotalSalary(employees + [emp]) == TotalSalary(employees)
    ensures (forall i :: 0 <= i < |employees| ==> SalaryOf(employees[i]) >= 0) ==> TotalSalary(employees) >= 0
  {
    SumAppend(employees, [emp], SalaryOf);
    assert [emp][1..] == [];
    if forall i :: 0 <= i < |employees| ==> SalaryOf(employees[i]) >= 0 {
      SumNonNegative(employees, SalaryOf);
    }
  }

  /** A member of the list is counted as active exactly when its status is "active". */
  lemma ActiveCountMembers(employees: seq<Object>, emp: Object)
    ensures emp in Filter(employees, e => HasStatus(e, "active")) <==> emp in employees && HasStatus(emp, "active")
  {
    FilterMembership(employees, e => HasStatus(e, "active"), emp);
  }

  datatype StatusDistribution = StatusDistribution(active: nat, inactive: nat, onLeave: nat)

  /** `statusDistribution`. */
  function StatusDistributionOf(employees: seq<Object>): (d: StatusDistribution)
    ensures d.active + d.inactive + d.onLeave <= |employees|
    ensures (forall i :: 0 <= i < |employees| ==>
              HasStatus(employees[i], "active") || HasStatus(employees[i], "inactive") || HasStatus(employees[i], "on-leave")) ==>
            d.active + d.inactive + d.onLeave == |employees|
    ensures d.active == MetricsOf(employees).activeEmployees
    ensures d.inactive == |Filter(employees, e => HasStatus(e, "inactive"))|
    ensures d.onLeave == |Filter(employees, e => HasStatus(e, "on-leave"))|
  {
    var active := (emp: Object) => HasStatus(emp, "active");
    var inactive := (emp: Object) => HasStatus(emp, "inactive");
    var onLeave := (emp: Object) => HasStatus(emp, "on-leave");
    CountThreeDisjoint(employees, active, inactive, onLeave);
    StatusDistribution(Count(employees, active), Count(employees, inactive), Count(employees, onLeave))
  }

  /** The department name employees are matched against: `dept.name_c || dept.Name`. */
  function DepartmentKey(dept: Object): JsValue {
    Or(Get(dept, "name_c"), Get(dept, "Name"))
  }

  /** `emp.department_c?.Name === (dept.name_c || dept.Name)`. */
  predicate InDepartment(emp: Object, dept: Object) {
    StrictEquals(EmployeesPage.DepartmentName(emp), DepartmentKey(dept))
  }

  function DepartmentEmployees(employees: seq<Object>, dept: Object): seq<Object> {
    Filter(employees, emp => InDepartment(emp, dept))
  }

  /** `dept.budget > 0`, for a budget stored as a number. */
  predicate PositiveBudget(dept: Object) {
    Get(dept, "budget").Num? && Get(dept, "budget").n > 0
  }

  datatype DepartmentAnalytics = DepartmentAnalytics(
    name: JsValue, employeeCount: nat, totalSalary: int, avgSalary: Fraction, budget: JsValue, utilization: Fraction)

  /** One department's analytics; utilization is `salary / budget * 100`. */
  function AnalyticsOf(dept: Object, employees: seq<Object>): (a: DepartmentAnalytics)
    ensures a.employeeCount == |DepartmentEmployees(employees, dept)| <= |employees|
    ensures a.totalSalary == TotalSalary(DepartmentEmployees(employees, dept))
    ensures a.name == Get(dept, "name") && a.budget == Get(dept, "budget")
    ensures PositiveBudget(dept) ==> a.utilization == Fraction(a.totalSalary * 100, Get(dept, "budget").n)
    ensures a.utilization.denominator > 0
    ensures !PositiveBudget(dept) ==> a.utilization == Fraction(0, 1)
    ensures a.employeeCount == 0 ==> a.avgSalary == Fraction(0, 1)
    ensures a.employeeCount > 0 ==> a.avgSalary == Fraction(a.totalSalary, a.employeeCount)
  {
    var members := DepartmentEmployees(employees, dept);
    var salary := TotalSalary(members);
    DepartmentAnalytics(
      Get(dept, "name"), |members|, salary, Average(salary, |members|), Get(dept, "budget"),
      if PositiveBudget(dept) then Fraction(salary * 100, Get(dept, "budget").n) else Fraction(0, 1))
  }

  /** `departmentAnalytics`: one entry per department, in order. */
  function DepartmentAnalyticsOf(departments: seq<Object>, employees: seq<Object>): (r: seq<DepartmentAnalytics>)
    ensures |r| == |departments|
  {
    seq(|departments|, i requires 0 <= i < |departments| => AnalyticsOf(departments[i], employees))
  }

  /**
    Each entry covers exactly the employees whose linked department name is the department's
    name; with non-negative salaries its salary is at most the overall total.
  */
  lemma DepartmentAnalyticsProperties(departments: seq<Object>, employees: seq<Object>, i: int, emp: Object)
    requires 0 <= i < |departments|
    ensures var a := DepartmentAnalyticsOf(departments, employees)[i];
      a.employeeCount == Count(employees, e => InDepartment(e, departments[i])) &&
      a.budget == Get(departments[i], "budget")
    ensures emp in DepartmentEmployees(employees, departments[i]) <==>
      emp in employees && StrictEquals(EmployeesPage.DepartmentName(emp), DepartmentKey(departments[i]))
    ensures (forall k :: 0 <= k < |employees| ==> SalaryOf(employees[k]) >= 0) ==>
      0 <= DepartmentAnalyticsOf(departments, employees)[i].totalSalary <= TotalSalary(employees)
  {
    var p := (e: Object) => InDepartment(e, departments[i]);
    FilterMembership(employees, p, emp);
    if forall k :: 0 <= k < |employees| ==> SalaryOf(employees[k]) >= 0 {
      SumFilterAtMost(employees, p, SalaryOf);
      var members := DepartmentEmployees(employees, departments[i]);
      assert forall k :: 0 <= k < |members| ==> SalaryOf(members[k]) >= 0 by {
        forall k | 0 <= k < |members| ensures SalaryOf(members[k]) >= 0 {
          FilterMembership(employees, p, members[k]);
        }
      }
      SumNonNegative(members, SalaryOf);
    }
  }

  /**
    A department with neither `name_c` nor `Name` is matched by `undefined`: it counts every
    employee that has no linked department name.
  */
  lemma UnnamedDepartmentCountsUnlinked(dept: Object, employees: seq<Object>, emp: Object)
    requires Get(dept, "name_c") == Undefined && Get(dept, "Name") == Undefined
    requires EmployeesPage.DepartmentName(emp) == Undefined
    requires emp in employees
    ensures emp in DepartmentEmployees(employees, dept)
  {
    FilterMembership(employees, e => InDepartment(e, dept), emp);
  }
}

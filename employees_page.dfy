/**
  The employee management page: the search, department and status filters over the loaded
  list, and the local list updates after a save and after a delete. Records are read by their
  stored field names (`first_name_c`, `department_c`, `status_c`, ...).
*/
module EmployeesPage {
  import opened Wrappers
  import opened Js
  import opened Seqs

  /** `emp.department_c?.Name`: the name of a linked department, `undefined` when there is none. */
  function DepartmentName(emp: Object): JsValue {
    match Get(emp, "department_c")
    case Obj(fields) => Get(fields, "Name")
    case _ => Undefined
  }

  /** The texts the search looks in, each lower-cased, with missing fields read as "". */
  function SearchFields(emp: Object): seq<string> {
    [ToLower(TextOr(Get(emp, "first_name_c")) + " " + TextOr(Get(emp, "last_name_c"))),
     ToLower(TextOr(Get(emp, "email_c"))),
     ToLower(TextOr(Get(emp, "position_c"))),
     ToLower(TextOr(DepartmentName(emp)))]
  }

  /** The lower-cased term occurs in one of the lower-cased fields. */
  predicate SearchMatches(emp: Object, term: string) {
    var fields, t := SearchFields(emp), ToLower(term);
    Contains(fields[0], t) || Contains(fields[1], t) || Contains(fields[2], t) || Contains(fields[3], t)
  }

  predicate DepartmentMatches(emp: Object, department: string) {
    DepartmentName(emp) == Str(department)
  }

  predicate StatusMatches(emp: Object, status: string) {
    Get(emp, "status_c") == Str(status)
  }

  /** The filters a record must pass: each one set (non-empty) must hold. */
  predicate Keeps(emp: Object, search: string, department: string, status: string) {
    (search == "" || SearchMatches(emp, search)) &&
    (department == "" || DepartmentMatches(emp, department)) &&
    (status == "" || StatusMatches(emp, status))
  }

  /** The records shown: those of `employees` that pass every filter, in their order. */
  function Shown(employees: seq<Object>, search: string, department: string, status: string): seq<Object> {
    Filter(employees, emp => Keeps(emp, search, department, status))
  }

  /** The shown list is a subsequence of the loaded one. */
  lemma ShownIsSubsequence(employees: seq<Object>, search: string, department: string, status: string)
    ensures IsSubsequence(Shown(employees, search, department, status), employees)
  {
    FilterIsSubsequence(employees, emp => Keeps(emp, search, department, status));
  }

  /** With no filter set, every record is shown. */
  lemma NoFiltersShowAll(employees: seq<Object>)
    ensures Shown(employees, "", "", "") == employees
  {
    FilterAllPass(employees, emp => Keeps(emp, "", "", ""));
  }

  /** A record is shown exactly when it is loaded and passes every filter set. */
  lemma ShownMembership(employees: seq<Object>, search: string, department: string, status: string, emp: Object)
    ensures emp in Shown(employees, search, department, status) <==>
      emp in employees &&
      (search == "" || SearchMatches(emp, search)) &&
      (department == "" || DepartmentName(emp) == Str(department)) &&
      (status == "" || Get(emp, "status_c") == Str(status))
  {
    FilterMembership(employees, emp => Keeps(emp, search, department, status), emp);
  }

  /** The search ignores letter case in the term: terms that agree lower-cased match alike. */
  lemma SearchIgnoresCase(emp: Object, term: string, other: string)
    requires ToLower(term) == ToLower(other)
    ensures SearchMatches(emp, term) <==> SearchMatches(emp, other)
  {
  }

  /** A lower-case term occurs in a field exactly when it occurs in the field's lower-cased text. */
  lemma SearchFindsAnyCase(emp: Object, term: string)
    ensures SearchMatches(emp, term) <==> SearchMatches(emp, ToLower(term))
  {
    ToLowerIdempotent(term);
  }

  /** `prev.map(emp => emp.Id === saved.Id ? saved : emp)`. */
  function ReplaceById(employees: seq<Object>, saved: Object): (r: seq<Object>)
    ensures |r| == |employees|
  {
    seq(|employees|, i requires 0 <= i < |employees| =>
      if StrictEquals(Get(employees[i], "Id"), Get(saved, "Id")) then saved else employees[i])
  }

  /** `prev.filter(emp => emp.Id !== id)`. */
  function RemoveById(employees: seq<Object>, id: JsValue): seq<Object> {
    Filter(employees, emp => !StrictEquals(Get(emp, "Id"), id))
  }

  /**
    The replacement puts `saved` exactly where the `Id` matches and keeps every other record;
    replacing twice is replacing once; an `Id` that matches nothing leaves the list as it is.
  */
  lemma ReplaceByIdProperties(employees: seq<Object>, saved: Object)
    ensures forall i :: 0 <= i < |employees| ==>
      ReplaceById(employees, saved)[i] ==
        (if StrictEquals(Get(employees[i], "Id"), Get(saved, "Id")) then saved else employees[i])
    ensures ReplaceById(ReplaceById(employees, saved), saved) == ReplaceById(employees, saved)
    ensures (forall i :: 0 <= i < |employees| ==> !StrictEquals(Get(employees[i], "Id"), Get(saved, "Id"))) ==>
      ReplaceById(employees, saved) == employees
    ensures saved in ReplaceById(employees, saved) <==>
      saved in employees || exists i :: 0 <= i < |employees| && StrictEquals(Get(employees[i], "Id"), Get(saved, "Id"))
  {
    var r := ReplaceById(employees, saved);
    var rr := ReplaceById(r, saved);
    forall i | 0 <= i < |employees| ensures rr[i] == r[i] {
    }
    if saved in employees && !(exists i :: 0 <= i < |employees| && StrictEquals(Get(employees[i], "Id"), Get(saved, "Id"))) {
      var k :| 0 <= k < |employees| && employees[k] == saved;
      assert r[k] == saved;
    }
  }

  /** No record with the removed `Id` remains, and every other record does, in order. */
  lemma RemoveByIdProperties(employees: seq<Object>, id: JsValue, emp: Object)
    ensures emp in RemoveById(employees, id) <==> emp in employees && !StrictEquals(Get(emp, "Id"), id)
    ensures IsSubsequence(RemoveById(employees, id), employees)
    ensures (forall i :: 0 <= i < |employees| ==> !StrictEquals(Get(employees[i], "Id"), id)) ==>
      RemoveById(employees, id) == employees
    ensures id.NaN? ==> RemoveById(employees, id) == employees
  {
    var p := (e: Object) => !StrictEquals(Get(e, "Id"), id);
    FilterMembership(employees, p, emp);
    FilterIsSubsequence(employees, p);
    if forall i :: 0 <= i < |employees| ==> !StrictEquals(Get(employees[i], "Id"), id) {
      FilterAllPass(employees, p);
    }
    if id.NaN? {
      FilterAllPass(employees, p);
    }
  }

  /**
    The page's state. The handlers change the records, the selection and the filters and leave
    `filteredEmployees` as it was; `FilterEmployees` is the effect of Employees.jsx:33-35, which
    React runs after each of them whenever the records or a filter changed, and it sets
    `filteredEmployees` to `Shown` of the new state.
  */
  class EmployeesPage {
    var employees: seq<Object>
    var filteredEmployees: seq<Object>
    var searchTerm: string
    var departmentFilter: string
    var statusFilter: string
    var selectedEmployee: Option<Object>

    constructor ()
      ensures employees == [] && filteredEmployees == []
      ensures searchTerm == "" && departmentFilter == "" && statusFilter == ""
      ensures selectedEmployee == None
    {
      employees := [];
      filteredEmployees := [];
      searchTerm := "";
      departmentFilter := "";
      statusFilter := "";
      selectedEmployee := None;
    }

    /** `filterEmployees`: applies the filters one after another. */
    method FilterEmployees()
      modifies this
      ensures filteredEmployees == Shown(employees, searchTerm, departmentFilter, statusFilter)
      ensures employees == old(employees) && searchTerm == old(searchTerm)
      ensures departmentFilter == old(departmentFilter) && statusFilter == old(statusFilter)
      ensures selectedEmployee == old(selectedEmployee)
    {
      var search, department, status := searchTerm, departmentFilter, statusFilter;
      var bySearch := (emp: Object) => SearchMatches(emp, search);
      var byDepartment := (emp: Object) => DepartmentMatches(emp, department);
      var byStatus := (emp: Object) => StatusMatches(emp, status);
      var filtered := employees;
      if search != "" {
        filtered := Filter(filtered, bySearch);
      }
      if department != "" {
        filtered := Filter(filtered, byDepartment);
      }
      if status != "" {
        filtered := Filter(filtered, byStatus);
      }
      FiltersInTurn(employees, search != "", bySearch, department != "", byDepartment, status != "", byStatus,
                    emp => Keeps(emp, search, department, status));
      filteredEmployees := filtered;
    }

    /** `handleAddEmployee`: the modal opens for a new record. */
    method HandleAddEmployee()
      modifies this
      ensures selectedEmployee == None
      ensures employees == old(employees) && filteredEmployees == old(filteredEmployees)
      ensures searchTerm == old(searchTerm) && departmentFilter == old(departmentFilter) && statusFilter == old(statusFilter)
    {
      selectedEmployee := None;
    }

    /** `handleEditEmployee`: the modal opens on `employee`. */
    method HandleEditEmployee(employee: Object)
      modifies this
      ensures selectedEmployee == Some(employee)
      ensures employees == old(employees) && filteredEmployees == old(filteredEmployees)
      ensures searchTerm == old(searchTerm) && departmentFilter == old(departmentFilter) && statusFilter == old(statusFilter)
    {
      selectedEmployee := Some(employee);
    }

    /**
      `handleSaveEmployee`: after an edit, `saved` replaces the records with its `Id`; after an
      add, it is appended.
    */
    method HandleSaveEmployee(saved: Object)
      modifies this
      ensures old(selectedEmployee).Some? ==> employees == ReplaceById(old(employees), saved)
      ensures old(selectedEmployee).None? ==> employees == old(employees) + [saved]
      ensures filteredEmployees == old(filteredEmployees) && selectedEmployee == old(selectedEmployee)
      ensures searchTerm == old(searchTerm) && departmentFilter == old(departmentFilter) && statusFilter == old(statusFilter)
    {
      if selectedEmployee.Some? {
        var prev := employees;
        employees := seq(|prev|, i requires 0 <= i < |prev| =>
          if StrictEquals(Get(prev[i], "Id"), Get(saved, "Id")) then saved else prev[i]);
      } else {
        employees := employees + [saved];
      }
    }

    /**
      `handleDeleteEmployee`: when the user confirms and the service's delete does not raise,
      the records with the employee's `Id` are removed; otherwise nothing changes.
    */
    method HandleDeleteEmployee(employee: Object, confirmed: bool, deleteSucceeded: bool)
      modifies this
      ensures employees == if confirmed && deleteSucceeded then RemoveById(old(employees), Get(employee, "Id")) else old(employees)
      ensures filteredEmployees == old(filteredEmployees) && selectedEmployee == old(selectedEmployee)
      ensures searchTerm == old(searchTerm) && departmentFilter == old(departmentFilter) && statusFilter == old(statusFilter)
    {
      if confirmed {
        if deleteSucceeded {
          var id := Get(employee, "Id");
          employees := Filter(employees, (emp: Object) => !StrictEquals(Get(emp, "Id"), id));
        }
      }
    }

    /** `clearFilters`. */
    method ClearFilters()
      modifies this
      ensures searchTerm == "" && departmentFilter == "" && statusFilter == ""
      ensures employees == old(employees) && filteredEmployees == old(filteredEmployees)
      ensures selectedEmployee == old(selectedEmployee)
    {
      searchTerm := "";
      departmentFilter := "";
      statusFilter := "";
    }
  }
}

/**
  The employee record as the gateway writes it: the fields both payloads carry, the rules that
  derive the name, salary, status and department reference from the form data, and what a create
  and an update send.
*/
module EmployeeRecord {
  import opened Js
  import opened Protocol

  // ---------------------------------------------------------------------------
  // Payloads

  /** `${first || ''} ${last || ''}`.trim(). */
  function FullName(record: Object): string {
    Trim(TextOr(Get(record, "first_name_c")) + " " + TextOr(Get(record, "last_name_c")))
  }

  /** `parseInt(salary) || 0`. */
  function Salary(data: Object): JsValue {
    Or(ParseIntValue(Get(data, "salary_c")), Num(0))
  }

  /** The department reference of a new employee: `department ? parseInt(department) : null`. */
  function CreateDepartment(department: JsValue): JsValue {
    if Truthy(department) then ParseIntValue(department) else Null
  }

  /** The department reference of an update: `parseInt(department) || null`. */
  function UpdateDepartment(department: JsValue): JsValue {
    Or(ParseIntValue(department), Null)
  }

  /** The nine writable fields both payloads compute alike, as a map. */
  function SharedFields(name: JsValue, first: JsValue, last: JsValue, email: JsValue, phone: JsValue,
                        position: JsValue, startDate: JsValue, salary: JsValue, manager: JsValue): Object {
    map["Name" := name, "first_name_c" := first, "last_name_c" := last, "email_c" := email,
        "phone_c" := phone, "position_c" := position, "start_date_c" := startDate,
        "salary_c" := salary, "manager_c" := manager]
  }

  /**
    The eleven writable fields both payloads carry: the nine taken from the form data, and the
    status and department reference, which the two payloads compute differently.
  */
  function Record(data: Object, status: JsValue, department: JsValue): Object {
    SharedFields(Str(FullName(data)), Get(data, "first_name_c"), Get(data, "last_name_c"), Get(data, "email_c"),
                 Get(data, "phone_c"), Get(data, "position_c"), Get(data, "start_date_c"), Salary(data),
                 Get(data, "manager_c"))["status_c" := status]["department_c" := department]
  }

  /** The record `create` sends: status defaults to "active". */
  function CreatePayload(data: Object): Object {
    Record(data, Or(Get(data, "status_c"), Str("active")), CreateDepartment(Get(data, "department_c")))
  }

  /** The record `update` sends: the employee's `Id` and the time of the update are added. */
  function UpdatePayload(id: JsValue, data: Object, clock: Clock): Object {
    Record(data, Get(data, "status_c"), UpdateDepartment(Get(data, "department_c")))
      ["Id" := ParseIntValue(id)]["updated_at_c" := Str(clock.iso)]
  }

  // ---------------------------------------------------------------------------
  // Properties of the payloads

  /** The form fields both payloads pass on unchanged. */
  const PassedThrough: set<string> := {"first_name_c", "last_name_c", "email_c", "phone_c", "position_c",
                                        "start_date_c", "manager_c"}

  /** The salary sent is always a number; a number, or its decimal text, is sent as that number. */
  lemma SalaryOfNumber(data: Object, n: int)
    requires Get(data, "salary_c") == Num(n) || Get(data, "salary_c") == Str(IntToString(n))
    ensures Salary(data) == Num(n)
  {
    ParseIntValueOfNum(n);
  }

  /** Whatever the input holds, the salary sent is a number: 0 when it does not parse. */
  lemma SalaryIsNumber(data: Object)
    ensures Salary(data).Num?
    ensures !ParseIntValue(Get(data, "salary_c")).Num? ==> Salary(data) == Num(0)
  {
  }

  /**
    The two department rules agree except on a reference that is truthy yet does not parse to a
    non-zero number: `create` then sends what `parseInt` gives (NaN or 0), `update` sends null.
  */
  lemma DepartmentRulesDiffer(department: JsValue)
    ensures CreateDepartment(department) != UpdateDepartment(department) <==>
      Truthy(department) && !Truthy(ParseIntValue(department))
    ensures !Truthy(department) ==> CreateDepartment(department) == Null == UpdateDepartment(department)
  {
    if !Truthy(department) {
      ParseIntOfFalsy(department);
    }
  }

  /** The text "0" is such a reference: `create` links department 0, `update` unlinks. */
  lemma ZeroDepartmentDiffers()
    ensures CreateDepartment(Str("0")) == Num(0)
    ensures UpdateDepartment(Str("0")) == Null
  {
    assert IntToString(0) == "0";
    ParseIntValueOfNum(0);
    assert ToStr(Num(0)) == ToStr(Str("0"));
  }

  /** Names without surrounding blanks are joined with one space. */
  lemma NameOfParts(record: Object, first: string, last: string)
    requires Get(record, "first_name_c") == Str(first) && Get(record, "last_name_c") == Str(last)
    requires first != [] && !IsWhiteSpace(first[0]) && !IsWhiteSpace(first[|first| - 1])
    requires last != [] && !IsWhiteSpace(last[0]) && !IsWhiteSpace(last[|last| - 1])
    ensures FullName(record) == first + " " + last
  {
    var s := first + " " + last;
    assert s[0] == first[0] && s[|s| - 1] == last[|last| - 1];
    TrimOfTrimmed(s);
  }

  /** A missing last name leaves the first name alone, without the joining space. */
  lemma NameOfFirstOnly(record: Object, first: string)
    requires Get(record, "first_name_c") == Str(first) && !Truthy(Get(record, "last_name_c"))
    requires first != [] && !IsWhiteSpace(first[0]) && !IsWhiteSpace(first[|first| - 1])
    ensures FullName(record) == first
  {
    var s := first + " " + "";
    assert s[0] == first[0] && s[..|s| - 1] == first;
    TrimStartOfUnpadded(s);
    assert TrimEnd(s) == TrimEnd(first);
    TrimOfTrimmed(first);
    TrimStartOfUnpadded(first);
  }

  /** With neither part the name is empty. */
  lemma NameOfNeither(record: Object)
    requires !Truthy(Get(record, "first_name_c")) && !Truthy(Get(record, "last_name_c"))
    ensures FullName(record) == ""
  {
    assert "" + " " + "" == " ";
    assert TrimStart(" ") == TrimStart(" "[1..]);
    assert " "[1..] == "";
  }

  /**
    Helper for the payload lemmas: each of the nine shared fields reads back as the value it
    was given, proved over abstract values to keep the map reasoning small.
  */
  lemma SharedFieldsGet(name: JsValue, first: JsValue, last: JsValue, email: JsValue, phone: JsValue,
                        position: JsValue, startDate: JsValue, salary: JsValue, manager: JsValue)
    ensures var m := SharedFields(name, first, last, email, phone, position, startDate, salary, manager);
      Get(m, "Name") == name && Get(m, "first_name_c") == first && Get(m, "last_name_c") == last &&
      Get(m, "email_c") == email && Get(m, "phone_c") == phone && Get(m, "position_c") == position &&
      Get(m, "start_date_c") == startDate && Get(m, "salary_c") == salary && Get(m, "manager_c") == manager
  {
  }

  /** A record built from a form passes the form's own fields on, whatever its status and department. */
  lemma RecordPassesThrough(form: Object, name: JsValue, salary: JsValue, status: JsValue, department: JsValue)
    ensures var m := SharedFields(name, Get(form, "first_name_c"), Get(form, "last_name_c"), Get(form, "email_c"),
                                  Get(form, "phone_c"), Get(form, "position_c"), Get(form, "start_date_c"), salary,
                                  Get(form, "manager_c"))["status_c" := status]["department_c" := department];
      (forall k :: k in PassedThrough ==> Get(m, k) == Get(form, k)) &&
      Get(m, "Name") == name && Get(m, "salary_c") == salary &&
      Get(m, "status_c") == status && Get(m, "department_c") == department
  {
    var first, last, email := Get(form, "first_name_c"), Get(form, "last_name_c"), Get(form, "email_c");
    var phone, position := Get(form, "phone_c"), Get(form, "position_c");
    var startDate, manager := Get(form, "start_date_c"), Get(form, "manager_c");
    RecordFieldsGet(name, first, last, email, phone, position, startDate, salary, manager, status, department);
  }

  /** Helper for the payload lemmas: each of the eleven record fields reads back as given. */
  lemma RecordFieldsGet(name: JsValue, first: JsValue, last: JsValue, email: JsValue, phone: JsValue,
                        position: JsValue, startDate: JsValue, salary: JsValue, manager: JsValue,
                        status: JsValue, department: JsValue)
    ensures var m := SharedFields(name, first, last, email, phone, position, startDate, salary, manager)
                       ["status_c" := status]["department_c" := department];
      Get(m, "Name") == name && Get(m, "first_name_c") == first && Get(m, "last_name_c") == last &&
      Get(m, "email_c") == email && Get(m, "phone_c") == phone && Get(m, "position_c") == position &&
      Get(m, "start_date_c") == startDate && Get(m, "salary_c") == salary && Get(m, "manager_c") == manager &&
      Get(m, "status_c") == status && Get(m, "department_c") == department
  {
    SharedFieldsGet(name, first, last, email, phone, position, startDate, salary, manager);
  }

  /**
    A new employee's record: the joined name, the form fields passed on, a numeric salary, the
    status given when truthy and "active" otherwise, and the department rule of `create`.
  */
  lemma CreatePayloadShape(data: Object)
    ensures Get(CreatePayload(data), "Name") == Str(FullName(data))
    ensures forall k :: k in PassedThrough ==> Get(CreatePayload(data), k) == Get(data, k)
    ensures Get(CreatePayload(data), "salary_c").Num?
    ensures Truthy(Get(CreatePayload(data), "status_c"))
    ensures Truthy(Get(data, "status_c")) ==> Get(CreatePayload(data), "status_c") == Get(data, "status_c")
    ensures !Truthy(Get(data, "status_c")) ==> Get(CreatePayload(data), "status_c") == Str("active")
    ensures Get(CreatePayload(data), "department_c") == CreateDepartment(Get(data, "department_c"))
  {
    RecordPassesThrough(data, Str(FullName(data)), Salary(data), Or(Get(data, "status_c"), Str("active")),
                        CreateDepartment(Get(data, "department_c")));
  }

  /** Both payloads over the same shared fields: the update's differs in its status, department, `Id` and time. */
  lemma UpdateOverCreate(shared: Object, status: JsValue, department: JsValue, status': JsValue, department': JsValue,
                         id: JsValue, at: JsValue)
    ensures var c := shared["status_c" := status]["department_c" := department];
      var u := shared["status_c" := status']["department_c" := department']["Id" := id]["updated_at_c" := at];
      u.Keys == c.Keys + {"Id", "updated_at_c"} &&
      Get(u, "Id") == id && Get(u, "updated_at_c") == at &&
      Get(u, "status_c") == status' && Get(u, "department_c") == department' &&
      forall k :: k !in {"status_c", "department_c", "Id", "updated_at_c"} ==> Get(u, k) == Get(c, k)
  {
  }

  /**
    An update carries the fields of a create of the same input plus `Id` and `updated_at_c`; it
    sends the same values except that the status is passed on as given, with no default, and the
    department follows the rule of `update`.
  */
  lemma UpdatePayloadShape(id: JsValue, data: Object, clock: Clock)
    ensures UpdatePayload(id, data, clock).Keys == CreatePayload(data).Keys + {"Id", "updated_at_c"}
    ensures Get(UpdatePayload(id, data, clock), "Id") == ParseIntValue(id)
    ensures Get(UpdatePayload(id, data, clock), "updated_at_c") == Str(clock.iso)
    ensures Get(UpdatePayload(id, data, clock), "status_c") == Get(data, "status_c")
    ensures Get(UpdatePayload(id, data, clock), "department_c") == UpdateDepartment(Get(data, "department_c"))
    ensures forall k :: k !in {"status_c", "department_c", "Id", "updated_at_c"} ==>
      Get(UpdatePayload(id, data, clock), k) == Get(CreatePayload(data), k)
  {
    var shared := SharedFields(Str(FullName(data)), Get(data, "first_name_c"), Get(data, "last_name_c"), Get(data, "email_c"),
                               Get(data, "phone_c"), Get(data, "position_c"), Get(data, "start_date_c"), Salary(data),
                               Get(data, "manager_c"));
    UpdateOverCreate(shared, Or(Get(data, "status_c"), Str("active")), CreateDepartment(Get(data, "department_c")),
                     Get(data, "status_c"), UpdateDepartment(Get(data, "department_c")), ParseIntValue(id), Str(clock.iso));
  }
}

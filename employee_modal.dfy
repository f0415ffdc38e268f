/**
  The employee form: the fields it holds, how opening it fills them from an employee record or
  blanks them, how an edit updates one field and clears that field's error, which errors the
  validator raises, and the guard that keeps an invalid form from reaching the service.
*/
module EmployeeModal {
  import opened Wrappers
  import opened Js
  import opened JsNumber

  /** The form's input fields; an input's `name` attribute is one of these. */
  datatype Field = FirstName | LastName | Email | Phone | Position | Department | StartDate | Status | Salary | Manager

  /** The form state: the text of each input. */
  type Form = map<Field, string>

  /** Every input has a value. */
  predicate Complete(form: Form) {
    FirstName in form && LastName in form && Email in form && Phone in form && Position in form &&
    Department in form && StartDate in form && Status in form && Salary in form && Manager in form
  }

  /** The value of an input; a form that is not complete reads "" for a missing one. */
  function Text(form: Form, f: Field): string {
    if f in form then form[f] else ""
  }

  lemma CompleteHasAll(form: Form, f: Field)
    requires Complete(form)
    ensures f in form
  {
    match f {
      case FirstName => case LastName => case Email => case Phone => case Position =>
      case Department => case StartDate => case Status => case Salary => case Manager =>
    }
  }

  /** The state of a form opened without an employee: blank, with status "active". */
  const BlankForm: Form := map[FirstName := "", LastName := "", Email := "", Phone := "", Position := "",
                               Department := "", StartDate := "", Status := "active", Salary := "", Manager := ""]

  /** `s.split('T')[0]`: the text before the first `T`, or all of it. */
  function BeforeT(s: string): (r: string)
    ensures |r| <= |s| && r == s[..|r|]
    ensures forall i :: 0 <= i < |r| ==> r[i] != 'T'
    ensures r == s || s[|r|] == 'T'
  {
    if s == [] || s[0] == 'T' then [] else [s[0]] + BeforeT(s[1..])
  }

  /** The state of a form opened on an employee record. */
  function FormOf(employee: Object): Form {
    var startDate := Get(employee, "startDate");
    map[FirstName := TextOr(Get(employee, "firstName")), LastName := TextOr(Get(employee, "lastName")),
        Email := TextOr(Get(employee, "email")), Phone := TextOr(Get(employee, "phone")),
        Position := TextOr(Get(employee, "position")), Department := TextOr(Get(employee, "department")),
        StartDate := (if Truthy(startDate) then BeforeT(ToStr(startDate)) else ""),
        Status := ToStr(Or(Get(employee, "status"), Str("active"))),
        Salary := TextOr(Get(employee, "salary")), Manager := TextOr(Get(employee, "manager"))]
  }

  /** The value of a text field of the record, when the record holds text there. */
  predicate HoldsText(employee: Object, key: string, s: string) {
    Get(employee, key) == Str(s)
  }

  // ---------------------------------------------------------------------------
  // The email pattern

  /**
    `/\S+@\S+\.\S+/.test(s)`: somewhere in `s` (the pattern is not anchored) a non-space character
    is followed by `@`, then by at least one non-space character, a `.`, and a non-space character.
  */
  predicate EmailShapeAt(s: string, at: int, dot: int) {
    0 < at && at + 1 < dot && dot + 1 < |s| &&
    s[at] == '@' && !IsWhiteSpace(s[at - 1]) && s[dot] == '.' && !IsWhiteSpace(s[dot + 1]) &&
    forall i :: at < i < dot ==> !IsWhiteSpace(s[i])
  }

  predicate IsEmailLike(s: string) {
    exists at, dot | 0 < at < |s| && 0 < dot < |s| :: EmailShapeAt(s, at, dot)
  }

  /** The pattern is unanchored: text around a match does not undo it. */
  lemma EmailUnanchored(before: string, s: string, after: string)
    requires IsEmailLike(s)
    ensures IsEmailLike(before + s + after)
  {
    var at: int, dot: int :| 0 < at < |s| && 0 < dot < |s| && EmailShapeAt(s, at, dot);
    var t := before + s + after;
    var k := |before|;
    assert forall i :: 0 <= i < |s| ==> t[k + i] == s[i];
    assert EmailShapeAt(t, k + at, k + dot);
  }

  /** "a@b.c" has the shape; "a@b" (no dot) and "a @b.c" (space before `@`) do not. */
  lemma EmailExamples()
    ensures IsEmailLike("a@b.c")
    ensures !IsEmailLike("a@b")
    ensures !IsEmailLike("a @b.c")
  {
    assert EmailShapeAt("a@b.c", 1, 3);
    forall at, dot | EmailShapeAt("a @b.c", at, dot) ensures false {
    }
  }

  // ---------------------------------------------------------------------------
  // Validation

  /** `!v.trim()`: the text is empty or all whitespace. */
  predicate Blank(v: string) {
    Trim(v) == ""
  }

  /** The messages the validator stores, and the empty text an edit leaves in their place. */
  datatype Message = FirstNameRequired | LastNameRequired | EmailRequired | EmailInvalid | PhoneRequired
                   | PositionRequired | DepartmentRequired | StartDateRequired | SalaryRequired | SalaryInvalid
                   | Cleared

  /** The text shown under the field. */
  function MessageText(m: Message): string {
    match m
    case FirstNameRequired => "First name is required"
    case LastNameRequired => "Last name is required"
    case EmailRequired => "Email is required"
    case EmailInvalid => "Please enter a valid email address"
    case PhoneRequired => "Phone number is required"
    case PositionRequired => "Position is required"
    case DepartmentRequired => "Department is required"
    case StartDateRequired => "Start date is required"
    case SalaryRequired => "Salary is required"
    case SalaryInvalid => "Please enter a valid salary amount"
    case Cleared => ""
  }

  /** The errors object: a message per field that has one. */
  type Errors = map<Field, Message>

  /** Distinct messages have distinct texts, and only a cleared one is falsy (empty). */
  lemma MessageTexts(m1: Message, m2: Message)
    ensures MessageText(m1) == MessageText(m2) <==> m1 == m2
    ensures MessageText(m1) == "" <==> m1 == Cleared
  {
  }

  /** The outcome of each of the validator's checks, `true` where the check fails. */
  datatype Checks = Checks(firstName: bool, lastName: bool, emailBlank: bool, emailMalformed: bool,
                           phone: bool, position: bool, department: bool, startDate: bool,
                           salaryEmpty: bool, salaryInvalid: bool)

  /** The checks `validateForm` makes on the form's values. */
  function ChecksOf(form: Form): Checks {
    var salary := Text(form, Salary);
    Checks(Blank(Text(form, FirstName)), Blank(Text(form, LastName)),
           Blank(Text(form, Email)), !IsEmailLike(Text(form, Email)),
           Blank(Text(form, Phone)), Blank(Text(form, Position)),
           Text(form, Department) == "", Text(form, StartDate) == "",
           salary == "", IsNaNText(salary) || ParseFloatReading(salary) == FNonPositive)
  }

  /** `errors` holds `f` exactly when its check fails, and then with the check's message. */
  predicate AgreesWith(errors: Errors, f: Field, fails: bool, message: Message) {
    (f in errors <==> fails) && (f in errors ==> errors[f] == message)
  }

  /**
    `errors` holds exactly the fields whose checks fail, each with its message: for email and
    salary the first failing check decides the message. Status and manager are never checked.
  */
  predicate Records(c: Checks, errors: Errors) {
    AgreesWith(errors, FirstName, c.firstName, FirstNameRequired) &&
    AgreesWith(errors, LastName, c.lastName, LastNameRequired) &&
    AgreesWith(errors, Email, c.emailBlank || c.emailMalformed,
               if c.emailBlank then EmailRequired else EmailInvalid) &&
    AgreesWith(errors, Phone, c.phone, PhoneRequired) &&
    AgreesWith(errors, Position, c.position, PositionRequired) &&
    AgreesWith(errors, Department, c.department, DepartmentRequired) &&
    AgreesWith(errors, StartDate, c.startDate, StartDateRequired) &&
    AgreesWith(errors, Salary, c.salaryEmpty || c.salaryInvalid,
               if c.salaryEmpty then SalaryRequired else SalaryInvalid) &&
    Status !in errors && Manager !in errors
  }

  /** Every check passes. */
  predicate AllPass(c: Checks) {
    !c.firstName && !c.lastName && !c.emailBlank && !c.emailMalformed && !c.phone && !c.position &&
    !c.department && !c.startDate && !c.salaryEmpty && !c.salaryInvalid
  }

  /** `errors` holds exactly the errors of `form`. */
  ghost predicate ErrorsFor(form: Form, errors: Errors) {
    Records(ChecksOf(form), errors)
  }

  /** `errors` agrees with the first `n` checks and holds no field checked later. */
  predicate RecordsUpTo(c: Checks, errors: Errors, n: nat) {
    (n <= 0 ==> FirstName !in errors) &&
    (n <= 1 ==> LastName !in errors) &&
    (n <= 2 ==> Email !in errors) &&
    (n <= 3 ==> Phone !in errors) &&
    (n <= 4 ==> Position !in errors) &&
    (n <= 5 ==> Department !in errors) &&
    (n <= 6 ==> StartDate !in errors) &&
    (n <= 7 ==> Salary !in errors) &&
    Status !in errors && Manager !in errors &&
    (n > 0 ==> AgreesWith(errors, FirstName, c.firstName, FirstNameRequired)) &&
    (n > 1 ==> AgreesWith(errors, LastName, c.lastName, LastNameRequired)) &&
    (n > 2 ==> AgreesWith(errors, Email, c.emailBlank || c.emailMalformed, (if c.emailBlank then EmailRequired else EmailInvalid))) &&
    (n > 3 ==> AgreesWith(errors, Phone, c.phone, PhoneRequired)) &&
    (n > 4 ==> AgreesWith(errors, Position, c.position, PositionRequired)) &&
    (n > 5 ==> AgreesWith(errors, Department, c.department, DepartmentRequired)) &&
    (n > 6 ==> AgreesWith(errors, StartDate, c.startDate, StartDateRequired)) &&
    (n > 7 ==> AgreesWith(errors, Salary, c.salaryEmpty || c.salaryInvalid, (if c.salaryEmpty then SalaryRequired else SalaryInvalid)))
  }

  /** `validateForm`'s construction of `newErrors`, one check after another. */
  method BuildErrors(c: Checks) returns (newErrors: Errors)
    ensures Records(c, newErrors)
  {
    newErrors := NameAndEmailErrors(c);
    newErrors := ContactErrors(c, newErrors);
    newErrors := JobErrors(c, newErrors);
  }

  /** The first three checks, on an empty errors object. */
  method NameAndEmailErrors(c: Checks) returns (newErrors: Errors)
    ensures RecordsUpTo(c, newErrors, 3)
  {
    newErrors := map[];
    if c.firstName {
      newErrors := newErrors[FirstName := FirstNameRequired];
    }
    if c.lastName {
      newErrors := newErrors[LastName := LastNameRequired];
    }
    if c.emailBlank {
      newErrors := newErrors[Email := EmailRequired];
    } else if c.emailMalformed {
      newErrors := newErrors[Email := EmailInvalid];
    }
  }

  /** The phone and position checks, after the first three. */
  method ContactErrors(c: Checks, errors: Errors) returns (newErrors: Errors)
    requires RecordsUpTo(c, errors, 3)
    ensures RecordsUpTo(c, newErrors, 5)
  {
    newErrors := errors;
    if c.phone {
      newErrors := newErrors[Phone := PhoneRequired];
    }
    if c.position {
      newErrors := newErrors[Position := PositionRequired];
    }
  }

  /** The remaining checks, after the first five. */
  method JobErrors(c: Checks, errors: Errors) returns (newErrors: Errors)
    requires RecordsUpTo(c, errors, 5)
    ensures Records(c, newErrors)
  {
    newErrors := errors;
    if c.department {
      newErrors := newErrors[Department := DepartmentRequired];
    }
    if c.startDate {
      newErrors := newErrors[StartDate := StartDateRequired];
    }
    if c.salaryEmpty {
      newErrors := newErrors[Salary := SalaryRequired];
    } else if c.salaryInvalid {
      newErrors := newErrors[Salary := SalaryInvalid];
    }
  }

  /** The errors of a set of check outcomes are determined by them, and empty exactly when all pass. */
  lemma RecordsDetermined(c: Checks, e1: Errors, e2: Errors)
    requires Records(c, e1) && Records(c, e2)
    ensures e1 == e2
    ensures e1 == map[] <==> AllPass(c)
  {
    forall f | f in e1 || f in e2 ensures f in e1 && f in e2 && e1[f] == e2[f] {
      match f {
        case FirstName => case LastName => case Email => case Phone => case Position =>
        case Department => case StartDate => case Status => case Salary => case Manager =>
      }
    }
    assert e1.Keys == e2.Keys;
    if !AllPass(c) {
      assert e1 != map[];
    } else if e1 != map[] {
      var f :| f in e1;
      match f {
        case FirstName => case LastName => case Email => case Phone => case Position =>
        case Department => case StartDate => case Status => case Salary => case Manager =>
      }
    }
  }

  /** The salary check fails on empty text, on text `isNaN` rejects, and on text `parseFloat` reads as 0 or less. */
  predicate SalaryFails(v: string) {
    v == "" || IsNaNText(v) || ParseFloatReading(v) == FNonPositive
  }

  /** The form's salary check is `SalaryFails` of its salary text. */
  lemma SalaryCheck(form: Form)
    ensures (ChecksOf(form).salaryEmpty || ChecksOf(form).salaryInvalid) == SalaryFails(Text(form, Salary))
  {
  }

  /** A filled-in salary the validator accepts is one `parseFloat` reads as positive. */
  lemma AcceptedSalaryIsPositive(form: Form)
    requires !SalaryFails(Text(form, Salary)) && !Blank(Text(form, Salary))
    ensures ParseFloatReading(Text(form, Salary)) == FPositive
  {
    NumericTextReads(Text(form, Salary));
  }

  /** The decimal text of an integer passes the salary check exactly when the integer is positive. */
  lemma IntegerSalary(form: Form, n: int)
    requires Text(form, Salary) == IntToString(n)
    ensures !SalaryFails(Text(form, Salary)) <==> n > 0
  {
    ReadingOfIntToString(n);
  }

  /** Blank but non-empty salary text passes: `isNaN` reads it as 0 and `parseFloat` as NaN. */
  lemma BlankSalaryPasses(form: Form)
    requires var v := Text(form, Salary); v != [] && forall i :: 0 <= i < |v| ==> IsWhiteSpace(v[i])
    ensures !SalaryFails(Text(form, Salary))
    ensures ParseFloatReading(Text(form, Salary)) == FNaN
  {
    BlankText(Text(form, Salary));
  }

  // ---------------------------------------------------------------------------
  // Opening the form

  /**
    Opening on a record fills every field: text the record holds is kept, anything missing or
    falsy becomes "", the status defaults to "active", the start date is cut at its `T`, and a
    falsy salary (0 among them) becomes "".
  */
  lemma FormOfShape(employee: Object)
    ensures Complete(FormOf(employee))
    ensures FormOf(employee)[Status] != ""
    ensures !Truthy(Get(employee, "status")) ==> FormOf(employee)[Status] == "active"
    ensures forall i :: 0 <= i < |FormOf(employee)[StartDate]| ==> FormOf(employee)[StartDate][i] != 'T'
    ensures FormOf(employee)[Salary] == "" <==> !Truthy(Get(employee, "salary"))
    ensures forall s :: HoldsText(employee, "firstName", s) ==> FormOf(employee)[FirstName] == s
    ensures forall s :: HoldsText(employee, "email", s) ==> FormOf(employee)[Email] == s
    ensures forall s :: HoldsText(employee, "department", s) ==> FormOf(employee)[Department] == s
  {
    var form := FormOf(employee);
    var salary := Get(employee, "salary");
    if Truthy(salary) && salary.Num? {
      assert |IntToString(salary.n)| > 0;
    }
    var status := Or(Get(employee, "status"), Str("active"));
    assert status.Num? ==> |IntToString(status.n)| > 0;
  }

  /** Helper: each field of the opened form, read through the `||` defaults. */
  lemma FormOfFields(employee: Object)
    ensures var form, startDate := FormOf(employee), Get(employee, "startDate");
      form[FirstName] == TextOr(Get(employee, "firstName")) && form[LastName] == TextOr(Get(employee, "lastName")) &&
      form[Email] == TextOr(Get(employee, "email")) && form[Phone] == TextOr(Get(employee, "phone")) &&
      form[Position] == TextOr(Get(employee, "position")) && form[Department] == TextOr(Get(employee, "department")) &&
      form[Salary] == TextOr(Get(employee, "salary")) && form[Manager] == TextOr(Get(employee, "manager")) &&
      form[StartDate] == (if Truthy(startDate) then BeforeT(ToStr(startDate)) else "") &&
      form[Status] == ToStr(Or(Get(employee, "status"), Str("active")))
  {
  }

  /**
    Opening on a record keeps the text each field of the record holds (the start date cut at
    its `T`), and turns a missing or falsy field into "".
  */
  lemma FormOfText(employee: Object)
    ensures forall s :: HoldsText(employee, "lastName", s) ==> FormOf(employee)[LastName] == s
    ensures forall s :: HoldsText(employee, "phone", s) ==> FormOf(employee)[Phone] == s
    ensures forall s :: HoldsText(employee, "position", s) ==> FormOf(employee)[Position] == s
    ensures forall s :: HoldsText(employee, "manager", s) ==> FormOf(employee)[Manager] == s
    ensures forall s :: HoldsText(employee, "salary", s) ==> FormOf(employee)[Salary] == s
    ensures forall s :: HoldsText(employee, "status", s) && s != "" ==> FormOf(employee)[Status] == s
    ensures forall s :: HoldsText(employee, "startDate", s) ==> FormOf(employee)[StartDate] == BeforeT(s)
    ensures !Truthy(Get(employee, "firstName")) ==> FormOf(employee)[FirstName] == ""
    ensures !Truthy(Get(employee, "lastName")) ==> FormOf(employee)[LastName] == ""
    ensures !Truthy(Get(employee, "email")) ==> FormOf(employee)[Email] == ""
    ensures !Truthy(Get(employee, "phone")) ==> FormOf(employee)[Phone] == ""
    ensures !Truthy(Get(employee, "position")) ==> FormOf(employee)[Position] == ""
    ensures !Truthy(Get(employee, "department")) ==> FormOf(employee)[Department] == ""
    ensures !Truthy(Get(employee, "startDate")) ==> FormOf(employee)[StartDate] == ""
    ensures !Truthy(Get(employee, "manager")) ==> FormOf(employee)[Manager] == ""
  {
    FormOfFields(employee);
  }

  /** A record with a positive whole salary opens with a salary the validator accepts. */
  lemma OpenedSalaryPasses(employee: Object, n: int)
    requires Get(employee, "salary") == Num(n) && n > 0
    ensures !SalaryFails(Text(FormOf(employee), Salary))
  {
    IntegerSalary(FormOf(employee), n);
  }

  lemma BlankFormShape()
    ensures Complete(BlankForm)
    ensures forall f: Field :: f != Status ==> Text(BlankForm, f) == ""
    ensures BlankForm[Status] == "active"
  {
    forall f: Field | f != Status ensures Text(BlankForm, f) == "" {
      CompleteHasAll(BlankForm, f);
    }
  }

  // ---------------------------------------------------------------------------
  // Editing

  /** The errors after an edit of `name`: a truthy error there (any but the cleared one, by `MessageTexts`) is replaced by "", nothing else changes. */
  function ClearedErrors(errors: Errors, name: Field): (r: Errors)
    ensures r.Keys == errors.Keys
    ensures name in errors ==> r[name] == Cleared
    ensures forall f :: f in errors && f != name ==> r[f] == errors[f]
  {
    if name in errors && errors[name] != Cleared then errors[name := Cleared] else errors
  }

  /** An edit of one field changes that field and no other. */
  lemma EditChangesOneField(form: Form, name: Field, value: string)
    requires Complete(form)
    ensures Complete(form[name := value])
    ensures form[name := value][name] == value
    ensures forall f :: f != name ==> form[name := value][f] == form[f]
  {
  }

  /** What submitting asks of the employee service. */
  datatype SaveAction = NoCall | CallCreate(data: Form) | CallUpdate(id: JsValue, data: Form)

  class EmployeeModal {
    var formData: Form
    var errors: Errors
    /** The employee the form was opened on, if any. */
    var employee: Option<Object>

    ghost predicate Valid()
      reads this
    {
      Complete(formData)
    }

    constructor ()
      ensures Valid()
      ensures formData == BlankForm && errors == map[] && employee == None
    {
      formData := BlankForm;
      errors := map[];
      employee := None;
    }

    /** The effect of opening the form, with or without an employee. */
    method Open(employee: Option<Object>)
      modifies this
      ensures Valid()
      ensures formData == (if employee.Some? then FormOf(employee.value) else BlankForm)
      ensures errors == map[] && this.employee == employee
    {
      this.employee := employee;
      if employee.Some? {
        FormOfShape(employee.value);
        formData := FormOf(employee.value);
      } else {
        formData := BlankForm;
      }
      errors := map[];
    }

    /** `handleInputChange`: the named field takes the value, and its error, if truthy, is cleared. */
    method HandleInputChange(name: Field, value: string)
      requires Valid()
      modifies this
      ensures Valid()
      ensures formData == old(formData)[name := value]
      ensures errors == ClearedErrors(old(errors), name)
      ensures employee == old(employee)
    {
      formData := formData[name := value];
      errors := ClearedErrors(errors, name);
    }

    /** `validateForm`: stores the errors of the form and reports whether there are none. */
    method ValidateForm() returns (valid: bool)
      requires Valid()
      modifies this
      ensures Valid() && formData == old(formData) && employee == old(employee)
      ensures ErrorsFor(formData, errors)
      ensures valid <==> errors == map[]
      ensures valid <==> AllPass(ChecksOf(formData))
    {
      var c := ChecksOf(formData);
      var e := BuildErrors(c);
      RecordsDetermined(c, e, e);
      errors := e;
      valid := |e| == 0;
    }

    /**
      The submit guard: an invalid form reaches no service call; a valid one is sent to `update`
      with the employee's `Id` when the form was opened on an employee, to `create` otherwise.
    */
    method Submit() returns (action: SaveAction)
      requires Valid()
      modifies this
      ensures Valid() && formData == old(formData) && employee == old(employee)
      ensures ErrorsFor(formData, errors)
      ensures action == NoCall <==> !AllPass(ChecksOf(formData))
      ensures action.CallCreate? <==> errors == map[] && employee.None?
      ensures action.CallUpdate? <==> !action.NoCall? && employee.Some?
      ensures action.CallUpdate? ==> employee.Some? && action == CallUpdate(Get(employee.value, "Id"), formData)
      ensures action.CallCreate? ==> action.data == formData
    {
      var valid := ValidateForm();
      if !valid {
        action := NoCall;
        return;
      }
      if employee.Some? {
        action := CallUpdate(Get(employee.value, "Id"), formData);
      } else {
        action := CallCreate(formData);
      }
    }
  }
}

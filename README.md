# StaffHub employee management: a verified model of its core

StaffHub is a small staff-management web application. Its pages list, search, sort and edit
employees, show departments, an activity log, a dashboard and reports. Behind them sit three
gateways:

- an in-memory department table;
- an employee gateway;
- an activity-log gateway.

The two gateways talk to a hosted record store through its SDK client. This project models in
Dafny the logic those pieces carry, and proves what they promise.

- **Department table** (`DepartmentService`). A class over the sequence of department records.
  - `create` numbers the new record one past the largest `Id` and appends it.
  - `update` merges fields into the record found by `Id` and pins its `Id`.
  - `delete` splices the record out.
  - Lookups fail with the not-found error.
  - The class invariant keeps every `Id` numeric; the lemmas show `create`, `update` and `delete` keep the ids distinct.
- **Record gateways** (`EmployeeService`, `LoggerService`, with `Protocol` and `EmployeeRecord`).
  - The SDK client is not modelled. Each gateway method receives the client's answer as a value (`Call`) and returns the requests it sent (`sent`) with its result or raised message.
  - The payload builders are functions, reproducing JavaScript's `||` defaults, template strings, `trim` and a prefix parser for `parseInt`.
  - The response interpreters map `{success, message, results}` to a record, `null`, `[]` or an error.
  - An employee create, update or delete also writes a best-effort activity entry, and a create may send an SMS. Those writes appear in `sent`; nothing they answer reaches the result.
- **Employee form** (`EmployeeModal`). It covers:
  - how opening fills the form;
  - how an edit changes one field and clears its error;
  - the validator, which is built one check after another, with the unanchored e-mail pattern and the readings of `isNaN` and `parseFloat`;
  - the submit guard.
- **Pages**:
  - `EmployeesPage`: the filters and the list updates after a save or a delete;
  - `EmployeeTable`: the sort header state machine, the in-place insertion sort of a copy by a JavaScript-style comparator, and the status badge;
  - `LoggerPage`: the log filters, badge, entry form modes and save dispatch;
  - `Reports`, `Dashboard` and `DepartmentsPage`: counts and sums, with the in-place sort of the dashboard's list.
- **Support modules**:
  - `Js`: JavaScript values, truthiness, `String`, `===`, `trim`, ASCII `toLowerCase`, `includes`, `parseInt`;
  - `JsNumber`: the `isNaN`/`parseFloat` reading of text;
  - `Seqs`: `filter`, counts and sums;
  - `Sorting`: key order, comparator and sort;
  - `Wrappers`: `Option`/`Result`.

Each file is modelled against its own field names: the camelCase and `*_c` schemas are not
reconciled.

## Model

| member | source | states |
|---|---|---|
| DepartmentService.MaxId | src/services/api/departmentService.js:26 | the result is at least 0 and at least every `Id`, and is 0 or some record's `Id` |
| DepartmentService.FindIndex | src/services/api/departmentService.js:40 | -1 exactly when no record carries the parsed id (a NaN id matches none), otherwise the index of the first record that does |
| DepartmentService.DepartmentService.constructor | src/services/api/departmentService.js:4-6 | the table starts as the seed records, with numeric ids |
| DepartmentService.DepartmentService.GetAll | src/services/api/departmentService.js:8-12 | returns the records in table order and changes nothing |
| DepartmentService.DepartmentService.GetById | src/services/api/departmentService.js:14-21 | succeeds exactly when some record's `Id` equals `parseInt(id)`, with the first such record; otherwise fails with "Department with ID … not found" |
| DepartmentService.DepartmentService.Create | src/services/api/departmentService.js:23-35 | appends `NewDepartment` (Id max+1, then the caller's fields, `employeeCount` 0) and returns it; earlier records are untouched and the table grows by one |
| DepartmentService.DepartmentService.Update | src/services/api/departmentService.js:37-53 | an absent id fails with the not-found error and leaves the table as it was; otherwise only the found position changes, to the merge with its `Id` pinned, which is returned |
| DepartmentService.DepartmentService.Delete | src/services/api/departmentService.js:55-65 | an absent id fails and changes nothing; otherwise the found record is returned and removed, the others keep their order |
| DepartmentService.PinnedUpdate | src/services/api/departmentService.js:45-49 | the spread merge with `Id: parseInt(id)` carries the numeric `Id` the id parses to |
| DepartmentService.PinnedIdKeepsNumericIds | src/services/api/departmentService.js:51 | replacing one record by one with a numeric `Id` keeps every `Id` numeric |
| DepartmentService.RemovalKeepsNumericIds | src/services/api/departmentService.js:63 | after the splice, earlier records stay in place, later ones shift down by one, all ids stay numeric |
| DepartmentService.CreateKeepsIdsDistinct | src/services/api/departmentService.js:26-33 | without a caller `Id`, the new record's `Id` is max+1 ≥ 1, above every existing `Id`; it keeps the caller's fields and `employeeCount` 0; distinct ids stay distinct |
| DepartmentService.CreateThenFind | src/services/api/departmentService.js:16-33 | a department just created is the one found under the new `Id`, at the end |
| DepartmentService.NewDepartmentId | src/services/api/departmentService.js:26-28 | the new record's `Id` is one past the largest when the caller gives none |
| DepartmentService.NewDepartment | src/services/api/departmentService.js:27-31 | definition: `{ Id: highestId + 1, ...data, employeeCount: 0 }`. Proved about it: `NewDepartmentId`, `CreateKeepsIdsDistinct` |
| DepartmentService.AppendedIsFound | src/services/api/departmentService.js:33-40 | a record appended under an `Id` larger than all others is found at the last index |
| DepartmentService.UpdateKeepsIds | src/services/api/departmentService.js:45-51 | supplied fields overwrite, unsupplied are kept, `Id` stays; every `Id` of the table is unchanged, so distinctness is preserved |
| DepartmentService.UpdateIdempotent | src/services/api/departmentService.js:45-49 | merging the same fields twice is merging them once |
| DepartmentService.UpdatedDepartment | src/services/api/departmentService.js:45-49 | definition: `{ ...current, ...data, Id: n }`. Proved about it: `PinnedUpdate`, `UpdateKeepsIds`, `UpdateIdempotent` |
| DepartmentService.DeleteRemovesId | src/services/api/departmentService.js:58-63 | with distinct ids, the table after the delete has one record less, its ids stay distinct, and the id is no longer found |
| Protocol.FirstMessage | src/services/api/employeeService.js:221-225 | none exactly when no failed record carries a message; otherwise the message of the first one that does |
| Protocol.ThrowOnFirstMessage | src/services/api/employeeService.js:221-225 | the `forEach` loop stops at and reports exactly `FirstMessage` |
| Protocol.InterpretUpdate | src/services/api/loggerService.js:149-166 | the step-by-step reading of an update's answer equals `UpdateOutcome` |
| Protocol.InterpretDelete | src/services/api/loggerService.js:183-199 | the step-by-step reading of a delete's answer equals `DeleteOutcome` |
| Protocol.CreateOutcomeFailsIff | src/services/api/employeeService.js:118-132 | create raises exactly when the call threw, the transport failed or some record failed; a failing record makes it raise `CreateFailureMessage` of the first failed record, which is non-empty when the fallback is |
| Protocol.FailedIsEmptyIffAllSucceed | src/services/api/loggerService.js:111-114 | no record is in the failed list exactly when every record succeeded |
| Protocol.SuccessfulOfAllSucceeded | src/services/api/loggerService.js:111-120 | when all records succeed the successful list is the whole list |
| Protocol.OutcomesAgreeWhenAllSucceed | src/services/api/loggerService.js:110-165 | with no failed record, create and update both return the first record's `data` (or null) and delete returns true |
| Protocol.UpdateIgnoresSilentFailures | src/services/api/employeeService.js:218-228 | failed records without a message are skipped: update returns the first successful `data`, delete returns true |
| Protocol.FailedCarryNoMessage | src/services/api/loggerService.js:158-162 | when no failed record carries a message, neither does any entry of the failed list |
| Protocol.UpdateRaisesForMessage | src/services/api/loggerService.js:158-162 | one failed record with a message makes update and delete raise the same non-empty message, that of the first failed record carrying one |
| Protocol.ReadOutcomes | src/services/api/employeeService.js:44-82 | a list read answers records only from a successful response carrying them; `getById` answers the response's `data` or raises; a non-raising delete answers true |
| Protocol.CreateFailureMessage | src/services/api/employeeService.js:130 | the failed record's message when it has one, else its first error when that is non-empty, else the fallback; never empty when the fallback is not |
| Protocol.CreateOutcome | src/services/api/employeeService.js:118-178 | definition: a thrown call or `success: false` raises its message; no `results` returns null; a failed record raises `CreateFailureMessage`; otherwise the first successful `data` or null. Proved about it: `CreateOutcomeFailsIff`, `OutcomesAgreeWhenAllSucceed` |
| Protocol.UpdateOutcome | src/services/api/employeeService.js:210-243 | definition: a thrown call or `success: false` raises; the first failed record with a message raises that message; otherwise the first successful `data` or null; no `results` gives none. Proved about it: `InterpretUpdate`, `UpdateIgnoresSilentFailures`, `UpdateRaisesForMessage` |
| Protocol.DeleteOutcome | src/services/api/employeeService.js:269-299 | definition: raises like `UpdateOutcome`, otherwise true, also without `results`. Proved about it: `InterpretDelete`, `UpdateRaisesForMessage`, `ReadOutcomes` |
| Protocol.ListOutcome | src/services/api/employeeService.js:42-53 | definition: [] for a thrown call or `success: false`, otherwise `data` or []. Proved about it: `ReadOutcomes` |
| Protocol.GetByIdOutcome | src/services/api/employeeService.js:78-88 | definition: a thrown call raises; a response without `data` raises the not-found error; otherwise the `data`. Proved about it: `ReadOutcomes` |
| EmployeeRecord.SalaryOfNumber | src/services/api/employeeService.js:109 | a salary given as a number or its decimal text is sent as that number |
| EmployeeRecord.SalaryIsNumber | src/services/api/employeeService.js:109 | the salary sent is always a number, 0 when the input does not parse |
| EmployeeRecord.DepartmentRulesDiffer | src/services/api/employeeService.js:111 | the create and update department rules differ exactly on a truthy reference that parses to 0 or NaN; both send null for a falsy one |
| EmployeeRecord.ZeroDepartmentDiffers | src/services/api/employeeService.js:206 | "0" links department 0 on create and unlinks on update |
| EmployeeRecord.NameOfParts | src/services/api/employeeService.js:101 | trimmed first and last names are joined with one space |
| EmployeeRecord.NameOfFirstOnly | src/services/api/employeeService.js:101 | a missing last name leaves the first name alone |
| EmployeeRecord.NameOfNeither | src/services/api/employeeService.js:101 | with neither part the name is empty |
| EmployeeRecord.FullName | src/services/api/employeeService.js:101 | definition: the trimmed template of first and last name. Proved about it: `NameOfParts`, `NameOfFirstOnly`, `NameOfNeither` |
| EmployeeRecord.Salary | src/services/api/employeeService.js:109 | definition: `parseInt(salary) || 0`. Proved about it: `SalaryOfNumber`, `SalaryIsNumber` |
| EmployeeRecord.CreateDepartment | src/services/api/employeeService.js:111 | definition: `department ? parseInt(department) : null`. Proved about it: `DepartmentRulesDiffer`, `ZeroDepartmentDiffers` |
| EmployeeRecord.UpdateDepartment | src/services/api/employeeService.js:206 | definition: `parseInt(department) || null`. Proved about it: `DepartmentRulesDiffer`, `ZeroDepartmentDiffers` |
| EmployeeRecord.RecordPassesThrough | src/services/api/employeeService.js:101-111 | the form fields are passed on unchanged beside name, salary, status and department |
| EmployeeRecord.CreatePayloadShape | src/services/api/employeeService.js:99-113 | the joined name, the passed-on fields, a numeric salary, status defaulting to "active", and the create department rule |
| EmployeeRecord.CreatePayload | src/services/api/employeeService.js:99-113 | definition: the eleven-field record `create` sends. Proved about it: `CreatePayloadShape`, `RecordPassesThrough` |
| EmployeeRecord.UpdateOverCreate | src/services/api/employeeService.js:192-208 | an update payload over the same fields has two more keys and differs only in status, department, `Id` and time |
| EmployeeRecord.UpdatePayloadShape | src/services/api/employeeService.js:192-208 | the update payload is the create payload's keys plus `Id = parseInt(id)` and `updated_at_c`; status has no default; department follows the update rule |
| EmployeeRecord.UpdatePayload | src/services/api/employeeService.js:192-208 | definition: the record `update` sends. Proved about it: `UpdatePayloadShape`, `UpdateOverCreate` |
| EmployeeService.SideWritesShape | src/services/api/employeeService.js:123-175 | an incomplete mutation sends only itself; a completed one then sends the SMS calls and the log gateway's write |
| EmployeeService.SmsDue | src/services/api/employeeService.js:137 | definition: a record was created and the input has a truthy phone and first name. Proved about it: `CreateSideWrites` |
| EmployeeService.DeletedName | src/services/api/employeeService.js:255-261 | definition: the looked-up record's joined name, or "Unknown Employee" when the lookup raised. Used by `LookUpName` |
| EmployeeService.CreateLogEntry | src/services/api/employeeService.js:165-170 | definition: the "info" entry with the create message, the created `Id` and the create tags. Proved about it: `CreateEntryStored` |
| EmployeeService.UpdateLogEntry | src/services/api/employeeService.js:232-237 | definition: the "info" entry with the update message, `parseInt(id)` and the update tags. Proved about it: `UpdateEntryStored` |
| EmployeeService.DeleteLogEntry | src/services/api/employeeService.js:289-294 | definition: the "warning" entry with the deleted name, `parseInt(id)` and the delete tags. Proved about it: `DeleteEntryStored` |
| EmployeeService.CreateTrace | src/services/api/employeeService.js:116-175 | definition: the create request, then on completion the SMS when due and the entry. Proved about it: `CreateSideWrites`, `TraceShapeWrites` |
| EmployeeService.UpdateTrace | src/services/api/employeeService.js:210-242 | definition: the update request, then on completion the entry. Proved about it: `UpdateSideWrites`, `TraceShapeWrites` |
| EmployeeService.DeleteTrace | src/services/api/employeeService.js:269-297 | definition: the delete request, then unless it raised the entry. Proved about it: `DeleteSideWrites`, `TraceShapeWrites` |
| EmployeeService.CreateEntryStored | src/services/api/employeeService.js:164-170 | the create's activity entry is stored at level "info" with tags "employee,create,activity", linked to the created `Id` or null |
| EmployeeService.UpdateEntryStored | src/services/api/employeeService.js:231-237 | the update's entry is stored at "info" with tags "employee,update,activity", linked to `parseInt(id)` when non-zero |
| EmployeeService.DeleteEntryStored | src/services/api/employeeService.js:288-294 | the delete's entry is stored at "warning" with message "Employee deleted: <name>" and tags "employee,delete,activity" |
| EmployeeService.EmployeeService.constructor | src/services/api/employeeService.js:1-6 | the client exists exactly when the SDK was loaded |
| EmployeeService.EmployeeService.EnsureClient | src/services/api/employeeService.js:8-16 | the client exists afterwards when it did before or the SDK is loaded now |
| EmployeeService.EmployeeService.GetAll | src/services/api/employeeService.js:18-54 | sends the 100-record query ordered by `Id` descending when there is a client; returns `data` or [] and never raises |
| EmployeeService.EmployeeService.GetById | src/services/api/employeeService.js:56-89 | sends `getRecordById(parseInt(id))`; returns `data` or raises "Employee with ID … not found" (or the call's error) |
| EmployeeService.EmployeeService.Create | src/services/api/employeeService.js:91-183 | without a client raises and sends nothing; otherwise returns `CreateOutcome` and sends `CreateTrace` (record, maybe SMS, maybe activity entry) |
| EmployeeService.EmployeeService.SendCreate | src/services/api/employeeService.js:116-178 | once the client exists: result `CreateOutcome`, requests `CreateTrace`; the log gateway gains a client only through a completed create |
| EmployeeService.EmployeeService.Update | src/services/api/employeeService.js:185-248 | without a client raises and sends nothing; otherwise returns `UpdateOutcome` and sends `UpdateTrace` |
| EmployeeService.EmployeeService.SendUpdate | src/services/api/employeeService.js:210-242 | once the client exists: result `UpdateOutcome`, requests `UpdateTrace` |
| EmployeeService.EmployeeService.LookUpName | src/services/api/employeeService.js:255-261 | sends the lookup when there is a client; the name is the record's joined name, or "Unknown Employee" when the lookup raised or there is no client |
| EmployeeService.EmployeeService.DeleteAndLog | src/services/api/employeeService.js:262-303 | returns `DeleteOutcome` and sends the delete then, unless it raised, the "warning" entry |
| EmployeeService.EmployeeService.Delete | src/services/api/employeeService.js:250-304 | the lookup goes first, then the delete and its entry; the result is that of the delete alone |
| EmployeeService.EmployeeService.GetByDepartment | src/services/api/employeeService.js:306-335 | sends the `department_c EqualTo parseInt(id)` query; returns `data` or [] and never raises |
| EmployeeService.EmployeeService.GetByStatus | src/services/api/employeeService.js:337-363 | sends the `status_c EqualTo status` query; returns `data` or [] and never raises |
| EmployeeService.LogWritesAppend | src/services/api/employeeService.js:163-175 | the entries written and the SMS calls made by two request sequences add up |
| EmployeeService.WriteRequestsWrite | src/services/api/loggerService.js:87-103 | the log gateway's create writes its one entry when it has a client, and sends no SMS |
| EmployeeService.TraceShapeWrites | src/services/api/employeeService.js:123-175 | every mutation trace starts with the mutation; SMS calls and activity entries occur only after a completed mutation |
| EmployeeService.SmsOnly | src/services/api/employeeService.js:137-161 | edge-function calls write no activity entry |
| EmployeeService.CreateSideWrites | src/services/api/employeeService.js:123-175 | one SMS exactly when a record was created, with phone and first name, and the SDK is loaded; one "info" entry exactly when the create completed and the log gateway has a client; nothing else |
| EmployeeService.UpdateSideWrites | src/services/api/employeeService.js:216-242 | no SMS; one entry exactly when the update completed and the log gateway has a client |
| EmployeeService.DeleteSideWrites | src/services/api/employeeService.js:262-299 | no SMS; a raising delete writes no entry, any other writes exactly one, even without `results` |
| LoggerService.LoggerService.constructor | src/services/api/loggerService.js:2-6 | the client exists exactly when the SDK was loaded |
| LoggerService.LoggerService.EnsureClient | src/services/api/loggerService.js:8-16 | the client exists afterwards when it did before or the SDK is loaded now |
| LoggerService.LoggerService.GetAll | src/services/api/loggerService.js:18-52 | sends the `timestamp_c` descending, limit 50 offset 0 query; returns `data` or [] and never raises |
| LoggerService.LoggerService.GetById | src/services/api/loggerService.js:54-85 | returns `data` or raises "Logger entry with ID … not found" (or the call's error) |
| LoggerService.LoggerService.Create | src/services/api/loggerService.js:87-128 | sends the entry with its defaults filled in; returns `CreateOutcome` with fallback "Failed to create logger entry" |
| LoggerService.LoggerService.Update | src/services/api/loggerService.js:130-171 | sends the payload with `Id = parseInt(id)`; returns `UpdateOutcome` |
| LoggerService.LoggerService.Delete | src/services/api/loggerService.js:173-204 | sends `RecordIds: [parseInt(id)]`; returns `DeleteOutcome` |
| LoggerService.LoggerService.GetByLogLevel | src/services/api/loggerService.js:206-234 | sends the `log_level_c EqualTo level` query; returns `data` or [] and never raises |
| LoggerService.LoggerService.GetByEmployee | src/services/api/loggerService.js:236-264 | sends the `employee_c EqualTo parseInt(id)` query; returns `data` or [] and never raises |
| LoggerService.PayloadDefaults | src/services/api/loggerService.js:93-100 | exactly six fields; truthy inputs kept; `Tags`/`message_c` default to "", level to "info", timestamp to now; `employee_c` null exactly when falsy, else `parseInt` of it |
| LoggerService.LogPayload | src/services/api/loggerService.js:93-100 | definition: the six fields with their `||` defaults. Proved about it: `PayloadDefaults`, `PayloadOfEntry`, `PayloadIsFixedPoint` |
| LoggerService.UpdatePayload | src/services/api/loggerService.js:136-144 | definition: `LogPayload` with `Id = parseInt(id)`. Proved about it: `UpdatePayloadExtendsCreate` |
| LoggerService.PayloadOfEntry | src/services/api/loggerService.js:94-99 | an entry with only level, message, tags and reference is written with those, a generated name and the current time |
| LoggerService.UpdatePayloadExtendsCreate | src/services/api/loggerService.js:136-144 | the update payload is the create payload plus `Id` |
| LoggerService.PayloadIsFixedPoint | src/services/api/loggerService.js:93-100 | building the payload again from a built payload changes nothing, whatever the clock then says |
| EmployeeModal.BeforeT | src/components/organisms/EmployeeModal.jsx:39 | the result is the prefix before the first `T`, or all of the text |
| EmployeeModal.EmailUnanchored | src/components/organisms/EmployeeModal.jsx:81 | text around a match keeps the e-mail pattern matching |
| EmployeeModal.EmailExamples | src/components/organisms/EmployeeModal.jsx:81 | "a@b.c" matches; "a@b" and "a @b.c" do not |
| EmployeeModal.MessageTexts | src/components/organisms/EmployeeModal.jsx:77-92 | distinct messages have distinct texts, and only the cleared one is empty |
| EmployeeModal.BuildErrors | src/components/organisms/EmployeeModal.jsx:75-92 | the errors hold exactly the fields whose checks fail, each with the first failing check's message |
| EmployeeModal.NameAndEmailErrors | src/components/organisms/EmployeeModal.jsx:75-83 | the errors after the name and e-mail checks |
| EmployeeModal.ChecksOf | src/components/organisms/EmployeeModal.jsx:77-92 | definition: which of the validator's tests fail on the form. Proved about it: `BuildErrors`, `RecordsDetermined`, `SalaryCheck` |
| EmployeeModal.ContactErrors | src/components/organisms/EmployeeModal.jsx:84-85 | the errors after the phone and position checks |
| EmployeeModal.JobErrors | src/components/organisms/EmployeeModal.jsx:86-92 | the errors after the department, start date and salary checks |
| EmployeeModal.RecordsDetermined | src/components/organisms/EmployeeModal.jsx:94-95 | the errors are determined by the checks, and empty exactly when every check passes |
| EmployeeModal.SalaryCheck | src/components/organisms/EmployeeModal.jsx:88-92 | the salary error appears exactly when the text is empty, `isNaN` rejects it, or `parseFloat` reads 0 or less |
| EmployeeModal.AcceptedSalaryIsPositive | src/components/organisms/EmployeeModal.jsx:90 | a non-blank accepted salary is one `parseFloat` reads as positive |
| EmployeeModal.IntegerSalary | src/components/organisms/EmployeeModal.jsx:88-92 | an integer's decimal text passes exactly when the integer is positive |
| EmployeeModal.BlankSalaryPasses | src/components/organisms/EmployeeModal.jsx:90 | blank non-empty salary text passes: `isNaN` reads it as 0 and `parseFloat` as NaN |
| EmployeeModal.FormOfShape | src/components/organisms/EmployeeModal.jsx:31-43 | opening on a record fills every field; the status is never empty and defaults to "active"; the start date holds no `T`; the salary is "" exactly when the record's is falsy; text first name, e-mail and department are kept |
| EmployeeModal.FormOfText | src/components/organisms/EmployeeModal.jsx:33-42 | every text field the record holds is kept (a non-empty status too), the start date as its text before the first `T`; each missing or falsy field becomes "" |
| EmployeeModal.FormOf | src/components/organisms/EmployeeModal.jsx:32-43 | definition: the form `setFormData` fills from a record. Proved about it: `FormOfShape`, `FormOfText`, `OpenedSalaryPasses` |
| EmployeeModal.CompleteHasAll | src/components/organisms/EmployeeModal.jsx:32-56 | a complete form, as both branches of the effect set, holds every field |
| EmployeeModal.OpenedSalaryPasses | src/components/organisms/EmployeeModal.jsx:41 | a positive whole salary opens as text the validator accepts |
| EmployeeModal.BlankFormShape | src/components/organisms/EmployeeModal.jsx:44-56 | the blank form has every field empty except status "active" |
| EmployeeModal.ClearedErrors | src/components/organisms/EmployeeModal.jsx:140-142 | same keys; the edited field's error becomes the empty one; every other error is unchanged |
| EmployeeModal.EditChangesOneField | src/components/organisms/EmployeeModal.jsx:137 | an edit changes the named field and no other |
| EmployeeModal.EmployeeModal.constructor | src/components/organisms/EmployeeModal.jsx:14-26 | the form starts blank with no errors |
| EmployeeModal.EmployeeModal.Open | src/components/organisms/EmployeeModal.jsx:28-60 | the form is filled from the employee or blanked, and the errors are reset |
| EmployeeModal.EmployeeModal.HandleInputChange | src/components/organisms/EmployeeModal.jsx:135-143 | the named field takes the value and its error is cleared |
| EmployeeModal.EmployeeModal.ValidateForm | src/components/organisms/EmployeeModal.jsx:74-96 | stores exactly the form's errors; valid exactly when there are none, exactly when all checks pass |
| EmployeeModal.EmployeeModal.Submit | src/components/organisms/EmployeeModal.jsx:98-123 | an invalid form makes no call; a valid one calls `update` with the employee's `Id` when editing, `create` otherwise |
| EmployeesPage.ShownIsSubsequence | src/components/pages/Employees.jsx:57-79 | the shown list is a subsequence of the loaded one |
| EmployeesPage.SearchFields | src/components/pages/Employees.jsx:62-65 | definition: the four lower-cased texts the search looks in. Proved about it: `SearchIgnoresCase`, `SearchFindsAnyCase` |
| EmployeesPage.SearchMatches | src/components/pages/Employees.jsx:61-66 | definition: the lower-cased term occurs in one of the fields. Proved about it: `SearchIgnoresCase`, `SearchFindsAnyCase` |
| EmployeesPage.Shown | src/components/pages/Employees.jsx:57-79 | definition: the records passing every filter that is set. Proved about it: `ShownIsSubsequence`, `NoFiltersShowAll`, `ShownMembership` |
| EmployeesPage.NoFiltersShowAll | src/components/pages/Employees.jsx:58-77 | with no filter set every record is shown |
| EmployeesPage.ShownMembership | src/components/pages/Employees.jsx:60-77 | a record is shown exactly when it is loaded and passes every filter set |
| EmployeesPage.SearchIgnoresCase | src/components/pages/Employees.jsx:62-65 | terms that agree lower-cased match alike |
| EmployeesPage.SearchFindsAnyCase | src/components/pages/Employees.jsx:62-65 | a term matches exactly when its lower-cased form does |
| EmployeesPage.ReplaceById | src/components/pages/Employees.jsx:112-114 | the list keeps its length |
| EmployeesPage.ReplaceByIdProperties | src/components/pages/Employees.jsx:112-114 | the saved record replaces exactly the entries with its `Id`; replacing twice is once; an unmatched `Id` changes nothing |
| EmployeesPage.RemoveByIdProperties | src/components/pages/Employees.jsx:100 | exactly the entries with that `Id` go; the rest stay, in order; an absent or NaN id changes nothing |
| EmployeesPage.RemoveById | src/components/pages/Employees.jsx:100 | definition: `prev.filter(emp => emp.Id !== id)`. Proved about it: `RemoveByIdProperties` |
| EmployeesPage.EmployeesPage.constructor | src/components/pages/Employees.jsx:17-26 | empty lists, empty filters, nothing selected |
| EmployeesPage.EmployeesPage.FilterEmployees | src/components/pages/Employees.jsx:57-80 | the filters applied in turn give `Shown` |
| EmployeesPage.EmployeesPage.HandleAddEmployee | src/components/pages/Employees.jsx:82-85 | the selection is cleared |
| EmployeesPage.EmployeesPage.HandleEditEmployee | src/components/pages/Employees.jsx:87-90 | the employee is selected |
| EmployeesPage.EmployeesPage.HandleSaveEmployee | src/components/pages/Employees.jsx:109-119 | after an edit the list is `ReplaceById`, after an add the saved record is appended |
| EmployeesPage.EmployeesPage.HandleDeleteEmployee | src/components/pages/Employees.jsx:96-107 | the list is `RemoveById` only when confirmed and the delete did not raise; otherwise unchanged |
| EmployeesPage.EmployeesPage.ClearFilters | src/components/pages/Employees.jsx:121-125 | the three filters become "" |
| EmployeeTable.NextSort | src/components/organisms/EmployeeTable.jsx:25-32 | the clicked column becomes the sort field |
| EmployeeTable.NextSortProperties | src/components/organisms/EmployeeTable.jsx:25-32 | clicking the current column flips the direction, twice restores it; a new column starts ascending |
| EmployeeTable.CaseInsensitiveKeys | src/components/organisms/EmployeeTable.jsx:38-41 | texts that differ only in case sort as equal |
| EmployeeTable.KeyOf | src/components/organisms/EmployeeTable.jsx:35-41 | definition: a string sorts lower-cased, a number by value, anything else as missing. Proved about it: `CaseInsensitiveKeys`, `SortedNeighbours` |
| EmployeeTable.SortState.constructor | src/components/organisms/EmployeeTable.jsx:9-10 | sorted by "firstName", ascending |
| EmployeeTable.SortState.HandleSort | src/components/organisms/EmployeeTable.jsx:25-32 | the new sort state is `NextSort` of the old |
| EmployeeTable.SortState.SortedEmployees | src/components/organisms/EmployeeTable.jsx:34-48 | the shown list is a permutation of the input, ordered by the column's key in the chosen direction |
| EmployeeTable.SortedNeighbours | src/components/organisms/EmployeeTable.jsx:43-47 | under "asc" neighbouring keys never decrease, under "desc" never increase |
| EmployeeTable.StatusLabel | src/components/organisms/EmployeeTable.jsx:139 | "On Leave" for "on-leave"; otherwise same length, first character upper-cased when it is a lower-case letter and kept otherwise, the rest unchanged |
| EmployeeTable.StatusLabelKeepsText | src/components/organisms/EmployeeTable.jsx:139 | apart from "on-leave", the label lower-cases to the lower-cased status |
| EmployeeTable.StatusLabels | src/components/organisms/EmployeeTable.jsx:139 | "Active", "Inactive", "On Leave" |
| EmployeeTable.UpperLowerRoundTrip | src/components/organisms/EmployeeTable.jsx:139 | `toUpperCase` maps 'a'..'z' onto 'A'..'Z', `toLowerCase` maps them back, and other characters stay |
| EmployeeTable.StatusVariant | src/components/organisms/EmployeeTable.jsx:12-16 | a variant exactly for the three known statuses |
| EmployeeTable.StatusVariantsDistinct | src/components/organisms/EmployeeTable.jsx:12-16 | the three known statuses get three different variants |
| LoggerPage.FilteredLogsProperties | src/components/pages/Logger.jsx:65-69 | a subsequence of the logs; all of them with no filter; an entry is kept exactly when it passes both filters |
| LoggerPage.EmployeeRef | src/components/pages/Logger.jsx:67 | definition: `log.employee_c?.Id?.toString()`, none without a linked `Id`. Proved about it: `UnlinkedLogsDropped`, `NumericEmployeeFilter` |
| LoggerPage.FilteredLogs | src/components/pages/Logger.jsx:65-69 | definition: the entries passing both filters. Proved about it: `FilteredLogsProperties` |
| LoggerPage.UnlinkedLogsDropped | src/components/pages/Logger.jsx:67 | with an employee filter set, entries without an employee are dropped |
| LoggerPage.NumericEmployeeFilter | src/components/pages/Logger.jsx:67 | a numeric employee `Id` is matched by its decimal text |
| LoggerPage.BadgeVariant | src/components/pages/Logger.jsx:148-156 | one of four variants; "destructive", "warning", "outline" exactly for error, warning, debug |
| LoggerPage.UnknownLevelBadge | src/components/pages/Logger.jsx:154 | an unknown level gets the "info" badge |
| LoggerPage.FormOfLog | src/components/pages/Logger.jsx:88-95 | the level is never empty; the employee is empty exactly when the entry has no linked `Id` text |
| LoggerPage.FormOfLogFields | src/components/pages/Logger.jsx:88-93 | the name, tags and message keep the entry's text and become "" when falsy; a falsy level becomes "info"; the timestamp is the rendered time when the entry has one, "" otherwise |
| LoggerPage.FormEmployeeSelectsLog | src/components/pages/Logger.jsx:94 | the employee the form shows is one the employee filter keeps the entry for |
| LoggerPage.FormLevelOfLog | src/components/pages/Logger.jsx:92 | the form carries the entry's level when it has one |
| LoggerPage.NewLogForm | src/components/pages/Logger.jsx:74-81 | level "info", timestamp now, other fields empty |
| LoggerPage.LoggerPage.constructor | src/components/pages/Logger.jsx:17-35 | closed, create mode, nothing selected, blank form with level "info", no filters |
| LoggerPage.LoggerPage.HandleAddLog | src/components/pages/Logger.jsx:71-83 | create mode, no selection, blank form, modal open |
| LoggerPage.LoggerPage.HandleEditLog | src/components/pages/Logger.jsx:85-97 | edit mode, the entry selected, its form, modal open |
| LoggerPage.LoggerPage.HandleViewLog | src/components/pages/Logger.jsx:99-111 | view mode, the entry selected, its form, modal open |
| LoggerPage.LoggerPage.HandleSaveLog | src/components/pages/Logger.jsx:126-141 | create in create mode, update of the selected `Id` in edit mode, no call in view mode; closes and reloads exactly when nothing raised |
| LoggerPage.LoggerPage.HandleDeleteLog | src/components/pages/Logger.jsx:113-124 | the entry's `Id` is deleted only when confirmed; the list reloads exactly when that delete did not raise |
| LoggerPage.LoggerPage.ClearFilters | src/components/pages/Logger.jsx:143-146 | both filters become "" |
| Reports.Average | src/components/pages/Reports.jsx:51 | the quotient's denominator is never zero |
| Reports.MetricsOf | src/components/pages/Reports.jsx:48-51 | total is the list length; active is the count of "active" records; the salary total is `TotalSalary`; average and active rate are 0 for no employees, total/count and active·100/count otherwise; the rate is at most 100 percent |
| Reports.TotalSalaryProperties | src/components/pages/Reports.jsx:50 | the total grows by each salary, a missing one adds nothing, non-negative salaries give a non-negative total |
| Reports.SalaryOf | src/components/pages/Reports.jsx:50 | definition: `emp.salary_c || 0` for a numeric salary. Proved about it: `TotalSalaryProperties` |
| Reports.TotalSalary | src/components/pages/Reports.jsx:50 | definition: the `reduce` of the salaries. Proved about it: `TotalSalaryProperties`, `DepartmentAnalyticsProperties` |
| Reports.DepartmentKey | src/components/pages/Reports.jsx:55 | definition: `dept.name_c || dept.Name`. Proved about it: `DepartmentAnalyticsProperties`, `UnnamedDepartmentCountsUnlinked` |
| Reports.ActiveCountMembers | src/components/pages/Reports.jsx:49 | an employee counts as active exactly when its status is "active" |
| Reports.StatusDistributionOf | src/components/pages/Reports.jsx:69-73 | each count is the number of records with that status; they sum to at most the total, exactly to it when every status is one of the three; active agrees with the metrics |
| Reports.AnalyticsOf | src/components/pages/Reports.jsx:54-65 | name and budget copied; count and salary are those of the department's members; average 0 for no members, salary/count otherwise; utilization salary·100/budget for a positive budget, 0 otherwise |
| Reports.DepartmentAnalyticsOf | src/components/pages/Reports.jsx:54 | one entry per department |
| Reports.DepartmentAnalyticsProperties | src/components/pages/Reports.jsx:54-65 | each entry covers exactly the employees whose department Name is `name_c` or else `Name`; its salary is at most the total |
| Reports.UnnamedDepartmentCountsUnlinked | src/components/pages/Reports.jsx:55 | a department with no name counts every employee with no linked department name |
| Dashboard.StatsOf | src/components/pages/Dashboard.jsx:48-53 | totals are the list lengths; active and on-leave are the counts of records with those statuses, together at most the total |
| Dashboard.StatsMembers | src/components/pages/Dashboard.jsx:50-52 | an employee is counted under a status exactly when it has it |
| Dashboard.FirstFive | src/components/pages/Dashboard.jsx:57 | a prefix of at most five, exactly five when there are that many |
| Dashboard.NewestKept | src/components/pages/Dashboard.jsx:55-57 | the kept five are newest first and none left out is newer than one kept |
| Dashboard.CreatedKey | src/components/pages/Dashboard.jsx:56 | definition: the creation timestamp as a number key, missing without one. Proved about it: `NewestKept`, `DashboardPage.RecentEmployees` |
| Dashboard.DepartmentStatsOf | src/components/pages/Dashboard.jsx:59-63 | one entry per department, each count at most the list |
| Dashboard.DepartmentStatsProperties | src/components/pages/Dashboard.jsx:59-63 | each entry names its department, carries its budget and counts exactly the employees whose `department` is its name |
| Dashboard.DashboardPage.constructor | src/components/pages/Dashboard.jsx:16 | the page's array holds the loaded list |
| Dashboard.DashboardPage.RecentEmployees | src/components/pages/Dashboard.jsx:55-57 | sorts the page's own array newest first in place, as a permutation, and returns its first five |
| DepartmentsPage.DepartmentStatsOf | src/components/pages/Departments.jsx:44-52 | total is the department's member count, at most the list; each status count is the number of members with that status; the three sum to at most the total |
| DepartmentsPage.DepartmentStatsProperties | src/components/pages/Departments.jsx:45-50 | counted under a status exactly when in the department with that status; sums to the total when every member has one of the three |
| DepartmentsPage.TotalBudget | src/components/pages/Departments.jsx:207 | a number exactly when every budget adds as a number, and then the sum of the budgets |
| DepartmentsPage.TotalBudgetBounds | src/components/pages/Departments.jsx:207 | with non-negative budgets the total is at least each one |
| Js.TrimEmptyIffBlank | src/components/organisms/EmployeeModal.jsx:77 | `!s.trim()` exactly when every character is whitespace |
| Js.Trim | src/services/api/employeeService.js:101 | definition: JavaScript whitespace removed at both ends. Proved about it: `TrimEmptyIffBlank`, `TrimOfTrimmed` |
| Js.ToLower | src/components/pages/Employees.jsx:62 | definition: ASCII lower-casing of each character. Proved about it: `ToLowerIdempotent`, `EmployeeTable.CaseInsensitiveKeys` |
| Js.ToLowerIdempotent | src/components/pages/Employees.jsx:62 | lower-casing twice is lower-casing once |
| Js.Truthy | src/services/api/employeeService.js:111 | definition: false exactly for undefined, null, false, 0, NaN and "". Proved about it: `ParseIntOfFalsy` |
| Js.ToStr | src/services/api/employeeService.js:167 | definition: `String(v)` as a template literal converts it. Proved about it: `LoggerPage.NumericEmployeeFilter` |
| Js.Contains | src/components/pages/Employees.jsx:62-65 | `includes` exactly when the term occurs at some position |
| Js.ParseIntOfIntToString | src/services/api/employeeService.js:109 | `parseInt` reads back any integer's decimal text |
| Js.ParseIntOfLetterFirst | src/services/api/employeeService.js:109 | text whose first character lies in 'A'..'z' (the letters and the six signs between 'Z' and 'a') reads as NaN |
| Js.ParseIntOfFalsy | src/services/api/employeeService.js:206 | `parseInt` of a falsy value is falsy |
| Js.ParseIntValueOfNum | src/services/api/loggerService.js:99 | a number survives `parseInt` unchanged |
| Js.ParseInt | src/services/api/employeeService.js:109 | definition: optional sign, `0x` prefix, longest digit run after leading whitespace, NaN when empty. Proved about it: `ParseIntOfIntToString`, `ParseIntOfLetterFirst`, `ParseIntOfFalsy` |
| JsNumber.NumericTextReads | src/components/organisms/EmployeeModal.jsx:90 | non-blank text that `isNaN` accepts is never NaN for `parseFloat` |
| JsNumber.BlankText | src/components/organisms/EmployeeModal.jsx:90 | blank text passes `isNaN` but reads as NaN in `parseFloat` |
| JsNumber.ReadingOfIntToString | src/components/organisms/EmployeeModal.jsx:90 | an integer's text is numeric and reads as positive exactly when the integer is |
| JsNumber.IsNaNText | src/components/organisms/EmployeeModal.jsx:90 | definition: the trimmed text is neither empty nor a numeric literal. Proved about it: `NumericTextReads`, `BlankText`, `ReadingOfIntToString` |
| JsNumber.ParseFloatReading | src/components/organisms/EmployeeModal.jsx:90 | definition: `parseFloat` read as NaN, at most 0 or positive. Proved about it: `NumericTextReads`, `BlankText`, `ReadingOfIntToString` |
| Sorting.BelowIsStrictTotalOrder | src/components/organisms/EmployeeTable.jsx:43-47 | the key order is irreflexive, asymmetric, total and transitive |
| Sorting.KeyOrderConsistent | src/components/organisms/EmployeeTable.jsx:43-47 | the comparator built from a key is a strict weak order |
| Sorting.SortByKey | src/components/organisms/EmployeeTable.jsx:34-48 | the array ends ordered by the key, as a permutation of what it held |
| Sorting.SortInPlace | src/components/pages/Dashboard.jsx:56 | sorted by the comparator, a permutation |
| Sorting.Insert | src/components/pages/Dashboard.jsx:56 | one insertion step extends the sorted prefix by one, a permutation |
| Sorting.OrderedNeighbours | src/components/organisms/EmployeeTable.jsx:43-47 | in an ordered list neighbouring keys follow the direction |
| Seqs.FilterIsSubsequence | src/components/pages/Employees.jsx:61 | a filtered list is a subsequence |
| Seqs.FilterMembership | src/components/pages/Employees.jsx:61 | an element is kept exactly when it is in the list and passes |
| Seqs.FilterAllPass | src/components/pages/Employees.jsx:58-77 | a filter everything passes returns the list |
| Seqs.FiltersInTurn | src/components/pages/Employees.jsx:58-77 | filters applied in turn, each when switched on, keep what passes all of them |
| Seqs.CountThreeDisjoint | src/components/pages/Reports.jsx:69-73 | three disjoint counts add up to at most the length, exactly when they cover it |
| Seqs.SumFilterAtMost | src/components/pages/Reports.jsx:55-56 | a sum over part of a list of non-negative terms is at most the whole sum |
| Seqs.SumAppend | src/components/pages/Reports.jsx:50 | the sum over two lists is the sum of their sums |

## Left out

- The SDK client, its construction and environment variables are not modelled: each call's answer is an input (`Call`), and "is the SDK loaded" is the input `sdkPresent`.
- The answers to the log write and the SMS call are inputs that nothing reads, as in the source, where failures of those writes are caught and logged.
- `async`/`await`, `Promise.all`, the dynamic `import()` of the log gateway and the simulated delays are left out. Every operation runs to completion.
- Overlapping requests are not modelled, since they are a matter of concurrency.
- The clock is an input: `Clock` carries what `toLocaleString` and `toISOString` gave. The form timestamps on the log page are a text input, `timestampText` or `nowText`.
- `formatTimestamp`, `format` from date-fns and the currency formatting are left out, because they are presentation only.
- Floating point is left out. Numbers are integers, and the averages, the utilization and the active rate are unevaluated `Fraction`s, with only their zero guards modelled. The `Math.round` of the active rate is not modelled.
- `parseFloat` and `isNaN` on text are modelled as a reading (NaN, at most 0, positive), not as a value.
- `Reports.SalaryOf`: a salary that is not a number counts as 0, where JavaScript would concatenate a text salary.
- `Reports.PositiveBudget`: only a numeric budget counts as positive; a text budget that JavaScript would coerce is not modelled.
- `DepartmentsPage.TotalBudget`: its result is `None` whenever the JavaScript sum stops being a number. The text such a sum would concatenate is not modelled.
- `DepartmentService.DepartmentService.Create`: its precondition requires a caller-supplied `Id` to be a number. The store's invariant keeps every `Id` numeric, since `Math.max` over other values is not modelled.
- `toLowerCase` and `toUpperCase` fold ASCII letters only, because Unicode case mapping is not modelled.
- `EmployeesPage.EmployeesPage.HandleSaveEmployee`: takes the saved record as an object. The service's create answers `null` when the answer lists no results; update answers `undefined` when the answer lists no results and `null` when no record succeeded. With such a value the source's edit path throws a `TypeError` while reading `savedEmployee.Id` inside the map (when the list is not empty), and its add path appends `null` to the list. Neither path is modelled.
- `EmployeesPage.SearchFields`: a truthy field that is not text (a number in `email_c`, say) makes `.toLowerCase()` throw a `TypeError` in the source. The model converts such a value with `ToStr` and searches that text instead.
- `Protocol.UpdateOutcome`: a successful answer without `results` makes `update` fall off its end and return `undefined`. The model returns `Success(None)`, the same as `null`. `delete` returns true in that case, as modelled.
- Objects are compared by content, where JavaScript `===` compares references. Only the `Id`s compared in the page updates matter, and those are numbers.
- The validator's error texts are a `Message` datatype with `MessageText`, not strings in a map.
- The edited form values are text. A value other than a string in the form is not modelled.
- `EmployeeModal.FormOf`: a truthy `startDate` that is not text (a number or an object) makes `employee.startDate.split('T')` throw a `TypeError` when the form opens. The model cuts the value's `String` text at its `T` instead. Likewise, a truthy non-text value in another field is copied into the form as that value by the source, and as its text by the model.
- The modal's `employeeData` is not modelled. It parses the salary with `parseFloat` and adds `createdAt`/`updatedAt`. `Submit` therefore hands the form itself to the call.
- `loadDepartments` in the modal and `loadData` on every page, with their error states, are left out. The pages start from the lists loaded.
- `EmployeeTable.KeyOf`: the source comparator lower-cases `bValue` whenever `aValue` is a string, so when the first value is text and the second is a number or missing, `bValue.toLowerCase()` throws a `TypeError`; other mixed comparisons follow JavaScript's coercions. That throw is not modelled: the model orders every key, missing values first, then numbers, then texts.
- `EmployeeTable.SortState.SortedEmployees`: the order among equal keys is whatever the stable insertion sort gives. The source leaves it unspecified, because its comparator never returns 0.
- `Dashboard.CreatedKey`: `createdAt` is an integer timestamp. Date parsing is not modelled, and a record without a timestamp sorts as the oldest.
- The SMS request body is kept as its two fields, without the `JSON.stringify` text and headers.
- Rendering, toasts, `console` output and `window.confirm` are left out. The confirm is a boolean input, and whether a service call raised is a boolean input on the pages.
- An invalid timestamp makes `toISOString` throw in `handleEditLog`/`handleViewLog`. That throw is not modelled: the timestamp text is an input.
- The department options of the employee page and the status and period option lists are left out, because they are display data.

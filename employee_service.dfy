/**
  The employee gateway: builds the request for each operation on the `employee_c` table, sends
  it through the SDK client and reads the answer. Creating, updating and deleting an employee
  also write an activity entry through the log gateway, and creating one may send an SMS; those
  side writes are best effort, and nothing they answer reaches the caller.
*/
module EmployeeService {
  import opened Wrappers
  import opened Js
  import opened Protocol
  import Seqs
  import LoggerService
  import opened EmployeeRecord

  const EmployeeTable := "employee_c"

  /** The fields `getAll` and `getById` ask for. */
  const EmployeeFields: seq<string> := ["Name", "first_name_c", "last_name_c", "email_c", "phone_c",
    "position_c", "start_date_c", "status_c", "salary_c", "manager_c", "created_at_c", "updated_at_c",
    "department_c"]

  const DepartmentListFields: seq<string> := ["Name", "first_name_c", "last_name_c", "email_c", "phone_c",
    "position_c", "department_c"]

  const StatusListFields: seq<string> := ["Name", "first_name_c", "last_name_c", "status_c"]

  /** Up to 100 employees, highest `Id` first. */
  const AllEmployeesQuery := Query(EmployeeFields, [], [Order("Id", true)], Some(Paging(100, 0)))

  function ByDepartmentQuery(departmentId: JsValue): Query {
    Query(DepartmentListFields, [EqualTo("department_c", ParseIntValue(departmentId))], [], None)
  }

  function ByStatusQuery(status: JsValue): Query {
    Query(StatusListFields, [EqualTo("status_c", status)], [], None)
  }

  const CreateFallback := "Failed to create employee"

  function NotFound(id: JsValue): string {
    "Employee with ID " + ToStr(id) + " not found"
  }

  // ---------------------------------------------------------------------------
  // Side writes

  /** The entry written after a create; `createdEmployee?.Id` is undefined without a record. */
  function CreateLogEntry(data: Object, created: Option<Object>): Object {
    map["log_level_c" := Str("info"),
        "message_c" := Str("Employee created: " + ToStr(Get(data, "first_name_c")) + " " + ToStr(Get(data, "last_name_c"))),
        "employee_c" := (if created.Some? then Get(created.value, "Id") else Undefined),
        "Tags" := Str("employee,create,activity")]
  }

  function UpdateLogEntry(id: JsValue, data: Object): Object {
    map["log_level_c" := Str("info"),
        "message_c" := Str("Employee updated: " + ToStr(Get(data, "first_name_c")) + " " + ToStr(Get(data, "last_name_c"))),
        "employee_c" := ParseIntValue(id),
        "Tags" := Str("employee,update,activity")]
  }

  function DeleteLogEntry(id: JsValue, name: string): Object {
    map["log_level_c" := Str("warning"),
        "message_c" := Str("Employee deleted: " + name),
        "employee_c" := ParseIntValue(id),
        "Tags" := Str("employee,delete,activity")]
  }

  /**
    The activity entry of a create is stored at level "info" with the create tags, linked to the
    created record's `Id` when that is truthy and to nothing (null) otherwise.
  */
  lemma CreateEntryStored(data: Object, created: Option<Object>, clock: Clock)
    ensures var p := LoggerService.LogPayload(CreateLogEntry(data, created), clock);
      var ref := if created.Some? then Get(created.value, "Id") else Undefined;
      p["log_level_c"] == Str("info") && p["Tags"] == Str("employee,create,activity") &&
      p["employee_c"] == (if Truthy(ref) then ParseIntValue(ref) else Null)
  {
    var ref := if created.Some? then Get(created.value, "Id") else Undefined;
    LoggerService.PayloadOfEntry(Str("info"), CreateLogEntry(data, created)["message_c"], ref, Str("employee,create,activity"), clock);
  }

  /**
    The activity entry of an update is stored at level "info" with the update tags, linked to
    the employee `parseInt(id)` names when that is a non-zero number, and to nothing otherwise.
  */
  lemma UpdateEntryStored(id: JsValue, data: Object, clock: Clock)
    ensures var p := LoggerService.LogPayload(UpdateLogEntry(id, data), clock);
      p["log_level_c"] == Str("info") && p["Tags"] == Str("employee,update,activity") &&
      p["employee_c"] == (if Truthy(ParseIntValue(id)) then ParseIntValue(id) else Null)
  {
    LoggerService.PayloadOfEntry(Str("info"), UpdateLogEntry(id, data)["message_c"], ParseIntValue(id), Str("employee,update,activity"), clock);
    if Truthy(ParseIntValue(id)) {
      ParseIntValueOfNum(ParseIntValue(id).n);
    }
  }

  /**
    The activity entry of a delete is stored at level "warning" with the delete tags and the
    message "Employee deleted: " and the name, linked like that of an update.
  */
  lemma DeleteEntryStored(id: JsValue, name: string, clock: Clock)
    ensures var p := LoggerService.LogPayload(DeleteLogEntry(id, name), clock);
      p["log_level_c"] == Str("warning") && p["Tags"] == Str("employee,delete,activity") &&
      p["message_c"] == Str("Employee deleted: " + name) &&
      p["employee_c"] == (if Truthy(ParseIntValue(id)) then ParseIntValue(id) else Null)
  {
    LoggerService.PayloadOfEntry(Str("warning"), Str("Employee deleted: " + name), ParseIntValue(id), Str("employee,delete,activity"), clock);
    if Truthy(ParseIntValue(id)) {
      ParseIntValueOfNum(ParseIntValue(id).n);
    }
  }

  /** The name `delete` logs: that of the record looked up, or a placeholder when the lookup failed. */
  function DeletedName(lookup: Result<Object, string>): string {
    match lookup
    case Success(employee) => FullName(employee)
    case Failure(_) => "Unknown Employee"
  }

  /** An SMS is sent for a created record whose input has a phone number and a first name. */
  predicate SmsDue(data: Object, created: Option<Object>) {
    created.Some? && Truthy(Get(data, "phone_c")) && Truthy(Get(data, "first_name_c"))
  }

  /** The edge-function call that sends the SMS. */
  function SmsRequest(data: Object): Request {
    InvokeFunction(map["firstName" := Get(data, "first_name_c"), "phoneNumber" := Get(data, "phone_c")])
  }

  /** A create whose answer lists results and raised nothing: the one that goes on to the side writes. */
  predicate CreateCompleted(call: Call<MutationResponse>) {
    HasResults(call) && CreateOutcome(call, CreateFallback).Success?
  }

  predicate UpdateCompleted(call: Call<MutationResponse>) {
    HasResults(call) && UpdateOutcome(call).Success?
  }

  /** The record a completed create returned (none otherwise). */
  function CreatedRecord(call: Call<MutationResponse>): Option<Object> {
    if CreateCompleted(call) then CreateOutcome(call, CreateFallback).value else None
  }

  /**
    The requests of a mutation, given a client: the mutation itself, then, when it completed,
    the `sms` calls and the activity entry (when the log gateway has a client).
  */
  function WithSideWrites(head: Request, completed: bool, sms: seq<Request>, loggerReady: bool, entry: Object, clock: Clock): seq<Request> {
    [head] + if completed then sms + LoggerService.WriteRequests(loggerReady, entry, clock) else []
  }

  /** A completed mutation's requests without SMS calls are the mutation and the entry; an incomplete one's, the mutation alone. */
  lemma SideWritesShape(head: Request, completed: bool, sms: seq<Request>, loggerReady: bool, entry: Object, clock: Clock)
    ensures !completed ==> WithSideWrites(head, completed, sms, loggerReady, entry, clock) == [head]
    ensures completed ==>
      WithSideWrites(head, completed, sms, loggerReady, entry, clock) == [head] + sms + LoggerService.WriteRequests(loggerReady, entry, clock)
    ensures completed && sms == [] ==>
      WithSideWrites(head, completed, sms, loggerReady, entry, clock) == [head] + LoggerService.WriteRequests(loggerReady, entry, clock)
  {
    assert [head] + [] == [head];
    assert [] + LoggerService.WriteRequests(loggerReady, entry, clock) == LoggerService.WriteRequests(loggerReady, entry, clock);
  }

  /**
    The requests of a create, given a client: the record, then the SMS when it is due and the SDK
    is loaded, then the activity entry when the log gateway has a client.
  */
  function CreateTrace(sdkPresent: bool, loggerReady: bool, clock: Clock, data: Object, call: Call<MutationResponse>): seq<Request> {
    var created := CreatedRecord(call);
    WithSideWrites(CreateRecord(EmployeeTable, [CreatePayload(data)]), CreateCompleted(call),
                   if SmsDue(data, created) && sdkPresent then [SmsRequest(data)] else [],
                   loggerReady, CreateLogEntry(data, created), clock)
  }

  /** The requests of an update, given a client. */
  function UpdateTrace(loggerReady: bool, clock: Clock, id: JsValue, data: Object, call: Call<MutationResponse>): seq<Request> {
    WithSideWrites(UpdateRecord(EmployeeTable, [UpdatePayload(id, data, clock)]), UpdateCompleted(call), [],
                   loggerReady, UpdateLogEntry(id, data), clock)
  }

  /** The requests of a delete after the name lookup, given a client: the delete, then the entry. */
  function DeleteTrace(loggerReady: bool, clock: Clock, id: JsValue, name: string, call: Call<MutationResponse>): seq<Request> {
    WithSideWrites(DeleteRecord(EmployeeTable, [ParseIntValue(id)]), DeleteOutcome(call).Success?, [],
                   loggerReady, DeleteLogEntry(id, name), clock)
  }

  /** The employee gateway, its lazily created client, and the log gateway it writes through. */
  class EmployeeService {
    var clientReady: bool
    const logger: LoggerService.LoggerService

    constructor (sdkPresent: bool, logger: LoggerService.LoggerService)
      ensures clientReady == sdkPresent && this.logger == logger
    {
      clientReady := sdkPresent;
      this.logger := logger;
    }

    /** `if (!this.apperClient) this.initializeClient()`. */
    method EnsureClient(sdkPresent: bool)
      modifies this
      ensures clientReady == (old(clientReady) || sdkPresent)
    {
      if !clientReady && sdkPresent {
        clientReady := true;
      }
    }

    /** Up to 100 employees, newest `Id` first; [] whenever the read fails. */
    method GetAll(sdkPresent: bool, call: Call<ListResponse>) returns (sent: seq<Request>, r: seq<Object>)
      modifies this
      ensures clientReady == (old(clientReady) || sdkPresent)
      ensures sent == (if clientReady then [FetchRecords(EmployeeTable, AllEmployeesQuery)] else [])
      ensures r == (if clientReady then ListOutcome(call) else [])
    {
      EnsureClient(sdkPresent);
      if !clientReady {
        return [], [];
      }
      sent := [FetchRecords(EmployeeTable, AllEmployeesQuery)];
      r := ListOutcome(call);
    }

    /** One employee by `parseInt(id)`, or the not-found error. */
    method GetById(sdkPresent: bool, id: JsValue, call: Call<RecordResponse>) returns (sent: seq<Request>, r: Result<Object, string>)
      modifies this
      ensures clientReady == (old(clientReady) || sdkPresent)
      ensures sent == (if clientReady then [GetRecordById(EmployeeTable, ParseIntValue(id), EmployeeFields)] else [])
      ensures r == (if clientReady then GetByIdOutcome(call, NotFound(id)) else Failure(NoClientError("getRecordById")))
    {
      EnsureClient(sdkPresent);
      if !clientReady {
        return [], Failure(NoClientError("getRecordById"));
      }
      sent := [GetRecordById(EmployeeTable, ParseIntValue(id), EmployeeFields)];
      r := GetByIdOutcome(call, NotFound(id));
    }

    /**
      Creates one employee and returns the stored record (or null). The SMS and the activity
      entry follow a completed create; `logCall`, the log gateway's answer, never reaches the result.
    */
    method Create(sdkPresent: bool, clock: Clock, data: Object, call: Call<MutationResponse>, logCall: Call<MutationResponse>)
      returns (sent: seq<Request>, r: Result<Option<Object>, string>)
      modifies this, logger
      ensures clientReady == (old(clientReady) || sdkPresent)
      ensures !clientReady ==> sent == [] && r == Failure(NoClientError("createRecord"))
      ensures clientReady ==> r == CreateOutcome(call, CreateFallback)
      ensures clientReady ==> sent == CreateTrace(sdkPresent, old(logger.clientReady) || sdkPresent, clock, data, call)
      ensures logger.clientReady == (old(logger.clientReady) || (sdkPresent && CreateCompleted(call)))
    {
      EnsureClient(sdkPresent);
      if !clientReady {
        return [], Failure(NoClientError("createRecord"));
      }
      sent, r := SendCreate(sdkPresent, clock, data, call, logCall);
    }

    /** `create` once the client exists. */
    method SendCreate(sdkPresent: bool, clock: Clock, data: Object, call: Call<MutationResponse>, logCall: Call<MutationResponse>)
      returns (sent: seq<Request>, r: Result<Option<Object>, string>)
      modifies logger
      ensures r == CreateOutcome(call, CreateFallback)
      ensures sent == CreateTrace(sdkPresent, old(logger.clientReady) || sdkPresent, clock, data, call)
      ensures logger.clientReady == (old(logger.clientReady) || (sdkPresent && CreateCompleted(call)))
    {
      r := CreateOutcome(call, CreateFallback);
      var sideWrites := [];
      if HasResults(call) && r.Success? {
        var created := r.value;
        // Without the SDK, reading `window.ApperSDK` throws before the call, and the error is swallowed.
        if SmsDue(data, created) && sdkPresent {
          sideWrites := [SmsRequest(data)];
        }
        var logSent, logResult := logger.Create(sdkPresent, clock, CreateLogEntry(data, created), logCall);
        sideWrites := sideWrites + logSent;
      }
      sent := [CreateRecord(EmployeeTable, [CreatePayload(data)])] + sideWrites;
    }

    /** Updates one employee; the activity entry follows a completed update. */
    method Update(sdkPresent: bool, clock: Clock, id: JsValue, data: Object, call: Call<MutationResponse>, logCall: Call<MutationResponse>)
      returns (sent: seq<Request>, r: Result<Option<Object>, string>)
      modifies this, logger
      ensures clientReady == (old(clientReady) || sdkPresent)
      ensures !clientReady ==> sent == [] && r == Failure(NoClientError("updateRecord"))
      ensures clientReady ==> r == UpdateOutcome(call)
      ensures clientReady ==> sent == UpdateTrace(old(logger.clientReady) || sdkPresent, clock, id, data, call)
      ensures logger.clientReady == (old(logger.clientReady) || (sdkPresent && UpdateCompleted(call)))
    {
      EnsureClient(sdkPresent);
      if !clientReady {
        return [], Failure(NoClientError("updateRecord"));
      }
      sent, r := SendUpdate(sdkPresent, clock, id, data, call, logCall);
    }

    /** `update` once the client exists. */
    method SendUpdate(sdkPresent: bool, clock: Clock, id: JsValue, data: Object, call: Call<MutationResponse>, logCall: Call<MutationResponse>)
      returns (sent: seq<Request>, r: Result<Option<Object>, string>)
      modifies logger
      ensures r == UpdateOutcome(call)
      ensures sent == UpdateTrace(old(logger.clientReady) || sdkPresent, clock, id, data, call)
      ensures logger.clientReady == (old(logger.clientReady) || (sdkPresent && UpdateCompleted(call)))
    {
      r := InterpretUpdate(call);
      var completed := HasResults(call) && r.Success?;
      assert completed == UpdateCompleted(call);
      var head := UpdateRecord(EmployeeTable, [UpdatePayload(id, data, clock)]);
      ghost var ready := logger.clientReady || sdkPresent;
      if completed {
        var logSent, logResult := logger.Create(sdkPresent, clock, UpdateLogEntry(id, data), logCall);
        sent := [head] + logSent;
      } else {
        sent := [head];
      }
      SideWritesShape(head, completed, [], ready, UpdateLogEntry(id, data), clock);
    }

    /** The name `delete` puts in its activity entry, read before the employee is deleted. */
    method LookUpName(sdkPresent: bool, id: JsValue, lookup: Call<RecordResponse>) returns (sent: seq<Request>, name: string)
      modifies this
      ensures clientReady == (old(clientReady) || sdkPresent)
      ensures sent == (if clientReady then [GetRecordById(EmployeeTable, ParseIntValue(id), EmployeeFields)] else [])
      ensures clientReady ==> name == DeletedName(GetByIdOutcome(lookup, NotFound(id)))
      ensures !clientReady ==> name == "Unknown Employee"
    {
      name := "Unknown Employee";
      var employee;
      sent, employee := GetById(sdkPresent, id, lookup);
      if employee.Success? {
        name := FullName(employee.value);
      }
    }

    /** The delete proper and its activity entry, once the name is known. */
    method DeleteAndLog(sdkPresent: bool, clock: Clock, id: JsValue, name: string, call: Call<MutationResponse>, logCall: Call<MutationResponse>)
      returns (sent: seq<Request>, r: Result<bool, string>)
      modifies this, logger
      ensures clientReady == (old(clientReady) || sdkPresent)
      ensures !clientReady ==> sent == [] && r == Failure(NoClientError("deleteRecord"))
      ensures clientReady ==> r == DeleteOutcome(call)
      ensures clientReady ==> sent == DeleteTrace(old(logger.clientReady) || sdkPresent, clock, id, name, call)
      ensures logger.clientReady == (old(logger.clientReady) || (sdkPresent && clientReady && DeleteOutcome(call).Success?))
    {
      EnsureClient(sdkPresent);
      if !clientReady {
        return [], Failure(NoClientError("deleteRecord"));
      }
      r := InterpretDelete(call);
      var head := DeleteRecord(EmployeeTable, [ParseIntValue(id)]);
      ghost var ready := logger.clientReady || sdkPresent;
      if r.Success? {
        var logSent, logResult := logger.Create(sdkPresent, clock, DeleteLogEntry(id, name), logCall);
        sent := [head] + logSent;
      } else {
        sent := [head];
      }
      SideWritesShape(head, r.Success?, [], ready, DeleteLogEntry(id, name), clock);
    }

    /**
      Deletes one employee and returns true. The employee's name is looked up first for the
      activity entry, which follows any delete that did not raise.
    */
    method Delete(sdkPresent: bool, clock: Clock, id: JsValue, lookup: Call<RecordResponse>, call: Call<MutationResponse>, logCall: Call<MutationResponse>)
      returns (sent: seq<Request>, r: Result<bool, string>)
      modifies this, logger
      ensures clientReady == (old(clientReady) || sdkPresent)
      ensures !clientReady ==> sent == [] && r == Failure(NoClientError("deleteRecord"))
      ensures clientReady ==> r == DeleteOutcome(call)
      ensures clientReady ==>
        sent == [GetRecordById(EmployeeTable, ParseIntValue(id), EmployeeFields)] +
                DeleteTrace(old(logger.clientReady) || sdkPresent, clock, id, DeletedName(GetByIdOutcome(lookup, NotFound(id))), call)
      ensures logger.clientReady == (old(logger.clientReady) || (sdkPresent && DeleteOutcome(call).Success?))
    {
      var lookupSent, employeeName := LookUpName(sdkPresent, id, lookup);
      var deleteSent;
      deleteSent, r := DeleteAndLog(sdkPresent, clock, id, employeeName, call, logCall);
      sent := lookupSent + deleteSent;
    }

    /** Employees of department `parseInt(departmentId)`; [] whenever the read fails. */
    method GetByDepartment(sdkPresent: bool, departmentId: JsValue, call: Call<ListResponse>) returns (sent: seq<Request>, r: seq<Object>)
      modifies this
      ensures clientReady == (old(clientReady) || sdkPresent)
      ensures sent == (if clientReady then [FetchRecords(EmployeeTable, ByDepartmentQuery(departmentId))] else [])
      ensures r == (if clientReady then ListOutcome(call) else [])
    {
      EnsureClient(sdkPresent);
      if !clientReady {
        return [], [];
      }
      sent := [FetchRecords(EmployeeTable, ByDepartmentQuery(departmentId))];
      r := ListOutcome(call);
    }

    /** Employees with status `status`; [] whenever the read fails. */
    method GetByStatus(sdkPresent: bool, status: JsValue, call: Call<ListResponse>) returns (sent: seq<Request>, r: seq<Object>)
      modifies this
      ensures clientReady == (old(clientReady) || sdkPresent)
      ensures sent == (if clientReady then [FetchRecords(EmployeeTable, ByStatusQuery(status))] else [])
      ensures r == (if clientReady then ListOutcome(call) else [])
    {
      EnsureClient(sdkPresent);
      if !clientReady {
        return [], [];
      }
      sent := [FetchRecords(EmployeeTable, ByStatusQuery(status))];
      r := ListOutcome(call);
    }
  }

  // ---------------------------------------------------------------------------
  // What the traces write

  /** The entries a request sequence writes to the log table, in order. */
  function LogWrites(trace: seq<Request>): seq<Object> {
    if trace == [] then [] else LogWritesOf(trace[0]) + LogWrites(trace[1..])
  }

  /** The entries one request writes to the log table. */
  function LogWritesOf(request: Request): seq<Object> {
    if request.CreateRecord? && request.table == LoggerService.LoggerTable then request.records else []
  }

  /** The SMS calls a request sequence makes. */
  function SmsCalls(trace: seq<Request>): nat {
    if trace == [] then 0 else (if trace[0].InvokeFunction? then 1 else 0) + SmsCalls(trace[1..])
  }

  lemma {:induction false} LogWritesAppend(a: seq<Request>, b: seq<Request>)
    ensures LogWrites(a + b) == LogWrites(a) + LogWrites(b)
    ensures SmsCalls(a + b) == SmsCalls(a) + SmsCalls(b)
  {
    if a == [] {
      assert a + b == b;
    } else {
      assert (a + b)[0] == a[0] && (a + b)[1..] == a[1..] + b;
      LogWritesAppend(a[1..], b);
      assert LogWrites(a + b) == LogWritesOf(a[0]) + (LogWrites(a[1..]) + LogWrites(b));
    }
  }

  /** The requests of the log gateway's `create` write the one entry, and send no SMS. */
  lemma WriteRequestsWrite(ready: bool, entry: Object, clock: Clock)
    ensures LogWrites(LoggerService.WriteRequests(ready, entry, clock)) ==
      (if ready then [LoggerService.LogPayload(entry, clock)] else [])
    ensures SmsCalls(LoggerService.WriteRequests(ready, entry, clock)) == 0
  {
    var w := LoggerService.WriteRequests(ready, entry, clock);
    if ready {
      assert w[1..] == [];
    }
  }

  /**
    The shape of every write trace: a first request to the employee table, perhaps one SMS call,
    then the log gateway's write of one entry, or nothing after the first request.
  */
  lemma TraceShapeWrites(head: Request, completed: bool, sms: seq<Request>, ready: bool, entry: Object, clock: Clock)
    requires !head.InvokeFunction? && !(head.CreateRecord? && head.table == LoggerService.LoggerTable)
    requires forall i :: 0 <= i < |sms| ==> sms[i].InvokeFunction?
    ensures var t := WithSideWrites(head, completed, sms, ready, entry, clock);
      t[0] == head && SmsCalls(t) == (if completed then |sms| else 0) &&
      LogWrites(t) == (if completed && ready then [LoggerService.LogPayload(entry, clock)] else [])
  {
    assert LogWrites([head]) == [] && SmsCalls([head]) == 0 by {
      assert [head][1..] == [];
    }
    SmsOnly(sms);
    WriteRequestsWrite(ready, entry, clock);
    LogWritesAppend(sms, LoggerService.WriteRequests(ready, entry, clock));
    LogWritesAppend([head], if completed then sms + LoggerService.WriteRequests(ready, entry, clock) else []);
  }

  lemma {:induction false} SmsOnly(sms: seq<Request>)
    requires forall i :: 0 <= i < |sms| ==> sms[i].InvokeFunction?
    ensures LogWrites(sms) == [] && SmsCalls(sms) == |sms|
  {
    if sms != [] {
      SmsOnly(sms[1..]);
    }
  }

  /**
    A create writes its record first. A completed create (results listed, none failed) then
    makes one SMS call exactly when a record came back, the input has a phone number and a first
    name, and the SDK is loaded, and writes exactly one activity entry when the log gateway has a
    client; any other create writes nothing more.
  */
  lemma CreateSideWrites(sdkPresent: bool, loggerReady: bool, clock: Clock, data: Object, call: Call<MutationResponse>)
    ensures var t := CreateTrace(sdkPresent, loggerReady, clock, data, call);
      var created := CreatedRecord(call);
      t[0] == CreateRecord(EmployeeTable, [CreatePayload(data)]) &&
      SmsCalls(t) == (if CreateCompleted(call) && SmsDue(data, created) && sdkPresent then 1 else 0) &&
      LogWrites(t) == (if CreateCompleted(call) && loggerReady then [LoggerService.LogPayload(CreateLogEntry(data, created), clock)] else [])
  {
    var created := CreatedRecord(call);
    TraceShapeWrites(CreateRecord(EmployeeTable, [CreatePayload(data)]), CreateCompleted(call),
                     if SmsDue(data, created) && sdkPresent then [SmsRequest(data)] else [],
                     loggerReady, CreateLogEntry(data, created), clock);
  }

  /** An update writes one activity entry exactly when it completed and the log gateway has a client. */
  lemma UpdateSideWrites(loggerReady: bool, clock: Clock, id: JsValue, data: Object, call: Call<MutationResponse>)
    ensures var t := UpdateTrace(loggerReady, clock, id, data, call);
      t[0] == UpdateRecord(EmployeeTable, [UpdatePayload(id, data, clock)]) && SmsCalls(t) == 0 &&
      LogWrites(t) == (if UpdateCompleted(call) && loggerReady then [LoggerService.LogPayload(UpdateLogEntry(id, data), clock)] else [])
  {
    TraceShapeWrites(UpdateRecord(EmployeeTable, [UpdatePayload(id, data, clock)]), UpdateCompleted(call), [], loggerReady, UpdateLogEntry(id, data), clock);
  }

  /**
    A delete that raised writes no activity entry; one that did not writes exactly one, at
    level "warning", when the log gateway has a client.
  */
  lemma DeleteSideWrites(loggerReady: bool, clock: Clock, id: JsValue, name: string, call: Call<MutationResponse>)
    ensures var t := DeleteTrace(loggerReady, clock, id, name, call);
      t[0] == DeleteRecord(EmployeeTable, [ParseIntValue(id)]) && SmsCalls(t) == 0 &&
      LogWrites(t) == (if DeleteOutcome(call).Success? && loggerReady then [LoggerService.LogPayload(DeleteLogEntry(id, name), clock)] else [])
  {
    TraceShapeWrites(DeleteRecord(EmployeeTable, [ParseIntValue(id)]), DeleteOutcome(call).Success?, [], loggerReady, DeleteLogEntry(id, name), clock);
  }
}

/**
  The activity-log gateway: builds the request for each operation on the `logger_c` table,
  sends it through the SDK client, and reads the client's answer. The client is created lazily,
  on the first operation that finds the SDK loaded.
*/
module LoggerService {
  import opened Wrappers
  import opened Js
  import opened Protocol

  const LoggerTable := "logger_c"

  /** The fields `getAll` and `getById` ask for. */
  const LogFields: seq<string> := ["Name", "Tags", "Owner", "CreatedOn", "CreatedBy", "ModifiedOn",
    "ModifiedBy", "timestamp_c", "log_level_c", "message_c", "employee_c"]

  /** The fields the filtered reads ask for. */
  const LogSummaryFields: seq<string> := ["Name", "timestamp_c", "log_level_c", "message_c", "employee_c"]

  /** Newest first. */
  const NewestFirst: seq<Order> := [Order("timestamp_c", true)]

  const AllLogsQuery := Query(LogFields, [], NewestFirst, Some(Paging(50, 0)))

  function ByLevelQuery(logLevel: JsValue): Query {
    Query(LogSummaryFields, [EqualTo("log_level_c", logLevel)], NewestFirst, None)
  }

  function ByEmployeeQuery(employeeId: JsValue): Query {
    Query(LogSummaryFields, [EqualTo("employee_c", ParseIntValue(employeeId))], NewestFirst, None)
  }

  const CreateFallback := "Failed to create logger entry"

  function NotFound(id: JsValue): string {
    "Logger entry with ID " + ToStr(id) + " not found"
  }

  /** The six writable fields of an entry. */
  function Entry(name: JsValue, tags: JsValue, timestamp: JsValue, level: JsValue, message: JsValue, employee: JsValue): Object {
    map["Name" := name, "Tags" := tags, "timestamp_c" := timestamp, "log_level_c" := level,
        "message_c" := message, "employee_c" := employee]
  }

  /** The fields of a written entry: the caller's, with the defaults filled in. */
  function LogPayload(logData: Object, clock: Clock): Object {
    var level := Or(Get(logData, "log_level_c"), Str("info"));
    var employee := Get(logData, "employee_c");
    Entry(
      Or(Get(logData, "Name"), Str(ToStr(level) + " - " + clock.locale)),
      Or(Get(logData, "Tags"), Str("")),
      Or(Get(logData, "timestamp_c"), Str(clock.iso)),
      level,
      Or(Get(logData, "message_c"), Str("")),
      if Truthy(employee) then ParseIntValue(employee) else Null)
  }

  /** The fields of an updated entry: those of a new one, and the entry's `Id`. */
  function UpdatePayload(id: JsValue, logData: Object, clock: Clock): Object {
    LogPayload(logData, clock)["Id" := ParseIntValue(id)]
  }

  /** The requests `create` sends: none when there is no client. */
  function WriteRequests(ready: bool, logData: Object, clock: Clock): seq<Request> {
    if ready then [CreateRecord(LoggerTable, [LogPayload(logData, clock)])] else []
  }

  /** The log gateway and its lazily created client. */
  class LoggerService {
    var clientReady: bool

    /** The constructor tries to create the client once. */
    constructor (sdkPresent: bool)
      ensures clientReady == sdkPresent
    {
      clientReady := sdkPresent;
    }

    /** `if (!this.apperClient) this.initializeClient()`: a client is created when the SDK is loaded. */
    method EnsureClient(sdkPresent: bool)
      modifies this
      ensures clientReady == (old(clientReady) || sdkPresent)
    {
      if !clientReady && sdkPresent {
        clientReady := true;
      }
    }

    /** Up to 50 entries, newest first; [] whenever the read fails. */
    method GetAll(sdkPresent: bool, call: Call<ListResponse>) returns (sent: seq<Request>, r: seq<Object>)
      modifies this
      ensures clientReady == (old(clientReady) || sdkPresent)
      ensures sent == (if clientReady then [FetchRecords(LoggerTable, AllLogsQuery)] else [])
      ensures r == (if clientReady then ListOutcome(call) else [])
    {
      EnsureClient(sdkPresent);
      if !clientReady {
        return [], [];
      }
      sent := [FetchRecords(LoggerTable, AllLogsQuery)];
      r := ListOutcome(call);
    }

    /** One entry by `parseInt(id)`, or the not-found error. */
    method GetById(sdkPresent: bool, id: JsValue, call: Call<RecordResponse>) returns (sent: seq<Request>, r: Result<Object, string>)
      modifies this
      ensures clientReady == (old(clientReady) || sdkPresent)
      ensures sent == (if clientReady then [GetRecordById(LoggerTable, ParseIntValue(id), LogFields)] else [])
      ensures r == (if clientReady then GetByIdOutcome(call, NotFound(id)) else Failure(NoClientError("getRecordById")))
    {
      EnsureClient(sdkPresent);
      if !clientReady {
        return [], Failure(NoClientError("getRecordById"));
      }
      sent := [GetRecordById(LoggerTable, ParseIntValue(id), LogFields)];
      r := GetByIdOutcome(call, NotFound(id));
    }

    /** Writes one entry with the defaults filled in; returns the stored record or null. */
    method Create(sdkPresent: bool, clock: Clock, logData: Object, call: Call<MutationResponse>)
      returns (sent: seq<Request>, r: Result<Option<Object>, string>)
      modifies this
      ensures clientReady == (old(clientReady) || sdkPresent)
      ensures sent == WriteRequests(clientReady, logData, clock)
      ensures r == (if clientReady then CreateOutcome(call, CreateFallback) else Failure(NoClientError("createRecord")))
    {
      EnsureClient(sdkPresent);
      if !clientReady {
        return [], Failure(NoClientError("createRecord"));
      }
      sent := [CreateRecord(LoggerTable, [LogPayload(logData, clock)])];
      r := CreateOutcome(call, CreateFallback);
    }

    /** Rewrites one entry; raises for the first failed record that carries a message. */
    method Update(sdkPresent: bool, clock: Clock, id: JsValue, logData: Object, call: Call<MutationResponse>)
      returns (sent: seq<Request>, r: Result<Option<Object>, string>)
      modifies this
      ensures clientReady == (old(clientReady) || sdkPresent)
      ensures sent == (if clientReady then [UpdateRecord(LoggerTable, [UpdatePayload(id, logData, clock)])] else [])
      ensures r == (if clientReady then UpdateOutcome(call) else Failure(NoClientError("updateRecord")))
    {
      EnsureClient(sdkPresent);
      if !clientReady {
        return [], Failure(NoClientError("updateRecord"));
      }
      sent := [UpdateRecord(LoggerTable, [UpdatePayload(id, logData, clock)])];
      r := InterpretUpdate(call);
    }

    /** Deletes one entry; true unless the delete raised. */
    method Delete(sdkPresent: bool, id: JsValue, call: Call<MutationResponse>) returns (sent: seq<Request>, r: Result<bool, string>)
      modifies this
      ensures clientReady == (old(clientReady) || sdkPresent)
      ensures sent == (if clientReady then [DeleteRecord(LoggerTable, [ParseIntValue(id)])] else [])
      ensures r == (if clientReady then DeleteOutcome(call) else Failure(NoClientError("deleteRecord")))
    {
      EnsureClient(sdkPresent);
      if !clientReady {
        return [], Failure(NoClientError("deleteRecord"));
      }
      sent := [DeleteRecord(LoggerTable, [ParseIntValue(id)])];
      r := InterpretDelete(call);
    }

    /** Entries whose `log_level_c` is `logLevel`, newest first; [] whenever the read fails. */
    method GetByLogLevel(sdkPresent: bool, logLevel: JsValue, call: Call<ListResponse>) returns (sent: seq<Request>, r: seq<Object>)
      modifies this
      ensures clientReady == (old(clientReady) || sdkPresent)
      ensures sent == (if clientReady then [FetchRecords(LoggerTable, ByLevelQuery(logLevel))] else [])
      ensures r == (if clientReady then ListOutcome(call) else [])
    {
      EnsureClient(sdkPresent);
      if !clientReady {
        return [], [];
      }
      sent := [FetchRecords(LoggerTable, ByLevelQuery(logLevel))];
      r := ListOutcome(call);
    }

    /** Entries about employee `parseInt(employeeId)`, newest first; [] whenever the read fails. */
    method GetByEmployee(sdkPresent: bool, employeeId: JsValue, call: Call<ListResponse>) returns (sent: seq<Request>, r: seq<Object>)
      modifies this
      ensures clientReady == (old(clientReady) || sdkPresent)
      ensures sent == (if clientReady then [FetchRecords(LoggerTable, ByEmployeeQuery(employeeId))] else [])
      ensures r == (if clientReady then ListOutcome(call) else [])
    {
      EnsureClient(sdkPresent);
      if !clientReady {
        return [], [];
      }
      sent := [FetchRecords(LoggerTable, ByEmployeeQuery(employeeId))];
      r := ListOutcome(call);
    }
  }

  // ---------------------------------------------------------------------------
  // Properties of the payload

  /**
    A written entry has exactly the six writable fields. A truthy field the caller gave is kept
    as given; a falsy `Tags` or `message_c` becomes "", a falsy level becomes "info", so the
    level and the name are never falsy; `employee_c` is null exactly when the caller's is falsy,
    and otherwise what `parseInt` reads.
  */
  lemma PayloadDefaults(logData: Object, clock: Clock)
    ensures var p := LogPayload(logData, clock);
      p.Keys == {"Name", "Tags", "timestamp_c", "log_level_c", "message_c", "employee_c"} &&
      (forall k :: k in {"Name", "Tags", "timestamp_c", "log_level_c", "message_c"} && Truthy(Get(logData, k)) ==>
        p[k] == logData[k]) &&
      (!Truthy(Get(logData, "Tags")) ==> p["Tags"] == Str("")) &&
      (!Truthy(Get(logData, "message_c")) ==> p["message_c"] == Str("")) &&
      (!Truthy(Get(logData, "log_level_c")) ==> p["log_level_c"] == Str("info")) &&
      (!Truthy(Get(logData, "timestamp_c")) ==> p["timestamp_c"] == Str(clock.iso)) &&
      Truthy(p["log_level_c"]) && Truthy(p["Name"]) &&
      (p["employee_c"] == Null <==> !Truthy(Get(logData, "employee_c"))) &&
      (Truthy(Get(logData, "employee_c")) ==> p["employee_c"] == ParseIntValue(Get(logData, "employee_c")))
  {
    var level := Or(Get(logData, "log_level_c"), Str("info"));
    var generated := ToStr(level) + " - " + clock.locale;
    assert generated[|ToStr(level)|] == ' ';
  }

  /**
    An entry given as a level, a message, an employee reference and tags, all but the reference
    truthy, is written with those values, the reference as `parseInt` reads it (null when it is
    falsy), and the name generated from the level and the local time.
  */
  lemma PayloadOfEntry(level: JsValue, message: JsValue, employee: JsValue, tags: JsValue, clock: Clock)
    requires Truthy(level) && Truthy(message) && Truthy(tags)
    ensures var p := LogPayload(map["log_level_c" := level, "message_c" := message, "employee_c" := employee, "Tags" := tags], clock);
      p["log_level_c"] == level && p["message_c"] == message && p["Tags"] == tags &&
      p["Name"] == Str(ToStr(level) + " - " + clock.locale) && p["timestamp_c"] == Str(clock.iso) &&
      p["employee_c"] == (if Truthy(employee) then ParseIntValue(employee) else Null)
  {
    var m := map["log_level_c" := level, "message_c" := message, "employee_c" := employee, "Tags" := tags];
    assert Get(m, "log_level_c") == level && Get(m, "message_c") == message && Get(m, "Tags") == tags;
    assert Get(m, "employee_c") == employee && Get(m, "Name") == Undefined && Get(m, "timestamp_c") == Undefined;
  }

  /** An update carries the fields of a new entry and, in addition, the entry's `Id`. */
  lemma UpdatePayloadExtendsCreate(id: JsValue, logData: Object, clock: Clock)
    ensures var u := UpdatePayload(id, logData, clock);
      var c := LogPayload(logData, clock);
      u.Keys == c.Keys + {"Id"} && forall k :: k in c ==> u[k] == c[k]
  {
    var level := Or(Get(logData, "log_level_c"), Str("info"));
    var employee := Get(logData, "employee_c");
    EntryKeys(Or(Get(logData, "Name"), Str(ToStr(level) + " - " + clock.locale)), Or(Get(logData, "Tags"), Str("")),
              Or(Get(logData, "timestamp_c"), Str(clock.iso)), level, Or(Get(logData, "message_c"), Str("")),
              if Truthy(employee) then ParseIntValue(employee) else Null);
    AddedKey(LogPayload(logData, clock), "Id", ParseIntValue(id));
  }

  /** Helper for `UpdatePayloadExtendsCreate`: an entry has no `Id` key. */
  lemma EntryKeys(name: JsValue, tags: JsValue, timestamp: JsValue, level: JsValue, message: JsValue, employee: JsValue)
    ensures "Id" !in Entry(name, tags, timestamp, level, message, employee)
  {
  }

  /** Helper: adding a new key keeps every other. */
  lemma AddedKey(m: Object, key: string, v: JsValue)
    requires key !in m
    ensures m[key := v].Keys == m.Keys + {key} && forall k :: k in m ==> m[key := v][k] == m[k]
  {
  }

  /**
    Writing back a payload the gateway built changes nothing, whatever the clock says then, as
    long as its timestamp is non-empty and its employee reference is null or a non-zero number
    (a reference that reads as 0 or NaN is falsy and would be dropped to null).
  */
  lemma PayloadIsFixedPoint(logData: Object, clock: Clock, later: Clock)
    requires clock.iso != "" || Truthy(Get(logData, "timestamp_c"))
    requires var e := LogPayload(logData, clock)["employee_c"]; e == Null || (e.Num? && e.n != 0)
    ensures LogPayload(LogPayload(logData, clock), later) == LogPayload(logData, clock)
  {
    var level := Or(Get(logData, "log_level_c"), Str("info"));
    var name := Or(Get(logData, "Name"), Str(ToStr(level) + " - " + clock.locale));
    var tags := Or(Get(logData, "Tags"), Str(""));
    var timestamp := Or(Get(logData, "timestamp_c"), Str(clock.iso));
    var message := Or(Get(logData, "message_c"), Str(""));
    var employee := Get(logData, "employee_c");
    var reference := if Truthy(employee) then ParseIntValue(employee) else Null;
    var p := Entry(name, tags, timestamp, level, message, reference);
    assert p == LogPayload(logData, clock);
    assert (ToStr(level) + " - " + clock.locale)[|ToStr(level)|] == ' ';
    assert Truthy(name) && Truthy(timestamp);
    assert Get(p, "Name") == name && Get(p, "Tags") == tags && Get(p, "timestamp_c") == timestamp;
    assert Get(p, "log_level_c") == level && Get(p, "message_c") == message && Get(p, "employee_c") == reference;
    if reference.Num? {
      ParseIntValueOfNum(reference.n);
    }
  }
}

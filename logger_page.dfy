/**
  The activity log page: the level and employee filters over the loaded entries, the level
  badge, the entry form and its create / edit / view modes, and the save that dispatches on
  the mode.
*/
module LoggerPage {
  import opened Wrappers
  import opened Js
  import opened Seqs

  /**
    `log.employee_c?.Id?.toString()`: the text of the linked employee's `Id`, or none when there
    is no linked record or it has no `Id`.
  */
  function EmployeeRef(log: Object): Option<string> {
    match Get(log, "employee_c")
    case Obj(fields) =>
      var id := Get(fields, "Id");
      if id.Undefined? || id.Null? then None else Some(ToStr(id))
    case _ => None
  }

  /** `matchesLogLevel && matchesEmployee`, each true when its filter is empty. */
  predicate LogKept(log: Object, levelFilter: string, employeeFilter: string) {
    (levelFilter == "" || Get(log, "log_level_c") == Str(levelFilter)) &&
    (employeeFilter == "" || EmployeeRef(log) == Some(employeeFilter))
  }

  /** `filteredLogs`. */
  function FilteredLogs(logs: seq<Object>, levelFilter: string, employeeFilter: string): seq<Object> {
    Filter(logs, log => LogKept(log, levelFilter, employeeFilter))
  }

  /**
    The filtered entries are a subsequence of the loaded ones; all of them when no filter is
    set; and an entry is among them exactly when it passes both filters.
  */
  lemma FilteredLogsProperties(logs: seq<Object>, levelFilter: string, employeeFilter: string, log: Object)
    ensures IsSubsequence(FilteredLogs(logs, levelFilter, employeeFilter), logs)
    ensures levelFilter == "" && employeeFilter == "" ==> FilteredLogs(logs, levelFilter, employeeFilter) == logs
    ensures log in FilteredLogs(logs, levelFilter, employeeFilter) <==>
      log in logs &&
      (levelFilter == "" || Get(log, "log_level_c") == Str(levelFilter)) &&
      (employeeFilter == "" || EmployeeRef(log) == Some(employeeFilter))
  {
    var p := (l: Object) => LogKept(l, levelFilter, employeeFilter);
    FilterIsSubsequence(logs, p);
    FilterMembership(logs, p, log);
    if levelFilter == "" && employeeFilter == "" {
      FilterAllPass(logs, p);
    }
  }

  /** An entry with no linked employee is dropped whenever an employee filter is set. */
  lemma UnlinkedLogsDropped(logs: seq<Object>, levelFilter: string, employeeFilter: string, log: Object)
    requires employeeFilter != "" && EmployeeRef(log).None?
    ensures log !in FilteredLogs(logs, levelFilter, employeeFilter)
  {
    FilterMembership(logs, l => LogKept(l, levelFilter, employeeFilter), log);
  }

  /** A linked employee with a numeric `Id` is matched by that number's decimal text. */
  lemma NumericEmployeeFilter(log: Object, fields: map<string, JsValue>, n: int)
    requires Get(log, "employee_c") == Obj(fields) && Get(fields, "Id") == Num(n)
    ensures LogKept(log, "", IntToString(n))
  {
  }

  /** `getLogLevelBadgeVariant`. */
  function BadgeVariant(level: string): (r: string)
    ensures r in {"destructive", "warning", "secondary", "outline"}
    ensures r == "destructive" <==> level == "error"
    ensures r == "warning" <==> level == "warning"
    ensures r == "outline" <==> level == "debug"
  {
    if level == "error" then "destructive"
    else if level == "warning" then "warning"
    else if level == "info" then "secondary"
    else if level == "debug" then "outline"
    else "secondary"
  }

  /** An unknown level looks like "info". */
  lemma UnknownLevelBadge(level: string)
    requires level !in {"error", "warning", "info", "debug"}
    ensures BadgeVariant(level) == BadgeVariant("info")
  {
  }

  /** The entry form's fields. */
  datatype LogForm = LogForm(name: string, tags: string, timestamp: string, level: string, message: string, employee: string)

  datatype Mode = Create | Edit | View

  /**
    The form filled from an entry, as edit and view fill it: missing text becomes "", the level
    "info", the employee its `Id` text. `timestampText` stands for the entry's timestamp as the
    date conversion renders it, to the minute.
  */
  function FormOfLog(log: Object, timestampText: string): (f: LogForm)
    ensures f.level != ""
    ensures f.employee == "" <==> EmployeeRef(log).None? || EmployeeRef(log) == Some("")
  {
    var ref := EmployeeRef(log);
    LogForm(
      TextOr(Get(log, "Name")),
      TextOr(Get(log, "Tags")),
      if Truthy(Get(log, "timestamp_c")) then timestampText else "",
      if Truthy(Get(log, "log_level_c")) then ToStr(Get(log, "log_level_c")) else "info",
      TextOr(Get(log, "message_c")),
      if ref.Some? then ref.value else "")
  }

  /**
    The `||` defaults of the filled form: the name, tags and message keep the text the entry holds
    and become "" when missing or falsy; a missing level becomes "info"; the timestamp is the
    rendered time when the entry has one and "" otherwise.
  */
  lemma FormOfLogFields(log: Object, timestampText: string)
    ensures forall s :: Get(log, "Name") == Str(s) ==> FormOfLog(log, timestampText).name == s
    ensures forall s :: Get(log, "Tags") == Str(s) ==> FormOfLog(log, timestampText).tags == s
    ensures forall s :: Get(log, "message_c") == Str(s) ==> FormOfLog(log, timestampText).message == s
    ensures !Truthy(Get(log, "Name")) ==> FormOfLog(log, timestampText).name == ""
    ensures !Truthy(Get(log, "Tags")) ==> FormOfLog(log, timestampText).tags == ""
    ensures !Truthy(Get(log, "message_c")) ==> FormOfLog(log, timestampText).message == ""
    ensures !Truthy(Get(log, "log_level_c")) ==> FormOfLog(log, timestampText).level == "info"
    ensures Truthy(Get(log, "timestamp_c")) ==> FormOfLog(log, timestampText).timestamp == timestampText
    ensures !Truthy(Get(log, "timestamp_c")) ==> FormOfLog(log, timestampText).timestamp == ""
  {
  }

  /** The employee the form shows for an entry is one the employee filter keeps the entry for. */
  lemma FormEmployeeSelectsLog(log: Object, timestampText: string)
    requires FormOfLog(log, timestampText).employee != ""
    ensures LogKept(log, "", FormOfLog(log, timestampText).employee)
  {
  }

  /** The form of an entry carries the entry's level when it has one. */
  lemma FormLevelOfLog(log: Object, timestampText: string, level: string)
    requires Get(log, "log_level_c") == Str(level) && level != ""
    ensures FormOfLog(log, timestampText).level == level
    ensures LogKept(log, FormOfLog(log, timestampText).level, "")
  {
  }

  /** The blank form of a new entry, stamped with the current time to the minute. */
  function NewLogForm(nowText: string): (f: LogForm)
    ensures f.level == "info" && f.timestamp == nowText
    ensures f.name == "" && f.tags == "" && f.message == "" && f.employee == ""
  {
    LogForm("", "", nowText, "info", "", "")
  }

  /** The service call a save makes. */
  datatype LogCall = NoLogCall | CreateLog(data: LogForm) | UpdateLog(id: JsValue, data: LogForm)

  /** The page's state. */
  class LoggerPage {
    var logs: seq<Object>
    var isModalOpen: bool
    var modalMode: Mode
    var selectedLog: Option<Object>
    var formData: LogForm
    var logLevelFilter: string
    var employeeFilter: string

    constructor ()
      ensures logs == [] && !isModalOpen && modalMode == Create && selectedLog == None
      ensures formData == LogForm("", "", "", "info", "", "")
      ensures logLevelFilter == "" && employeeFilter == ""
    {
      logs := [];
      isModalOpen := false;
      modalMode := Create;
      selectedLog := None;
      formData := LogForm("", "", "", "info", "", "");
      logLevelFilter := "";
      employeeFilter := "";
    }

    /** `handleAddLog`. */
    method HandleAddLog(nowText: string)
      modifies this
      ensures modalMode == Create && selectedLog == None && isModalOpen
      ensures formData == NewLogForm(nowText)
      ensures logs == old(logs) && logLevelFilter == old(logLevelFilter) && employeeFilter == old(employeeFilter)
    {
      modalMode := Create;
      selectedLog := None;
      formData := LogForm("", "", nowText, "info", "", "");
      isModalOpen := true;
    }

    /** `handleEditLog`. */
    method HandleEditLog(log: Object, timestampText: string)
      modifies this
      ensures modalMode == Edit && selectedLog == Some(log) && isModalOpen
      ensures formData == FormOfLog(log, timestampText)
      ensures logs == old(logs) && logLevelFilter == old(logLevelFilter) && employeeFilter == old(employeeFilter)
    {
      modalMode := Edit;
      selectedLog := Some(log);
      formData := FormOfLog(log, timestampText);
      isModalOpen := true;
    }

    /** `handleViewLog`: the same form as an edit, in view mode. */
    method HandleViewLog(log: Object, timestampText: string)
      modifies this
      ensures modalMode == View && selectedLog == Some(log) && isModalOpen
      ensures formData == FormOfLog(log, timestampText)
      ensures logs == old(logs) && logLevelFilter == old(logLevelFilter) && employeeFilter == old(employeeFilter)
    {
      modalMode := View;
      selectedLog := Some(log);
      formData := FormOfLog(log, timestampText);
      isModalOpen := true;
    }

    /**
      `handleSaveLog`: create in create mode, update of the selected entry in edit mode, no call
      in view mode. `callRaises` is whether the service call made raises. Without a selected
      entry in edit mode, reading its `Id` raises before any call. When nothing raises, the
      modal closes and the list is reloaded (`reload`); otherwise the modal stays open.
    */
    method HandleSaveLog(callRaises: bool) returns (call: LogCall, reload: bool)
      modifies this
      ensures call == (if modalMode == Create then CreateLog(formData)
                       else if modalMode == Edit && selectedLog.Some? then UpdateLog(Get(selectedLog.value, "Id"), formData)
                       else NoLogCall)
      ensures reload <==> (modalMode == View || (call != NoLogCall && !callRaises))
      ensures isModalOpen == (old(isModalOpen) && !reload)
      ensures logs == old(logs) && modalMode == old(modalMode) && selectedLog == old(selectedLog)
      ensures formData == old(formData)
      ensures logLevelFilter == old(logLevelFilter) && employeeFilter == old(employeeFilter)
    {
      call := NoLogCall;
      reload := false;
      var raised := false;
      if modalMode == Create {
        call := CreateLog(formData);
        raised := callRaises;
      } else if modalMode == Edit {
        if selectedLog.None? {
          raised := true;
        } else {
          call := UpdateLog(Get(selectedLog.value, "Id"), formData);
          raised := callRaises;
        }
      }
      if !raised {
        isModalOpen := false;
        reload := true;
      }
    }

    /**
      `handleDeleteLog`: when the user confirms, the entry's `Id` goes to the service's delete;
      the list is reloaded exactly when the delete does not raise. The page's state is untouched.
    */
    method HandleDeleteLog(log: Object, confirmed: bool, deleteRaises: bool) returns (deleted: Option<JsValue>, reload: bool)
      ensures deleted == (if confirmed then Some(Get(log, "Id")) else None)
      ensures reload <==> confirmed && !deleteRaises
    {
      deleted := None;
      reload := false;
      if confirmed {
        deleted := Some(Get(log, "Id"));
        if !deleteRaises {
          reload := true;
        }
      }
    }

    /** `clearFilters`. */
    method ClearFilters()
      modifies this
      ensures logLevelFilter == "" && employeeFilter == ""
      ensures logs == old(logs) && isModalOpen == old(isModalOpen) && modalMode == old(modalMode)
      ensures selectedLog == old(selectedLog) && formData == old(formData)
    {
      logLevelFilter := "";
      employeeFilter := "";
    }
  }
}

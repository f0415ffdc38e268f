/**
  The remote record-storage protocol the gateways talk to, as values: the requests a gateway
  sends, the responses the client hands back, and how the gateways read those responses.
  The client itself is not modelled; each gateway method receives the client's answer
  (`Call`) as an input and returns the requests it sent.
*/
module Protocol {
  import opened Wrappers
  import opened Js
  import Seqs

  /** `{fieldName, sorttype}` of `orderBy`. */
  datatype Order = Order(fieldName: string, descending: bool)

  /** `{FieldName, Operator: "EqualTo", Values: [value]}` of `where`. */
  datatype Condition = EqualTo(fieldName: string, value: JsValue)

  /** `pagingInfo`. */
  datatype Paging = Paging(limit: nat, offset: nat)

  /** The parameters of `fetchRecords`. */
  datatype Query = Query(fields: seq<string>, where: seq<Condition>, orderBy: seq<Order>, paging: Option<Paging>)

  /** One call on the client. */
  datatype Request =
    | FetchRecords(table: string, query: Query)
    | GetRecordById(table: string, id: JsValue, fields: seq<string>)
    | CreateRecord(table: string, records: seq<Object>)
    | UpdateRecord(table: string, records: seq<Object>)
    | DeleteRecord(table: string, recordIds: seq<JsValue>)
    | InvokeFunction(body: Object)

  /** What `new Date()` printed during a call: `toLocaleString()` and `toISOString()`. */
  datatype Clock = Clock(locale: string, iso: string)

  /**
    The `TypeError` a gateway raises when it calls `operation` on a client that was never created
    because the SDK was not loaded (the V8 wording).
  */
  function NoClientError(operation: string): string {
    "Cannot read properties of null (reading '" + operation + "')"
  }

  /** What an awaited client call did: threw an error with a message, or returned a response. */
  datatype Call<T> = Threw(error: string) | Returned(response: T)

  /**
    One entry of `results`. An absent `message` is "" (both are falsy), `errors` is [] when
    absent, and `data` is `None` when absent.
  */
  datatype RecordResult = RecordResult(success: bool, data: Option<Object>, message: string, errors: seq<string>)

  /** The response of `createRecord`, `updateRecord` and `deleteRecord`. */
  datatype MutationResponse = MutationResponse(success: bool, message: string, results: Option<seq<RecordResult>>)

  /** The response of `fetchRecords`. */
  datatype ListResponse = ListResponse(success: bool, message: string, data: Option<seq<Object>>)

  /** The response of `getRecordById`; only its `data` is read. */
  datatype RecordResponse = RecordResponse(data: Option<Object>)

  predicate Succeeded(r: RecordResult) {
    r.success
  }

  predicate NotSucceeded(r: RecordResult) {
    !r.success
  }

  /** `results.filter(r => r.success)`. */
  function Successful(rs: seq<RecordResult>): seq<RecordResult> {
    Seqs.Filter(rs, Succeeded)
  }

  /** `results.filter(r => !r.success)`. */
  function Failed(rs: seq<RecordResult>): seq<RecordResult> {
    Seqs.Filter(rs, NotSucceeded)
  }

  /** `successful.length > 0 ? successful[0].data : null`. */
  function FirstData(successful: seq<RecordResult>): Option<Object> {
    if |successful| > 0 then successful[0].data else None
  }

  /** `failed[0]?.message || failed[0]?.errors?.[0] || fallback`. */
  function CreateFailureMessage(f: RecordResult, fallback: string): (m: string)
    ensures f.message != "" ==> m == f.message
    ensures f.message == "" && |f.errors| > 0 && f.errors[0] != "" ==> m == f.errors[0]
    ensures f.message == "" && (|f.errors| == 0 || f.errors[0] == "") ==> m == fallback
    ensures fallback != "" ==> m != ""
  {
    if f.message != "" then f.message
    else if |f.errors| > 0 && f.errors[0] != "" then f.errors[0]
    else fallback
  }

  /** Record `i` is the first of `failed` that carries a message. */
  predicate FirstWithMessage(failed: seq<RecordResult>, i: int) {
    0 <= i < |failed| && failed[i].message != "" &&
    forall j :: 0 <= j < i ==> failed[j].message == ""
  }

  /**
    The message `failed.forEach(record => { if (record.message) throw ... })` throws: that of
    the first record that carries one, `None` when no record does.
  */
  function FirstMessage(failed: seq<RecordResult>): (m: Option<string>)
    ensures m.None? <==> forall i :: 0 <= i < |failed| ==> failed[i].message == ""
    ensures m.Some? ==> exists i :: FirstWithMessage(failed, i) && failed[i].message == m.value
  {
    if failed == [] then None
    else if failed[0].message != "" then
      assert FirstWithMessage(failed, 0);
      Some(failed[0].message)
    else
      var m := FirstMessage(failed[1..]);
      assert m.Some? ==> exists i :: FirstWithMessage(failed, i) && failed[i].message == m.value by {
        if m.Some? {
          var k :| FirstWithMessage(failed[1..], k) && failed[1..][k].message == m.value;
          forall j | 0 <= j < k + 1 ensures failed[j].message == "" {
            if j > 0 { assert failed[j] == failed[1..][j - 1]; }
          }
          assert FirstWithMessage(failed, k + 1);
        }
      }
      assert m.None? ==> forall i :: 0 <= i < |failed| ==> failed[i].message == "" by {
        if m.None? {
          forall i | 0 <= i < |failed| ensures failed[i].message == "" {
            if i > 0 { assert failed[i] == failed[1..][i - 1]; }
          }
        }
      }
      m
  }

  /**
    The `forEach` loop over the failed records of an update or delete: stops at the first
    record that carries a message and reports the message it throws.
  */
  method ThrowOnFirstMessage(failed: seq<RecordResult>) returns (thrown: Option<string>)
    ensures thrown == FirstMessage(failed)
  {
    var i := 0;
    while i < |failed|
      invariant 0 <= i <= |failed|
      invariant FirstMessage(failed[i..]) == FirstMessage(failed)
    {
      if failed[i].message != "" {
        return Some(failed[i].message);
      }
      assert failed[i..][1..] == failed[i + 1..];
      i := i + 1;
    }
    return None;
  }

  /** What `create` returns (`Success`) or throws (`Failure`) for the client's answer. */
  function CreateOutcome(call: Call<MutationResponse>, fallback: string): Result<Option<Object>, string> {
    match call
    case Threw(e) => Failure(e)
    case Returned(resp) =>
      if !resp.success then Failure(resp.message)
      else
        match resp.results
        case None => Success(None)
        case Some(rs) =>
          if |Failed(rs)| > 0 then Failure(CreateFailureMessage(Failed(rs)[0], fallback))
          else Success(FirstData(Successful(rs)))
  }

  /**
    What `update` returns or throws. A response without `results` makes `update` fall off its
    end and return `undefined`, which is `Success(None)` here as well.
  */
  function UpdateOutcome(call: Call<MutationResponse>): Result<Option<Object>, string> {
    match call
    case Threw(e) => Failure(e)
    case Returned(resp) =>
      if !resp.success then Failure(resp.message)
      else
        match resp.results
        case None => Success(None)
        case Some(rs) =>
          match FirstMessage(Failed(rs))
          case Some(m) => Failure(m)
          case None => Success(FirstData(Successful(rs)))
  }

  /** What `delete` returns or throws. */
  function DeleteOutcome(call: Call<MutationResponse>): Result<bool, string> {
    match call
    case Threw(e) => Failure(e)
    case Returned(resp) =>
      if !resp.success then Failure(resp.message)
      else
        match resp.results
        case None => Success(true)
        case Some(rs) =>
          match FirstMessage(Failed(rs))
          case Some(m) => Failure(m)
          case None => Success(true)
  }

  /** What a list read returns: it never throws, and answers [] on any failure. */
  function ListOutcome(call: Call<ListResponse>): seq<Object> {
    match call
    case Threw(_) => []
    case Returned(resp) =>
      if !resp.success then [] else resp.data.GetOr([])
  }

  /** What `getById` returns or throws: a response without `data` is the not-found error. */
  function GetByIdOutcome(call: Call<RecordResponse>, notFound: string): Result<Object, string> {
    match call
    case Threw(e) => Failure(e)
    case Returned(resp) =>
      match resp.data
      case None => Failure(notFound)
      case Some(d) => Success(d)
  }

  /** The call returned a successful response that lists `results`. */
  predicate HasResults(call: Call<MutationResponse>) {
    call.Returned? && call.response.success && call.response.results.Some?
  }

  /** The steps of `update` after the client answered, with the `forEach` of the failed records. */
  method InterpretUpdate(call: Call<MutationResponse>) returns (r: Result<Option<Object>, string>)
    ensures r == UpdateOutcome(call)
  {
    match call
    case Threw(e) =>
      r := Failure(e);
    case Returned(response) =>
      if !response.success {
        return Failure(response.message);
      }
      if response.results.None? {
        return Success(None);
      }
      var successful := Successful(response.results.value);
      var failed := Failed(response.results.value);
      var thrown := None;
      if |failed| > 0 {
        thrown := ThrowOnFirstMessage(failed);
      }
      if thrown.Some? {
        return Failure(thrown.value);
      }
      r := Success(if |successful| > 0 then successful[0].data else None);
  }

  /** The steps of `delete` after the client answered. */
  method InterpretDelete(call: Call<MutationResponse>) returns (r: Result<bool, string>)
    ensures r == DeleteOutcome(call)
  {
    match call
    case Threw(e) =>
      r := Failure(e);
    case Returned(response) =>
      if !response.success {
        return Failure(response.message);
      }
      if response.results.Some? {
        var failed := Failed(response.results.value);
        if |failed| > 0 {
          var thrown := ThrowOnFirstMessage(failed);
          if thrown.Some? {
            return Failure(thrown.value);
          }
        }
      }
      r := Success(true);
  }

  /**
    A list read answers records only when the call returned a successful response carrying
    exactly them; `getById` answers the response's `data` when there is one, and otherwise
    raises the call's error or the not-found message; a delete that does not raise answers true.
  */
  lemma ReadOutcomes(list: Call<ListResponse>, one: Call<RecordResponse>, notFound: string, del: Call<MutationResponse>)
    ensures ListOutcome(list) != [] ==>
      list.Returned? && list.response.success && list.response.data == Some(ListOutcome(list))
    ensures GetByIdOutcome(one, notFound).Success? <==> one.Returned? && one.response.data.Some?
    ensures GetByIdOutcome(one, notFound).Success? ==> GetByIdOutcome(one, notFound).value == one.response.data.value
    ensures one.Returned? && one.response.data.None? ==> GetByIdOutcome(one, notFound) == Failure(notFound)
    ensures DeleteOutcome(del).Success? ==> DeleteOutcome(del).value
  {
  }

  /** A response whose records are all present. */
  predicate AnsweredWith(call: Call<MutationResponse>, rs: seq<RecordResult>) {
    call.Returned? && call.response.success && call.response.results == Some(rs)
  }

  // ---------------------------------------------------------------------------
  // Properties of the interpretation

  /**
    `create` fails exactly when the call threw, the transport reported failure, or some record
    failed; a record failure reports the first failed record's message, else its first error,
    else the fallback, so it is never empty when the fallback is not.
  */
  lemma CreateOutcomeFailsIff(call: Call<MutationResponse>, fallback: string)
    ensures CreateOutcome(call, fallback).Failure? <==>
      call.Threw? || !call.response.success ||
      (call.response.results.Some? &&
        (exists i :: 0 <= i < |call.response.results.value| && !call.response.results.value[i].success))
    ensures (call.Returned? && call.response.success && call.response.results.Some? &&
             CreateOutcome(call, fallback).Failure? && fallback != "") ==>
              CreateOutcome(call, fallback).error != ""
    ensures HasResults(call) && call.response.success && |Failed(call.response.results.value)| > 0 ==>
      CreateOutcome(call, fallback) ==
        Failure(CreateFailureMessage(Failed(call.response.results.value)[0], fallback))
  {
    if call.Returned? && call.response.success && call.response.results.Some? {
      var rs := call.response.results.value;
      FailedIsEmptyIffAllSucceed(rs);
    }
  }

  /** No record failed exactly when the failed list is empty. */
  lemma {:induction false} FailedIsEmptyIffAllSucceed(rs: seq<RecordResult>)
    ensures |Failed(rs)| == 0 <==> forall i :: 0 <= i < |rs| ==> rs[i].success
  {
    if rs != [] {
      FailedIsEmptyIffAllSucceed(rs[1..]);
      if |Failed(rs)| == 0 {
        assert !NotSucceeded(rs[0]);
        assert forall i :: 1 <= i < |rs| ==> rs[i] == rs[1..][i - 1];
      } else if rs[0].success {
        assert Failed(rs) == Failed(rs[1..]);
        var i :| 0 <= i < |rs| - 1 && !rs[1..][i].success;
        assert !rs[i + 1].success;
      }
    }
  }

  /** When every record succeeded, the first one is the first successful one. */
  lemma {:induction false} SuccessfulOfAllSucceeded(rs: seq<RecordResult>)
    requires forall i :: 0 <= i < |rs| ==> rs[i].success
    ensures Successful(rs) == rs
  {
    Seqs.FilterAllPass(rs, Succeeded);
  }

  /**
    `create` and `update` agree whenever no record fails: both then return the first record's
    `data`; `delete` then returns true.
  */
  lemma OutcomesAgreeWhenAllSucceed(call: Call<MutationResponse>, rs: seq<RecordResult>, fallback: string)
    requires AnsweredWith(call, rs)
    requires forall i :: 0 <= i < |rs| ==> rs[i].success
    ensures CreateOutcome(call, fallback) == UpdateOutcome(call) == Success(if rs == [] then None else rs[0].data)
    ensures DeleteOutcome(call) == Success(true)
  {
    FailedIsEmptyIffAllSucceed(rs);
    SuccessfulOfAllSucceeded(rs);
  }

  /**
    `update` and `delete` raise only for a failed record that carries a message: failed records
    without one are skipped, and `update` then returns the first successful record's `data`.
  */
  lemma UpdateIgnoresSilentFailures(call: Call<MutationResponse>, rs: seq<RecordResult>)
    requires AnsweredWith(call, rs)
    requires forall i :: 0 <= i < |rs| ==> !rs[i].success ==> rs[i].message == ""
    ensures UpdateOutcome(call) == Success(FirstData(Successful(rs)))
    ensures DeleteOutcome(call) == Success(true)
  {
    FailedCarryNoMessage(rs);
  }

  lemma {:induction false} FailedCarryNoMessage(rs: seq<RecordResult>)
    requires forall i :: 0 <= i < |rs| ==> !rs[i].success ==> rs[i].message == ""
    ensures forall i :: 0 <= i < |Failed(rs)| ==> Failed(rs)[i].message == ""
  {
    if rs != [] {
      FailedCarryNoMessage(rs[1..]);
      assert forall i :: 1 <= i < |rs| ==> rs[1..][i - 1] == rs[i];
      assert Failed(rs) == (if NotSucceeded(rs[0]) then [rs[0]] else []) + Failed(rs[1..]);
    }
  }

  /**
    A failed record that carries a message makes `update` and `delete` throw a non-empty message:
    that of the first failed record carrying one.
  */
  lemma UpdateRaisesForMessage(call: Call<MutationResponse>, rs: seq<RecordResult>, k: nat)
    requires AnsweredWith(call, rs)
    requires k < |rs| && !rs[k].success && rs[k].message != ""
    ensures UpdateOutcome(call).Failure? && DeleteOutcome(call).Failure?
    ensures UpdateOutcome(call).error == DeleteOutcome(call).error != ""
    ensures UpdateOutcome(call).error == FirstMessage(Failed(rs)).value
  {
    Seqs.FilterMembership(rs, NotSucceeded, rs[k]);
    var f := Failed(rs);
    var j :| 0 <= j < |f| && f[j] == rs[k];
    assert f[j].message != "";
  }
}

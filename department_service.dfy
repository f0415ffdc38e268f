/**
  The in-memory department store: a list of department records seeded from mock data, read
  and changed in place. Departments are identified by a numeric `Id`; callers pass ids in any
  form and the store compares them with `parseInt(id)`.
*/
module DepartmentService {
  import opened Wrappers
  import opened Js

  /** The record carries a number under `Id`. */
  predicate HasNumericId(d: Object) {
    "Id" in d && d["Id"].Num?
  }

  function IdOf(d: Object): int
    requires HasNumericId(d)
  {
    d["Id"].n
  }

  /** Every record carries a numeric `Id`: what the store keeps and `Math.max` relies on. */
  predicate AllNumericIds(ds: seq<Object>) {
    forall i :: 0 <= i < |ds| ==> HasNumericId(ds[i])
  }

  /** No two records share an `Id`. */
  predicate DistinctIds(ds: seq<Object>)
    requires AllNumericIds(ds)
  {
    forall i, j :: 0 <= i < j < |ds| ==> IdOf(ds[i]) != IdOf(ds[j])
  }

  /** `Math.max(...ds.map(d => d.Id), 0)`: the largest `Id`, or 0 when none is larger. */
  function MaxId(ds: seq<Object>): (m: int)
    requires AllNumericIds(ds)
    ensures m >= 0
    ensures forall i :: 0 <= i < |ds| ==> IdOf(ds[i]) <= m
    ensures m == 0 || exists i :: 0 <= i < |ds| && IdOf(ds[i]) == m
  {
    if ds == [] then 0
    else
      var rest := MaxId(ds[1..]);
      assert forall i :: 1 <= i < |ds| ==> ds[i] == ds[1..][i - 1];
      if IdOf(ds[0]) > rest then IdOf(ds[0]) else rest
  }

  /** Record `i` is the first whose `Id` is `n`. */
  predicate FirstWithId(ds: seq<Object>, n: int, i: int)
    requires AllNumericIds(ds)
  {
    0 <= i < |ds| && IdOf(ds[i]) == n && forall j :: 0 <= j < i ==> IdOf(ds[j]) != n
  }

  /**
    `ds.findIndex(d => d.Id === parseInt(id))`, with `target` the parsed id. A `NaN` target
    (`None`) equals no `Id`.
  */
  function FindIndex(ds: seq<Object>, target: Option<int>): (r: int)
    requires AllNumericIds(ds)
    ensures -1 <= r < |ds|
    ensures r >= 0 ==> target.Some? && FirstWithId(ds, target.value, r)
    ensures r == -1 ==> forall i :: 0 <= i < |ds| ==> target != Some(IdOf(ds[i]))
  {
    if ds == [] || target.None? then -1
    else if IdOf(ds[0]) == target.value then 0
    else
      var r := FindIndex(ds[1..], target);
      assert forall i :: 1 <= i < |ds| ==> ds[i] == ds[1..][i - 1];
      if r == -1 then -1 else r + 1
  }

  /** The error `getById`, `update` and `delete` throw for an id no record carries. */
  function NotFound(id: JsValue): string {
    "Department with ID " + ToStr(id) + " not found"
  }

  /** `{ Id: highestId + 1, ...data, employeeCount: 0 }`. */
  function NewDepartment(ds: seq<Object>, data: Object): Object
    requires AllNumericIds(ds)
  {
    map["Id" := Num(MaxId(ds) + 1)] + data + map["employeeCount" := Num(0)]
  }

  /** `{ ...current, ...data, Id: n }`. */
  function UpdatedDepartment(current: Object, data: Object, n: int): Object {
    current + data + map["Id" := Num(n)]
  }

  /** The department store. */
  class DepartmentService {
    var departments: seq<Object>

    ghost predicate Valid()
      reads this
    {
      AllNumericIds(departments)
    }

    /** `[...departmentsData]`: the store starts with the seed records. */
    constructor (seed: seq<Object>)
      requires AllNumericIds(seed)
      ensures Valid() && departments == seed
    {
      departments := seed;
    }

    /** A copy of every record, in store order. */
    method GetAll() returns (r: seq<Object>)
      ensures r == departments
    {
      r := departments;
    }

    /** The first record whose `Id` is `parseInt(id)`, or the not-found error. */
    method GetById(id: JsValue) returns (r: Result<Object, string>)
      requires Valid()
      ensures r.Success? <==> exists i :: 0 <= i < |departments| && Some(IdOf(departments[i])) == ParseInt(ToStr(id))
      ensures r.Success? ==> HasNumericId(r.value) && Some(IdOf(r.value)) == ParseInt(ToStr(id))
      ensures r.Success? ==> exists i :: FirstWithId(departments, IdOf(r.value), i) && departments[i] == r.value
      ensures r.Failure? ==> r.error == NotFound(id)
    {
      var index := FindIndex(departments, ParseInt(ToStr(id)));
      if index == -1 {
        return Failure(NotFound(id));
      }
      r := Success(departments[index]);
      assert FirstWithId(departments, IdOf(r.value), index) && departments[index] == r.value;
    }

    /**
      Appends a record numbered one past the largest `Id` (at least 1); the caller's fields
      follow, so a caller-supplied `Id` would win, and `employeeCount` is 0.
    */
    method Create(data: Object) returns (r: Object)
      requires Valid()
      requires "Id" in data ==> data["Id"].Num?
      modifies this
      ensures r == NewDepartment(old(departments), data)
      ensures departments == old(departments) + [r]
      ensures Valid()
    {
      var highestId := MaxId(departments);
      var newDepartment := map["Id" := Num(highestId + 1)] + data + map["employeeCount" := Num(0)];
      departments := departments + [newDepartment];
      r := newDepartment;
    }

    /**
      Merges `data` into the first record with the given id, keeping its `Id`; the not-found
      error leaves the store unchanged.
    */
    method Update(id: JsValue, data: Object) returns (r: Result<Object, string>)
      requires Valid()
      modifies this
      ensures Valid()
      ensures var k := FindIndex(old(departments), ParseInt(ToStr(id)));
        if k == -1 then r == Failure(NotFound(id)) && departments == old(departments)
        else
          r == Success(UpdatedDepartment(old(departments)[k], data, IdOf(old(departments)[k]))) &&
          departments == old(departments)[k := r.value]
    {
      var target := ParseInt(ToStr(id));
      var index := FindIndex(departments, target);
      if index == -1 {
        return Failure(NotFound(id));
      }
      PinnedUpdate(departments[index], data, id, target.value);
      var updated := departments[index] + data + map["Id" := ParseIntValue(id)];
      PinnedIdKeepsNumericIds(departments, index, updated);
      departments := departments[index := updated];
      r := Success(updated);
    }

    /** Removes the first record with the given id and returns it. */
    method Delete(id: JsValue) returns (r: Result<Object, string>)
      requires Valid()
      modifies this
      ensures Valid()
      ensures var k := FindIndex(old(departments), ParseInt(ToStr(id)));
        if k == -1 then r == Failure(NotFound(id)) && departments == old(departments)
        else r == Success(old(departments)[k]) && departments == old(departments)[..k] + old(departments)[k + 1..]
    {
      var index := FindIndex(departments, ParseInt(ToStr(id)));
      if index == -1 {
        return Failure(NotFound(id));
      }
      r := Success(departments[index]);
      RemovalKeepsNumericIds(departments, index);
      departments := departments[..index] + departments[index + 1..];
    }
  }

  /** An update pinned to an `Id` that parses as `n` carries the numeric `Id` `n`. */
  lemma PinnedUpdate(current: Object, data: Object, id: JsValue, n: int)
    requires ParseInt(ToStr(id)) == Some(n)
    ensures current + data + map["Id" := ParseIntValue(id)] == UpdatedDepartment(current, data, n)
    ensures HasNumericId(UpdatedDepartment(current, data, n)) && IdOf(UpdatedDepartment(current, data, n)) == n
  {
  }

  /** Replacing a record by one with a numeric `Id` keeps every `Id` numeric. */
  lemma PinnedIdKeepsNumericIds(ds: seq<Object>, k: int, d: Object)
    requires AllNumericIds(ds) && 0 <= k < |ds| && HasNumericId(d)
    ensures AllNumericIds(ds[k := d])
  {
  }

  /** Records after a removal are the records before it, with later ones shifted down. */
  lemma RemovalKeepsNumericIds(ds: seq<Object>, k: nat)
    requires AllNumericIds(ds) && k < |ds|
    ensures forall i :: 0 <= i < k ==> (ds[..k] + ds[k + 1..])[i] == ds[i]
    ensures forall i :: k < i < |ds| ==> (ds[..k] + ds[k + 1..])[i - 1] == ds[i]
    ensures AllNumericIds(ds[..k] + ds[k + 1..])
  {
  }

  // ---------------------------------------------------------------------------
  // Properties of the store's operations

  /**
    A new department carries the caller's fields, `employeeCount` 0, and, when the caller gave
    no `Id`, an `Id` larger than every existing one, so distinct ids stay distinct.
  */
  lemma CreateKeepsIdsDistinct(ds: seq<Object>, data: Object)
    requires AllNumericIds(ds) && DistinctIds(ds)
    requires "Id" !in data
    ensures var d := NewDepartment(ds, data);
      HasNumericId(d) && IdOf(d) == MaxId(ds) + 1 && IdOf(d) >= 1 &&
      d["employeeCount"] == Num(0) &&
      (forall k :: k in data && k != "employeeCount" ==> d[k] == data[k]) &&
      (forall i :: 0 <= i < |ds| ==> IdOf(ds[i]) < IdOf(d)) &&
      AllNumericIds(ds + [d]) && DistinctIds(ds + [d])
  {
    var d := NewDepartment(ds, data);
    var ds' := ds + [d];
    assert AllNumericIds(ds');
    forall i, j | 0 <= i < j < |ds'| ensures IdOf(ds'[i]) != IdOf(ds'[j]) {
      if j == |ds| {
        assert IdOf(ds'[i]) <= MaxId(ds);
      } else {
        assert ds'[i] == ds[i] && ds'[j] == ds[j];
      }
    }
  }

  /** A department just created is what `getById` then finds under its new `Id`. */
  lemma CreateThenFind(ds: seq<Object>, data: Object)
    requires AllNumericIds(ds)
    requires "Id" !in data
    ensures AllNumericIds(ds + [NewDepartment(ds, data)])
    ensures FindIndex(ds + [NewDepartment(ds, data)], Some(MaxId(ds) + 1)) == |ds|
  {
    var d := NewDepartment(ds, data);
    NewDepartmentId(ds, data);
    AppendedIsFound(ds, d, MaxId(ds) + 1);
  }

  /** The id of a new department, when the caller gives none, is one past the largest. */
  lemma NewDepartmentId(ds: seq<Object>, data: Object)
    requires AllNumericIds(ds) && "Id" !in data
    ensures HasNumericId(NewDepartment(ds, data)) && IdOf(NewDepartment(ds, data)) == MaxId(ds) + 1
  {
  }

  /** A record appended with an id no other record carries is found at the end. */
  lemma AppendedIsFound(ds: seq<Object>, d: Object, n: int)
    requires AllNumericIds(ds) && HasNumericId(d) && IdOf(d) == n
    requires forall i :: 0 <= i < |ds| ==> IdOf(ds[i]) < n
    ensures AllNumericIds(ds + [d])
    ensures FindIndex(ds + [d], Some(n)) == |ds|
  {
    var ds' := ds + [d];
    assert forall i :: 0 <= i < |ds| ==> ds'[i] == ds[i];
    assert ds'[|ds|] == d;
    var r := FindIndex(ds', Some(n));
    assert r != -1 by {
      assert Some(n) == Some(IdOf(ds'[|ds|]));
    }
    assert IdOf(ds'[r]) == n;
  }

  /**
    An update keeps the record's `Id`, takes every field the caller gave other than `Id`, and
    keeps every other field; the ids of the store are unchanged, so they stay distinct.
  */
  lemma UpdateKeepsIds(ds: seq<Object>, k: nat, data: Object)
    requires AllNumericIds(ds) && k < |ds|
    ensures var d := UpdatedDepartment(ds[k], data, IdOf(ds[k]));
      HasNumericId(d) && IdOf(d) == IdOf(ds[k]) &&
      (forall f :: f in data && f != "Id" ==> d[f] == data[f]) &&
      (forall f :: f in ds[k] && f !in data ==> d[f] == ds[k][f]) &&
      AllNumericIds(ds[k := d]) &&
      (forall i :: 0 <= i < |ds| ==> IdOf(ds[k := d][i]) == IdOf(ds[i])) &&
      (DistinctIds(ds) ==> DistinctIds(ds[k := d]))
  {
    var d := UpdatedDepartment(ds[k], data, IdOf(ds[k]));
    assert AllNumericIds(ds[k := d]);
  }

  /** Updating twice with the same fields is the same as updating once. */
  lemma UpdateIdempotent(current: Object, data: Object, n: int)
    ensures UpdatedDepartment(UpdatedDepartment(current, data, n), data, n) == UpdatedDepartment(current, data, n)
  {
  }

  /**
    Deleting the record found under an id removes exactly that record; with distinct ids, no
    record carries the id afterwards.
  */
  lemma DeleteRemovesId(ds: seq<Object>, n: int)
    requires AllNumericIds(ds) && DistinctIds(ds)
    requires FindIndex(ds, Some(n)) >= 0
    ensures var k := FindIndex(ds, Some(n));
      var rest := ds[..k] + ds[k + 1..];
      AllNumericIds(rest) && DistinctIds(rest) && |rest| == |ds| - 1 &&
      FindIndex(rest, Some(n)) == -1
  {
    var k := FindIndex(ds, Some(n));
    var rest := ds[..k] + ds[k + 1..];
    RemovalKeepsNumericIds(ds, k);
    forall i, j | 0 <= i < j < |rest| ensures IdOf(rest[i]) != IdOf(rest[j]) {
      var i' := if i < k then i else i + 1;
      var j' := if j < k then j else j + 1;
      assert rest[i] == ds[i'] && rest[j] == ds[j'] && i' < j';
    }
    forall i | 0 <= i < |rest| ensures IdOf(rest[i]) != n {
      var i' := if i < k then i else i + 1;
      assert rest[i] == ds[i'] && i' != k;
    }
  }
}

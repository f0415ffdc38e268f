/**
  The employee table: the sort header's state machine, the sorted copy of the list it shows,
  and the status badge's label and variant.
*/
module EmployeeTable {
  import opened Wrappers
  import opened Js
  import opened Sorting

  datatype Direction = Asc | Desc

  function Flip(d: Direction): Direction {
    if d == Asc then Desc else Asc
  }

  /** The sort state after a click on the header of `clicked`. */
  function NextSort(field: string, direction: Direction, clicked: string): (r: (string, Direction))
    ensures r.0 == clicked
  {
    if field == clicked then (field, Flip(direction)) else (clicked, Asc)
  }

  /** Clicking the current column twice restores the state; a new column starts ascending. */
  lemma NextSortProperties(field: string, direction: Direction, clicked: string)
    ensures clicked == field ==> NextSort(field, direction, clicked).1 != direction
    ensures clicked == field ==>
      var (f, d) := NextSort(field, direction, clicked); NextSort(f, d, clicked) == (field, direction)
    ensures clicked != field ==> NextSort(field, direction, clicked) == (clicked, Asc)
  {
  }

  /**
    The key a value sorts by: a string is compared lower-cased, a number by its value, anything
    else as a missing value. JavaScript throws when a text key meets a key that is not text;
    the model orders such keys instead.
  */
  function KeyOf(v: JsValue): SortKey {
    match v
    case Str(s) => TextKey(ToLower(s))
    case Num(n) => NumberKey(n)
    case _ => Missing
  }

  /** The key of an employee record under a column. */
  function EmployeeKey(field: string): Object -> SortKey {
    e => KeyOf(Get(e, field))
  }

  /** Two texts that differ only in letter case sort as equal. */
  lemma CaseInsensitiveKeys(s: string, t: string)
    requires ToLower(s) == ToLower(t)
    ensures !Below(KeyOf(Str(s)), KeyOf(Str(t))) && !Below(KeyOf(Str(t)), KeyOf(Str(s)))
  {
    BelowIsStrictTotalOrder(KeyOf(Str(s)), KeyOf(Str(s)), KeyOf(Str(s)));
  }

  /** The header's sort state. */
  class SortState {
    var sortField: string
    var sortDirection: Direction

    /** Sorted by first name, ascending, to begin with. */
    constructor ()
      ensures sortField == "firstName" && sortDirection == Asc
    {
      sortField := "firstName";
      sortDirection := Asc;
    }

    /** `handleSort`. */
    method HandleSort(field: string)
      modifies this
      ensures (sortField, sortDirection) == NextSort(old(sortField), old(sortDirection), field)
    {
      if sortField == field {
        sortDirection := if sortDirection == Asc then Desc else Asc;
      } else {
        sortField := field;
        sortDirection := Asc;
      }
    }

    /**
      `sortedEmployees`: a sorted copy of the list. It holds the same records, and no record is
      placed after one whose key comes later in the chosen direction.
    */
    method SortedEmployees(employees: seq<Object>) returns (sorted: seq<Object>)
      ensures multiset(sorted) == multiset(employees)
      ensures Ordered(sorted, EmployeeKey(sortField), sortDirection == Desc)
    {
      var copy := new Object[|employees|](i requires 0 <= i < |employees| => employees[i]);
      assert copy[..] == employees;
      SortByKey(copy, EmployeeKey(sortField), sortDirection == Desc);
      sorted := copy[..];
    }
  }

  /** Under "asc" neighbouring keys never decrease, under "desc" they never increase. */
  lemma SortedNeighbours(sorted: seq<Object>, field: string, direction: Direction, i: int)
    requires Ordered(sorted, EmployeeKey(field), direction == Desc)
    requires 0 <= i < |sorted| - 1
    ensures var k, next := KeyOf(Get(sorted[i], field)), KeyOf(Get(sorted[i + 1], field));
      if direction == Asc then !Below(next, k) else !Below(k, next)
  {
    OrderedNeighbours(sorted, EmployeeKey(field), direction == Desc, i);
  }

  // ---------------------------------------------------------------------------
  // The status badge

  /** ASCII `toUpperCase` of one character. */
  function UpperChar(c: char): char {
    if 'a' <= c <= 'z' then (c as int - 32) as char else c
  }

  /** Upper-casing maps 'a'..'z' onto 'A'..'Z', lower-casing maps them back, and nothing else moves. */
  lemma UpperLowerRoundTrip(c: char)
    ensures 'a' <= c <= 'z' ==> 'A' <= UpperChar(c) <= 'Z' && LowerChar(UpperChar(c)) == c
    ensures 'A' <= c <= 'Z' ==> 'a' <= LowerChar(c) <= 'z' && UpperChar(LowerChar(c)) == c
    ensures !('a' <= c <= 'z') ==> UpperChar(c) == c
  {
  }

  /**
    The badge text: "On Leave" for "on-leave", otherwise the status with a capital first letter
    and the rest as it is.
  */
  function StatusLabel(status: string): (r: string)
    ensures status == "on-leave" ==> r == "On Leave"
    ensures status != "on-leave" ==> |r| == |status| && (status != [] ==> r[1..] == status[1..])
    ensures status != "on-leave" && status != [] ==>
      if 'a' <= status[0] <= 'z' then 'A' <= r[0] <= 'Z' && LowerChar(r[0]) == status[0]
      else r[0] == status[0]
  {
    if status == "on-leave" then "On Leave"
    else if status == [] then []
    else [UpperChar(status[0])] + status[1..]
  }

  /** Apart from "on-leave", the label is the status up to letter case. */
  lemma StatusLabelKeepsText(status: string)
    requires status != "on-leave"
    ensures ToLower(StatusLabel(status)) == ToLower(status)
  {
    var r := StatusLabel(status);
    if status != [] {
      UpperLowerRoundTrip(status[0]);
      assert forall i :: 1 <= i < |r| ==> r[i] == status[i];
      assert forall i :: 0 <= i < |r| ==> ToLower(r)[i] == ToLower(status)[i];
    }
  }

  lemma StatusLabels()
    ensures StatusLabel("active") == "Active"
    ensures StatusLabel("inactive") == "Inactive"
    ensures StatusLabel("on-leave") == "On Leave"
    ensures StatusLabel("") == ""
  {
  }

  /** `statusColors[status]`: the badge variant of the three known statuses, none for others. */
  function StatusVariant(status: string): (r: Option<string>)
    ensures r.Some? <==> status in {"active", "inactive", "on-leave"}
  {
    if status == "active" then Some("success")
    else if status == "inactive" then Some("secondary")
    else if status == "on-leave" then Some("warning")
    else None
  }

  /** The three known statuses get three different badges. */
  lemma StatusVariantsDistinct(status: string, other: string)
    requires StatusVariant(status).Some? && StatusVariant(status) == StatusVariant(other)
    ensures status == other
  {
  }
}

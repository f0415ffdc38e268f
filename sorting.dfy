/**
  `Array.prototype.sort` with a comparator that says when its first argument goes after its
  second, as the employee table and the dashboard use it: the keys compared are numbers or
  strings, and the sort works in place on the array it is called on.
*/
module Sorting {

  /**
    A sort key: a number, a string, or no value. JavaScript's `<` between a number and a string,
    or with `undefined`, is no order at all; the model places missing values first, then
    numbers, then strings.
  */
  datatype SortKey = Missing | NumberKey(n: int) | TextKey(s: string)

  /** `a < b` on strings: character by character, and a proper prefix before the longer text. */
  predicate TextBelow(a: string, b: string)
    decreases |a|
  {
    b != [] && (a == [] || a[0] < b[0] || (a[0] == b[0] && TextBelow(a[1..], b[1..])))
  }

  /** The order of keys. */
  predicate Below(x: SortKey, y: SortKey) {
    match x
    case Missing => !y.Missing?
    case NumberKey(m) => (y.NumberKey? && m < y.n) || y.TextKey?
    case TextKey(s) => y.TextKey? && TextBelow(s, y.s)
  }

  lemma {:induction false} TextBelowTransitive(a: string, b: string, c: string)
    requires TextBelow(a, b) && TextBelow(b, c)
    ensures TextBelow(a, c)
    decreases |a|
  {
    if a != [] && a[0] == b[0] && b[0] == c[0] {
      TextBelowTransitive(a[1..], b[1..], c[1..]);
    }
  }

  lemma {:induction false} TextBelowTrichotomy(a: string, b: string)
    ensures a == b || TextBelow(a, b) || TextBelow(b, a)
    ensures !(TextBelow(a, b) && TextBelow(b, a))
    ensures !TextBelow(a, a)
    decreases |a|
  {
    if a != [] && b != [] && a[0] == b[0] {
      TextBelowTrichotomy(a[1..], b[1..]);
      if a[1..] == b[1..] {
        assert a == [a[0]] + a[1..] && b == [b[0]] + b[1..];
      }
    } else if a != [] && b == [] {
      assert !TextBelow(a, b);
    }
    if a != [] {
      TextBelowTrichotomy(a[1..], a[1..]);
    }
  }

  /** `Below` is a strict total order on keys. */
  lemma BelowIsStrictTotalOrder(x: SortKey, y: SortKey, z: SortKey)
    ensures !Below(x, x)
    ensures Below(x, y) ==> !Below(y, x)
    ensures x == y || Below(x, y) || Below(y, x)
    ensures Below(x, y) && Below(y, z) ==> Below(x, z)
  {
    if x.TextKey? {
      TextBelowTrichotomy(x.s, x.s);
      if y.TextKey? {
        TextBelowTrichotomy(x.s, y.s);
        if z.TextKey? && TextBelow(x.s, y.s) && TextBelow(y.s, z.s) {
          TextBelowTransitive(x.s, y.s, z.s);
        }
      }
    }
  }

  /**
    The comparator's verdict "`x` goes after `y`" (it returns a positive number): ascending
    puts the larger key after, descending the smaller.
  */
  predicate After<T>(key: T -> SortKey, descending: bool, x: T, y: T) {
    if descending then Below(key(x), key(y)) else Below(key(y), key(x))
  }

  /** No element is after one that follows it. */
  ghost predicate Ordered<T>(s: seq<T>, key: T -> SortKey, descending: bool) {
    forall i, j :: 0 <= i < j < |s| ==> !After(key, descending, s[i], s[j])
  }

  lemma AfterAsymmetric<T>(key: T -> SortKey, descending: bool, x: T, y: T)
    requires After(key, descending, x, y)
    ensures !After(key, descending, y, x)
  {
    BelowIsStrictTotalOrder(key(x), key(y), key(x));
  }

  lemma NotAfterTransitive<T>(key: T -> SortKey, descending: bool, x: T, y: T, z: T)
    requires !After(key, descending, x, y) && !After(key, descending, y, z)
    ensures !After(key, descending, x, z)
  {
    BelowIsStrictTotalOrder(key(x), key(y), key(z));
    BelowIsStrictTotalOrder(key(z), key(y), key(x));
    BelowIsStrictTotalOrder(key(x), key(z), key(y));
    BelowIsStrictTotalOrder(key(z), key(x), key(y));
  }

  /** In an ordered list, the keys of neighbours are in the direction's order. */
  lemma OrderedNeighbours<T>(s: seq<T>, key: T -> SortKey, descending: bool, i: int)
    requires Ordered(s, key, descending) && 0 <= i < |s| - 1
    ensures if descending then !Below(key(s[i]), key(s[i + 1])) else !Below(key(s[i + 1]), key(s[i]))
  {
    assert !After(key, descending, s[i], s[i + 1]);
  }

  /** The comparator never puts `x` after `y` and `y` after `x`. */
  predicate OneWay<T>(after: (T, T) -> bool, x: T, y: T) {
    after(x, y) ==> !after(y, x)
  }

  /** "Not after" chains from `x` through `y` to `z`. */
  predicate Chains<T>(after: (T, T) -> bool, x: T, y: T, z: T) {
    !after(x, y) && !after(y, z) ==> !after(x, z)
  }

  /** A comparator a sort can rely on: a strict weak order. */
  ghost predicate Consistent<T(!new)>(after: (T, T) -> bool) {
    (forall x, y :: OneWay(after, x, y)) && (forall x, y, z :: Chains(after, x, y, z))
  }

  /** No element is after one that follows it. */
  ghost predicate SortedBy<T>(s: seq<T>, after: (T, T) -> bool) {
    forall i, j :: 0 <= i < j < |s| ==> !after(s[i], s[j])
  }

  /** The comparator of a key order is consistent. */
  lemma KeyOrderConsistent<T(!new)>(key: T -> SortKey, descending: bool)
    ensures Consistent((x, y) => After(key, descending, x, y))
  {
    var after := (x, y) => After(key, descending, x, y);
    forall x, y ensures OneWay(after, x, y) {
      if After(key, descending, x, y) {
        AfterAsymmetric(key, descending, x, y);
      }
    }
    forall x, y, z ensures Chains(after, x, y, z) {
      if !After(key, descending, x, y) && !After(key, descending, y, z) {
        NotAfterTransitive(key, descending, x, y, z);
      }
    }
  }

  /** Sorting by a key order: ordered by it, and a permutation. */
  method SortByKey<T(!new)>(a: array<T>, key: T -> SortKey, descending: bool)
    modifies a
    ensures Ordered(a[..], key, descending)
    ensures multiset(a[..]) == old(multiset(a[..]))
  {
    KeyOrderConsistent(key, descending);
    SortInPlace(a, (x, y) => After(key, descending, x, y));
  }

  /** The sort, in place: moves each element left past those it must come before. */
  method SortInPlace<T(!new)>(a: array<T>, after: (T, T) -> bool)
    requires Consistent(after)
    modifies a
    ensures SortedBy(a[..], after)
    ensures multiset(a[..]) == old(multiset(a[..]))
  {
    if a.Length == 0 {
      return;
    }
    var i := 1;
    while i < a.Length
      invariant 1 <= i <= a.Length
      invariant SortedBy(a[..i], after)
      invariant multiset(a[..]) == old(multiset(a[..]))
    {
      Insert(a, i, after);
      i := i + 1;
    }
    assert a[..] == a[..a.Length];
  }

  /** One step: the element at `i` moves left into the sorted prefix before it. */
  method Insert<T(!new)>(a: array<T>, i: int, after: (T, T) -> bool)
    requires Consistent(after)
    requires 0 < i < a.Length
    requires SortedBy(a[..i], after)
    modifies a
    ensures SortedBy(a[..i + 1], after)
    ensures multiset(a[..]) == old(multiset(a[..]))
  {
    var j := i;
    while j > 0 && after(a[j - 1], a[j])
      invariant 0 <= j <= i
      invariant multiset(a[..]) == old(multiset(a[..]))
      invariant SortedAround(a[..], i, j, after)
    {
      ghost var before := a[..];
      a[j - 1], a[j] := a[j], a[j - 1];
      SwapStep(before, a[..], i, j, after);
      j := j - 1;
    }
    InsertedSorted(a[..], i, j, after);
  }

  /**
    The state of an insertion at position `j` of `s[..i + 1]`: in order apart from position `j`,
    and the element at `j` after none of those to its right.
  */
  ghost predicate SortedAround<T>(s: seq<T>, i: int, j: int, after: (T, T) -> bool)
    requires 0 <= j <= i < |s|
  {
    (forall k, l :: 0 <= k < l <= i && k != j && l != j ==> !after(s[k], s[l])) &&
    (forall l :: j < l <= i ==> !after(s[j], s[l]))
  }

  /**
    Swapping the element at `j` with a left neighbour it goes after keeps the insertion's
    state one position further left, and the elements.
  */
  lemma SwapStep<T(!new)>(s: seq<T>, t: seq<T>, i: int, j: int, after: (T, T) -> bool)
    requires Consistent(after)
    requires 0 < j <= i < |s|
    requires SortedAround(s, i, j, after) && after(s[j - 1], s[j])
    requires t == s[j - 1 := s[j]][j := s[j - 1]]
    ensures SortedAround(t, i, j - 1, after)
    ensures multiset(t) == multiset(s)
  {
    assert OneWay(after, s[j - 1], s[j]);
  }

  /** Once the element at `j` is not after its left neighbour, the prefix is sorted. */
  lemma InsertedSorted<T(!new)>(s: seq<T>, i: int, j: int, after: (T, T) -> bool)
    requires Consistent(after)
    requires 0 <= j <= i < |s|
    requires SortedAround(s, i, j, after)
    requires j > 0 ==> !after(s[j - 1], s[j])
    ensures SortedBy(s[..i + 1], after)
  {
    forall k, l | 0 <= k < l <= i ensures !after(s[k], s[l]) {
      if l == j && k < j - 1 {
        assert Chains(after, s[k], s[j - 1], s[j]);
      }
    }
  }
}

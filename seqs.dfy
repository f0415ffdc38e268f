/**
  The array methods the pages use to derive lists and figures from their state:
  `filter`, the `length` of a filtered array, and `reduce` with `+`.
*/
module Seqs {

  /** `s.filter(p)`: the elements that satisfy `p`, in their original order. */
  function Filter<T>(s: seq<T>, p: T -> bool): (r: seq<T>)
    ensures |r| <= |s|
    ensures forall i :: 0 <= i < |r| ==> p(r[i])
  {
    if s == [] then [] else (if p(s[0]) then [s[0]] else []) + Filter(s[1..], p)
  }

  /** `r` is `s` with some elements deleted and the others kept in order. */
  ghost predicate IsSubsequence<T>(r: seq<T>, s: seq<T>)
    decreases |s|
  {
    r == [] ||
    (s != [] && ((r[0] == s[0] && IsSubsequence(r[1..], s[1..])) || IsSubsequence(r, s[1..])))
  }

  /** `s.filter(p).length`. */
  function Count<T>(s: seq<T>, p: T -> bool): nat {
    |Filter(s, p)|
  }

  /** `s.reduce((sum, x) => sum + f(x), 0)`. */
  function Sum<T>(s: seq<T>, f: T -> int): int {
    if s == [] then 0 else f(s[0]) + Sum(s[1..], f)
  }

  /** A filtered list is a subsequence of the list it came from. */
  lemma {:induction false} FilterIsSubsequence<T>(s: seq<T>, p: T -> bool)
    ensures IsSubsequence(Filter(s, p), s)
  {
    if s != [] {
      FilterIsSubsequence(s[1..], p);
      if p(s[0]) {
        assert Filter(s, p)[1..] == Filter(s[1..], p);
      } else {
        var r := Filter(s, p);
        assert r == Filter(s[1..], p);
      }
    }
  }

  /** An element is kept by the filter exactly when it is in the list and satisfies `p`. */
  lemma {:induction false} FilterMembership<T>(s: seq<T>, p: T -> bool, x: T)
    ensures x in Filter(s, p) <==> x in s && p(x)
  {
    if s != [] {
      FilterMembership(s[1..], p, x);
      assert s == [s[0]] + s[1..];
    }
  }

  /** A filter that every element passes returns the list unchanged. */
  lemma {:induction false} FilterAllPass<T>(s: seq<T>, p: T -> bool)
    requires forall i :: 0 <= i < |s| ==> p(s[i])
    ensures Filter(s, p) == s
  {
    if s != [] {
      FilterAllPass(s[1..], p);
      assert s == [s[0]] + s[1..];
    }
  }

  /** When no element passes, the filter returns the empty list. */
  lemma {:induction false} FilterNonePass<T>(s: seq<T>, p: T -> bool)
    requires forall i :: 0 <= i < |s| ==> !p(s[i])
    ensures Filter(s, p) == []
  {
    if s != [] {
      FilterNonePass(s[1..], p);
    }
  }

  /** Filtering twice keeps what passes both: `s.filter(p).filter(q)` is the filter by `p && q`. */
  lemma {:induction false} FilterThenFilter<T>(s: seq<T>, p: T -> bool, q: T -> bool, pq: T -> bool)
    requires forall x :: pq(x) == (p(x) && q(x))
    ensures Filter(Filter(s, p), q) == Filter(s, pq)
  {
    if s != [] {
      FilterThenFilter(s[1..], p, q, pq);
      var rest := Filter(s[1..], p);
      if p(s[0]) {
        assert Filter(s, p) == [s[0]] + rest;
        assert ([s[0]] + rest)[1..] == rest;
      } else {
        assert Filter(s, p) == rest;
      }
    }
  }

  /** Filters by predicates that agree on every element are equal. */
  lemma {:induction false} FilterSamePredicate<T>(s: seq<T>, p: T -> bool, q: T -> bool)
    requires forall x :: p(x) == q(x)
    ensures Filter(s, p) == Filter(s, q)
  {
    if s != [] {
      FilterSamePredicate(s[1..], p, q);
    }
  }

  /** The filter by a predicate that does not depend on the element: all or nothing. */
  lemma FilterByConstant<T>(s: seq<T>, p: T -> bool, b: bool)
    requires forall x :: p(x) == b
    ensures Filter(s, p) == if b then s else []
  {
    if b { FilterAllPass(s, p); } else { FilterNonePass(s, p); }
  }

  /** Filtering distributes over concatenation. */
  lemma {:induction false} FilterAppend<T>(s: seq<T>, t: seq<T>, p: T -> bool)
    ensures Filter(s + t, p) == Filter(s, p) + Filter(t, p)
  {
    if s == [] {
      assert s + t == t;
    } else {
      assert (s + t)[0] == s[0] && (s + t)[1..] == s[1..] + t;
      FilterAppend(s[1..], t, p);
    }
  }

  /**
    Counting by three predicates no two of which hold together: the counts add up to at most
    the length, and to exactly the length when every element satisfies one of them.
  */
  lemma {:induction false} CountThreeDisjoint<T>(s: seq<T>, p: T -> bool, q: T -> bool, r: T -> bool)
    requires forall x :: !(p(x) && q(x)) && !(p(x) && r(x)) && !(q(x) && r(x))
    ensures Count(s, p) + Count(s, q) + Count(s, r) <= |s|
    ensures (forall i :: 0 <= i < |s| ==> p(s[i]) || q(s[i]) || r(s[i])) ==>
              Count(s, p) + Count(s, q) + Count(s, r) == |s|
  {
    if s != [] {
      CountThreeDisjoint(s[1..], p, q, r);
      assert forall i :: 1 <= i < |s| ==> s[1..][i - 1] == s[i];
    }
  }

  /** A sum of non-negative terms is non-negative. */
  lemma {:induction false} SumNonNegative<T>(s: seq<T>, f: T -> int)
    requires forall i :: 0 <= i < |s| ==> f(s[i]) >= 0
    ensures Sum(s, f) >= 0
  {
    if s != [] {
      SumNonNegative(s[1..], f);
    }
  }

  /** Summing over part of a list of non-negative terms gives at most the whole sum. */
  lemma {:induction false} SumFilterAtMost<T>(s: seq<T>, p: T -> bool, f: T -> int)
    requires forall i :: 0 <= i < |s| ==> f(s[i]) >= 0
    ensures Sum(Filter(s, p), f) <= Sum(s, f)
  {
    if s != [] {
      SumFilterAtMost(s[1..], p, f);
      var rest := Filter(s[1..], p);
      if p(s[0]) {
        assert Filter(s, p) == [s[0]] + rest;
        assert ([s[0]] + rest)[1..] == rest;
      } else {
        assert Filter(s, p) == rest;
      }
      assert f(s[0]) >= 0;
    }
  }

  /** The sum over two lists one after the other is the sum of their sums. */
  lemma {:induction false} SumAppend<T>(s: seq<T>, t: seq<T>, f: T -> int)
    ensures Sum(s + t, f) == Sum(s, f) + Sum(t, f)
  {
    if s == [] {
      assert s + t == t;
    } else {
      assert (s + t)[0] == s[0] && (s + t)[1..] == s[1..] + t;
      SumAppend(s[1..], t, f);
    }
  }

  /** A sum of non-negative terms is at least each of its terms. */
  lemma {:induction false} SumAtLeastTerm<T>(s: seq<T>, f: T -> int, i: int)
    requires 0 <= i < |s|
    requires forall k :: 0 <= k < |s| ==> f(s[k]) >= 0
    ensures f(s[i]) <= Sum(s, f)
  {
    if i == 0 {
      SumNonNegative(s[1..], f);
    } else {
      assert s[1..][i - 1] == s[i];
      SumAtLeastTerm(s[1..], f, i - 1);
    }
  }

  /**
    Filters applied in turn, each only when it is switched on, keep what passes every filter
    switched on.
  */
  lemma FiltersInTurn<T>(s: seq<T>, a: bool, p: T -> bool, b: bool, q: T -> bool, c: bool, r: T -> bool,
                         all: T -> bool)
    requires forall x :: all(x) == ((!a || p(x)) && (!b || q(x)) && (!c || r(x)))
    ensures var s1 := if a then Filter(s, p) else s;
      var s2 := if b then Filter(s1, q) else s1;
      (if c then Filter(s2, r) else s2) == Filter(s, all)
  {
    var pa := (x: T) => !a || p(x);
    var qb := (x: T) => !b || q(x);
    var rc := (x: T) => !c || r(x);
    var both := (x: T) => pa(x) && qb(x);
    var s1 := if a then Filter(s, p) else s;
    if a { FilterSamePredicate(s, p, pa); } else { FilterAllPass(s, pa); }
    var s2 := if b then Filter(s1, q) else s1;
    if b { FilterSamePredicate(s1, q, qb); } else { FilterAllPass(s1, qb); }
    FilterThenFilter(s, pa, qb, both);
    if c { FilterSamePredicate(s2, r, rc); } else { FilterAllPass(s2, rc); }
    FilterThenFilter(s, both, rc, all);
  }
}

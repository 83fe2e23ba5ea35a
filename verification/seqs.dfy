/** Sequence operations the sources use on arrays and lists: `filter`,
    de-duplication through a `Set` or `dict.fromkeys` (first occurrence kept,
    insertion order), and first-match search. */
module Seqs {
  import opened Wrappers

  // ---------------------------------------------------------------------------
  // filter

  /** `s.filter(f)` / `[x for x in s if f(x)]`. */
  function Filter<T(!new)>(f: T -> bool, s: seq<T>): (r: seq<T>)
    ensures |r| <= |s|
    ensures forall x :: x in r <==> x in s && f(x)
    decreases |s|
  {
    if s == [] then []
    else
      var last := s[|s| - 1];
      assert s == s[..|s| - 1] + [last];
      Filter(f, s[..|s| - 1]) + (if f(last) then [last] else [])
  }

  /** Filtering keeps the relative order: filtering a concatenation is the
      concatenation of the filtered parts. */
  lemma {:induction false} FilterConcat<T(!new)>(f: T -> bool, a: seq<T>, b: seq<T>)
    ensures Filter(f, a + b) == Filter(f, a) + Filter(f, b)
    decreases |b|
  {
    if b == [] {
      assert a + b == a;
    } else {
      var last := b[|b| - 1];
      var b' := b[..|b| - 1];
      var tail := if f(last) then [last] else [];
      assert Filter(f, a + b) == Filter(f, a + b') + tail by {
        assert (a + b)[..|a + b| - 1] == a + b';
        assert (a + b)[|a + b| - 1] == last;
      }
      assert Filter(f, b) == Filter(f, b') + tail;
      FilterConcat(f, a, b');
    }
  }

  lemma FilterSingle<T(!new)>(f: T -> bool, x: T)
    ensures Filter(f, [x]) == if f(x) then [x] else []
  {
    assert [x][..0] == [];
  }

  /** Two filters in a row are one filter by both predicates. */
  lemma {:induction false} FilterFilter<T(!new)>(f: T -> bool, g: T -> bool, h: T -> bool, s: seq<T>)
    requires forall x :: h(x) == (f(x) && g(x))
    ensures Filter(g, Filter(f, s)) == Filter(h, s)
    decreases |s|
  {
    if s != [] {
      var q := s[..|s| - 1];
      var x := s[|s| - 1];
      FilterFilter(f, g, h, q);
      assert s == q + [x];
      FilterConcat(f, q, [x]);
      FilterSingle(f, x);
      FilterConcat(g, Filter(f, q), Filter(f, [x]));
      FilterSingle(g, x);
    }
  }

  /** Filtering with a predicate that every element meets changes nothing. */
  lemma {:induction false} FilterAll<T(!new)>(f: T -> bool, s: seq<T>)
    requires forall x :: x in s ==> f(x)
    ensures Filter(f, s) == s
    decreases |s|
  {
    if s != [] {
      var q, x := s[..|s| - 1], s[|s| - 1];
      assert Filter(f, q) == q by {
        assert forall y :: y in q ==> y in s;
        FilterAll(f, q);
      }
      assert f(x) by {
        assert x in s;
      }
      assert Filter(f, s) == Filter(f, q) + [x];
      assert s == q + [x];
    }
  }

  /** Filtering with a predicate that no element meets gives the empty list. */
  lemma {:induction false} FilterNone<T(!new)>(f: T -> bool, s: seq<T>)
    requires forall x :: x in s ==> !f(x)
    ensures Filter(f, s) == []
    decreases |s|
  {
    if s != [] {
      FilterNone(f, s[..|s| - 1]);
      assert s[|s| - 1] in s;
    }
  }

  /** Filtering keeps every copy of a kept element and drops every copy of
      the others. */
  lemma {:induction false} FilterMultiplicity<T(!new)>(f: T -> bool, s: seq<T>, x: T)
    ensures multiset(Filter(f, s))[x] == if f(x) then multiset(s)[x] else 0
    decreases |s|
  {
    if s != [] {
      var q := s[..|s| - 1];
      FilterMultiplicity(f, q, x);
      assert s == q + [s[|s| - 1]];
    }
  }

  // ---------------------------------------------------------------------------
  // De-duplication keeping the first occurrence

  predicate NoDuplicates<T(==)>(s: seq<T>) {
    forall i, j :: 0 <= i < j < |s| ==> s[i] != s[j]
  }

  /** `[...new Set(s)]` in JavaScript, `list(dict.fromkeys(s))` in Python: the
      distinct elements in the order of their first appearance. */
  function Distinct<T(==,!new)>(s: seq<T>): (r: seq<T>)
    ensures forall x :: x in r <==> x in s
    ensures NoDuplicates(r)
    ensures |r| <= |s|
    decreases |s|
  {
    if s == [] then []
    else
      var d := Distinct(s[..|s| - 1]);
      var last := s[|s| - 1];
      assert s == s[..|s| - 1] + [last];
      if last in d then d else d + [last]
  }

  /** Removing duplicates keeps the first element first. */
  lemma {:induction false} DistinctHead<T(!new)>(s: seq<T>)
    requires s != []
    ensures Distinct(s) != [] && Distinct(s)[0] == s[0]
    decreases |s|
  {
    if |s| > 1 {
      DistinctHead(s[..|s| - 1]);
    }
  }

  /** The index of the first element that satisfies `f`, if any. */
  function FirstWhere<T>(f: T -> bool, s: seq<T>): (r: Option<nat>)
    ensures r.Some? ==> r.value < |s| && f(s[r.value])
    ensures r.Some? ==> forall k :: 0 <= k < r.value ==> !f(s[k])
    ensures r.None? ==> forall k :: 0 <= k < |s| ==> !f(s[k])
  {
    if s == [] then None
    else if f(s[0]) then Some(0)
    else
      match FirstWhere(f, s[1..])
      case None => None
      case Some(k) => Some(k + 1)
  }

  /** The first index is determined by the elements up to it. */
  lemma FirstWhereIs<T>(f: T -> bool, s: seq<T>, j: nat)
    requires j < |s| && f(s[j])
    requires forall k :: 0 <= k < j ==> !f(s[k])
    ensures FirstWhere(f, s) == Some(j)
  {
  }

  /** The index of the first occurrence of `x` in `s`. */
  function FirstIndex<T(==)>(s: seq<T>, x: T): (k: nat)
    requires x in s
    ensures k < |s| && s[k] == x
    ensures forall j :: 0 <= j < k ==> s[j] != x
  {
    if s[0] == x then 0 else 1 + FirstIndex(s[1..], x)
  }

  lemma {:induction false} FirstIndexAppend<T>(s: seq<T>, y: T, x: T)
    requires x in s
    ensures FirstIndex(s + [y], x) == FirstIndex(s, x)
  {
    var k := FirstIndex(s, x);
    assert (s + [y])[k] == x;
  }

  /** A distinct list keeps the first-appearance order of the original: an
      earlier element of the result appears for the first time earlier in the input. */
  lemma {:induction false} DistinctOrder<T(!new)>(s: seq<T>, i: nat, j: nat)
    requires i < j < |Distinct(s)|
    ensures FirstIndex(s, Distinct(s)[i]) < FirstIndex(s, Distinct(s)[j])
    decreases |s|
  {
    var s' := s[..|s| - 1];
    var last := s[|s| - 1];
    assert s == s' + [last];
    var d := Distinct(s');
    var r := Distinct(s);
    assert r[i] in s';
    FirstIndexAppend(s', last, r[i]);
    if last in d {
      assert r == d;
      FirstIndexAppend(s', last, r[j]);
      DistinctOrder(s', i, j);
    } else if j < |d| {
      FirstIndexAppend(s', last, r[j]);
      DistinctOrder(s', i, j);
    } else {
      assert r[j] == last && last !in s';
      assert FirstIndex(s, last) == |s'|;
    }
  }

  /** A list without duplicates is its own distinct list. */
  lemma {:induction false} DistinctOfDistinct<T(!new)>(s: seq<T>)
    requires NoDuplicates(s)
    ensures Distinct(s) == s
    decreases |s|
  {
    if s != [] {
      var s' := s[..|s| - 1];
      assert NoDuplicates(s');
      DistinctOfDistinct(s');
      assert s[|s| - 1] !in s';
      assert s == s' + [s[|s| - 1]];
    }
  }
}

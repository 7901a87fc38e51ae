/** Sequence helpers shared by the modules: Python slicing, distinctness,
    first-occurrence de-duplication and last-occurrence lookup. */
module Sequences {

  /** Python's `s[:stop]`; a negative stop counts from the end. */
  function PyPrefix<T>(s: seq<T>, stop: int): (r: seq<T>)
    ensures stop >= 0 ==> |r| == (if stop <= |s| then stop else |s|)
    ensures stop < 0 ==> |r| == (if -stop <= |s| then |s| + stop else 0)
    ensures r == s[..|r|]
  {
    if stop >= 0 then (if stop <= |s| then s[..stop] else s)
    else if -stop <= |s| then s[..|s| + stop]
    else []
  }

  /** Python's `s[start:stop]` for a non-negative start. */
  function PySlice<T>(s: seq<T>, start: nat, stop: int): (r: seq<T>)
    ensures start <= |s| && 0 <= stop ==> r == s[start..if stop <= start then start else if stop <= |s| then stop else |s|]
  {
    var e := if stop >= 0 then (if stop <= |s| then stop else |s|)
             else if -stop <= |s| then |s| + stop else 0;
    if start < e then s[start..e] else []
  }

  /** No element occurs twice. */
  predicate Distinct<T(==)>(s: seq<T>)
  {
    forall i, j :: 0 <= i < j < |s| ==> s[i] != s[j]
  }

  /** Appends to `acc`, in order, each element of `s` not already present. */
  function AppendNew<T(==)>(acc: seq<T>, s: seq<T>): (r: seq<T>)
    ensures forall i :: 0 <= i < |r| ==> r[i] in acc || r[i] in s
    ensures forall i :: 0 <= i < |acc| ==> acc[i] in r
    ensures forall i :: 0 <= i < |s| ==> s[i] in r
    ensures |acc| <= |r| && r[..|acc|] == acc
    ensures Distinct(acc) ==> Distinct(r)
    decreases |s|
  {
    if s == [] then acc
    else
      var a := AppendNew(acc, s[..|s| - 1]);
      var x := s[|s| - 1];
      assert s == s[..|s| - 1] + [x];
      if x in a then a else a + [x]
  }

  /** The distinct elements of `s` in the order of their first occurrence. */
  function Dedup<T(==)>(s: seq<T>): seq<T>
  {
    AppendNew([], s)
  }

  lemma {:induction false} AppendNewConcat<T>(acc: seq<T>, a: seq<T>, b: seq<T>)
    ensures AppendNew(acc, a + b) == AppendNew(AppendNew(acc, a), b)
    decreases |b|
  {
    if b == [] {
      assert a + b == a;
    } else {
      var n := |b| - 1;
      assert (a + b)[..|a + b| - 1] == a + b[..n];
      assert (a + b)[|a + b| - 1] == b[n];
      AppendNewConcat(acc, a, b[..n]);
    }
  }

  /** Appending the elements of `s` is appending all but the last, then the last. */
  lemma AppendNewSnoc<T>(acc: seq<T>, s: seq<T>)
    requires s != []
    ensures AppendNew(acc, s) == AppendNew(AppendNew(acc, s[..|s| - 1]), [s[|s| - 1]])
  {
    var n := |s| - 1;
    assert s[..n] + [s[n]] == s;
    AppendNewConcat(acc, s[..n], [s[n]]);
  }

  /** Index of the last occurrence of `x` in `s`. */
  function LastIndexOf<T(==)>(s: seq<T>, x: T): (i: nat)
    requires x in s
    ensures i < |s| && s[i] == x
    ensures forall j :: i < j < |s| ==> s[j] != x
  {
    if s[|s| - 1] == x then |s| - 1
    else
      assert x in s[..|s| - 1] by {
        var k :| 0 <= k < |s| && s[k] == x;
        assert k < |s| - 1;
        assert s[..|s| - 1][k] == x;
      }
      LastIndexOf(s[..|s| - 1], x)
  }

  /** In a sequence without duplicates the element at `i` has its last occurrence at `i`. */
  lemma LastIndexOfDistinct<T>(s: seq<T>, i: nat)
    requires Distinct(s) && i < |s|
    ensures LastIndexOf(s, s[i]) == i
  {
  }

  /** Appending another element does not move an element's last occurrence. */
  lemma LastIndexOfSnoc<T>(s: seq<T>, y: T, x: T)
    requires x in s && x != y
    ensures LastIndexOf(s + [y], x) == LastIndexOf(s, x)
  {
    assert (s + [y])[..|s|] == s;
  }

  /** The last occurrence in `s` is the last element, or the last occurrence
      in the elements before it. */
  lemma LastIndexOfInit<T>(s: seq<T>, x: T)
    requires s != []
    ensures x in s <==> x in s[..|s| - 1] || x == s[|s| - 1]
    ensures x == s[|s| - 1] ==> LastIndexOf(s, x) == |s| - 1
    ensures x != s[|s| - 1] && x in s[..|s| - 1] ==> LastIndexOf(s, x) == LastIndexOf(s[..|s| - 1], x)
  {
    assert s == s[..|s| - 1] + [s[|s| - 1]];
  }

  /** A property holds of every element once it holds of all but the last and of the last. */
  lemma EverySnoc<T>(s: seq<T>, init: seq<T>, p: T -> bool)
    requires s != [] && init == s[..|s| - 1]
    requires forall i :: 0 <= i < |init| ==> p(init[i])
    requires p(s[|s| - 1])
    ensures forall i :: 0 <= i < |s| ==> p(s[i])
  {
    forall i | 0 <= i < |s| ensures p(s[i]) {
      if i < |init| {
        assert s[i] == init[i];
      }
    }
  }
}

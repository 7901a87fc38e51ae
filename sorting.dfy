/** Python's stable `list.sort(key=..., reverse=True)`, written as an
    insertion sort: an element is placed before every element whose key is
    not larger, so elements with equal keys keep their original order. */
module Sorting {
  import Sequences

  /** Keys never increase from left to right. */
  predicate SortedDesc<T>(s: seq<T>, key: T -> real)
  {
    forall i, j :: 0 <= i < j < |s| ==> key(s[i]) >= key(s[j])
  }

  /** `x` placed before the first element whose key is not larger than its own. */
  function InsertDesc<T>(x: T, t: seq<T>, key: T -> real): (r: seq<T>)
    ensures multiset(r) == multiset(t) + multiset{x}
    ensures |r| == |t| + 1
  {
    if t == [] || key(x) >= key(t[0]) then [x] + t
    else
      assert t == [t[0]] + t[1..];
      [t[0]] + InsertDesc(x, t[1..], key)
  }

  /** Inserting into a sorted sequence keeps it sorted. */
  lemma {:induction false} InsertDescSorted<T>(x: T, t: seq<T>, key: T -> real)
    requires SortedDesc(t, key)
    ensures SortedDesc(InsertDesc(x, t, key), key)
    ensures var r := InsertDesc(x, t, key); r[0] == x || (t != [] && r[0] == t[0])
  {
    if t == [] || key(x) >= key(t[0]) {
      ConsSorted(x, t, key);
    } else {
      var rest := InsertDesc(x, t[1..], key);
      InsertDescSorted(x, t[1..], key);
      ConsSorted(t[0], rest, key);
    }
  }

  lemma ConsSorted<T>(a: T, s: seq<T>, key: T -> real)
    requires SortedDesc(s, key) && (s != [] ==> key(a) >= key(s[0]))
    ensures SortedDesc([a] + s, key)
  {
    var r := [a] + s;
    forall i, j | 0 <= i < j < |r| ensures key(r[i]) >= key(r[j]) {
      if i == 0 {
        assert r[j] == s[j - 1];
        assert key(s[0]) >= key(s[j - 1]) || j == 1;
      } else {
        assert r[i] == s[i - 1] && r[j] == s[j - 1];
      }
    }
  }

  /** The elements of `s` ordered by descending key, stably. */
  function SortDesc<T>(s: seq<T>, key: T -> real): (r: seq<T>)
    ensures SortedDesc(r, key)
    ensures multiset(r) == multiset(s)
    ensures |r| == |s|
  {
    if s == [] then []
    else
      assert s == [s[0]] + s[1..];
      InsertDescSorted(s[0], SortDesc(s[1..], key), key);
      InsertDesc(s[0], SortDesc(s[1..], key), key)
  }

  /** The elements of `s` whose key is `v`, in their order in `s`. */
  function WithKey<T>(s: seq<T>, key: T -> real, v: real): seq<T>
  {
    if s == [] then [] else (if key(s[0]) == v then [s[0]] else []) + WithKey(s[1..], key, v)
  }

  lemma {:induction false} InsertDescStable<T>(x: T, t: seq<T>, key: T -> real, v: real)
    ensures WithKey(InsertDesc(x, t, key), key, v) == (if key(x) == v then [x] else []) + WithKey(t, key, v)
  {
    if t == [] || key(x) >= key(t[0]) {
      WithKeyCons(x, t, key, v);
    } else {
      var rest := InsertDesc(x, t[1..], key);
      var hx := if key(x) == v then [x] else [];
      var h0 := if key(t[0]) == v then [t[0]] else [];
      calc {
        WithKey(InsertDesc(x, t, key), key, v);
        { assert InsertDesc(x, t, key) == [t[0]] + rest; }
        WithKey([t[0]] + rest, key, v);
        { WithKeyCons(t[0], rest, key, v); }
        h0 + WithKey(rest, key, v);
        { InsertDescStable(x, t[1..], key, v); }
        h0 + (hx + WithKey(t[1..], key, v));
        { assert h0 == [] || hx == []; SwapEmpty(h0, hx, WithKey(t[1..], key, v)); }
        hx + (h0 + WithKey(t[1..], key, v));
        { WithKeyCons(t[0], t[1..], key, v); assert [t[0]] + t[1..] == t; }
        hx + WithKey(t, key, v);
      }
    }
  }

  lemma SwapEmpty<T>(a: seq<T>, b: seq<T>, w: seq<T>)
    requires a == [] || b == []
    ensures a + (b + w) == b + (a + w)
  {
    if a == [] {
      assert a + (b + w) == b + w == b + (a + w);
    } else {
      assert b + (a + w) == a + w == a + (b + w);
    }
  }

  lemma WithKeyCons<T>(a: T, s: seq<T>, key: T -> real, v: real)
    ensures WithKey([a] + s, key, v) == (if key(a) == v then [a] else []) + WithKey(s, key, v)
  {
    assert ([a] + s)[1..] == s;
  }

  /** Stability: for every key value, the elements with that key appear in
      the sorted sequence in the same order as in the input. */
  lemma {:induction false} SortDescStable<T>(s: seq<T>, key: T -> real, v: real)
    ensures WithKey(SortDesc(s, key), key, v) == WithKey(s, key, v)
  {
    if s != [] {
      SortDescStable(s[1..], key, v);
      InsertDescStable(s[0], SortDesc(s[1..], key), key, v);
    }
  }

  /** A prefix keeps, for each key value, a prefix of the elements with that key. */
  lemma {:induction false} WithKeyPrefix<T>(s: seq<T>, n: nat, key: T -> real, v: real)
    requires n <= |s|
    ensures var a, b := WithKey(s[..n], key, v), WithKey(s, key, v); |a| <= |b| && a == b[..|a|]
  {
    if n > 0 {
      WithKeyPrefix(s[1..], n - 1, key, v);
      assert s[..n][1..] == s[1..][..n - 1];
    }
  }

  /** `sorted(s, key=key, reverse=True)[:limit]`: at most `limit` elements of
      `s`, best first. */
  function TopDesc<T>(s: seq<T>, key: T -> real, limit: int): (r: seq<T>)
    ensures limit >= 0 ==> |r| == (if limit <= |s| then limit else |s|)
    ensures |r| <= |s|
    ensures SortedDesc(r, key)
    ensures forall i :: 0 <= i < |r| ==> r[i] in s
  {
    var sorted := SortDesc(s, key);
    var r := Sequences.PyPrefix(sorted, limit);
    forall i | 0 <= i < |r| ensures r[i] in s {
      assert r[i] == sorted[i];
      assert sorted[i] in multiset(s);
    }
    r
  }

  /** Ties among the kept elements stay in input order: for each key value,
      the kept elements with that key are the first ones of `s` with it, and
      all of them when nothing is cut off. */
  lemma {:induction false} TopDescStable<T>(s: seq<T>, key: T -> real, limit: int, v: real)
    ensures var a, b := WithKey(TopDesc(s, key, limit), key, v), WithKey(s, key, v);
      |a| <= |b| && a == b[..|a|]
    ensures limit >= |s| ==> WithKey(TopDesc(s, key, limit), key, v) == WithKey(s, key, v)
  {
    var sorted := SortDesc(s, key);
    var r := TopDesc(s, key, limit);
    SortDescStable(s, key, v);
    assert r == sorted[..|r|];
    WithKeyPrefix(sorted, |r|, key, v);
    if limit >= |s| {
      assert r == sorted;
    }
  }

  /** The kept elements are the best ones: they come from `s`, and no
      element left out has a larger key than any kept one. */
  lemma TopDescBest<T>(s: seq<T>, key: T -> real, limit: int)
    ensures multiset(TopDesc(s, key, limit)) <= multiset(s)
    ensures var r := TopDesc(s, key, limit);
      forall x, i :: x in multiset(s) - multiset(r) && 0 <= i < |r| ==> key(x) <= key(r[i])
  {
    var sorted := SortDesc(s, key);
    var r := TopDesc(s, key, limit);
    var n := |r|;
    assert r == sorted[..n];
    assert sorted == r + sorted[n..];
    assert multiset(sorted) == multiset(r) + multiset(sorted[n..]);
    forall x, i | x in multiset(s) - multiset(r) && 0 <= i < n ensures key(x) <= key(r[i]) {
      assert x in multiset(sorted[n..]);
      var j :| 0 <= j < |sorted| - n && sorted[n..][j] == x;
      assert sorted[n + j] == x && sorted[i] == r[i];
    }
  }

  /** An element of `s` that is not in `r` is in what `r` leaves of `s`. */
  lemma LeftOutInDifference<T>(s: seq<T>, r: seq<T>, j: nat)
    requires j < |s| && s[j] !in r
    ensures s[j] in multiset(s) - multiset(r)
  {
    assert s[j] in multiset(s);
    assert multiset(r)[s[j]] == 0;
  }

  /** No element of `s` that is not kept has a larger key than a kept one. */
  lemma TopDescLeftOut<T>(s: seq<T>, key: T -> real, limit: int)
    ensures var r := TopDesc(s, key, limit);
      forall j, i :: 0 <= j < |s| && s[j] !in r && 0 <= i < |r| ==> key(s[j]) <= key(r[i])
  {
    var r := TopDesc(s, key, limit);
    TopDescBest(s, key, limit);
    forall j, i | 0 <= j < |s| && s[j] !in r && 0 <= i < |r| ensures key(s[j]) <= key(r[i]) {
      LeftOutInDifference(s, r, j);
    }
  }

  /** No two elements share a projected identifier. */
  predicate DistinctBy<T>(s: seq<T>, id: T -> int)
  {
    forall i, j :: 0 <= i < j < |s| ==> id(s[i]) != id(s[j])
  }

  /** Every element of an insertion result is the inserted one or an old one. */
  lemma {:induction false} InsertDescMember<T>(x: T, t: seq<T>, key: T -> real, i: nat)
    requires i < |t| + 1
    ensures InsertDesc(x, t, key)[i] == x || InsertDesc(x, t, key)[i] in t
  {
    if t != [] && key(x) < key(t[0]) && i > 0 {
      InsertDescMember(x, t[1..], key, i - 1);
    }
  }

  lemma ConsDistinctBy<T>(a: T, s: seq<T>, id: T -> int)
    requires DistinctBy(s, id)
    requires forall i :: 0 <= i < |s| ==> id(s[i]) != id(a)
    ensures DistinctBy([a] + s, id)
  {
    var r := [a] + s;
    forall i, j | 0 <= i < j < |r| ensures id(r[i]) != id(r[j]) {
      assert r[j] == s[j - 1];
      if i > 0 {
        assert r[i] == s[i - 1];
      }
    }
  }

  lemma {:induction false} InsertDescDistinctBy<T>(x: T, t: seq<T>, key: T -> real, id: T -> int)
    requires DistinctBy(t, id)
    requires forall i :: 0 <= i < |t| ==> id(t[i]) != id(x)
    ensures DistinctBy(InsertDesc(x, t, key), id)
  {
    if t == [] || key(x) >= key(t[0]) {
      ConsDistinctBy(x, t, id);
    } else {
      var rest := InsertDesc(x, t[1..], key);
      assert DistinctBy(t[1..], id) by {
        forall i, j | 0 <= i < j < |t[1..]| ensures id(t[1..][i]) != id(t[1..][j]) {
          assert t[1..][i] == t[i + 1] && t[1..][j] == t[j + 1];
        }
      }
      InsertDescDistinctBy(x, t[1..], key, id);
      forall i | 0 <= i < |rest| ensures id(rest[i]) != id(t[0]) {
        InsertDescMember(x, t[1..], key, i);
        if rest[i] != x {
          var j :| 0 <= j < |t[1..]| && t[1..][j] == rest[i];
          assert t[j + 1] == rest[i];
        }
      }
      ConsDistinctBy(t[0], rest, id);
    }
  }

  /** Sorting keeps identifiers distinct. */
  lemma {:induction false} SortDescDistinctBy<T>(s: seq<T>, key: T -> real, id: T -> int)
    requires DistinctBy(s, id)
    ensures DistinctBy(SortDesc(s, key), id)
  {
    if s != [] {
      SortDescDistinctBy(s[1..], key, id);
      var t := SortDesc(s[1..], key);
      forall i | 0 <= i < |t| ensures id(t[i]) != id(s[0]) {
        assert t[i] in multiset(s[1..]);
        var j :| 0 <= j < |s[1..]| && s[1..][j] == t[i];
        assert s[j + 1] == t[i];
      }
      InsertDescDistinctBy(s[0], t, key, id);
    }
  }

  /** Keeping the best `limit` elements keeps identifiers distinct. */
  lemma TopDescDistinctBy<T>(s: seq<T>, key: T -> real, limit: int, id: T -> int)
    requires DistinctBy(s, id)
    ensures DistinctBy(TopDesc(s, key, limit), id)
  {
    SortDescDistinctBy(s, key, id);
    assert TopDesc(s, key, limit) == SortDesc(s, key)[..|TopDesc(s, key, limit)|];
  }

  /** Lexicographic `>=` on (score, id) pairs, Python's tuple comparison. */
  predicate PairGe(a: (real, int), b: (real, int))
  {
    a.0 > b.0 || (a.0 == b.0 && a.1 >= b.1)
  }

  predicate PairsSortedDesc(s: seq<(real, int)>)
  {
    forall i, j :: 0 <= i < j < |s| ==> PairGe(s[i], s[j])
  }

  function InsertPair(x: (real, int), t: seq<(real, int)>): (r: seq<(real, int)>)
    ensures multiset(r) == multiset(t) + multiset{x}
    ensures |r| == |t| + 1
  {
    if t == [] || PairGe(x, t[0]) then [x] + t
    else
      assert t == [t[0]] + t[1..];
      [t[0]] + InsertPair(x, t[1..])
  }

  lemma {:induction false} InsertPairSorted(x: (real, int), t: seq<(real, int)>)
    requires PairsSortedDesc(t)
    ensures PairsSortedDesc(InsertPair(x, t))
    ensures var r := InsertPair(x, t); r[0] == x || (t != [] && r[0] == t[0])
  {
    if t == [] || PairGe(x, t[0]) {
      ConsPairsSorted(x, t);
    } else {
      var rest := InsertPair(x, t[1..]);
      InsertPairSorted(x, t[1..]);
      ConsPairsSorted(t[0], rest);
    }
  }

  lemma ConsPairsSorted(a: (real, int), s: seq<(real, int)>)
    requires PairsSortedDesc(s) && (s != [] ==> PairGe(a, s[0]))
    ensures PairsSortedDesc([a] + s)
  {
    var r := [a] + s;
    forall i, j | 0 <= i < j < |r| ensures PairGe(r[i], r[j]) {
      if i == 0 {
        assert r[j] == s[j - 1];
        assert PairGe(s[0], s[j - 1]) || j == 1;
      } else {
        assert r[i] == s[i - 1] && r[j] == s[j - 1];
      }
    }
  }

  /** Python's `sorted(pairs, reverse=True)` on (score, id) tuples. */
  function SortPairsDesc(s: seq<(real, int)>): (r: seq<(real, int)>)
    ensures PairsSortedDesc(r)
    ensures multiset(r) == multiset(s)
    ensures |r| == |s|
  {
    if s == [] then []
    else
      assert s == [s[0]] + s[1..];
      InsertPairSorted(s[0], SortPairsDesc(s[1..]));
      InsertPair(s[0], SortPairsDesc(s[1..]))
  }

  /** Strictly increasing from left to right. */
  predicate StrictlyAscending(s: seq<int>)
  {
    forall i, j :: 0 <= i < j < |s| ==> s[i] < s[j]
  }

  /** `x` placed into a strictly ascending list unless it is already there. */
  function InsertAsc(x: int, t: seq<int>): (r: seq<int>)
    requires StrictlyAscending(t)
    ensures StrictlyAscending(r)
    ensures forall y :: y in r <==> y == x || y in t
  {
    if t == [] || x < t[0] then
      AscCons(x, t);
      [x] + t
    else if x == t[0] then t
    else
      assert StrictlyAscending(t[1..]);
      var rest := InsertAsc(x, t[1..]);
      assert t == [t[0]] + t[1..];
      AscCons(t[0], rest);
      [t[0]] + rest
  }

  lemma AscCons(a: int, s: seq<int>)
    requires StrictlyAscending(s) && (s != [] ==> a < s[0])
    ensures StrictlyAscending([a] + s)
  {
    var r := [a] + s;
    forall i, j | 0 <= i < j < |r| ensures r[i] < r[j] {
      assert r[j] == s[j - 1];
      if i > 0 {
        assert r[i] == s[i - 1];
      } else if j > 1 {
        assert s[0] < s[j - 1];
      }
    }
  }

  /** Python's `sorted(set(s))`: the distinct elements of `s` in ascending order. */
  function SortedSet(s: seq<int>): (r: seq<int>)
    ensures StrictlyAscending(r)
    ensures forall y :: y in r <==> y in s
  {
    if s == [] then []
    else
      var r := InsertAsc(s[|s| - 1], SortedSet(s[..|s| - 1]));
      assert s == s[..|s| - 1] + [s[|s| - 1]];
      r
  }
}

/**
 * Sequence operations standing for the SQL the endpoints run over their
 * tables: WHERE (Filter), fetch() of the first row (FindFirst), COUNT,
 * array_unique() (Dedup) and ORDER BY on one or two integer columns
 * (SortDesc on a pair key; an ascending order uses the negated column).
 */
module Seqs {
  import opened Wrappers

  function Filter<T(!new)>(xs: seq<T>, p: T -> bool): (r: seq<T>)
    ensures |r| <= |xs|
    ensures forall x :: x in r <==> x in xs && p(x)
  {
    if |xs| == 0 then []
    else
      assert xs == [xs[0]] + xs[1..];
      (if p(xs[0]) then [xs[0]] else []) + Filter(xs[1..], p)
  }

  /** The filter's result element by element: each kept row is an input row meeting p, and each such row is kept. */
  lemma FilterAt<T(!new)>(xs: seq<T>, p: T -> bool)
    ensures forall i :: 0 <= i < |Filter(xs, p)| ==> Filter(xs, p)[i] in xs && p(Filter(xs, p)[i])
    ensures forall i :: 0 <= i < |xs| && p(xs[i]) ==> xs[i] in Filter(xs, p)
  {
  }

  lemma {:induction false} FilterAppend<T(!new)>(a: seq<T>, b: seq<T>, p: T -> bool)
    ensures Filter(a + b, p) == Filter(a, p) + Filter(b, p)
  {
    if |a| == 0 {
      assert a + b == b;
    } else {
      assert (a + b)[1..] == a[1..] + b;
      FilterAppend(a[1..], b, p);
    }
  }

  /** Filtering twice is filtering once with both conditions. */
  lemma {:induction false} FilterTwice<T(!new)>(xs: seq<T>, p: T -> bool, q: T -> bool, both: T -> bool)
    requires forall x :: both(x) == (p(x) && q(x))
    ensures Filter(Filter(xs, p), q) == Filter(xs, both)
  {
    if |xs| > 0 {
      FilterTwice(xs[1..], p, q, both);
      var rest := Filter(xs[1..], p);
      var fp := Filter(xs, p);
      if p(xs[0]) {
        assert fp == [xs[0]] + rest;
        assert fp[0] == xs[0] && fp[1..] == rest;
        assert Filter(fp, q) == (if q(xs[0]) then [xs[0]] else []) + Filter(rest, q);
      } else {
        assert fp == rest;
      }
    }
  }

  /** Filtering with a condition every element meets keeps everything. */
  lemma {:induction false} FilterAll<T(!new)>(xs: seq<T>, p: T -> bool)
    requires forall i :: 0 <= i < |xs| ==> p(xs[i])
    ensures Filter(xs, p) == xs
  {
    if |xs| > 0 {
      FilterAll(xs[1..], p);
      assert xs == [xs[0]] + xs[1..];
    }
  }

  /** Filtering keeps rows in their order, so a strictly increasing key stays strictly increasing. */
  predicate IncreasingBy<T>(xs: seq<T>, key: T -> int)
  {
    forall i, j :: 0 <= i < j < |xs| ==> key(xs[i]) < key(xs[j])
  }

  lemma {:induction false} FilterIncreasing<T(!new)>(xs: seq<T>, p: T -> bool, key: T -> int)
    requires IncreasingBy(xs, key)
    ensures IncreasingBy(Filter(xs, p), key)
  {
    if |xs| > 0 {
      IncreasingTail(xs, key);
      FilterIncreasing(xs[1..], p, key);
      HeadBelowFilter(xs, p, key);
      if p(xs[0]) {
        assert Filter(xs, p) == [xs[0]] + Filter(xs[1..], p);
        IncreasingCons(xs[0], Filter(xs[1..], p), key);
      } else {
        assert Filter(xs, p) == Filter(xs[1..], p);
      }
    }
  }

  lemma IncreasingTail<T>(xs: seq<T>, key: T -> int)
    requires |xs| > 0 && IncreasingBy(xs, key)
    ensures IncreasingBy(xs[1..], key)
  {
    var tail := xs[1..];
    forall i, j | 0 <= i < j < |tail| ensures key(tail[i]) < key(tail[j]) {
      assert tail[i] == xs[i + 1] && tail[j] == xs[j + 1];
    }
  }

  /** Every element the filter keeps from the tail lies above the head. */
  lemma HeadBelowFilter<T(!new)>(xs: seq<T>, p: T -> bool, key: T -> int)
    requires |xs| > 0 && IncreasingBy(xs, key)
    ensures forall k :: 0 <= k < |Filter(xs[1..], p)| ==> key(xs[0]) < key(Filter(xs[1..], p)[k])
  {
    var tail := xs[1..];
    var rt := Filter(tail, p);
    forall k | 0 <= k < |rt| ensures key(xs[0]) < key(rt[k]) {
      assert rt[k] in tail;
      var m :| 0 <= m < |tail| && tail[m] == rt[k];
      assert xs[m + 1] == rt[k];
    }
  }

  lemma IncreasingCons<T>(x: T, xs: seq<T>, key: T -> int)
    requires IncreasingBy(xs, key)
    requires forall k :: 0 <= k < |xs| ==> key(x) < key(xs[k])
    ensures IncreasingBy([x] + xs, key)
  {
    var r := [x] + xs;
    forall i, j | 0 <= i < j < |r| ensures key(r[i]) < key(r[j]) {
      assert r[j] == xs[j - 1];
      if i > 0 {
        assert r[i] == xs[i - 1];
      }
    }
  }

  /** An element found at two positions counts at least twice. */
  lemma MultisetTwice<T>(s: seq<T>, i: nat, j: nat)
    requires i < j < |s| && s[i] == s[j]
    ensures multiset(s)[s[i]] >= 2
  {
    assert s == s[..i] + [s[i]] + s[i + 1..j] + [s[j]] + s[j + 1..];
  }

  /** An element found at one position only counts once. */
  lemma MultisetOnce<T>(s: seq<T>, a: nat)
    requires a < |s| && forall k :: 0 <= k < |s| && k != a ==> s[k] != s[a]
    ensures multiset(s)[s[a]] == 1
  {
    var x := s[a];
    assert s == s[..a] + [x] + s[a + 1..];
    assert x !in s[..a];
    assert x !in s[a + 1..];
  }

  /** Reordering rows whose ids are distinct leaves the ids distinct. */
  lemma PermutationKeepsDistinct<T>(xs: seq<T>, ys: seq<T>, id: T -> int)
    requires multiset(xs) == multiset(ys)
    requires forall i, j :: 0 <= i < j < |xs| ==> id(xs[i]) != id(xs[j])
    ensures forall i, j :: 0 <= i < j < |ys| ==> id(ys[i]) != id(ys[j])
  {
    forall i, j | 0 <= i < j < |ys| ensures id(ys[i]) != id(ys[j]) {
      if id(ys[i]) == id(ys[j]) {
        assert ys[i] in multiset(xs) && ys[j] in multiset(xs);
        var a :| 0 <= a < |xs| && xs[a] == ys[i];
        var b :| 0 <= b < |xs| && xs[b] == ys[j];
        assert a == b;
        MultisetTwice(ys, i, j);
        MultisetOnce(xs, a);
        assert false;
      }
    }
  }

  function Count<T(!new)>(xs: seq<T>, p: T -> bool): nat
  {
    |Filter(xs, p)|
  }

  lemma CountPositive<T(!new)>(xs: seq<T>, p: T -> bool)
    ensures Count(xs, p) > 0 <==> exists i :: 0 <= i < |xs| && p(xs[i])
  {
    var r := Filter(xs, p);
    if Count(xs, p) > 0 {
      assert r[0] in xs;
    }
    if i :| 0 <= i < |xs| && p(xs[i]) {
      assert xs[i] in r;
    }
  }

  /** A condition and its negation split the rows: COUNT of one plus COUNT of the other is COUNT(*). */
  lemma {:induction false} CountSplit<T(!new)>(xs: seq<T>, p: T -> bool, q: T -> bool)
    requires forall x :: q(x) == !p(x)
    ensures Count(xs, p) + Count(xs, q) == |xs|
  {
    if |xs| > 0 {
      CountSplit(xs[1..], p, q);
    }
  }

  /** The first element meeting p, as fetch() after a WHERE returns it. */
  function FindFirst<T>(xs: seq<T>, p: T -> bool): (r: Option<T>)
    ensures r.None? <==> forall i :: 0 <= i < |xs| ==> !p(xs[i])
    ensures r.Some? ==> exists i :: 0 <= i < |xs| && xs[i] == r.value && p(r.value)
                                   && forall j :: 0 <= j < i ==> !p(xs[j])
  {
    if |xs| == 0 then None
    else if p(xs[0]) then Some(xs[0])
    else
      var r := FindFirst(xs[1..], p);
      assert r.Some? ==> exists i :: 0 <= i < |xs| && xs[i] == r.value && p(r.value)
                                     && forall j :: 0 <= j < i ==> !p(xs[j]) by {
        if r.Some? {
          var i :| 0 <= i < |xs[1..]| && xs[1..][i] == r.value && p(r.value)
                   && forall j :: 0 <= j < i ==> !p(xs[1..][j]);
          assert forall j :: 0 <= j < i + 1 ==> !p(xs[j]) by {
            forall j | 0 <= j < i + 1 ensures !p(xs[j]) {
              if j > 0 { assert xs[j] == xs[1..][j - 1]; }
            }
          }
          assert xs[i + 1] == r.value;
        }
      }
      r
  }

  /** FindFirst returns the element at the first position meeting p. */
  lemma FindFirstAt<T>(xs: seq<T>, p: T -> bool, i: nat)
    requires i < |xs| && p(xs[i]) && forall j :: 0 <= j < i ==> !p(xs[j])
    ensures FindFirst(xs, p) == Some(xs[i])
  {
    var r := FindFirst(xs, p);
    var k :| 0 <= k < |xs| && xs[k] == r.value && p(r.value) && forall j :: 0 <= j < k ==> !p(xs[j]);
    assert k == i;
  }

  /** The position of the first element meeting p. */
  function FindIndex<T>(xs: seq<T>, p: T -> bool): (r: Option<nat>)
    ensures r.None? <==> forall i :: 0 <= i < |xs| ==> !p(xs[i])
    ensures r.Some? ==> r.value < |xs| && p(xs[r.value]) && forall j :: 0 <= j < r.value ==> !p(xs[j])
  {
    if |xs| == 0 then None
    else if p(xs[0]) then Some(0)
    else
      var r := FindIndex(xs[1..], p);
      assert forall j :: 1 <= j < |xs| ==> xs[j] == xs[1..][j - 1];
      if r.None? then None else Some(r.value + 1)
  }

  predicate Distinct<T(==)>(xs: seq<T>)
  {
    forall i, j :: 0 <= i < j < |xs| ==> xs[i] != xs[j]
  }

  /** array_unique(): every value once, at its first occurrence. */
  function Dedup<T(==)>(xs: seq<T>): (r: seq<T>)
    ensures Distinct(r)
    ensures forall i :: 0 <= i < |r| ==> r[i] in xs
    ensures forall i :: 0 <= i < |xs| ==> xs[i] in r
    ensures |r| <= |xs|
    decreases |xs|
  {
    if |xs| == 0 then []
    else
      var d := Dedup(xs[..|xs| - 1]);
      var last := xs[|xs| - 1];
      assert xs == xs[..|xs| - 1] + [last];
      if last in d then d else d + [last]
  }

  /** array_unique() of values that are already distinct changes nothing. */
  lemma {:induction false} DedupDistinct<T>(xs: seq<T>)
    requires Distinct(xs)
    ensures Dedup(xs) == xs
    decreases |xs|
  {
    if |xs| > 0 {
      var init := xs[..|xs| - 1];
      assert Distinct(init);
      DedupDistinct(init);
      assert xs[|xs| - 1] !in init;
      assert xs == init + [xs[|xs| - 1]];
    }
  }

  // ---------------------------------------------------------------------------
  // ORDER BY

  /** Lexicographic "not smaller" on pair keys. */
  predicate KeyGe(a: (int, int), b: (int, int))
  {
    a.0 > b.0 || (a.0 == b.0 && a.1 >= b.1)
  }

  predicate SortedDesc<T>(xs: seq<T>, key: T -> (int, int))
  {
    forall i, j :: 0 <= i < j < |xs| ==> KeyGe(key(xs[i]), key(xs[j]))
  }

  function Insert<T>(x: T, xs: seq<T>, key: T -> (int, int)): (r: seq<T>)
    requires SortedDesc(xs, key)
    ensures SortedDesc(r, key)
    ensures multiset(r) == multiset(xs) + multiset{x}
    ensures |r| == |xs| + 1
    decreases |xs|
  {
    if |xs| == 0 || KeyGe(key(x), key(xs[0])) then
      [x] + xs
    else
      var tail := Insert(x, xs[1..], key);
      assert xs == [xs[0]] + xs[1..];
      assert forall k :: 0 <= k < |tail| ==> KeyGe(key(xs[0]), key(tail[k])) by {
        forall k | 0 <= k < |tail| ensures KeyGe(key(xs[0]), key(tail[k])) {
          assert tail[k] in multiset(tail);
          if tail[k] != x {
            assert tail[k] in multiset(xs[1..]);
            var m :| 0 <= m < |xs[1..]| && xs[1..][m] == tail[k];
            assert xs[m + 1] == tail[k];
          }
        }
      }
      [xs[0]] + tail
  }

  /** Insertion sort: ORDER BY key DESC. */
  function SortDesc<T>(xs: seq<T>, key: T -> (int, int)): (r: seq<T>)
    ensures SortedDesc(r, key)
    ensures multiset(r) == multiset(xs)
    ensures |r| == |xs|
  {
    if |xs| == 0 then []
    else
      assert xs == [xs[0]] + xs[1..];
      Insert(xs[0], SortDesc(xs[1..], key), key)
  }

  /** A row a LIMIT n of a sorted list leaves out ranks no higher than the last row kept. */
  lemma LimitLeavesLower<T>(sorted: seq<T>, key: T -> (int, int), n: nat, m: T)
    requires SortedDesc(sorted, key) && n > 0 && m in sorted
    requires m !in (if |sorted| <= n then sorted else sorted[..n])
    ensures |sorted| > n && KeyGe(key(sorted[n - 1]), key(m))
  {
    var j :| 0 <= j < |sorted| && sorted[j] == m;
    assert |sorted| > n;
    assert forall k :: 0 <= k < n ==> sorted[..n][k] == sorted[k];
    assert j >= n;
  }

  // ---------------------------------------------------------------------------
  // GROUP BY on an integer column

  predicate StrictlyAscending(xs: seq<int>)
  {
    forall i, j :: 0 <= i < j < |xs| ==> xs[i] < xs[j]
  }

  /** A key below every key of an ascending list can go in front of it. */
  lemma AscendingCons(h: int, t: seq<int>)
    requires StrictlyAscending(t) && forall y :: y in t ==> h < y
    ensures StrictlyAscending([h] + t)
  {
    var r := [h] + t;
    forall i, j | 0 <= i < j < |r| ensures r[i] < r[j] {
      assert r[j] == t[j - 1];
      if i > 0 {
        assert r[i] == t[i - 1];
      } else {
        assert t[j - 1] in t;
      }
    }
  }

  /** Adds one key to an ascending list of distinct keys. */
  function InsertKey(x: int, xs: seq<int>): (r: seq<int>)
    requires StrictlyAscending(xs)
    ensures StrictlyAscending(r)
    ensures forall y :: y in r <==> y == x || y in xs
  {
    if |xs| == 0 then [x]
    else if x < xs[0] then
      assert forall y :: y in xs ==> x < y by {
        forall y | y in xs ensures x < y {
          var k :| 0 <= k < |xs| && xs[k] == y;
          assert k == 0 || xs[0] < xs[k];
        }
      }
      AscendingCons(x, xs);
      [x] + xs
    else if x == xs[0] then xs
    else
      assert xs == [xs[0]] + xs[1..];
      var rest := xs[1..];
      assert StrictlyAscending(rest) by {
        forall i, j | 0 <= i < j < |rest| ensures rest[i] < rest[j] {
          assert rest[i] == xs[i + 1] && rest[j] == xs[j + 1];
        }
      }
      var tail := InsertKey(x, rest);
      assert forall y :: y in rest ==> xs[0] < y by {
        forall y | y in rest ensures xs[0] < y {
          var k :| 0 <= k < |rest| && rest[k] == y;
          assert xs[k + 1] == y;
        }
      }
      assert forall y :: y in tail ==> xs[0] < y;
      AscendingCons(xs[0], tail);
      [xs[0]] + tail
  }

  /** The groups of GROUP BY key ORDER BY key: each key that occurs, once, in ascending order. */
  function GroupKeys(xs: seq<int>): (r: seq<int>)
    ensures StrictlyAscending(r)
    ensures forall y :: y in r <==> y in xs
  {
    if |xs| == 0 then []
    else
      assert xs == xs[..|xs| - 1] + [xs[|xs| - 1]];
      InsertKey(xs[|xs| - 1], GroupKeys(xs[..|xs| - 1]))
  }
}

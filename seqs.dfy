/**
 * Query building blocks over tables kept as sequences in primary-key order:
 * filtering (`QuerySet.filter`), ordering (`order_by`) and slicing (`[:n]`).
 */
module Seqs {

  /** The elements of `s` that satisfy `p`, in their order in `s`. */
  function Filter<T(!new)>(s: seq<T>, p: T -> bool): (r: seq<T>)
    ensures |r| <= |s|
    ensures forall x :: x in r <==> x in s && p(x)
    decreases |s|
  {
    if s == [] then []
    else
      var rest := Filter(s[..|s| - 1], p);
      assert forall x :: x in s <==> x in s[..|s| - 1] || x == s[|s| - 1];
      if p(s[|s| - 1]) then rest + [s[|s| - 1]] else rest
  }

  lemma FilterAppend<T(!new)>(s: seq<T>, x: T, p: T -> bool)
    ensures Filter(s + [x], p) == Filter(s, p) + (if p(x) then [x] else [])
  {
    assert (s + [x])[..|s|] == s;
  }

  lemma {:induction false} FilterPrepend<T(!new)>(x: T, s: seq<T>, p: T -> bool)
    ensures Filter([x] + s, p) == (if p(x) then [x] else []) + Filter(s, p)
    decreases |s|
  {
    if s == [] {
      assert [x] + s == [x];
      assert ([x] + s)[..0] == [];
    } else {
      var init, last := s[..|s| - 1], s[|s| - 1];
      assert ([x] + s)[..|[x] + s| - 1] == [x] + init;
      FilterPrepend(x, init, p);
    }
  }

  /** `r` is `s` with some elements left out and the rest in their original order. */
  ghost predicate IsSubsequence<T>(r: seq<T>, s: seq<T>)
    decreases |s|
  {
    if r == [] then true
    else if s == [] then false
    else (r[|r| - 1] == s[|s| - 1] && IsSubsequence(r[..|r| - 1], s[..|s| - 1]))
         || IsSubsequence(r, s[..|s| - 1])
  }

  lemma {:induction false} FilterIsSubsequence<T(!new)>(s: seq<T>, p: T -> bool)
    ensures IsSubsequence(Filter(s, p), s)
    decreases |s|
  {
    if s != [] {
      var init := s[..|s| - 1];
      FilterIsSubsequence(init, p);
      var rest := Filter(init, p);
      if p(s[|s| - 1]) {
        assert (rest + [s[|s| - 1]])[..|rest|] == rest;
      } else if rest != [] {
        assert Filter(s, p) == rest;
      }
    }
  }

  /** The first element of a filter is the first element of `s` that satisfies `p`. */
  lemma {:induction false} FilterFirst<T(!new)>(s: seq<T>, p: T -> bool)
    requires Filter(s, p) != []
    ensures exists i :: 0 <= i < |s| && s[i] == Filter(s, p)[0] && p(s[i]) &&
                        forall j :: 0 <= j < i ==> !p(s[j])
    decreases |s|
  {
    var init := s[..|s| - 1];
    var rest := Filter(init, p);
    if rest == [] {
      assert forall j :: 0 <= j < |s| - 1 ==> s[j] in init;
      assert Filter(s, p)[0] == s[|s| - 1];
    } else {
      FilterFirst(init, p);
      var i :| 0 <= i < |init| && init[i] == rest[0] && p(init[i]) &&
               forall j :: 0 <= j < i ==> !p(init[j]);
      assert s[i] == init[i];
      assert forall j :: 0 <= j < i ==> s[j] == init[j];
    }
  }

  /** The first position of `s` that satisfies `p` gives the head of the filter. */
  lemma FilterFirstIs<T(!new)>(s: seq<T>, p: T -> bool, i: nat)
    requires i < |s| && p(s[i]) && forall j :: 0 <= j < i ==> !p(s[j])
    ensures Filter(s, p) != [] && Filter(s, p)[0] == s[i]
  {
    assert s[i] in Filter(s, p);
    FilterFirst(s, p);
  }

  /** Filtering twice is filtering once by both conditions. */
  lemma {:induction false} FilterFilter<T(!new)>(s: seq<T>, p: T -> bool, q: T -> bool, pq: T -> bool)
    requires forall x :: pq(x) == (p(x) && q(x))
    ensures Filter(Filter(s, p), q) == Filter(s, pq)
    decreases |s|
  {
    if s != [] {
      var init, x := s[..|s| - 1], s[|s| - 1];
      assert s == init + [x];
      FilterFilter(init, p, q, pq);
      FilterAppend(init, x, p);
      if p(x) {
        FilterAppend(Filter(init, p), x, q);
      }
    }
  }

  /** A condition every element meets filters nothing out. */
  lemma {:induction false} FilterTrue<T(!new)>(s: seq<T>, p: T -> bool)
    requires forall x :: x in s ==> p(x)
    ensures Filter(s, p) == s
    decreases |s|
  {
    if s != [] {
      FilterTrue(s[..|s| - 1], p);
      assert s[..|s| - 1] + [s[|s| - 1]] == s;
    }
  }

  /** Filters that agree on every element give the same result. */
  lemma {:induction false} FilterAgree<T(!new)>(s: seq<T>, p: T -> bool, q: T -> bool)
    requires forall x :: x in s ==> p(x) == q(x)
    ensures Filter(s, p) == Filter(s, q)
    decreases |s|
  {
    if s != [] {
      FilterAgree(s[..|s| - 1], p, q);
    }
  }

  /** When no two positions of `s` satisfy `p`, the filter is empty or the one element that does. */
  lemma {:induction false} FilterUnique<T(!new)>(s: seq<T>, p: T -> bool)
    requires forall i, j :: 0 <= i < j < |s| && p(s[i]) ==> !p(s[j])
    ensures |Filter(s, p)| <= 1
    ensures (forall i :: 0 <= i < |s| ==> !p(s[i])) ==> Filter(s, p) == []
    ensures forall i :: 0 <= i < |s| && p(s[i]) ==> Filter(s, p) == [s[i]]
    decreases |s|
  {
    if s != [] {
      var init := s[..|s| - 1];
      assert forall i :: 0 <= i < |init| ==> init[i] == s[i];
      FilterUnique(init, p);
      if p(s[|s| - 1]) {
        assert forall i :: 0 <= i < |init| ==> !p(init[i]);
      }
    }
  }

  /** A filter keeps the order of a sorted sequence. */
  lemma FilterKeepsSorted<T(!new)>(s: seq<T>, p: T -> bool, key: T -> int)
    requires SortedBy(s, key)
    ensures SortedBy(Filter(s, p), key)
  {
    var r := Filter(s, p);
    FilterIsSubsequence(s, p);
    SubsequenceKeepsSorted(r, s, key);
  }

  lemma {:induction false} SubsequenceKeepsSorted<T>(r: seq<T>, s: seq<T>, key: T -> int)
    requires IsSubsequence(r, s) && SortedBy(s, key)
    ensures SortedBy(r, key) && forall x :: x in r ==> x in s
    decreases |s|
  {
    if r != [] {
      var sInit := s[..|s| - 1];
      assert SortedBy(sInit, key);
      if r[|r| - 1] == s[|s| - 1] && IsSubsequence(r[..|r| - 1], sInit) {
        var rInit := r[..|r| - 1];
        SubsequenceKeepsSorted(rInit, sInit, key);
        forall i | 0 <= i < |rInit| ensures key(r[i]) <= key(r[|r| - 1]) {
          assert r[i] == rInit[i] && rInit[i] in sInit;
          var j :| 0 <= j < |sInit| && sInit[j] == r[i];
          assert s[j] == r[i];
        }
        assert r == rInit + [r[|r| - 1]];
      } else {
        SubsequenceKeepsSorted(r, sInit, key);
      }
    }
  }

  /** No element of `s` occurs twice. */
  predicate Distinct<T(==)>(s: seq<T>)
  {
    forall i, j :: 0 <= i < j < |s| ==> s[i] != s[j]
  }

  lemma {:induction false} DistinctOnce<T>(s: seq<T>, x: T)
    requires Distinct(s)
    ensures multiset(s)[x] <= 1
    decreases |s|
  {
    if s != [] {
      var init := s[..|s| - 1];
      assert s == init + [s[|s| - 1]];
      DistinctOnce(init, x);
      if x == s[|s| - 1] {
        assert x !in init;
      }
    }
  }

  lemma OnceDistinct<T>(s: seq<T>)
    requires forall x :: multiset(s)[x] <= 1
    ensures Distinct(s)
  {
    forall i, j | 0 <= i < j < |s| ensures s[i] != s[j] {
      assert s == s[..j] + s[j..];
      assert s[i] in s[..j] && s[j] in s[j..];
      assert multiset(s) == multiset(s[..j]) + multiset(s[j..]);
      assert multiset(s)[s[i]] >= 1 + multiset(s[j..])[s[i]];
    }
  }

  lemma {:induction false} FilterMultiset<T(!new)>(s: seq<T>, p: T -> bool)
    ensures multiset(Filter(s, p)) <= multiset(s)
    decreases |s|
  {
    if s != [] {
      var init := s[..|s| - 1];
      assert s == init + [s[|s| - 1]];
      FilterMultiset(init, p);
    }
  }

  /** A filter of a sequence without repetitions has none either. */
  lemma FilterKeepsDistinct<T(!new)>(s: seq<T>, p: T -> bool)
    requires Distinct(s)
    ensures Distinct(Filter(s, p))
  {
    FilterMultiset(s, p);
    forall x ensures multiset(Filter(s, p))[x] <= 1 {
      DistinctOnce(s, x);
    }
    OnceDistinct(Filter(s, p));
  }

  /** A rearrangement of a sequence without repetitions has none either. */
  lemma PermutationKeepsDistinct<T>(r: seq<T>, s: seq<T>)
    requires Distinct(s) && multiset(r) == multiset(s)
    ensures Distinct(r)
  {
    forall x ensures multiset(r)[x] <= 1 {
      DistinctOnce(s, x);
    }
    OnceDistinct(r);
  }

  /** The number of elements of `s` that satisfy `p`. */
  function Count<T(!new)>(s: seq<T>, p: T -> bool): nat
  {
    |Filter(s, p)|
  }

  /** `QuerySet[:n]`. */
  function Take<T>(s: seq<T>, n: nat): (r: seq<T>)
    ensures |r| == if |s| < n then |s| else n
    ensures r == s[..|r|]
  {
    if |s| <= n then s else s[..n]
  }

  predicate SortedBy<T>(s: seq<T>, key: T -> int)
  {
    forall i, j :: 0 <= i < j < |s| ==> key(s[i]) <= key(s[j])
  }

  /** An element no greater than any element of a sorted sequence can go in front of it. */
  lemma PrependSorted<T>(h: T, t: seq<T>, key: T -> int)
    requires SortedBy(t, key) && forall k :: 0 <= k < |t| ==> key(h) <= key(t[k])
    ensures SortedBy([h] + t, key)
  {
    var r := [h] + t;
    forall i, j | 0 <= i < j < |r| ensures key(r[i]) <= key(r[j]) {
      assert r[j] == t[j - 1];
      if i > 0 {
        assert r[i] == t[i - 1];
      }
    }
  }

  /** The tail after inserting into `rest` can follow `h`, which led `rest`. */
  lemma InsertedTailSorted<T>(h: T, x: T, rest: seq<T>, t: seq<T>, key: T -> int)
    requires SortedBy([h] + rest, key) && key(h) <= key(x) && SortedBy(t, key)
    requires forall k :: 0 <= k < |t| ==> t[k] == x || t[k] in rest
    ensures SortedBy([h] + t, key)
  {
    forall k | 0 <= k < |t| ensures key(h) <= key(t[k]) {
      if t[k] != x {
        var j :| 0 <= j < |rest| && rest[j] == t[k];
        assert ([h] + rest)[0] == h && ([h] + rest)[j + 1] == t[k];
      }
    }
    PrependSorted(h, t, key);
  }

  function InsertByKey<T>(x: T, s: seq<T>, key: T -> int): (r: seq<T>)
    requires SortedBy(s, key)
    ensures |r| == |s| + 1
    ensures SortedBy(r, key)
    ensures multiset(r) == multiset(s) + multiset{x}
    ensures forall k :: 0 <= k < |r| ==> r[k] == x || r[k] in s
    decreases |s|
  {
    if s == [] || key(x) <= key(s[0]) then
      PrependSorted(x, s, key);
      [x] + s
    else
      assert s == [s[0]] + s[1..];
      var tail := InsertByKey(x, s[1..], key);
      InsertedTailSorted(s[0], x, s[1..], tail, key);
      [s[0]] + tail
  }

  /** `order_by(key)`: a stable insertion sort, ascending in `key`. */
  function SortByKey<T>(s: seq<T>, key: T -> int): (r: seq<T>)
    ensures |r| == |s|
    ensures SortedBy(r, key)
    ensures multiset(r) == multiset(s)
  {
    if s == [] then []
    else
      assert s == [s[0]] + s[1..];
      InsertByKey(s[0], SortByKey(s[1..], key), key)
  }

  lemma SortedMembers<T>(s: seq<T>, key: T -> int, x: T)
    ensures x in SortByKey(s, key) <==> x in s
  {
    assert x in multiset(SortByKey(s, key)) <==> x in multiset(s);
  }
}

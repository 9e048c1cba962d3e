/**
 * Python's `sorted(xs, key=k, reverse=True)` on integer keys: a stable sort into
 * non-increasing key order, written as an insertion sort over sequences.
 * Ascending orders are obtained by negating the key.
 */
module Sorting {

  ghost predicate SortedDesc<T>(xs: seq<T>, key: T -> int) {
    forall i, j :: 0 <= i < j < |xs| ==> key(xs[i]) >= key(xs[j])
  }

  /** Puts `x` before the first element whose key is not larger than its own. */
  function Insert<T>(x: T, xs: seq<T>, key: T -> int): (r: seq<T>)
    requires SortedDesc(xs, key)
    ensures SortedDesc(r, key)
    ensures multiset(r) == multiset(xs) + multiset{x}
    ensures |r| == |xs| + 1
    ensures r[0] == x || (|xs| > 0 && r[0] == xs[0])
  {
    if |xs| == 0 || key(xs[0]) <= key(x) then [x] + xs
    else
      var tail := Insert(x, xs[1..], key);
      assert xs == [xs[0]] + xs[1..];
      assert forall j :: 0 <= j < |tail| ==> key(tail[0]) >= key(tail[j]);
      [xs[0]] + tail
  }

  /** The elements of `xs` in non-increasing key order; equal keys keep their input order. */
  function SortDesc<T>(xs: seq<T>, key: T -> int): (r: seq<T>)
    ensures SortedDesc(r, key)
    ensures multiset(r) == multiset(xs)
    ensures |r| == |xs|
  {
    if |xs| == 0 then []
    else
      assert xs == [xs[0]] + xs[1..];
      Insert(xs[0], SortDesc(xs[1..], key), key)
  }

  /** Python's slice `xs[:n]`, including its meaning for a negative `n`. */
  function Prefix<T>(xs: seq<T>, n: int): (r: seq<T>)
    ensures r <= xs
    ensures n >= 0 ==> |r| == if n < |xs| then n else |xs|
    ensures n < 0 ==> |r| == if |xs| + n > 0 then |xs| + n else 0
  {
    var k := if n >= 0 then (if n < |xs| then n else |xs|)
             else (if |xs| + n > 0 then |xs| + n else 0);
    xs[..k]
  }

  /** A sequence without repeated elements holds each value at most once. */
  lemma {:induction false} NoRepeatCount<T>(s: seq<T>, x: T)
    requires forall i, j :: 0 <= i < j < |s| ==> s[i] != s[j]
    ensures multiset(s)[x] <= 1
  {
    if |s| > 0 {
      assert s == [s[0]] + s[1..];
      NoRepeatCount(s[1..], x);
      if s[0] == x {
        assert x !in s[1..];
      }
    }
  }

  /** Two positions holding the same value count twice. */
  lemma TwoPositions<T>(s: seq<T>, i: nat, j: nat)
    requires i < j < |s| && s[i] == s[j]
    ensures multiset(s)[s[i]] >= 2
  {
    assert s == s[..j] + s[j..];
    assert s[i] in s[..j];
    assert s[j] in s[j..];
  }
}

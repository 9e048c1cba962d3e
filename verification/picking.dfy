/**
 * Order-preserving filters over sequences: the positions of a flag sequence that hold `true`,
 * and the elements at those positions.
 */
module Picking {
  /** The positions holding `true`, counted from `from`, in increasing order. */
  function TrueIndicesFrom(bs: seq<bool>, from: nat): (idx: seq<nat>)
    ensures |idx| <= |bs|
    ensures forall k :: 0 <= k < |idx| ==> from <= idx[k] < from + |bs|
    ensures forall k :: 0 <= k < |idx| - 1 ==> idx[k] < idx[k + 1]
  {
    if |bs| == 0 then []
    else (if bs[0] then [from] else []) + TrueIndicesFrom(bs[1..], from + 1)
  }

  /** The positions holding `true`, in increasing order. */
  function TrueIndices(bs: seq<bool>): (idx: seq<nat>)
    ensures forall k :: 0 <= k < |idx| ==> idx[k] < |bs|
  {
    TrueIndicesFrom(bs, 0)
  }

  /** Consecutive increase gives increase between any two positions. */
  lemma {:induction false} ChainIncreasing(idx: seq<nat>)
    requires forall k :: 0 <= k < |idx| - 1 ==> idx[k] < idx[k + 1]
    ensures forall k, l :: 0 <= k < l < |idx| ==> idx[k] < idx[l]
  {
    if |idx| > 1 {
      var tail := idx[1..];
      forall k | 0 <= k < |tail| - 1 ensures tail[k] < tail[k + 1] {
        assert tail[k] == idx[k + 1] && tail[k + 1] == idx[k + 2];
      }
      ChainIncreasing(tail);
      assert forall l :: 1 <= l < |idx| ==> idx[l] == tail[l - 1];
      assert forall l :: 1 < l < |idx| ==> idx[1] < idx[l];
    }
  }

  /** A position is listed exactly when it holds `true`. */
  lemma {:induction false} TrueIndicesFromExact(bs: seq<bool>, from: nat)
    ensures forall i :: 0 <= i < |bs| ==> (bs[i] <==> from + i in TrueIndicesFrom(bs, from))
  {
    if |bs| > 0 {
      var tail := TrueIndicesFrom(bs[1..], from + 1);
      TrueIndicesFromExact(bs[1..], from + 1);
      var idx := TrueIndicesFrom(bs, from);
      var head: seq<nat> := if bs[0] then [from] else [];
      assert idx == head + tail;
      forall i | 0 <= i < |bs|
        ensures bs[i] <==> from + i in idx
      {
        if i > 0 {
          assert bs[i] == bs[1..][i - 1];
          assert from + i !in head;
        } else {
          assert from !in tail;
        }
      }
    }
  }

  /** `xs[i]` for every position `i` where `bs` holds `true`, in order. */
  function Pick<T>(xs: seq<T>, bs: seq<bool>): (ys: seq<T>)
    requires |xs| == |bs|
    ensures |ys| <= |xs|
  {
    if |xs| == 0 then []
    else (if bs[0] then [xs[0]] else []) + Pick(xs[1..], bs[1..])
  }

  /** The picked elements are those at the `true` positions. */
  lemma {:induction false} PickAtTrueIndices<T>(xs: seq<T>, bs: seq<bool>, from: nat)
    requires |xs| == |bs|
    ensures |Pick(xs, bs)| == |TrueIndicesFrom(bs, from)|
    ensures forall k :: 0 <= k < |Pick(xs, bs)| ==> Pick(xs, bs)[k] == xs[TrueIndicesFrom(bs, from)[k] - from]
  {
    if |xs| > 0 {
      PickAtTrueIndices(xs[1..], bs[1..], from + 1);
      var h := if bs[0] then 1 else 0;
      var ys := Pick(xs, bs);
      var idx := TrueIndicesFrom(bs, from);
      var tail := TrueIndicesFrom(bs[1..], from + 1);
      forall k | 0 <= k < |ys|
        ensures ys[k] == xs[idx[k] - from]
      {
        if k >= h {
          assert ys[k] == Pick(xs[1..], bs[1..])[k - h];
          assert idx[k] == tail[k - h];
          assert xs[idx[k] - from] == xs[1..][tail[k - h] - (from + 1)];
        }
      }
    }
  }
}

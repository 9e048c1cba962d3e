/**
 * Python's `defaultdict(int)` (and `d[k] = d.get(k, 0) + 1`) used as a counter:
 * keys remember the order of their first insertion, every key maps to its count.
 */
module Counting {

  datatype Counter = Counter(keys: seq<string>, counts: map<string, nat>)

  ghost predicate Distinct(ks: seq<string>) {
    forall i, j :: 0 <= i < j < |ks| ==> ks[i] != ks[j]
  }

  /** Every key is listed once, and the listed keys are exactly the counted ones. */
  ghost predicate Valid(c: Counter) {
    && Distinct(c.keys)
    && (forall k :: k in c.counts <==> k in c.keys)
  }

  function Empty(): (c: Counter)
    ensures Valid(c) && |c.keys| == 0
  {
    Counter([], map[])
  }

  /** The count of `k`; an absent key reads as zero, as with `defaultdict(int)`. */
  function Get(c: Counter, k: string): nat {
    if k in c.counts then c.counts[k] else 0
  }

  /** `c[k] += n`: a new key is appended to the key order. */
  function IncBy(c: Counter, k: string, n: nat): (r: Counter)
    ensures Get(r, k) == Get(c, k) + n
    ensures forall k' :: k' != k ==> Get(r, k') == Get(c, k')
    ensures r.keys == if k in c.keys then c.keys else c.keys + [k]
  {
    Counter(if k in c.keys then c.keys else c.keys + [k], c.counts[k := Get(c, k) + n])
  }

  /** Incrementing keeps every key listed once and listed exactly when counted. */
  lemma IncByValid(c: Counter, k: string, n: nat)
    requires Valid(c)
    ensures Valid(IncBy(c, k, n))
  {
  }

  /** Counts one occurrence of each element of `ks`, in order. */
  function IncAll(c: Counter, ks: seq<string>): (r: Counter)
    ensures forall k :: Get(r, k) == Get(c, k) + multiset(ks)[k]
    ensures forall k :: k in r.keys <==> k in c.keys || k in ks
    decreases |ks|
  {
    if |ks| == 0 then c
    else
      assert ks == [ks[0]] + ks[1..];
      IncAll(IncBy(c, ks[0], 1), ks[1..])
  }

  lemma {:induction false} IncAllValid(c: Counter, ks: seq<string>)
    requires Valid(c)
    ensures Valid(IncAll(c, ks))
    decreases |ks|
  {
    if |ks| > 0 {
      IncByValid(c, ks[0], 1);
      IncAllValid(IncBy(c, ks[0], 1), ks[1..]);
    }
  }

  function SumCounts(keys: seq<string>, counts: map<string, nat>): nat {
    if |keys| == 0 then 0
    else (if keys[0] in counts then counts[keys[0]] else 0) + SumCounts(keys[1..], counts)
  }

  /** The sum of all counts. */
  function Total(c: Counter): nat {
    SumCounts(c.keys, c.counts)
  }

  lemma {:induction false} SumCountsAppend(keys: seq<string>, k: string, counts: map<string, nat>)
    ensures SumCounts(keys + [k], counts) == SumCounts(keys, counts) + (if k in counts then counts[k] else 0)
  {
    if |keys| > 0 {
      assert (keys + [k])[1..] == keys[1..] + [k];
      SumCountsAppend(keys[1..], k, counts);
    }
  }

  lemma {:induction false} SumCountsUpdate(keys: seq<string>, counts: map<string, nat>, k: string, v: nat)
    requires Distinct(keys)
    ensures SumCounts(keys, counts[k := v])
            == SumCounts(keys, counts)
               + (if k in keys then v - (if k in counts then counts[k] else 0) else 0)
  {
    if |keys| > 0 {
      SumCountsUpdate(keys[1..], counts, k, v);
      if keys[0] == k {
        assert k !in keys[1..];
      }
    }
  }

  /** Incrementing one key by `n` raises the total by exactly `n`. */
  lemma TotalIncBy(c: Counter, k: string, n: nat)
    requires Valid(c)
    ensures Total(IncBy(c, k, n)) == Total(c) + n
  {
    var m := c.counts[k := Get(c, k) + n];
    SumCountsUpdate(c.keys, c.counts, k, Get(c, k) + n);
    if k !in c.keys {
      SumCountsAppend(c.keys, k, m);
    }
  }

  /** Counting a sequence of keys raises the total by its length. */
  lemma {:induction false} TotalIncAll(c: Counter, ks: seq<string>)
    requires Valid(c)
    ensures Total(IncAll(c, ks)) == Total(c) + |ks|
    decreases |ks|
  {
    if |ks| > 0 {
      TotalIncBy(c, ks[0], 1);
      IncByValid(c, ks[0], 1);
      TotalIncAll(IncBy(c, ks[0], 1), ks[1..]);
    }
  }

  /** Python's `d.items()`: the pairs in key order. */
  function Items(c: Counter): (r: seq<(string, nat)>)
    ensures |r| == |c.keys|
    ensures forall i :: 0 <= i < |r| ==> r[i] == (c.keys[i], Get(c, c.keys[i]))
  {
    seq(|c.keys|, i requires 0 <= i < |c.keys| => (c.keys[i], Get(c, c.keys[i])))
  }

  /** The items of a well-formed counter list each key once, with its count: a pair is an
      item exactly when its key is counted and its number is that key's count. */
  lemma ItemsAreCounts(c: Counter)
    requires Valid(c)
    ensures forall i, j :: 0 <= i < j < |Items(c)| ==> Items(c)[i].0 != Items(c)[j].0
    ensures forall k, n :: (k, n) in Items(c) <==> k in c.counts && n == Get(c, k)
  {
    var r := Items(c);
    forall k, n | k in c.counts && n == Get(c, k) ensures (k, n) in r {
      var i :| 0 <= i < |c.keys| && c.keys[i] == k;
      assert r[i] == (k, n);
    }
  }
}

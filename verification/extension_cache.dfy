/**
 * The result cache of the browser extension's background script
 * (browser_extension/background.js): a JavaScript `Map` from selected text to the last
 * analysis, kept in insertion order, entries valid for one hour, and trimmed when it holds
 * more than 100 entries. `Date.now()` readings and the outcome of the network call
 * `checkFacts` are parameters.
 */
module ExtensionCache {
  import opened Optional
  import opened Sorting

  /** `CACHE_DURATION`: one hour in milliseconds. */
  const CacheDuration: int := 3_600_000

  /** `MAX_CACHE_SIZE`. */
  const MaxCacheSize: nat := 100

  /** An analysis returned by the server, as its JSON text. */
  type Analysis = string

  datatype Entry = Entry(key: string, result: Analysis, timestamp: int)

  /** The `Map`: its entries in insertion order. */
  type Cache = seq<Entry>

  /** A `Map` holds each key once. */
  ghost predicate DistinctKeys(c: Cache) {
    forall i, j :: 0 <= i < j < |c| ==> c[i].key != c[j].key
  }

  function Keys(c: Cache): (ks: set<string>)
    ensures forall i :: 0 <= i < |c| ==> c[i].key in ks
    ensures forall k :: k in ks ==> exists i :: 0 <= i < |c| && c[i].key == k
  {
    if |c| == 0 then {}
    else
      var rest := Keys(c[1..]);
      assert forall i :: 1 <= i < |c| ==> c[i] == c[1..][i - 1];
      {c[0].key} + rest
  }

  /** `a` is `b` with some entries removed, the rest in the same order. */
  predicate Subsequence(a: Cache, b: Cache)
    decreases |b|
  {
    if |a| == 0 then true
    else if |b| == 0 then false
    else if a[0] == b[0] then Subsequence(a[1..], b[1..])
    else Subsequence(a, b[1..])
  }

  /** The entries whose key is not in `ks`, in order (`cache.delete(k)` for each `k` in `ks`). */
  function DeleteKeys(c: Cache, ks: set<string>): (r: Cache)
    ensures forall e :: e in r <==> e in c && e.key !in ks
    ensures Subsequence(r, c)
    ensures |r| <= |c|
  {
    if |c| == 0 then []
    else if c[0].key in ks then DeleteKeys(c[1..], ks)
    else [c[0]] + DeleteKeys(c[1..], ks)
  }

  /** The entries not older than the duration at time `now`, in order. */
  function DropExpired(c: Cache, now: int): (r: Cache)
    ensures forall e :: e in r <==> e in c && now - e.timestamp <= CacheDuration
    ensures Subsequence(r, c)
    ensures |r| <= |c|
  {
    if |c| == 0 then []
    else if now - c[0].timestamp > CacheDuration then DropExpired(c[1..], now)
    else [c[0]] + DropExpired(c[1..], now)
  }

  /** The sort key of `(a, b) => a.timestamp - b.timestamp`, for a descending sort. */
  function Age(e: Entry): int {
    -e.timestamp
  }

  /** The keys of the first `n` entries. */
  function KeysOfFirst(c: Cache, n: nat): set<string>
    requires n <= |c|
  {
    Keys(c[..n])
  }

  /** The second loop of `cleanCache`: the keys of the oldest entries are deleted until
      `MaxCacheSize` entries would remain (JavaScript's sort is stable, and so is this one). */
  function Evict(unexpired: Cache): Cache
    requires |unexpired| >= MaxCacheSize
  {
    var oldestFirst := SortDesc(unexpired, Age);
    DeleteKeys(unexpired, KeysOfFirst(oldestFirst, |oldestFirst| - MaxCacheSize))
  }

  /** `cleanCache` at time `now`. */
  function CleanCache(c: Cache, now: int): Cache {
    if |c| <= MaxCacheSize then c
    else
      var unexpired := DropExpired(c, now);
      if |unexpired| <= MaxCacheSize then unexpired
      else Evict(unexpired)
  }

  // ---------------------------------------------------------------------------
  // Helpers about keys and subsequences
  // ---------------------------------------------------------------------------

  lemma {:induction false} SubsequenceMembers(a: Cache, b: Cache)
    requires Subsequence(a, b)
    ensures forall e :: e in a ==> e in b
    decreases |b|
  {
    if |a| > 0 && |b| > 0 {
      if a[0] == b[0] {
        SubsequenceMembers(a[1..], b[1..]);
        assert forall e :: e in a ==> e == a[0] || e in a[1..];
      } else {
        SubsequenceMembers(a, b[1..]);
      }
    }
  }

  /** Dropping the first kept entry keeps a subsequence. */
  lemma {:induction false} SubsequenceDropFirst(a: Cache, b: Cache)
    requires |a| > 0 && Subsequence(a, b)
    ensures Subsequence(a[1..], b)
    decreases |b|, 1
  {
    if a[0] == b[0] {
      SubsequenceExtend(a[1..], b);
    } else {
      SubsequenceDropFirst(a, b[1..]);
      SubsequenceExtend(a[1..], b);
    }
  }

  /** A subsequence of the tail is a subsequence of the whole. */
  lemma {:induction false} SubsequenceExtend(x: Cache, b: Cache)
    requires |b| > 0 && Subsequence(x, b[1..])
    ensures Subsequence(x, b)
    decreases |b|, 0
  {
    if |x| > 0 && x[0] == b[0] {
      SubsequenceDropFirst(x, b[1..]);
    }
  }

  lemma {:induction false} SubsequenceTrans(a: Cache, b: Cache, c: Cache)
    requires Subsequence(a, b) && Subsequence(b, c)
    ensures Subsequence(a, c)
    decreases |c|
  {
    if |a| > 0 && |b| > 0 && |c| > 0 {
      if b[0] == c[0] {
        if a[0] == b[0] {
          SubsequenceTrans(a[1..], b[1..], c[1..]);
        } else {
          SubsequenceTrans(a, b[1..], c[1..]);
          SubsequenceExtend(a, c);
        }
      } else {
        SubsequenceTrans(a, b, c[1..]);
        SubsequenceExtend(a, c);
      }
    }
  }

  lemma DistinctTail(c: Cache)
    requires |c| > 0 && DistinctKeys(c)
    ensures DistinctKeys(c[1..])
  {
    forall i, j | 0 <= i < j < |c[1..]| ensures c[1..][i].key != c[1..][j].key {
      assert c[1..][i] == c[i + 1] && c[1..][j] == c[j + 1];
    }
  }

  /** Removing entries keeps keys distinct. */
  lemma {:induction false} SubsequenceDistinct(a: Cache, b: Cache)
    requires Subsequence(a, b) && DistinctKeys(b)
    ensures DistinctKeys(a)
    decreases |b|
  {
    if |a| > 0 && |b| > 0 {
      DistinctTail(b);
      if a[0] == b[0] {
        SubsequenceDistinct(a[1..], b[1..]);
        SubsequenceMembers(a[1..], b[1..]);
        forall j | 0 < j < |a| ensures a[0].key != a[j].key {
          assert a[j] == a[1..][j - 1];
          assert a[j] in b[1..];
          var q :| 0 <= q < |b[1..]| && b[1..][q] == a[j];
          assert b[q + 1] == a[j];
        }
        forall i, j | 0 < i < j < |a| ensures a[i].key != a[j].key {
          assert a[i] == a[1..][i - 1] && a[j] == a[1..][j - 1];
        }
      } else {
        SubsequenceDistinct(a, b[1..]);
      }
    }
  }

  /** With distinct keys, a cache has as many keys as entries. */
  lemma {:induction false} KeysCount(c: Cache)
    requires DistinctKeys(c)
    ensures |Keys(c)| == |c|
    decreases |c|
  {
    if |c| > 0 {
      DistinctTail(c);
      KeysCount(c[1..]);
      forall i | 0 <= i < |c[1..]| ensures c[1..][i].key != c[0].key {
        assert c[1..][i] == c[i + 1];
      }
    }
  }

  /** In a cache with distinct keys an entry is determined by its key. */
  lemma SameKeySameEntry(c: Cache, x: Entry, y: Entry)
    requires DistinctKeys(c) && x in c && y in c && x.key == y.key
    ensures x == y
  {
    var p :| 0 <= p < |c| && c[p] == x;
    var q :| 0 <= q < |c| && c[q] == y;
  }

  /** A permutation of a cache with distinct keys has distinct keys. */
  lemma PermutationDistinct(a: Cache, b: Cache)
    requires multiset(a) == multiset(b) && DistinctKeys(b)
    ensures DistinctKeys(a)
  {
    forall i, j | 0 <= i < j < |a| ensures a[i].key != a[j].key {
      if a[i].key == a[j].key {
        assert a[i] in multiset(b) && a[j] in multiset(b);
        SameKeySameEntry(b, a[i], a[j]);
        TwoPositions(a, i, j);
        NoRepeatCount(b, a[i]);
      }
    }
  }

  // ---------------------------------------------------------------------------
  // cleanCache
  // ---------------------------------------------------------------------------

  /** At most 100 entries: untouched, nothing removed. */
  lemma CleanSmallIsNoop(c: Cache, now: int)
    requires |c| <= MaxCacheSize
    ensures CleanCache(c, now) == c
  {
  }

  /** A cleaning that runs removes every expired entry and keeps the others in order. */
  lemma CleanDropsExpired(c: Cache, now: int)
    requires |c| > MaxCacheSize
    ensures var r := CleanCache(c, now);
      && Subsequence(r, c)
      && (forall e :: e in r ==> now - e.timestamp <= CacheDuration)
      && (|DropExpired(c, now)| <= MaxCacheSize ==> r == DropExpired(c, now))
  {
    var unexpired := DropExpired(c, now);
    if |unexpired| > MaxCacheSize {
      var r := CleanCache(c, now);
      SubsequenceTrans(r, unexpired, c);
    }
  }

  /** The keys of the first `n` entries of a permutation are keys of the original. */
  lemma FirstKeysAreKeys(unexpired: Cache, sorted: Cache, n: nat)
    requires multiset(sorted) == multiset(unexpired) && n <= |sorted|
    ensures KeysOfFirst(sorted, n) <= Keys(unexpired)
  {
    forall k | k in KeysOfFirst(sorted, n) ensures k in Keys(unexpired) {
      var i :| 0 <= i < n && sorted[..n][i].key == k;
      assert sorted[i] in multiset(unexpired);
      var p :| 0 <= p < |unexpired| && unexpired[p] == sorted[i];
    }
  }

  /** Deleting a set of keys removes exactly those keys. */
  lemma DeleteKeysKeys(c: Cache, gone: set<string>)
    ensures Keys(DeleteKeys(c, gone)) == Keys(c) - gone
  {
    var r := DeleteKeys(c, gone);
    forall k | k in Keys(r) ensures k in Keys(c) && k !in gone {
      var i :| 0 <= i < |r| && r[i].key == k;
      assert r[i] in r;
      var p :| 0 <= p < |c| && c[p] == r[i];
    }
    forall k | k in Keys(c) && k !in gone ensures k in Keys(r) {
      var p :| 0 <= p < |c| && c[p].key == k;
      assert c[p] in r;
      var i :| 0 <= i < |r| && r[i] == c[p];
    }
  }

  lemma PrefixDistinct(c: Cache, n: nat)
    requires DistinctKeys(c) && n <= |c|
    ensures DistinctKeys(c[..n])
  {
    forall i, j | 0 <= i < j < n ensures c[..n][i].key != c[..n][j].key {
      assert c[..n][i] == c[i] && c[..n][j] == c[j];
    }
  }

  lemma SubsetDifferenceSize(a: set<string>, b: set<string>)
    requires b <= a
    ensures |a - b| == |a| - |b|
  {
    assert a == (a - b) + b;
    assert (a - b) * b == {};
  }

  /** Deleting the keys of the first `n` entries of a permutation removes exactly `n` entries. */
  lemma EvictSize(unexpired: Cache, sorted: Cache, n: nat)
    requires DistinctKeys(unexpired) && multiset(sorted) == multiset(unexpired) && n <= |sorted|
    ensures |DeleteKeys(unexpired, KeysOfFirst(sorted, n))| == |unexpired| - n
  {
    var gone := KeysOfFirst(sorted, n);
    var r := DeleteKeys(unexpired, gone);
    PermutationDistinct(sorted, unexpired);
    PrefixDistinct(sorted, n);
    KeysCount(sorted[..n]);
    SubsequenceDistinct(r, unexpired);
    KeysCount(r);
    KeysCount(unexpired);
    FirstKeysAreKeys(unexpired, sorted, n);
    DeleteKeysKeys(unexpired, gone);
    SubsetDifferenceSize(Keys(unexpired), gone);
  }

  /** An entry whose key is among the first `n` of a permutation with distinct keys is one
      of those first `n`. */
  lemma RemovedIsAmongFirst(unexpired: Cache, sorted: Cache, n: nat, d: Entry) returns (i: nat)
    requires DistinctKeys(unexpired) && multiset(sorted) == multiset(unexpired) && n <= |sorted|
    requires d in unexpired && d.key in KeysOfFirst(sorted, n)
    ensures i < n && sorted[i] == d
  {
    i :| 0 <= i < n && sorted[..n][i].key == d.key;
    assert sorted[i] in multiset(unexpired);
    SameKeySameEntry(unexpired, sorted[i], d);
  }

  /** An entry whose key is not among the first `n` sits after them. */
  lemma KeptIsAfterFirst(sorted: Cache, n: nat, e: Entry) returns (q: nat)
    requires n <= |sorted| && e in sorted && e.key !in KeysOfFirst(sorted, n)
    ensures n <= q < |sorted| && sorted[q] == e
  {
    forall j | 0 <= j < n ensures sorted[j].key in KeysOfFirst(sorted, n) {
      assert sorted[..n][j] == sorted[j];
    }
    q :| 0 <= q < |sorted| && sorted[q] == e;
  }

  /** Eviction keeps no entry older than one it removes. */
  lemma EvictOrder(unexpired: Cache)
    requires DistinctKeys(unexpired) && |unexpired| >= MaxCacheSize
    ensures var r := Evict(unexpired);
      forall e, d :: e in r && d in unexpired && d !in r ==> d.timestamp <= e.timestamp
  {
    var sorted := SortDesc(unexpired, Age);
    var n := |sorted| - MaxCacheSize;
    var r := Evict(unexpired);
    assert r == DeleteKeys(unexpired, KeysOfFirst(sorted, n));
    forall e, d | e in r && d in unexpired && d !in r ensures d.timestamp <= e.timestamp {
      var i := RemovedIsAmongFirst(unexpired, sorted, n, d);
      assert e in multiset(sorted);
      var q := KeptIsAfterFirst(sorted, n, e);
      assert Age(sorted[i]) >= Age(sorted[q]);
    }
  }

  /** Eviction leaves exactly `MaxCacheSize` entries, with distinct keys. */
  lemma EvictCount(unexpired: Cache)
    requires DistinctKeys(unexpired) && |unexpired| >= MaxCacheSize
    ensures |Evict(unexpired)| == MaxCacheSize && DistinctKeys(Evict(unexpired))
  {
    var sorted := SortDesc(unexpired, Age);
    var n := |sorted| - MaxCacheSize;
    var r := DeleteKeys(unexpired, KeysOfFirst(sorted, n));
    assert Evict(unexpired) == r;
    EvictSize(unexpired, sorted, n);
    SubsequenceDistinct(r, unexpired);
  }

  /** When the unexpired entries are still too many, the oldest go first until exactly 100
      remain: no survivor is older than an unexpired entry that was removed. */
  lemma CleanEvictsOldest(c: Cache, now: int)
    requires DistinctKeys(c) && |DropExpired(c, now)| > MaxCacheSize
    ensures var unexpired := DropExpired(c, now);
      var r := CleanCache(c, now);
      && |r| == MaxCacheSize
      && DistinctKeys(r)
      && (forall e, d :: e in r && d in unexpired && d !in r ==> d.timestamp <= e.timestamp)
  {
    var unexpired := DropExpired(c, now);
    assert |c| > MaxCacheSize;
    assert CleanCache(c, now) == Evict(unexpired);
    SubsequenceDistinct(unexpired, c);
    EvictCount(unexpired);
    EvictOrder(unexpired);
  }

  /** After `cleanCache` the cache holds at most 100 entries. */
  lemma CleanBound(c: Cache, now: int)
    requires DistinctKeys(c)
    ensures |CleanCache(c, now)| <= MaxCacheSize
    ensures DistinctKeys(CleanCache(c, now))
  {
    if |c| > MaxCacheSize {
      var unexpired := DropExpired(c, now);
      SubsequenceDistinct(unexpired, c);
      if |unexpired| > MaxCacheSize {
        CleanEvictsOldest(c, now);
      }
    }
  }

  // ---------------------------------------------------------------------------
  // checkFactsWithCache
  // ---------------------------------------------------------------------------

  /** The entry of `key`, if any. */
  function Find(c: Cache, key: string): (r: Option<Entry>)
    ensures r.Some? ==> r.value in c && r.value.key == key
    ensures r.None? ==> key !in Keys(c)
  {
    if |c| == 0 then None
    else if c[0].key == key then Some(c[0])
    else Find(c[1..], key)
  }

  /** `cache.set(key, …)` for a key not in the map: the entry goes last. */
  function Append(c: Cache, e: Entry): Cache {
    c + [e]
  }

  /** `checkFactsWithCache(text)`: `now` is the clock reading of the cleaning and of the
      lookup, `fetched` the outcome of `checkFacts(text)`, and `stored` the clock reading
      after it. Returns the cache afterwards and the result or the rethrown error. */
  function CheckFactsWithCache(c: Cache, text: string, now: int, fetched: Result<Analysis>, stored: int): (Cache, Result<Analysis>) {
    var cleaned := CleanCache(c, now);
    var hit := Find(cleaned, text);
    if hit.Some? && now - hit.value.timestamp < CacheDuration then (cleaned, Ok(hit.value.result))
    else
      var without := DeleteKeys(cleaned, {text});
      match fetched
      case Ok(result) => (Append(without, Entry(text, result, stored)), Ok(result))
      case Raised(m) => (without, Raised(m))
  }

  /** A unexpired entry is answered from the cache; `checkFacts` is not consulted. */
  lemma FreshEntryAnswers(c: Cache, text: string, now: int, fetched: Result<Analysis>, stored: int)
    requires Find(CleanCache(c, now), text).Some?
    requires now - Find(CleanCache(c, now), text).value.timestamp < CacheDuration
    ensures CheckFactsWithCache(c, text, now, fetched, stored)
            == (CleanCache(c, now), Ok(Find(CleanCache(c, now), text).value.result))
  {
  }

  /** Otherwise a stale entry is dropped; a fetched result is returned and stored last with
      the later clock reading; a failure is rethrown and nothing is stored for the text. */
  lemma MissFetches(c: Cache, text: string, now: int, fetched: Result<Analysis>, stored: int)
    requires !(Find(CleanCache(c, now), text).Some? && now - Find(CleanCache(c, now), text).value.timestamp < CacheDuration)
    ensures var (c', r) := CheckFactsWithCache(c, text, now, fetched, stored);
      var without := DeleteKeys(CleanCache(c, now), {text});
      && r == fetched
      && text !in Keys(without)
      && (fetched.Ok? ==> c' == without + [Entry(text, fetched.value, stored)])
      && (fetched.Raised? ==> c' == without && text !in Keys(c'))
  {
  }

  /** The cache keeps each key once and never holds more than 101 entries afterwards: the
      bound is enforced before a new entry is added. */
  lemma CheckKeepsBound(c: Cache, text: string, now: int, fetched: Result<Analysis>, stored: int)
    requires DistinctKeys(c)
    ensures var c' := CheckFactsWithCache(c, text, now, fetched, stored).0;
      DistinctKeys(c') && |c'| <= MaxCacheSize + 1
  {
    CleanBound(c, now);
    var cleaned := CleanCache(c, now);
    var without := DeleteKeys(cleaned, {text});
    SubsequenceDistinct(without, cleaned);
    var c' := CheckFactsWithCache(c, text, now, fetched, stored).0;
    if c' != cleaned && c' != without {
      assert c' == without + [Entry(text, fetched.value, stored)];
      forall i | 0 <= i < |without| ensures without[i].key != text {
        assert without[i] in without;
      }
    }
  }

  /** An entry appended under a new key is what a lookup of that key finds. */
  lemma {:induction false} FindLast(c: Cache, e: Entry)
    requires e.key !in Keys(c)
    ensures Find(c + [e], e.key) == Some(e)
  {
    if |c| > 0 {
      assert (c + [e])[1..] == c[1..] + [e];
      FindLast(c[1..], e);
    }
  }

  /** Asking again for a text within the hour after it was fetched and stored answers the stored
      result without consulting `checkFacts`, as long as no trimming is due. */
  lemma RepeatWithinHourIsCached(c: Cache, text: string, now: int, fetched: Result<Analysis>, stored: int,
                                 now2: int, fetched2: Result<Analysis>, stored2: int)
    requires !(Find(CleanCache(c, now), text).Some? && now - Find(CleanCache(c, now), text).value.timestamp < CacheDuration)
    requires fetched.Ok?
    requires |CheckFactsWithCache(c, text, now, fetched, stored).0| <= MaxCacheSize
    requires now2 - stored < CacheDuration
    ensures var c' := CheckFactsWithCache(c, text, now, fetched, stored).0;
      CheckFactsWithCache(c', text, now2, fetched2, stored2) == (c', Ok(fetched.value))
  {
    MissFetches(c, text, now, fetched, stored);
    var without := DeleteKeys(CleanCache(c, now), {text});
    FindLast(without, Entry(text, fetched.value, stored));
  }
}

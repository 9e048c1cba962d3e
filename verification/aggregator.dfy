/**
 * The fact-check aggregator (`FactCheckAggregator` in utils/fact_checkers/aggregator.py):
 * it asks every checker in turn, tolerates the failure of any of them, averages the
 * confidence of the successful ones and de-duplicates their facts. What each checker does
 * is an input: the dictionary it returned, or the exception it raised.
 */
module Aggregator {
  import opened Optional
  import opened Text
  import opened FactResult

  // ---------------------------------------------------------------------------
  // _deduplicate_facts
  // ---------------------------------------------------------------------------

  /** `fact.get('url', '')`. */
  function Url(f: Fact): string {
    if "url" in f then f["url"] else ""
  }

  /** What makes two facts duplicates: the same non-empty url, or, without a url, the
      same contents. */
  datatype DedupKey = ByUrl(url: string) | ByContent(fact: Fact)

  function KeyOf(f: Fact): (k: DedupKey)
    ensures k.ByUrl? <==> Url(f) != ""
  {
    if Url(f) != "" then ByUrl(Url(f)) else ByContent(f)
  }

  /** The loop of `_deduplicate_facts` from the state (`seenUrls`, `unique`) on: a fact with a
      url is kept when its url is new, a fact without one when no equal fact was kept. */
  function DedupLoop(facts: seq<Fact>, seenUrls: set<string>, unique: seq<Fact>): seq<Fact>
    decreases |facts|
  {
    if |facts| == 0 then unique
    else
      var f := facts[0];
      var url := Url(f);
      if url != "" && url !in seenUrls then DedupLoop(facts[1..], seenUrls + {url}, unique + [f])
      else if url == "" && f !in unique then DedupLoop(facts[1..], seenUrls, unique + [f])
      else DedupLoop(facts[1..], seenUrls, unique)
  }

  /** `_deduplicate_facts`. */
  function Dedup(facts: seq<Fact>): seq<Fact> {
    DedupLoop(facts, {}, [])
  }

  /** The keys of a list of facts. */
  function KeySet(xs: seq<Fact>): set<DedupKey>
    decreases |xs|
  {
    if |xs| == 0 then {} else KeySet(xs[..|xs| - 1]) + {KeyOf(xs[|xs| - 1])}
  }

  /** Reference definition: every fact whose key no earlier fact has. */
  function KeepFirst(xs: seq<Fact>): seq<Fact>
    decreases |xs|
  {
    if |xs| == 0 then []
    else
      var init := xs[..|xs| - 1];
      KeepFirst(init) + (if KeyOf(xs[|xs| - 1]) in KeySet(init) then [] else [xs[|xs| - 1]])
  }

  /** `a` is `b` with some elements left out, the rest in their order. */
  predicate Subsequence(a: seq<Fact>, b: seq<Fact>)
    decreases |b|
  {
    if |b| == 0 then |a| == 0
    else
      || (|a| > 0 && a[|a| - 1] == b[|b| - 1] && Subsequence(a[..|a| - 1], b[..|b| - 1]))
      || Subsequence(a, b[..|b| - 1])
  }

  lemma {:induction false} KeySetMembers(xs: seq<Fact>)
    ensures forall k :: k in KeySet(xs) <==> exists i :: 0 <= i < |xs| && KeyOf(xs[i]) == k
    decreases |xs|
  {
    if |xs| > 0 {
      var init := xs[..|xs| - 1];
      KeySetMembers(init);
      forall k ensures k in KeySet(xs) <==> exists i :: 0 <= i < |xs| && KeyOf(xs[i]) == k {
        if k in KeySet(init) {
          var i :| 0 <= i < |init| && KeyOf(init[i]) == k;
          assert xs[i] == init[i];
        }
        if exists i :: 0 <= i < |xs| && KeyOf(xs[i]) == k {
          var i :| 0 <= i < |xs| && KeyOf(xs[i]) == k;
          if i < |init| {
            assert init[i] == xs[i];
          }
        }
      }
    }
  }

  lemma KeySetSnoc(xs: seq<Fact>, f: Fact)
    ensures KeySet(xs + [f]) == KeySet(xs) + {KeyOf(f)}
  {
    assert (xs + [f])[..|xs|] == xs;
  }

  lemma KeepFirstSnoc(xs: seq<Fact>, f: Fact)
    ensures KeepFirst(xs + [f]) == KeepFirst(xs) + (if KeyOf(f) in KeySet(xs) then [] else [f])
  {
    assert (xs + [f])[..|xs|] == xs;
  }

  /** The kept facts have all the keys of the input. */
  lemma {:induction false} KeepFirstKeys(xs: seq<Fact>)
    ensures KeySet(KeepFirst(xs)) == KeySet(xs)
    decreases |xs|
  {
    if |xs| > 0 {
      var init := xs[..|xs| - 1];
      KeepFirstKeys(init);
      if KeyOf(xs[|xs| - 1]) !in KeySet(init) {
        assert KeepFirst(xs) == KeepFirst(init) + [xs[|xs| - 1]];
        KeySetSnoc(KeepFirst(init), xs[|xs| - 1]);
      } else {
        assert KeepFirst(xs) == KeepFirst(init);
      }
    }
  }

  /** No two kept facts have the same key. */
  lemma {:induction false} KeepFirstDistinct(xs: seq<Fact>)
    ensures var r := KeepFirst(xs); forall i, j :: 0 <= i < j < |r| ==> KeyOf(r[i]) != KeyOf(r[j])
    decreases |xs|
  {
    if |xs| > 0 {
      var init := xs[..|xs| - 1];
      KeepFirstDistinct(init);
      KeepFirstKeys(init);
      KeySetMembers(KeepFirst(init));
    }
  }

  /** The kept facts are a subsequence of the input. */
  lemma {:induction false} KeepFirstSubsequence(xs: seq<Fact>)
    ensures Subsequence(KeepFirst(xs), xs)
    decreases |xs|
  {
    if |xs| > 0 {
      var init := xs[..|xs| - 1];
      KeepFirstSubsequence(init);
      var r := KeepFirst(xs);
      if KeyOf(xs[|xs| - 1]) !in KeySet(init) {
        assert r == KeepFirst(init) + [xs[|xs| - 1]];
        assert r[..|r| - 1] == KeepFirst(init);
      } else {
        assert r == KeepFirst(init);
        assert Subsequence(r, xs[..|xs| - 1]);
      }
    }
  }

  /** The first fact with a given key is kept. */
  lemma {:induction false} KeepFirstKeepsFirst(xs: seq<Fact>, i: int)
    requires 0 <= i < |xs|
    requires forall j :: 0 <= j < i ==> KeyOf(xs[j]) != KeyOf(xs[i])
    ensures xs[i] in KeepFirst(xs)
    decreases |xs|
  {
    var init := xs[..|xs| - 1];
    if i == |xs| - 1 {
      KeySetMembers(init);
    } else {
      assert init[i] == xs[i];
      KeepFirstKeepsFirst(init, i);
    }
  }

  /** A key no fact has is not in the key set. */
  lemma KeyNotInKeySet(xs: seq<Fact>, k: DedupKey)
    requires forall i :: 0 <= i < |xs| ==> KeyOf(xs[i]) != k
    ensures k !in KeySet(xs)
  {
    KeySetMembers(xs);
  }

  /** A list whose keys are distinct is left as it is. */
  lemma {:induction false} KeepFirstOfDistinct(xs: seq<Fact>)
    requires forall i, j :: 0 <= i < j < |xs| ==> KeyOf(xs[i]) != KeyOf(xs[j])
    ensures KeepFirst(xs) == xs
    decreases |xs|
  {
    if |xs| > 0 {
      var init := xs[..|xs| - 1];
      var last := xs[|xs| - 1];
      forall i, j | 0 <= i < j < |init| ensures KeyOf(init[i]) != KeyOf(init[j]) {
        assert init[i] == xs[i] && init[j] == xs[j];
      }
      KeepFirstOfDistinct(init);
      forall i | 0 <= i < |init| ensures KeyOf(init[i]) != KeyOf(last) {
        assert init[i] == xs[i];
      }
      KeyNotInKeySet(init, KeyOf(last));
    }
  }

  /** A fact without a url was kept already exactly when its key is among the keys seen. */
  lemma ContentSeen(p: seq<Fact>, f: Fact)
    requires Url(f) == ""
    ensures f in KeepFirst(p) <==> ByContent(f) in KeySet(p)
  {
    KeepFirstKeys(p);
    KeySetMembers(KeepFirst(p));
    if f in KeepFirst(p) {
      var i :| 0 <= i < |KeepFirst(p)| && KeepFirst(p)[i] == f;
    }
  }

  /** The loop's invariant: `seen` holds the urls among the keys of the facts so far. */
  ghost predicate SeenUrls(p: seq<Fact>, seen: set<string>) {
    forall u :: u in seen <==> ByUrl(u) in KeySet(p)
  }

  /** One iteration of the loop keeps the invariant and extends the reference result. */
  lemma DedupStep(p: seq<Fact>, f: Fact, seen: set<string>)
    requires SeenUrls(p, seen)
    ensures var url := Url(f);
      var kept := (url != "" && url !in seen) || (url == "" && f !in KeepFirst(p));
      && KeepFirst(p + [f]) == KeepFirst(p) + (if kept then [f] else [])
      && SeenUrls(p + [f], if url != "" && url !in seen then seen + {url} else seen)
  {
    var url := Url(f);
    var seen' := if url != "" && url !in seen then seen + {url} else seen;
    KeepFirstSnoc(p, f);
    KeySetSnoc(p, f);
    if url == "" {
      ContentSeen(p, f);
    } else {
      assert KeyOf(f) == ByUrl(url);
    }
    forall u ensures u in seen' <==> ByUrl(u) in KeySet(p + [f]) {
      assert ByUrl(u) in KeySet(p + [f]) <==> ByUrl(u) in KeySet(p) || ByUrl(u) == KeyOf(f);
    }
  }

  lemma ShiftOne<T>(p: seq<T>, s: seq<T>)
    requires |s| > 0
    ensures p + s == (p + [s[0]]) + s[1..]
  {
    assert s == [s[0]] + s[1..];
  }

  /** After the facts `p`, the loop's state is the reference result for `p` and the urls
      among its keys; from there it ends with the reference result for `p + s`. */
  lemma {:induction false} DedupLoopIsKeepFirst(p: seq<Fact>, s: seq<Fact>, seen: set<string>)
    requires SeenUrls(p, seen)
    ensures DedupLoop(s, seen, KeepFirst(p)) == KeepFirst(p + s)
    decreases |s|
  {
    if |s| == 0 {
      assert p + s == p;
    } else {
      var f := s[0];
      var url := Url(f);
      var seen' := if url != "" && url !in seen then seen + {url} else seen;
      DedupStep(p, f, seen);
      if (url != "" && url !in seen) || (url == "" && f !in KeepFirst(p)) {
        assert KeepFirst(p + [f]) == KeepFirst(p) + [f];
        assert DedupLoop(s, seen, KeepFirst(p)) == DedupLoop(s[1..], seen', KeepFirst(p) + [f]);
      } else {
        assert KeepFirst(p + [f]) == KeepFirst(p) + [];
        assert KeepFirst(p) + [] == KeepFirst(p);
        assert DedupLoop(s, seen, KeepFirst(p)) == DedupLoop(s[1..], seen', KeepFirst(p));
      }
      DedupLoopIsKeepFirst(p + [f], s[1..], seen');
      ShiftOne(p, s);
    }
  }

  /** `_deduplicate_facts` keeps exactly the first fact of every key. */
  lemma DedupIsKeepFirst(facts: seq<Fact>)
    ensures Dedup(facts) == KeepFirst(facts)
  {
    assert [] + facts == facts;
    DedupLoopIsKeepFirst([], facts, {});
  }

  /** The result is a subsequence of the input holding every key of the input once: no two
      facts share a url, no two facts are equal, and the first fact of every key is kept. */
  lemma DedupProperties(facts: seq<Fact>)
    ensures var r := Dedup(facts);
      && Subsequence(r, facts)
      && KeySet(r) == KeySet(facts)
      && (forall i, j :: 0 <= i < j < |r| ==> r[i] != r[j] && (Url(r[i]) != "" ==> Url(r[i]) != Url(r[j])))
      && (forall i :: 0 <= i < |facts| && (forall j :: 0 <= j < i ==> KeyOf(facts[j]) != KeyOf(facts[i])) ==> facts[i] in r)
  {
    DedupIsKeepFirst(facts);
    KeepFirstSubsequence(facts);
    KeepFirstKeys(facts);
    KeepFirstDistinct(facts);
    forall i | 0 <= i < |facts| && (forall j :: 0 <= j < i ==> KeyOf(facts[j]) != KeyOf(facts[i]))
      ensures facts[i] in Dedup(facts)
    {
      KeepFirstKeepsFirst(facts, i);
    }
  }

  /** De-duplicating twice is de-duplicating once. */
  lemma DedupIdempotent(facts: seq<Fact>)
    ensures Dedup(Dedup(facts)) == Dedup(facts)
  {
    DedupIsKeepFirst(facts);
    DedupIsKeepFirst(Dedup(facts));
    KeepFirstDistinct(facts);
    KeepFirstOfDistinct(KeepFirst(facts));
  }

  // ---------------------------------------------------------------------------
  // verify_claim
  // ---------------------------------------------------------------------------

  /** What one checker's `verify_claim` did: return a result dictionary (read back as the
      result it was built from) or raise an exception with the given text. */
  datatype Outcome = Returned(result: FactCheckResult) | Threw(message: string)

  /** One checker, by class name, and its outcome. */
  datatype Run = Run(checker: string, outcome: Outcome)

  predicate Succeeded(run: Run) {
    run.outcome.Returned? && run.outcome.result.status == "success"
  }

  /** `result.get('error', 'Unknown error')` formatted into a string: an absent error
      (`None`) prints as "None". */
  function ErrorText(e: Option<string>): string {
    match e
    case None => "None"
    case Some(s) => s
  }

  /** The line a run adds to the error list: for a raised exception and for a result with
      status 'error'; any other status adds nothing. The line names the checker, then gives
      the exception's text or the result's `error` (`None` printed as such). */
  function ErrorLine(run: Run): (line: Option<string>)
    ensures line.Some? <==> run.outcome.Threw? || run.outcome.result.status == "error"
    ensures line.Some? ==> !Succeeded(run)
    ensures line.Some? ==>
      line.value == run.checker + ": " +
                    (if run.outcome.Threw? then run.outcome.message else ErrorText(run.outcome.result.error))
  {
    match run.outcome
    case Threw(m) => Some(run.checker + ": " + m)
    case Returned(r) => if r.status == "error" then Some(run.checker + ": " + ErrorText(r.error)) else None
  }

  /** `set.update`: appends the elements not yet present, keeping the list duplicate-free. */
  function AddNew(acc: seq<string>, xs: seq<string>): seq<string>
    decreases |xs|
  {
    if |xs| == 0 then acc
    else if xs[0] in acc then AddNew(acc, xs[1..])
    else AddNew(acc + [xs[0]], xs[1..])
  }

  /** Adding to a duplicate-free list keeps it duplicate-free and adds exactly the new elements. */
  lemma {:induction false} AddNewProps(acc: seq<string>, xs: seq<string>)
    requires forall i, j :: 0 <= i < j < |acc| ==> acc[i] != acc[j]
    ensures var r := AddNew(acc, xs);
      && (forall i, j :: 0 <= i < j < |r| ==> r[i] != r[j])
      && (forall s :: s in r <==> s in acc || s in xs)
    decreases |xs|
  {
    if |xs| > 0 {
      if xs[0] in acc {
        AddNewProps(acc, xs[1..]);
      } else {
        AddNewProps(acc + [xs[0]], xs[1..]);
      }
      forall s | s in xs ensures s == xs[0] || s in xs[1..] {
        var i :| 0 <= i < |xs| && xs[i] == s;
        if i > 0 {
          assert xs[1..][i - 1] == s;
        }
      }
    }
  }

  lemma {:induction false} AddNewAppend(acc: seq<string>, xs: seq<string>, ys: seq<string>)
    ensures AddNew(AddNew(acc, xs), ys) == AddNew(acc, xs + ys)
    decreases |xs|
  {
    if |xs| > 0 {
      assert (xs + ys)[0] == xs[0] && (xs + ys)[1..] == xs[1..] + ys;
      if xs[0] in acc {
        AddNewAppend(acc, xs[1..], ys);
      } else {
        AddNewAppend(acc + [xs[0]], xs[1..], ys);
      }
    } else {
      assert xs + ys == ys;
    }
  }

  /** The loop's accumulators. */
  datatype Tally = Tally(
    successes: nat,
    sources: seq<string>,
    facts: seq<Fact>,
    confidence: real,
    errors: seq<string>)

  const Start := Tally(0, [], [], 0.0, [])

  /** One iteration of the loop over the checkers. */
  function Step(t: Tally, run: Run): Tally {
    if Succeeded(run) then
      var r := run.outcome.result;
      Tally(t.successes + 1, AddNew(t.sources, r.sources), t.facts + r.matchingFacts,
            t.confidence + r.confidence, t.errors)
    else
      match ErrorLine(run)
      case Some(line) => t.(errors := t.errors + [line])
      case None => t
  }

  /** The loop over the checkers, every one of them consulted in order. */
  function Fold(t: Tally, runs: seq<Run>): Tally
    decreases |runs|
  {
    if |runs| == 0 then t else Fold(Step(t, runs[0]), runs[1..])
  }

  // Reference definitions, one run at a time.

  /** The result a run contributes when it succeeded. */
  function SuccessOf(run: Run): seq<FactCheckResult> {
    if Succeeded(run) then [run.outcome.result] else []
  }

  /** The line a run contributes to the error list, if any. */
  function LineOf(run: Run): seq<string> {
    match ErrorLine(run)
    case Some(line) => [line]
    case None => []
  }

  /** The results of the successful checkers, in order. */
  function Successes(runs: seq<Run>): seq<FactCheckResult>
    decreases |runs|
  {
    if |runs| == 0 then [] else SuccessOf(runs[0]) + Successes(runs[1..])
  }

  /** The error lines of the failed checkers, in order. */
  function ErrorLines(runs: seq<Run>): seq<string>
    decreases |runs|
  {
    if |runs| == 0 then [] else LineOf(runs[0]) + ErrorLines(runs[1..])
  }

  function AllSources(rs: seq<FactCheckResult>): seq<string>
    decreases |rs|
  {
    if |rs| == 0 then [] else rs[0].sources + AllSources(rs[1..])
  }

  function AllFacts(rs: seq<FactCheckResult>): seq<Fact>
    decreases |rs|
  {
    if |rs| == 0 then [] else rs[0].matchingFacts + AllFacts(rs[1..])
  }

  function SumConfidence(rs: seq<FactCheckResult>): real
    decreases |rs|
  {
    if |rs| == 0 then 0.0 else rs[0].confidence + SumConfidence(rs[1..])
  }

  /** The successful results of a run list, the first run split off. */
  lemma SuccessesCons(runs: seq<Run>)
    requires |runs| > 0
    ensures Succeeded(runs[0]) ==> Successes(runs) == [runs[0].outcome.result] + Successes(runs[1..])
    ensures !Succeeded(runs[0]) ==> Successes(runs) == Successes(runs[1..])
  {
  }

  lemma {:induction false} FoldCounts(t: Tally, runs: seq<Run>)
    ensures var s := Successes(runs);
      && Fold(t, runs).successes == t.successes + |s|
      && Fold(t, runs).confidence == t.confidence + SumConfidence(s)
    decreases |runs|
  {
    if |runs| > 0 {
      FoldCounts(Step(t, runs[0]), runs[1..]);
      SuccessesCons(runs);
      if Succeeded(runs[0]) {
        assert ([runs[0].outcome.result] + Successes(runs[1..]))[1..] == Successes(runs[1..]);
      }
    }
  }

  lemma {:induction false} FoldSources(t: Tally, runs: seq<Run>)
    ensures Fold(t, runs).sources == AddNew(t.sources, AllSources(Successes(runs)))
    decreases |runs|
  {
    if |runs| > 0 {
      FoldSources(Step(t, runs[0]), runs[1..]);
      SuccessesCons(runs);
      if Succeeded(runs[0]) {
        var r := runs[0].outcome.result;
        var rest := Successes(runs[1..]);
        assert ([r] + rest)[1..] == rest;
        AddNewAppend(t.sources, r.sources, AllSources(rest));
      }
    }
  }

  /** A run that did not succeed changes only the error list. */
  lemma StepFailed(t: Tally, run: Run)
    requires !Succeeded(run)
    ensures Step(t, run).(errors := t.errors) == t
  {
  }

  lemma {:induction false} FoldFacts(t: Tally, runs: seq<Run>)
    ensures Fold(t, runs).facts == t.facts + AllFacts(Successes(runs))
    decreases |runs|
  {
    if |runs| > 0 {
      FoldFacts(Step(t, runs[0]), runs[1..]);
      SuccessesCons(runs);
      if Succeeded(runs[0]) {
        var r := runs[0].outcome.result;
        var rest := Successes(runs[1..]);
        assert ([r] + rest)[1..] == rest;
        assert t.facts + r.matchingFacts + AllFacts(rest) == t.facts + (r.matchingFacts + AllFacts(rest));
      } else {
        StepFailed(t, runs[0]);
      }
    }
  }

  lemma {:induction false} FoldErrors(t: Tally, runs: seq<Run>)
    ensures Fold(t, runs).errors == t.errors + ErrorLines(runs)
    decreases |runs|
  {
    if |runs| > 0 {
      FoldErrors(Step(t, runs[0]), runs[1..]);
      assert t.errors + LineOf(runs[0]) + ErrorLines(runs[1..]) == t.errors + (LineOf(runs[0]) + ErrorLines(runs[1..]));
    }
  }

  /** The loop accumulates the successful results' contributions and the failed runs' lines,
      whatever ran before. */
  lemma FoldSpec(t: Tally, runs: seq<Run>)
    ensures var s := Successes(runs);
      Fold(t, runs) == Tally(t.successes + |s|, AddNew(t.sources, AllSources(s)), t.facts + AllFacts(s),
                             t.confidence + SumConfidence(s), t.errors + ErrorLines(runs))
  {
    FoldCounts(t, runs);
    FoldSources(t, runs);
    FoldFacts(t, runs);
    FoldErrors(t, runs);
  }


  /** `FactCheckAggregator.verify_claim` on the outcomes of its checkers, as a result object
      (its dictionary is `ToDict` of it). */
  function Aggregate(runs: seq<Run>): (r: FactCheckResult)
    ensures r.verified <==> r.status == "success"
    ensures r.verified ==> r.error == None
  {
    var t := Fold(Start, runs);
    if t.successes == 0 then
      Build(Args(Some(false), None, None, None, Some("error"),
                 Some("All fact checkers failed: " + Join(t.errors, "; "))))
    else
      Build(Args(Some(true), Some(Dedup(t.facts)), Some(t.sources),
                 Some(t.confidence / t.successes as real), Some("success"), None))
  }

  /** With no success (an empty checker list included) the aggregate is the error result
      listing every failure in order. */
  lemma AggregateFailure(runs: seq<Run>)
    requires |Successes(runs)| == 0
    ensures Aggregate(runs) == FactCheckResult(false, [], [], 0.0, "error",
                                 Some("All fact checkers failed: " + Join(ErrorLines(runs), "; ")))
  {
    FoldSpec(Start, runs);
    assert [] + ErrorLines(runs) == ErrorLines(runs);
  }

  /** Otherwise it is verified, its confidence is the mean over the successful checkers, its
      sources are the union of theirs without duplicates and its facts are theirs
      de-duplicated. */
  lemma AggregateSuccess(runs: seq<Run>)
    requires |Successes(runs)| > 0
    ensures var r := Aggregate(runs);
      var s := Successes(runs);
      && r.verified && r.status == "success" && r.error == None
      && r.confidence == SumConfidence(s) / |s| as real
      && r.matchingFacts == Dedup(AllFacts(s))
      && r.sources == AddNew([], AllSources(s))
  {
    FoldSpec(Start, runs);
    var s := Successes(runs);
    assert [] + AllFacts(s) == AllFacts(s);
  }

  /** The aggregate in terms of the reference definitions. */
  lemma AggregateSpec(runs: seq<Run>)
    ensures var r := Aggregate(runs);
      var s := Successes(runs);
      && (|s| == 0 ==>
            r == FactCheckResult(false, [], [], 0.0, "error",
                                 Some("All fact checkers failed: " + Join(ErrorLines(runs), "; "))))
      && (|s| > 0 ==>
            && r.verified && r.status == "success" && r.error == None
            && r.confidence == SumConfidence(s) / |s| as real
            && r.matchingFacts == Dedup(AllFacts(s))
            && r.sources == AddNew([], AllSources(s)))
  {
    if |Successes(runs)| == 0 {
      AggregateFailure(runs);
    } else {
      AggregateSuccess(runs);
    }
  }

  /** A checker succeeded exactly when one of the runs returned status 'success'. */
  lemma {:induction false} SuccessesEmpty(runs: seq<Run>)
    ensures |Successes(runs)| == 0 <==> forall i :: 0 <= i < |runs| ==> !Succeeded(runs[i])
    decreases |runs|
  {
    if |runs| > 0 {
      SuccessesEmpty(runs[1..]);
      assert forall i :: 1 <= i < |runs| ==> runs[i] == runs[1..][i - 1];
    }
  }

  /** The aggregate is verified exactly when some checker returned status 'success'. */
  lemma AggregateVerified(runs: seq<Run>)
    ensures Aggregate(runs).verified <==> exists i :: 0 <= i < |runs| && Succeeded(runs[i])
  {
    AggregateSpec(runs);
    SuccessesEmpty(runs);
  }

  /** The sources reported are exactly those of the successful checkers, each once. */
  lemma {:induction false} AllSourcesMembers(rs: seq<FactCheckResult>)
    ensures forall x :: x in AllSources(rs) <==> exists i :: 0 <= i < |rs| && x in rs[i].sources
    decreases |rs|
  {
    if |rs| > 0 {
      AllSourcesMembers(rs[1..]);
      assert forall i :: 1 <= i < |rs| ==> rs[i] == rs[1..][i - 1];
      forall x | exists i :: 0 <= i < |rs| && x in rs[i].sources
        ensures x in AllSources(rs)
      {
        var i :| 0 <= i < |rs| && x in rs[i].sources;
        if i > 0 {
          assert x in rs[1..][i - 1].sources;
        }
      }
    }
  }

  lemma AggregateSources(runs: seq<Run>)
    ensures var r := Aggregate(runs);
      && (forall i, j :: 0 <= i < j < |r.sources| ==> r.sources[i] != r.sources[j])
      && (forall x :: x in r.sources <==> exists rr :: rr in Successes(runs) && x in rr.sources)
  {
    AggregateSpec(runs);
    var s := Successes(runs);
    AllSourcesMembers(s);
    AddNewProps([], AllSources(s));
  }

  /** The confidence is the mean of the successful checkers' confidences: when each of
      those lies in [0, 1], so does the aggregate's. */
  lemma {:induction false} SumConfidenceBounds(rs: seq<FactCheckResult>)
    requires forall r :: r in rs ==> 0.0 <= r.confidence <= 1.0
    ensures 0.0 <= SumConfidence(rs) <= |rs| as real
    decreases |rs|
  {
    if |rs| > 0 {
      assert forall r :: r in rs[1..] ==> r in rs;
      SumConfidenceBounds(rs[1..]);
    }
  }

  lemma AggregateConfidence(runs: seq<Run>)
    requires forall r :: r in Successes(runs) ==> 0.0 <= r.confidence <= 1.0
    ensures 0.0 <= Aggregate(runs).confidence <= 1.0
  {
    AggregateSpec(runs);
    var s := Successes(runs);
    SumConfidenceBounds(s);
    if |s| > 0 {
      MeanInUnit(SumConfidence(s), |s|);
    }
  }

  lemma {:induction false} SuccessesAppend(a: seq<Run>, b: seq<Run>)
    ensures Successes(a + b) == Successes(a) + Successes(b)
    decreases |a|
  {
    if |a| == 0 {
      assert a + b == b;
    } else {
      assert (a + b)[0] == a[0] && (a + b)[1..] == a[1..] + b;
      SuccessesAppend(a[1..], b);
      assert Successes(a + b) == SuccessOf(a[0]) + Successes(a[1..] + b);
      assert Successes(a) == SuccessOf(a[0]) + Successes(a[1..]);
      assert SuccessOf(a[0]) + (Successes(a[1..]) + Successes(b)) == (SuccessOf(a[0]) + Successes(a[1..])) + Successes(b);
    }
  }

  lemma {:induction false} ErrorLinesAppend(a: seq<Run>, b: seq<Run>)
    ensures ErrorLines(a + b) == ErrorLines(a) + ErrorLines(b)
    decreases |a|
  {
    if |a| == 0 {
      assert a + b == b;
    } else {
      assert (a + b)[0] == a[0] && (a + b)[1..] == a[1..] + b;
      ErrorLinesAppend(a[1..], b);
      assert ErrorLines(a + b) == LineOf(a[0]) + ErrorLines(a[1..] + b);
      assert ErrorLines(a) == LineOf(a[0]) + ErrorLines(a[1..]);
      assert LineOf(a[0]) + (ErrorLines(a[1..]) + ErrorLines(b)) == (LineOf(a[0]) + ErrorLines(a[1..])) + ErrorLines(b);
    }
  }

  /** Splits off one run in the middle of the list. */
  lemma SplitSuccesses(before: seq<Run>, run: Run, after: seq<Run>)
    ensures Successes(before + [run] + after) == Successes(before) + SuccessOf(run) + Successes(after)
  {
    SuccessesAppend(before + [run], after);
    SuccessesAppend(before, [run]);
    assert [run][1..] == [];
    assert Successes([run]) == SuccessOf(run);
  }

  lemma SplitErrorLines(before: seq<Run>, run: Run, after: seq<Run>)
    ensures ErrorLines(before + [run] + after) == ErrorLines(before) + LineOf(run) + ErrorLines(after)
  {
    ErrorLinesAppend(before + [run], after);
    ErrorLinesAppend(before, [run]);
    assert [run][1..] == [];
    assert ErrorLines([run]) == LineOf(run);
  }

  /** A checker that raised adds its error line and nothing else: every later checker is
      still consulted and the successful ones contribute as before. */
  lemma ExceptionOnlyAddsError(before: seq<Run>, run: Run, after: seq<Run>)
    requires run.outcome.Threw?
    ensures Successes(before + [run] + after) == Successes(before + after)
    ensures ErrorLines(before + [run] + after)
            == ErrorLines(before) + [run.checker + ": " + run.outcome.message] + ErrorLines(after)
  {
    SplitSuccesses(before, run, after);
    SplitErrorLines(before, run, after);
    SuccessesAppend(before, after);
  }

  /** A checker that returned a status other than 'success' and 'error' changes nothing. */
  lemma OtherStatusIgnored(before: seq<Run>, run: Run, after: seq<Run>)
    requires run.outcome.Returned? && run.outcome.result.status != "success" && run.outcome.result.status != "error"
    ensures Aggregate(before + [run] + after) == Aggregate(before + after)
  {
    SplitSuccesses(before, run, after);
    SplitErrorLines(before, run, after);
    SuccessesAppend(before, after);
    ErrorLinesAppend(before, after);
    assert Successes(before + [run] + after) == Successes(before + after);
    assert ErrorLines(before + [run] + after) == ErrorLines(before + after);
    AggregateSpec(before + [run] + after);
    AggregateSpec(before + after);
  }
}

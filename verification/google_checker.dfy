/**
 * The Google Fact Check checker (`GoogleFactChecker` in
 * utils/fact_checkers/google_fact_check.py): the rating-to-score table and the shaping of
 * an API response into a `FactCheckResult`. The HTTP exchange is an input.
 */
module GoogleChecker {
  import opened Optional
  import opened Text
  import opened FactResult

  // ---------------------------------------------------------------------------
  // The API's JSON, as far as the checker reads it
  // ---------------------------------------------------------------------------

  datatype Publisher = Publisher(name: Option<string>)

  /** An element of a claim's `claimReview` list. */
  datatype Review = Review(url: Option<string>, publisher: Option<Publisher>)

  /** An element of the response's `claims` list; `None` is a missing key. */
  datatype ApiClaim = ApiClaim(
    text: Option<string>,
    claimant: Option<string>,
    title: Option<string>,
    reviewRating: Option<map<string, string>>,
    claimReview: Option<seq<Review>>)

  /** What `requests.get(...)`, `raise_for_status()` and `response.json()` produce: a
      `RequestException`, or the body's `claims` entry (`None` when the key is missing). */
  datatype HttpOutcome = RequestFailed(reason: string) | Body(claims: Option<seq<ApiClaim>>)

  // ---------------------------------------------------------------------------
  // _calculate_rating_score
  // ---------------------------------------------------------------------------

  /** The upper-cased `textualRating` of a rating object ('' when the key is missing). */
  function RatingText(rating: map<string, string>): string {
    Upper(if "textualRating" in rating then rating["textualRating"] else "")
  }

  /** `_calculate_rating_score` as written: an empty rating object scores 0.5; otherwise the
      keys TRUE, MOSTLY TRUE, MIXED, MOSTLY FALSE, FALSE are tried in that order against the
      upper-cased `textualRating` and the first one it contains gives the score; else 0.5. */
  function RatingScoreAsWritten(rating: map<string, string>): (score: real)
    ensures |rating| == 0 ==> score == 0.5
    ensures score == 0.0 || score == 0.2 || score == 0.5 || score == 0.8 || score == 1.0
  {
    if |rating| == 0 then 0.5
    else
      var t := RatingText(rating);
      if Contains(t, "TRUE") then 1.0
      else if Contains(t, "MOSTLY TRUE") then 0.8
      else if Contains(t, "MIXED") then 0.5
      else if Contains(t, "MOSTLY FALSE") then 0.2
      else if Contains(t, "FALSE") then 0.0
      else 0.5
  }

  /** A text that contains MOSTLY TRUE contains TRUE. */
  lemma MostlyTrueContainsTrue(t: string)
    requires Contains(t, "MOSTLY TRUE")
    ensures Contains(t, "TRUE")
  {
    var i :| 0 <= i <= |t| && OccursAt(t, "MOSTLY TRUE", i);
    assert t[i + 7..i + 11] == "MOSTLY TRUE"[7..];
    assert OccursAt(t, "TRUE", i + 7);
  }

  /** As written, every rating whose text contains TRUE scores 1.0, the 0.8 entry is never
      returned, and "Mostly True" scores 1.0. */
  lemma MostlyTrueScoresOne(rating: map<string, string>)
    ensures |rating| > 0 && Contains(RatingText(rating), "TRUE") ==> RatingScoreAsWritten(rating) == 1.0
    ensures RatingScoreAsWritten(rating) != 0.8
    ensures RatingScoreAsWritten(map["textualRating" := "Mostly True"]) == 1.0
  {
    if |rating| > 0 && Contains(RatingText(rating), "MOSTLY TRUE") {
      MostlyTrueContainsTrue(RatingText(rating));
    }
    assert Upper("Mostly True") == "MOSTLY TRUE";
    assert OccursAt("MOSTLY TRUE", "TRUE", 7);
  }

  /** `_calculate_rating_score` with MOSTLY TRUE tried before TRUE. */
  function RatingScore(rating: map<string, string>): (score: real)
    ensures |rating| == 0 ==> score == 0.5
    ensures score == 0.0 || score == 0.2 || score == 0.5 || score == 0.8 || score == 1.0
  {
    if |rating| == 0 then 0.5
    else
      var t := RatingText(rating);
      if Contains(t, "MOSTLY TRUE") then 0.8
      else if Contains(t, "TRUE") then 1.0
      else if Contains(t, "MIXED") then 0.5
      else if Contains(t, "MOSTLY FALSE") then 0.2
      else if Contains(t, "FALSE") then 0.0
      else 0.5
  }

  /** The two orders differ only on texts containing MOSTLY TRUE, which now score 0.8. */
  lemma RatingScoreDiffersOnlyOnMostlyTrue(rating: map<string, string>)
    ensures |rating| > 0 && Contains(RatingText(rating), "MOSTLY TRUE") ==> RatingScore(rating) == 0.8
    ensures |rating| == 0 || !Contains(RatingText(rating), "MOSTLY TRUE") ==>
      RatingScore(rating) == RatingScoreAsWritten(rating)
  {
  }

  /** `sub` is not in `s` when one of its characters is missing from `s`. */
  lemma MissingCharNotContained(s: string, sub: string, k: int)
    requires 0 <= k < |sub| && sub[k] !in s
    ensures !Contains(s, sub)
  {
    forall i | 0 <= i <= |s| - |sub|
      ensures !OccursAt(s, sub, i)
    {
      assert s[i..i + |sub|][k] == s[i + k];
    }
  }

  lemma TrueScoresOne()
    ensures RatingScore(map["textualRating" := "True"]) == 1.0
  {
    assert Upper("True") == "TRUE";
    ContainsSelf("TRUE");
    MissingCharNotContained("TRUE", "MOSTLY TRUE", 0);
  }

  lemma MostlyTrueScoresEight()
    ensures RatingScore(map["textualRating" := "Mostly True"]) == 0.8
  {
    assert Upper("Mostly True") == "MOSTLY TRUE";
    ContainsSelf("MOSTLY TRUE");
  }

  lemma MixedScoresHalf()
    ensures RatingScore(map["textualRating" := "Mixed"]) == 0.5
  {
    assert Upper("Mixed") == "MIXED";
    MissingCharNotContained("MIXED", "MOSTLY TRUE", 1);
    MissingCharNotContained("MIXED", "TRUE", 0);
    ContainsSelf("MIXED");
  }

  lemma MostlyFalseScoresTwo()
    ensures RatingScore(map["textualRating" := "Mostly False"]) == 0.2
  {
    assert Upper("Mostly False") == "MOSTLY FALSE";
    MissingCharNotContained("MOSTLY FALSE", "MOSTLY TRUE", 8);
    MissingCharNotContained("MOSTLY FALSE", "TRUE", 1);
    MissingCharNotContained("MOSTLY FALSE", "MIXED", 2);
    ContainsSelf("MOSTLY FALSE");
  }

  lemma FalseScoresZero()
    ensures RatingScore(map["textualRating" := "False"]) == 0.0
  {
    assert Upper("False") == "FALSE";
    MissingCharNotContained("FALSE", "MOSTLY TRUE", 0);
    MissingCharNotContained("FALSE", "TRUE", 0);
    MissingCharNotContained("FALSE", "MIXED", 0);
    MissingCharNotContained("FALSE", "MOSTLY FALSE", 0);
    ContainsSelf("FALSE");
  }

  /** With the corrected order each of the five labels, in the letter case fact-checkers
      publish it, scores its own entry. */
  lemma RatingLabelsScoreThemselves()
    ensures RatingScore(map["textualRating" := "True"]) == 1.0
    ensures RatingScore(map["textualRating" := "Mostly True"]) == 0.8
    ensures RatingScore(map["textualRating" := "Mixed"]) == 0.5
    ensures RatingScore(map["textualRating" := "Mostly False"]) == 0.2
    ensures RatingScore(map["textualRating" := "False"]) == 0.0
  {
    TrueScoresOne();
    MostlyTrueScoresEight();
    MixedScoresHalf();
    MostlyFalseScoresTwo();
    FalseScoresZero();
  }

  // ---------------------------------------------------------------------------
  // verify_claim
  // ---------------------------------------------------------------------------

  /** The publisher name of a review object: `.get('publisher', {}).get('name', 'Unknown')`. */
  function PublisherName(r: Review): string {
    match r.publisher
    case None => "Unknown"
    case Some(p) => p.name.GetOr("Unknown")
  }

  /** `claim.get('claimReview', [{}])[0]`: `None` for a present but empty list, where Python
      raises `IndexError`. */
  function FirstReview(c: ApiClaim): Option<Review> {
    match c.claimReview
    case None => Some(Review(None, None))
    case Some(rs) => if |rs| == 0 then None else Some(rs[0])
  }

  /** The fact dictionary built for one API claim whose first review exists. */
  function FactOf(c: ApiClaim, review: Review): (f: Fact)
    ensures f.Keys == {"text", "claimant", "rating", "title", "url", "publisher"}
    ensures f["publisher"] == PublisherName(review)
  {
    var rating := c.reviewRating.GetOr(map[]);
    map[
      "text" := c.text.GetOr(""),
      "claimant" := c.claimant.GetOr("Unknown"),
      "rating" := if "textualRating" in rating then rating["textualRating"] else "Unknown",
      "title" := c.title.GetOr(""),
      "url" := review.url.GetOr(""),
      "publisher" := PublisherName(review)]
  }

  /** Every API claim has its first review. */
  predicate AllReviewed(claims: seq<ApiClaim>) {
    forall i :: 0 <= i < |claims| ==> FirstReview(claims[i]).Some?
  }

  /** The facts of the loop over the API claims, one per claim, in order. */
  function FactsOf(claims: seq<ApiClaim>): (facts: seq<Fact>)
    requires AllReviewed(claims)
    ensures |facts| == |claims|
    ensures forall i :: 0 <= i < |claims| ==> facts[i] == FactOf(claims[i], FirstReview(claims[i]).value)
  {
    seq(|claims|, i requires 0 <= i < |claims| => FactOf(claims[i], FirstReview(claims[i]).value))
  }

  /** The rating scores of the API claims, in order. */
  function Scores(claims: seq<ApiClaim>): (scores: seq<real>)
    ensures |scores| == |claims|
    ensures forall i :: 0 <= i < |claims| ==> scores[i] == RatingScore(claims[i].reviewRating.GetOr(map[]))
  {
    seq(|claims|, i => if 0 <= i < |claims| then RatingScore(claims[i].reviewRating.GetOr(map[])) else 0.5)
  }

  function Sum(xs: seq<real>): real {
    if |xs| == 0 then 0.0 else xs[0] + Sum(xs[1..])
  }

  lemma {:induction false} SumInUnit(xs: seq<real>)
    requires forall i :: 0 <= i < |xs| ==> 0.0 <= xs[i] <= 1.0
    ensures 0.0 <= Sum(xs) <= |xs| as real
  {
    if |xs| > 0 {
      SumInUnit(xs[1..]);
    }
  }

  /** The mean of scores in [0, 1] lies in [0, 1]. */
  lemma MeanBounds(xs: seq<real>)
    requires |xs| > 0
    requires forall i :: 0 <= i < |xs| ==> 0.0 <= xs[i] <= 1.0
    ensures 0.0 <= Sum(xs) / |xs| as real <= 1.0
  {
    SumInUnit(xs);
    MeanInUnit(Sum(xs), |xs|);
  }

  /** The distinct non-empty strings of `xs`, in order of first occurrence: `list(set(...))`
      with the set's iteration order fixed. */
  function DistinctNonEmpty(xs: seq<string>, seen: seq<string>): (r: seq<string>)
    requires forall i, j :: 0 <= i < j < |seen| ==> seen[i] != seen[j]
    ensures forall i, j :: 0 <= i < j < |r| ==> r[i] != r[j]
    ensures forall s :: s in r <==> s in seen || (s in xs && s != "")
    decreases |xs|
  {
    if |xs| == 0 then seen
    else if xs[0] == "" || xs[0] in seen then DistinctNonEmpty(xs[1..], seen)
    else DistinctNonEmpty(xs[1..], seen + [xs[0]])
  }

  /** The non-empty publishers of the facts, each once. */
  function PublishersOf(facts: seq<Fact>): (sources: seq<string>)
    requires forall i :: 0 <= i < |facts| ==> "publisher" in facts[i]
    ensures forall i, j :: 0 <= i < j < |sources| ==> sources[i] != sources[j]
    ensures forall s :: s in sources <==> s != "" && exists i :: 0 <= i < |facts| && facts[i]["publisher"] == s
  {
    var pubs := seq(|facts|, i requires 0 <= i < |facts| => facts[i]["publisher"]);
    var r := DistinctNonEmpty(pubs, []);
    assert forall s :: s in pubs <==> exists i :: 0 <= i < |facts| && facts[i]["publisher"] == s by {
      forall s | s in pubs ensures exists i :: 0 <= i < |facts| && facts[i]["publisher"] == s {
        var i :| 0 <= i < |pubs| && pubs[i] == s;
      }
      forall s | (exists i :: 0 <= i < |facts| && facts[i]["publisher"] == s) ensures s in pubs {
        var i :| 0 <= i < |facts| && facts[i]["publisher"] == s;
        assert pubs[i] == s;
      }
    }
    r
  }

  /** The placeholder fact of the fallback results. */
  function Placeholder(claimText: string, rating: string, title: string): Fact {
    map["text" := claimText, "rating" := rating, "title" := title, "publisher" := "Fact Check System"]
  }

  /** The arguments of the neutral fallback result: verified, one placeholder fact, the
      system as the only source, confidence 0.5, status success. */
  function Fallback(claimText: string, rating: string, title: string): Args {
    Args(Some(true), Some([Placeholder(claimText, rating, title)]), Some(["Fact Check System"]),
         Some(0.5), Some("success"), None)
  }

  /** The constructor arguments the `try` block of `verify_claim` reaches for a response body,
      or the exception it raises first (`IndexError` for an empty `claimReview`). */
  function TryArgs(claimText: string, claims: seq<ApiClaim>): (a: Result<Args>)
    ensures |claims| == 0 ==> a == Ok(Fallback(claimText, "No Rating Available", "No Direct Matches"))
    ensures |claims| > 0 && !AllReviewed(claims) ==> a.Raised?
    ensures a.Ok? ==> a.value.verified == Some(true) && a.value.status == Some("success") && a.value.error == None
    ensures a.Ok? ==> a.value.confidence.Some? && 0.0 <= a.value.confidence.value <= 1.0
  {
    if |claims| == 0 then Ok(Fallback(claimText, "No Rating Available", "No Direct Matches"))
    else if !AllReviewed(claims) then Raised("IndexError: list index out of range")
    else
      var facts := FactsOf(claims);
      MeanBounds(Scores(claims));
      Ok(Args(Some(true), Some(facts), Some(PublishersOf(facts)),
              Some(Sum(Scores(claims)) / |claims| as real), Some("success"), None))
  }

  /** `verify_claim`, where `keywords` are the keyword names each `FactCheckResult(...)` call
      passes beyond `Args` (the source passes `reasoning` on every path). A failed request is
      handled by the `RequestException` branch, any other exception of the `try` block by the
      `Exception` branch; an exception raised inside a handler propagates to the caller. */
  function VerifyWith(claimText: string, http: HttpOutcome, keywords: seq<string>): Result<FactCheckResult> {
    match http
    case RequestFailed(_) =>
      New(Fallback(claimText, "Unable to Verify", "Service Unavailable"), keywords)
    case Body(found) =>
      var a := TryArgs(claimText, found.GetOr([]));
      var attempt := if a.Ok? then New(a.value, keywords) else Raised(a.message);
      if attempt.Ok? then attempt
      else New(Fallback(claimText, "Processing Error", "System Error"), keywords)
  }

  /** `GoogleFactChecker.verify_claim` as written: every path passes `reasoning`. */
  function VerifyAsWritten(claimText: string, http: HttpOutcome): Result<FactCheckResult> {
    VerifyWith(claimText, http, ["reasoning"])
  }

  /** As written, the call raises on every input, with the same `TypeError`. */
  lemma AsWrittenAlwaysRaises(claimText: string, http: HttpOutcome)
    ensures VerifyAsWritten(claimText, http) == Raised(UnexpectedKeyword("reasoning"))
  {
    assert "reasoning" !in Parameters;
  }

  /** The neutral fallback result. */
  function FallbackResult(claimText: string, rating: string, title: string): FactCheckResult {
    FactCheckResult(true, [Placeholder(claimText, rating, title)], ["Fact Check System"], 0.5, "success", None)
  }

  /** `GoogleFactChecker.verify_claim` with the unsupported `reasoning` argument dropped. It
      always reports success, verified, with a confidence in [0, 1]; it never reports 'error'. */
  function Verify(claimText: string, http: HttpOutcome): (r: FactCheckResult)
    ensures r.verified && r.status == "success" && r.error == None
    ensures 0.0 <= r.confidence <= 1.0
  {
    match http
    case RequestFailed(_) => Build(Fallback(claimText, "Unable to Verify", "Service Unavailable"))
    case Body(found) =>
      var claims := found.GetOr([]);
      var a := TryArgs(claimText, claims);
      if a.Ok? then Build(a.value)
      else Build(Fallback(claimText, "Processing Error", "System Error"))
  }

  /** `Verify` is the source's control flow with the extra keyword removed; like the rest of
      the model it scores ratings with the corrected `RatingScore`. */
  lemma VerifyIsVerifyWith(claimText: string, http: HttpOutcome)
    ensures VerifyWith(claimText, http, []) == Ok(Verify(claimText, http))
  {
  }

  /** A failed request, an empty claims list, or an empty review list yields the neutral
      fallback with its placeholder fact. */
  lemma VerifyFallbacks(claimText: string, http: HttpOutcome)
    ensures http.RequestFailed? ==>
      Verify(claimText, http) == FallbackResult(claimText, "Unable to Verify", "Service Unavailable")
    ensures http.Body? && |http.claims.GetOr([])| == 0 ==>
      Verify(claimText, http) == FallbackResult(claimText, "No Rating Available", "No Direct Matches")
    ensures http.Body? && |http.claims.GetOr([])| > 0 && !AllReviewed(http.claims.GetOr([])) ==>
      Verify(claimText, http) == FallbackResult(claimText, "Processing Error", "System Error")
  {
  }

  /** With reviewed claims there is one fact per claim in order, the sources are the distinct
      non-empty publishers, and the confidence is the mean rating score. */
  lemma VerifyClaims(claimText: string, claims: seq<ApiClaim>)
    requires |claims| > 0 && AllReviewed(claims)
    ensures var r := Verify(claimText, Body(Some(claims)));
      && r.matchingFacts == FactsOf(claims)
      && r.sources == PublishersOf(FactsOf(claims))
      && r.confidence == Sum(Scores(claims)) / |claims| as real
  {
  }
}

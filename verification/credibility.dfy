/**
 * The credibility scorer (`CredibilityScorer` in utils/credibility_scorer.py): a fixed
 * weighted sum of a source score, a fact-match score and the claim's own confidence,
 * clamped to [0, 1] and mapped to a risk band.
 */
module Credibility {
  import opened Optional
  import opened FactResult

  datatype RiskLevel = Low | Medium | High

  const SourceWeight: real := 0.4
  const FactWeight: real := 0.3
  const ConfidenceWeight: real := 0.3

  /** What the scorer reads of a fact-check dictionary; `None` is a missing key, read with
      the default of `.get` (`False`, `[]`, `[]`). */
  datatype FactCheckView = FactCheckView(
    verified: Option<bool>,
    sources: Option<seq<string>>,
    matchingFacts: Option<seq<Fact>>)

  /** The dictionary of a fact-check result. */
  function ViewOf(r: FactCheckResult): FactCheckView {
    FactCheckView(Some(r.verified), Some(r.sources), Some(r.matchingFacts))
  }

  /** The dictionary put in place of a falsy argument. */
  const Unverified := FactCheckView(Some(false), Some([]), Some([]))

  /** One line of the `reasoning` list; the number is printed with two decimals. */
  datatype Reason =
    | SourceReliability(score: real)
    | FactCheckMatches(score: real)
    | ClaimConfidence(score: real)

  datatype Credibility = Credibility(
    score: real,
    reasoning: seq<Reason>,
    risk: RiskLevel,
    sourceScore: real,
    factScore: real,
    confidenceScore: real)

  function Min(a: real, b: real): real {
    if a <= b then a else b
  }

  /** `_evaluate_sources`: 0.2 per source, at most 0.8. */
  function EvaluateSources(sources: seq<string>): (s: real)
    ensures 0.0 <= s <= 0.8
    ensures |sources| <= 4 ==> s == 0.2 * |sources| as real
    ensures |sources| >= 4 ==> s == 0.8
  {
    if |sources| == 0 then 0.0 else Min(|sources| as real * 0.2, 0.8)
  }

  /** The fact-match score: 0.2 per matching fact, at most 1.0. */
  function FactScore(facts: seq<Fact>): (s: real)
    ensures 0.0 <= s <= 1.0
    ensures |facts| <= 5 ==> s == 0.2 * |facts| as real
    ensures |facts| >= 5 ==> s == 1.0
  {
    if |facts| == 0 then 0.0 else Min(|facts| as real * 0.2, 1.0)
  }

  /** `_get_risk_level`. */
  function RiskOf(score: real): (risk: RiskLevel)
    ensures risk == Low <==> score >= 0.7
    ensures risk == Medium <==> 0.4 <= score < 0.7
    ensures risk == High <==> score < 0.4
  {
    if score >= 0.7 then Low
    else if score >= 0.4 then Medium
    else High
  }

  /** `max(0.0, min(1.0, x))`. */
  function Clamp(x: real): (r: real)
    ensures 0.0 <= r <= 1.0
    ensures 0.0 <= x <= 1.0 ==> r == x
  {
    if x < 0.0 then 0.0 else if x > 1.0 then 1.0 else x
  }

  /** `calculate_score`: `claimConfidence` is the claim's `confidence` entry (`None` when the
      claim data is missing or has no such key), `factCheck` the fact-check dictionary
      (`None` when it is falsy). */
  function CalculateScore(claimConfidence: Option<real>, factCheck: Option<FactCheckView>): (c: Credibility)
    ensures 0.0 <= c.score <= 1.0
    ensures c.risk == RiskOf(c.score)
    ensures c.score == Clamp(SourceWeight * c.sourceScore + FactWeight * c.factScore + ConfidenceWeight * c.confidenceScore)
    ensures c.confidenceScore == claimConfidence.GetOr(0.0)
    ensures 0.0 <= c.sourceScore <= 0.8 && 0.0 <= c.factScore <= 1.0
  {
    var fc := factCheck.GetOr(Unverified);
    var verified := fc.verified.GetOr(false);
    var facts := fc.matchingFacts.GetOr([]);
    var sourceScore := if verified then EvaluateSources(fc.sources.GetOr([])) else 0.0;
    var factScore := FactScore(facts);
    var confidence := claimConfidence.GetOr(0.0);
    var reasoning :=
      (if verified then [SourceReliability(sourceScore)] else [])
      + (if |facts| > 0 then [FactCheckMatches(factScore)] else [])
      + (if claimConfidence.Some? then [ClaimConfidence(confidence)] else []);
    var score := Clamp(SourceWeight * sourceScore + FactWeight * factScore + ConfidenceWeight * confidence);
    Credibility(score, reasoning, RiskOf(score), sourceScore, factScore, confidence)
  }

  /** A falsy fact-check argument scores as an unverified result without sources or facts. */
  lemma FalsyIsUnverified(claimConfidence: Option<real>)
    ensures CalculateScore(claimConfidence, None) == CalculateScore(claimConfidence, Some(Unverified))
    ensures CalculateScore(claimConfidence, None)
            == CalculateScore(claimConfidence, Some(FactCheckView(None, None, None)))
  {
  }

  /** The source score counts only for a verified result; the fact score only with facts;
      the confidence only when the claim carries one. */
  lemma ComponentScores(claimConfidence: Option<real>, fc: FactCheckView)
    ensures var c := CalculateScore(claimConfidence, Some(fc));
      && (c.sourceScore == if fc.verified == Some(true) then EvaluateSources(fc.sources.GetOr([])) else 0.0)
      && c.factScore == FactScore(fc.matchingFacts.GetOr([]))
      && (claimConfidence.None? ==> c.confidenceScore == 0.0)
  {
  }

  /** One reasoning line per branch taken, in the order source, facts, confidence; a
      verified result without sources still reports its source line. */
  lemma ReasoningLines(claimConfidence: Option<real>, fc: FactCheckView)
    ensures var c := CalculateScore(claimConfidence, Some(fc));
      var verified := fc.verified == Some(true);
      var hasFacts := |fc.matchingFacts.GetOr([])| > 0;
      && |c.reasoning| == (if verified then 1 else 0) + (if hasFacts then 1 else 0) + (if claimConfidence.Some? then 1 else 0)
      && (verified ==> c.reasoning[0] == SourceReliability(c.sourceScore))
      && (claimConfidence.Some? ==> c.reasoning[|c.reasoning| - 1] == ClaimConfidence(claimConfidence.value))
      && (hasFacts ==> FactCheckMatches(c.factScore) in c.reasoning)
  {
  }

  /** For a confidence in [0, 1] the clamp never bites: the score is the weighted sum, at
      most 0.32 + 0.3 + 0.3. */
  lemma NoClampForUnitConfidence(claimConfidence: Option<real>, factCheck: Option<FactCheckView>)
    requires 0.0 <= claimConfidence.GetOr(0.0) <= 1.0
    ensures var c := CalculateScore(claimConfidence, factCheck);
      c.score == SourceWeight * c.sourceScore + FactWeight * c.factScore + ConfidenceWeight * c.confidenceScore
      && c.score <= 0.92
  {
  }

  /** An unverified result without facts (the aggregator's failure result among them) scores
      at most 0.3 for a confidence in [0, 1], so its risk is high. */
  lemma NoEvidenceIsHighRisk(claimConfidence: Option<real>, fc: FactCheckView)
    requires fc.verified != Some(true) && |fc.matchingFacts.GetOr([])| == 0
    requires 0.0 <= claimConfidence.GetOr(0.0) <= 1.0
    ensures CalculateScore(claimConfidence, Some(fc)).score <= 0.3
    ensures CalculateScore(claimConfidence, Some(fc)).risk == High
  {
  }

  /** An unverified result never reaches low risk. */
  lemma UnverifiedNeverLowRisk(claimConfidence: Option<real>, fc: FactCheckView)
    requires fc.verified != Some(true)
    requires 0.0 <= claimConfidence.GetOr(0.0) <= 1.0
    ensures CalculateScore(claimConfidence, Some(fc)).risk != Low
  {
  }

  function Rank(r: RiskLevel): nat {
    match r
    case High => 0
    case Medium => 1
    case Low => 2
  }

  /** A higher score never gets a riskier band. */
  lemma RiskMonotone(a: real, b: real)
    requires a <= b
    ensures Rank(RiskOf(a)) <= Rank(RiskOf(b))
  {
  }

  /** More evidence never lowers the score: more sources, more facts or a higher confidence
      with everything else equal. */
  lemma ScoreMonotone(conf1: real, conf2: real, verified: bool,
                      sources1: seq<string>, sources2: seq<string>, facts1: seq<Fact>, facts2: seq<Fact>)
    requires conf1 <= conf2 && |sources1| <= |sources2| && |facts1| <= |facts2|
    ensures CalculateScore(Some(conf1), Some(FactCheckView(Some(verified), Some(sources1), Some(facts1)))).score
            <= CalculateScore(Some(conf2), Some(FactCheckView(Some(verified), Some(sources2), Some(facts2)))).score
  {
  }
}

/**
 * The score helpers of the web page (static/js/main.js): the label band, the colour band
 * and the three analysis factors shown for a credibility score.
 */
module ScoreDisplay {
  import Credibility

  datatype Label = HighlyCredible | MostlyCredible | SomewhatCredible | LowCredibility | NotCredible

  datatype Colour = Green | Yellow | Red

  /** The five labels from the least to the most credible. */
  function LabelRank(l: Label): nat {
    match l
    case NotCredible => 0
    case LowCredibility => 1
    case SomewhatCredible => 2
    case MostlyCredible => 3
    case HighlyCredible => 4
  }

  /** The text shown for a label. */
  function LabelText(l: Label): string {
    match l
    case HighlyCredible => "Highly Credible"
    case MostlyCredible => "Mostly Credible"
    case SomewhatCredible => "Somewhat Credible"
    case LowCredibility => "Low Credibility"
    case NotCredible => "Not Credible"
  }

  /** `getScoreLabel`: bands at 0.8, 0.6, 0.4 and 0.2. */
  function ScoreLabel(score: real): (l: Label)
    ensures l == HighlyCredible <==> score >= 0.8
    ensures l == MostlyCredible <==> 0.6 <= score < 0.8
    ensures l == SomewhatCredible <==> 0.4 <= score < 0.6
    ensures l == LowCredibility <==> 0.2 <= score < 0.4
    ensures l == NotCredible <==> score < 0.2
  {
    if score >= 0.8 then HighlyCredible
    else if score >= 0.6 then MostlyCredible
    else if score >= 0.4 then SomewhatCredible
    else if score >= 0.2 then LowCredibility
    else NotCredible
  }

  /** The five labels read differently. */
  lemma LabelTextsDistinct(a: Label, b: Label)
    requires a != b
    ensures LabelText(a) != LabelText(b)
  {
  }

  /** A higher score never gets a lower label. */
  lemma ScoreLabelMonotone(a: real, b: real)
    requires a <= b
    ensures LabelRank(ScoreLabel(a)) <= LabelRank(ScoreLabel(b))
  {
  }

  /** `getScoreColor`: green from 0.7, yellow from 0.4, red below. */
  function ScoreColour(score: real): (c: Colour)
    ensures c == Green <==> score >= 0.7
    ensures c == Yellow <==> 0.4 <= score < 0.7
    ensures c == Red <==> score < 0.4
  {
    if score >= 0.7 then Green
    else if score >= 0.4 then Yellow
    else Red
  }

  function HexCode(c: Colour): string {
    match c
    case Green => "#28a745"
    case Yellow => "#ffc107"
    case Red => "#dc3545"
  }

  /** The colour bands are the scorer's risk bands: green is low risk, yellow medium, red high. */
  lemma ColourMatchesRisk(score: real)
    ensures ScoreColour(score) == Green <==> Credibility.RiskOf(score) == Credibility.Low
    ensures ScoreColour(score) == Yellow <==> Credibility.RiskOf(score) == Credibility.Medium
    ensures ScoreColour(score) == Red <==> Credibility.RiskOf(score) == Credibility.High
  {
  }

  datatype Factor = Factor(title: string, value: string, positive: bool)

  /** `generateScoreFactors` without its HTML: source reliability from 0.7, fact-check matches
      from 0.5, content analysis from 0.6. */
  function ScoreFactors(score: real): (fs: seq<Factor>)
    ensures |fs| == 3
    ensures fs[0].title == "Source Reliability" && fs[1].title == "Fact Check Matches" && fs[2].title == "Content Analysis"
    ensures fs[0].positive <==> score >= 0.7
    ensures fs[1].positive <==> score >= 0.5
    ensures fs[2].positive <==> score >= 0.6
  {
    [ Factor("Source Reliability", if score >= 0.7 then "High" else "Low", score >= 0.7),
      Factor("Fact Check Matches", if score >= 0.5 then "Found" else "None", score >= 0.5),
      Factor("Content Analysis", if score >= 0.6 then "Valid" else "Suspicious", score >= 0.6) ]
  }

  /** A factor that is positive for a score stays positive for every higher score; a score
      whose colour is green has all three factors positive. */
  lemma FactorsMonotone(a: real, b: real)
    requires a <= b
    ensures forall i :: 0 <= i < 3 && ScoreFactors(a)[i].positive ==> ScoreFactors(b)[i].positive
    ensures ScoreColour(b) == Green ==> forall i :: 0 <= i < 3 ==> ScoreFactors(b)[i].positive
  {
  }
}

/**
 * The `/analyze` route of app.py: claims are extracted from the posted content, each claim
 * is checked by the aggregator over the configured checkers, scored, and, when the request
 * carries a location, recorded by the geographic tracker with `false_claim` set exactly when
 * the risk level is 'high'. The checkers' outcomes and the clock are parameters.
 */
module Pipeline {
  import opened Optional
  import opened FactResult
  import Text
  import ClaimProcessor
  import GoogleChecker
  import Aggregator
  import Credibility
  import GeoTracker

  /** The request's `location`: `None` when absent or `null`, otherwise its dictionary. */
  type Location = map<string, string>

  /** `if location:` — a dictionary is truthy when it is not empty. */
  predicate Truthy(location: Option<Location>) {
    location.Some? && |location.value| > 0
  }

  /** `location.get('country')` as seen by `track_claim`. */
  function CountryCode(location: Location): Option<string> {
    if "country" in location then Some(location["country"]) else None
  }

  /** The string `_get_risk_level` returns. */
  function RiskText(r: Credibility.RiskLevel): string {
    match r
    case Low => "low"
    case Medium => "medium"
    case High => "high"
  }

  /** One entry of the response's `results`. */
  datatype Analysed = Analysed(
    claim: ClaimProcessor.Claim,
    credibility: Credibility.Credibility,
    factCheck: FactCheckResult)

  /** The `claim_data` dictionary handed to `track_claim`. */
  function TrackedOf(a: Analysed): (c: GeoTracker.TrackedClaim)
    ensures c.falseClaim <==> a.credibility.risk == Credibility.High
  {
    GeoTracker.TrackedClaim(a.claim.text, a.claim.entities, Some(RiskText(a.credibility.risk)),
                            a.factCheck.sources, a.credibility.risk == Credibility.High)
  }

  /** The result of one pass of the loop over the claims: `runs` are the checkers' outcomes
      on the claim's text. */
  function ResultFor(claim: ClaimProcessor.Claim, runs: seq<Aggregator.Run>): Analysed {
    var fc := Aggregator.Aggregate(runs);
    Analysed(claim, Credibility.CalculateScore(Some(claim.confidence), Some(Credibility.ViewOf(fc))), fc)
  }

  /** The tracking at the end of a pass: `track_claim` when the location is truthy, with
      `now` its clock reading. */
  function TrackResult(t: GeoTracker.Tracker, a: Analysed, location: Option<Location>, now: int): GeoTracker.Tracker {
    if Truthy(location) then GeoTracker.Track(t, TrackedOf(a), CountryCode(location.value), now) else t
  }

  /** The results of the loop's passes; `outcomes` gives the checkers' outcomes for a claim
      text. */
  function ResultsOf(claims: seq<ClaimProcessor.Claim>, outcomes: string -> seq<Aggregator.Run>): seq<Analysed>
    decreases |claims|
  {
    if |claims| == 0 then [] else [ResultFor(claims[0], outcomes(claims[0].text))] + ResultsOf(claims[1..], outcomes)
  }

  /** The tracking of the loop's passes, in order, the `from`-th clock reading first. */
  function TrackAll(t: GeoTracker.Tracker, rs: seq<Analysed>, location: Option<Location>,
                    clock: nat -> int, from: nat): GeoTracker.Tracker
    decreases |rs|
  {
    if |rs| == 0 then t else TrackAll(TrackResult(t, rs[0], location, clock(from)), rs[1..], location, clock, from + 1)
  }

  /** The loop over the claims. A pass's result does not read the tracker, so the loop is
      the passes' results together with their tracking in claim order. */
  function AnalyseAll(t: GeoTracker.Tracker, claims: seq<ClaimProcessor.Claim>,
                      outcomes: string -> seq<Aggregator.Run>, location: Option<Location>,
                      clock: nat -> int, from: nat): (GeoTracker.Tracker, seq<Analysed>)
  {
    var rs := ResultsOf(claims, outcomes);
    (TrackAll(t, rs, location, clock, from), rs)
  }

  /** The JSON response: the placeholder for empty content, the placeholder for content
      without claims (score 0.0, risk 'medium'), or one result per claim. */
  datatype Response = NoContent | NoClaims(content: string) | Results(results: seq<Analysed>)

  /** `analyze()` on the posted `content` and `location`. */
  function Analyze(t: GeoTracker.Tracker, p: ClaimProcessor.Processor, content: string,
                   outcomes: string -> seq<Aggregator.Run>, location: Option<Location>,
                   clock: nat -> int): (GeoTracker.Tracker, Response) {
    if |content| == 0 then (t, NoContent)
    else
      var claims := ClaimProcessor.ExtractClaims(p, content);
      if |claims| == 0 then (t, NoClaims(content))
      else
        var (t', rs) := AnalyseAll(t, claims, outcomes, location, clock, 0);
        (t', Results(rs))
  }

  // ---------------------------------------------------------------------------
  // Properties of the loop
  // ---------------------------------------------------------------------------

  /** The loop returns one result per claim, in order, each computed from its own claim and
      that claim's outcomes only. */
  lemma {:induction false} ResultsPerClaim(claims: seq<ClaimProcessor.Claim>, outcomes: string -> seq<Aggregator.Run>)
    ensures var rs := ResultsOf(claims, outcomes);
      |rs| == |claims| && forall i :: 0 <= i < |claims| ==> rs[i] == ResultFor(claims[i], outcomes(claims[i].text))
    decreases |claims|
  {
    if |claims| > 0 {
      ResultsPerClaim(claims[1..], outcomes);
      var rs := ResultsOf(claims, outcomes);
      forall i | 1 <= i < |claims| ensures rs[i] == ResultFor(claims[i], outcomes(claims[i].text)) {
        assert claims[i] == claims[1..][i - 1];
      }
    }
  }

  /** Without a truthy location nothing is tracked. */
  lemma {:induction false} NoLocationNoTracking(t: GeoTracker.Tracker, rs: seq<Analysed>,
                                                location: Option<Location>, clock: nat -> int, from: nat)
    requires !Truthy(location)
    ensures TrackAll(t, rs, location, clock, from) == t
    decreases |rs|
  {
    if |rs| > 0 {
      NoLocationNoTracking(t, rs[1..], location, clock, from + 1);
    }
  }

  /** The history entry `track_claim` appends for a result. */
  function EntryOf(a: Analysed, location: Location, now: int): GeoTracker.HistoryEntry {
    GeoTracker.HistoryEntry(a.claim.text, now, GeoTracker.CountryOf(CountryCode(location)),
                            Text.Upper(RiskText(a.credibility.risk)), a.factCheck.sources,
                            a.credibility.risk == Credibility.High)
  }

  /** The entries appended for a run of results, the `from`-th clock reading first. */
  function EntriesOf(rs: seq<Analysed>, location: Location, clock: nat -> int, from: nat): (es: seq<GeoTracker.HistoryEntry>)
    ensures |es| == |rs|
    decreases |rs|
  {
    if |rs| == 0 then [] else [EntryOf(rs[0], location, clock(from))] + EntriesOf(rs[1..], location, clock, from + 1)
  }

  /** A tracked pass appends the entry of its own result, whatever the tracker held. */
  lemma TrackAppends(t: GeoTracker.Tracker, a: Analysed, location: Option<Location>, now: int)
    requires Truthy(location)
    ensures TrackResult(t, a, location, now).history == t.history + [EntryOf(a, location.value, now)]
  {
  }

  /** With a truthy location every result is tracked once, in order, with its own clock
      reading. */
  lemma {:induction false} TrackedHistory(t: GeoTracker.Tracker, rs: seq<Analysed>,
                                          location: Option<Location>, clock: nat -> int, from: nat)
    requires Truthy(location)
    ensures TrackAll(t, rs, location, clock, from).history == t.history + EntriesOf(rs, location.value, clock, from)
    decreases |rs|
  {
    if |rs| > 0 {
      var t1 := TrackResult(t, rs[0], location, clock(from));
      TrackAppends(t, rs[0], location, clock(from));
      TrackedHistory(t1, rs[1..], location, clock, from + 1);
      assert TrackAll(t, rs, location, clock, from) == TrackAll(t1, rs[1..], location, clock, from + 1);
      var e := EntryOf(rs[0], location.value, clock(from));
      var es := EntriesOf(rs[1..], location.value, clock, from + 1);
      assert EntriesOf(rs, location.value, clock, from) == [e] + es;
      assert t1.history == t.history + [e];
      assert (t.history + [e]) + es == t.history + ([e] + es);
    }
  }

  lemma UpperHigh()
    ensures Text.Upper("high") == "HIGH"
  {
    assert Text.Upper("high")[0] == 'H';
  }

  /** A tracked claim is recorded as false exactly when its risk level is 'high', and then
      its history entry reads "HIGH". */
  lemma FalseClaimIsHighRisk(a: Analysed, location: Location, now: int)
    ensures var e := EntryOf(a, location, now);
      && (e.isFalse <==> a.credibility.risk == Credibility.High)
      && (e.isFalse <==> e.riskLevel == "HIGH")
  {
    var e := EntryOf(a, location, now);
    UpperHigh();
    assert e.riskLevel == Text.Upper(RiskText(a.credibility.risk));
    if a.credibility.risk != Credibility.High {
      assert e.riskLevel[0] != 'H';
    }
  }

  // ---------------------------------------------------------------------------
  // The checker list of app.py
  // ---------------------------------------------------------------------------

  /** An exception becomes `Threw`; a returned result `Returned`. */
  function OutcomeOf(r: Result<FactCheckResult>): Aggregator.Outcome {
    match r
    case Ok(v) => Aggregator.Returned(v)
    case Raised(m) => Aggregator.Threw(m)
  }

  /** `[GoogleFactChecker()]` as written, on one claim text and its HTTP outcome. */
  function AppRunsAsWritten(text: string, http: GoogleChecker.HttpOutcome): seq<Aggregator.Run> {
    [Aggregator.Run("GoogleFactChecker", OutcomeOf(GoogleChecker.VerifyAsWritten(text, http)))]
  }

  /** The same list with the corrected Google checker. */
  function AppRuns(text: string, http: GoogleChecker.HttpOutcome): seq<Aggregator.Run> {
    [Aggregator.Run("GoogleFactChecker", Aggregator.Returned(GoogleChecker.Verify(text, http)))]
  }

  /** As written, the only checker raises on every claim, so every claim's fact check is the
      aggregator's error result and every claim scores at most 0.3, risk 'high': with a
      location, every tracked claim is recorded as false. */
  lemma AsWrittenEveryClaimHighRisk(claim: ClaimProcessor.Claim, http: GoogleChecker.HttpOutcome)
    requires ClaimProcessor.WellShaped(claim)
    ensures var a := ResultFor(claim, AppRunsAsWritten(claim.text, http));
      && !a.factCheck.verified && a.factCheck.status == "error"
      && a.credibility.score <= 0.3
      && a.credibility.risk == Credibility.High
      && TrackedOf(a).falseClaim
  {
    var runs := AppRunsAsWritten(claim.text, http);
    GoogleChecker.AsWrittenAlwaysRaises(claim.text, http);
    assert Aggregator.Successes(runs) == [] by {
      assert runs[1..] == [];
    }
    Aggregator.AggregateFailure(runs);
    var fc := Aggregator.Aggregate(runs);
    Credibility.NoEvidenceIsHighRisk(Some(claim.confidence), Credibility.ViewOf(fc));
  }

  /** The aggregate over one successful checker is that checker's result, verified, with its
      facts de-duplicated. */
  lemma AggregateOfOne(g: FactCheckResult)
    requires g.status == "success"
    ensures var r := Aggregator.Aggregate([Aggregator.Run("GoogleFactChecker", Aggregator.Returned(g))]);
      && r.verified && r.status == "success"
      && r.confidence == g.confidence
      && r.matchingFacts == Aggregator.Dedup(g.matchingFacts)
  {
    var runs := [Aggregator.Run("GoogleFactChecker", Aggregator.Returned(g))];
    assert Aggregator.Successes(runs) == [g] by {
      assert runs[1..] == [];
    }
    Aggregator.AggregateSuccess(runs);
    assert Aggregator.SumConfidence([g]) == g.confidence;
    assert Aggregator.AllFacts([g]) == g.matchingFacts;
  }

  /** With the corrected checker every claim's fact check is verified, with the Google
      checker's own confidence and its facts de-duplicated. */
  lemma CorrectedIsVerified(claim: ClaimProcessor.Claim, http: GoogleChecker.HttpOutcome)
    ensures var a := ResultFor(claim, AppRuns(claim.text, http));
      var g := GoogleChecker.Verify(claim.text, http);
      && a.factCheck.verified && a.factCheck.status == "success"
      && a.factCheck.confidence == g.confidence
      && a.factCheck.matchingFacts == Aggregator.Dedup(g.matchingFacts)
  {
    AggregateOfOne(GoogleChecker.Verify(claim.text, http));
  }

  /** Empty content and content without claims leave the tracker alone. */
  lemma PlaceholdersTrackNothing(t: GeoTracker.Tracker, p: ClaimProcessor.Processor, content: string,
                                 outcomes: string -> seq<Aggregator.Run>, location: Option<Location>,
                                 clock: nat -> int)
    ensures var (t', r) := Analyze(t, p, content, outcomes, location, clock);
      && (|content| == 0 ==> r == NoContent)
      && (!r.Results? ==> t' == t)
      && (r.Results? ==> |r.results| == |ClaimProcessor.ExtractClaims(p, content)| > 0)
  {
    if |content| > 0 && |ClaimProcessor.ExtractClaims(p, content)| > 0 {
      ResultsPerClaim(ClaimProcessor.ExtractClaims(p, content), outcomes);
    }
  }
}

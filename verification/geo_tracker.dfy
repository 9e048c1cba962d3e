/**
 * Geographical tracking of checked claims (`GeoTracker` in utils/geo_tracker.py):
 * per-country counters, an append-only claim history, and the views derived from them.
 * The clock (`datetime.now()`) is a parameter: a timestamp is an integer count of
 * microseconds of local time, and its date is the day it falls in.
 */
module GeoTracker {
  import opened Optional
  import opened Counting
  import opened Sorting
  import Text
  import ClaimProcessor
  import Credibility
  import FactResult

  // ---------------------------------------------------------------------------
  // State
  // ---------------------------------------------------------------------------

  /** The country-code table of the constructor. */
  const CountryNames: map<string, string> := map[
    "USA" := "United States",
    "GBR" := "United Kingdom",
    "CAN" := "Canada",
    "AUS" := "Australia",
    "IND" := "India"]

  /** One entry of `claim_history`. */
  datatype HistoryEntry = HistoryEntry(
    text: string,
    timestamp: int,
    location: string,
    riskLevel: string,
    sources: seq<string>,
    isFalse: bool)

  /** The `geo_data` defaultdict split by field: `totals` and `falses` count claims per
      country (their key order is the order in which countries were first touched),
      `topics` and `sources` hold each country's two inner counters. */
  datatype Tracker = Tracker(
    totals: Counter,
    falses: Counter,
    topics: map<string, Counter>,
    sources: map<string, Counter>,
    history: seq<HistoryEntry>)

  function NewTracker(): Tracker {
    Tracker(Counting.Empty(), Counting.Empty(), map[], map[], [])
  }

  /** A country's topic counter (empty for a country never touched). */
  function TopicsOf(t: Tracker, c: string): Counter {
    if c in t.topics then t.topics[c] else Counting.Empty()
  }

  function SourcesOf(t: Tracker, c: string): Counter {
    if c in t.sources then t.sources[c] else Counting.Empty()
  }

  /** The number of false claims in a history. */
  function FalseCount(h: seq<HistoryEntry>): (n: nat)
    ensures n <= |h|
    decreases |h|
  {
    if |h| == 0 then 0 else FalseCount(h[..|h| - 1]) + (if h[|h| - 1].isFalse then 1 else 0)
  }

  /** Every counter is well formed. */
  ghost predicate CountersValid(t: Tracker) {
    && Counting.Valid(t.totals)
    && Counting.Valid(t.falses)
    && (forall c :: c in t.topics ==> Counting.Valid(t.topics[c]))
    && (forall c :: c in t.sources ==> Counting.Valid(t.sources[c]))
  }

  /** The four fields hold the same countries: one defaultdict access creates all of them. */
  ghost predicate SameCountries(t: Tracker) {
    forall c :: (c in t.topics <==> c in t.totals.keys) && (c in t.sources <==> c in t.totals.keys)
  }

  /** The tracker's invariant: every field lists the same countries, no country
      has more false claims than claims, and the counters add up to the history. */
  ghost predicate Consistent(t: Tracker) {
    && CountersValid(t)
    && SameCountries(t)
    && t.falses.keys == t.totals.keys
    && (forall c :: Get(t.falses, c) <= Get(t.totals, c))
    && Total(t.totals) == |t.history|
    && Total(t.falses) == FalseCount(t.history)
  }

  lemma NewTrackerConsistent()
    ensures Consistent(NewTracker())
  {
  }

  // ---------------------------------------------------------------------------
  // track_claim
  // ---------------------------------------------------------------------------

  /** What `track_claim` reads of its claim dictionary. */
  datatype TrackedClaim = TrackedClaim(
    text: string,
    entities: seq<ClaimProcessor.Tagged>,
    riskLevel: Option<string>,
    sources: seq<string>,
    falseClaim: bool)

  /** `country_mapping.get(code, code)` on `location.get('country', 'Unknown')`. */
  function CountryOf(code: Option<string>): string {
    var c := code.GetOr("Unknown");
    if c in CountryNames then CountryNames[c] else c
  }

  /** Country names are not codes of the table, so resolving a name again leaves it. */
  lemma CountryOfIdempotent(code: Option<string>)
    ensures CountryOf(Some(CountryOf(code))) == CountryOf(code)
  {
    var c := code.GetOr("Unknown");
    if c in CountryNames {
      assert CountryNames[c] !in CountryNames by {
        assert forall k :: k in CountryNames ==> |k| == 3;
        assert forall k :: k in CountryNames ==> |CountryNames[k]| > 3;
      }
    }
  }

  /** The words of the entity pairs: a word tagged twice appears twice. */
  function EntityWords(es: seq<ClaimProcessor.Tagged>): (ws: seq<string>)
    ensures |ws| == |es|
    ensures forall i :: 0 <= i < |es| ==> ws[i] == es[i].word
  {
    seq(|es|, i requires 0 <= i < |es| => es[i].word)
  }

  /** `track_claim` at time `now`. */
  function Track(t: Tracker, claim: TrackedClaim, location: Option<string>, now: int): Tracker {
    var c := CountryOf(location);
    var entry := HistoryEntry(claim.text, now, c, Text.Upper(claim.riskLevel.GetOr("unknown")),
                              claim.sources, claim.falseClaim);
    Tracker(
      IncBy(t.totals, c, 1),
      IncBy(t.falses, c, if claim.falseClaim then 1 else 0),
      t.topics[c := IncAll(TopicsOf(t, c), EntityWords(claim.entities))],
      t.sources[c := IncAll(SourcesOf(t, c), claim.sources)],
      t.history + [entry])
  }

  /** One claim raises its country's claim count by one and its false count by one exactly
      when it is false; every other country keeps its counts. */
  lemma TrackCounts(t: Tracker, claim: TrackedClaim, location: Option<string>, now: int)
    ensures var r := Track(t, claim, location, now);
      var c := CountryOf(location);
      && Get(r.totals, c) == Get(t.totals, c) + 1
      && Get(r.falses, c) == Get(t.falses, c) + (if claim.falseClaim then 1 else 0)
      && (forall c' :: c' != c ==> Get(r.totals, c') == Get(t.totals, c') && Get(r.falses, c') == Get(t.falses, c'))
      && (forall c' :: c' != c ==> TopicsOf(r, c') == TopicsOf(t, c') && SourcesOf(r, c') == SourcesOf(t, c'))
  {
  }

  /** Each topic counter rises once per entity occurrence, each source counter once per
      listed source. */
  lemma TrackTopicsAndSources(t: Tracker, claim: TrackedClaim, location: Option<string>, now: int)
    ensures var r := Track(t, claim, location, now);
      var c := CountryOf(location);
      && (forall k :: Get(TopicsOf(r, c), k) == Get(TopicsOf(t, c), k) + multiset(EntityWords(claim.entities))[k])
      && (forall k :: Get(SourcesOf(r, c), k) == Get(SourcesOf(t, c), k) + multiset(claim.sources)[k])
  {
  }

  /** The history grows by the one entry, which records the resolved country, the upper-cased
      risk level and the falsity of the claim. */
  lemma TrackHistory(t: Tracker, claim: TrackedClaim, location: Option<string>, now: int)
    ensures var r := Track(t, claim, location, now);
      && |r.history| == |t.history| + 1
      && r.history[..|t.history|] == t.history
      && r.history[|t.history|]
         == HistoryEntry(claim.text, now, CountryOf(location), Text.Upper(claim.riskLevel.GetOr("unknown")),
                         claim.sources, claim.falseClaim)
  {
  }

  /** Appending an entry adds its falsity to the false count. */
  lemma FalseCountSnoc(h: seq<HistoryEntry>, e: HistoryEntry)
    ensures FalseCount(h + [e]) == FalseCount(h) + (if e.isFalse then 1 else 0)
  {
    assert (h + [e])[..|h|] == h;
  }

  /** Replacing one counter of a map of well-formed counters by a well-formed one. */
  lemma UpdateValid(m: map<string, Counter>, k: string, v: Counter, m': map<string, Counter>)
    requires forall c :: c in m ==> Counting.Valid(m[c])
    requires Counting.Valid(v) && m' == m[k := v]
    ensures forall c :: c in m' ==> Counting.Valid(m'[c])
  {
  }

  /** `track_claim` keeps every counter well formed. */
  lemma TrackCountersValid(t: Tracker, claim: TrackedClaim, location: Option<string>, now: int)
    requires CountersValid(t)
    ensures CountersValid(Track(t, claim, location, now))
  {
    var c := CountryOf(location);
    var r := Track(t, claim, location, now);
    IncByValid(t.totals, c, 1);
    IncByValid(t.falses, c, if claim.falseClaim then 1 else 0);
    var topics := IncAll(TopicsOf(t, c), EntityWords(claim.entities));
    var sources := IncAll(SourcesOf(t, c), claim.sources);
    IncAllValid(TopicsOf(t, c), EntityWords(claim.entities));
    IncAllValid(SourcesOf(t, c), claim.sources);
    UpdateValid(t.topics, c, topics, r.topics);
    UpdateValid(t.sources, c, sources, r.sources);
  }

  /** `track_claim` keeps the counters adding up to the history. */
  lemma TrackTotals(t: Tracker, claim: TrackedClaim, location: Option<string>, now: int)
    requires Counting.Valid(t.totals) && Counting.Valid(t.falses)
    requires Total(t.totals) == |t.history| && Total(t.falses) == FalseCount(t.history)
    ensures var r := Track(t, claim, location, now);
      Total(r.totals) == |r.history| && Total(r.falses) == FalseCount(r.history)
  {
    var c := CountryOf(location);
    var r := Track(t, claim, location, now);
    TotalIncBy(t.totals, c, 1);
    TotalIncBy(t.falses, c, if claim.falseClaim then 1 else 0);
    FalseCountSnoc(t.history, r.history[|t.history|]);
  }

  /** `track_claim` touches the same country in every field, and keeps no country's false
      count above its claim count. */
  lemma TrackCountries(t: Tracker, claim: TrackedClaim, location: Option<string>, now: int)
    requires SameCountries(t) && t.falses.keys == t.totals.keys
    requires forall c :: Get(t.falses, c) <= Get(t.totals, c)
    ensures var r := Track(t, claim, location, now);
      && SameCountries(r) && r.falses.keys == r.totals.keys
      && (forall c :: Get(r.falses, c) <= Get(r.totals, c))
  {
  }

  /** `track_claim` keeps the invariant. */
  lemma TrackConsistent(t: Tracker, claim: TrackedClaim, location: Option<string>, now: int)
    requires Consistent(t)
    ensures Consistent(Track(t, claim, location, now))
  {
    TrackCountersValid(t, claim, location, now);
    TrackTotals(t, claim, location, now);
    TrackCountries(t, claim, location, now);
  }

  // ---------------------------------------------------------------------------
  // Totals, active countries, accuracy
  // ---------------------------------------------------------------------------

  /** `get_total_claims`. */
  function TotalClaims(t: Tracker): nat {
    |t.history|
  }

  /** The number of claims is the sum of the per-country counts. */
  lemma TotalClaimsIsSum(t: Tracker)
    requires Consistent(t)
    ensures TotalClaims(t) == Total(t.totals)
    ensures FalseCount(t.history) == Total(t.falses)
  {
  }

  /** The countries of `keys` with at least one claim, in order. */
  function ActiveFrom(keys: seq<string>, totals: Counter): (cs: seq<string>)
    ensures forall c :: c in cs <==> c in keys && Get(totals, c) > 0
    decreases |keys|
  {
    if |keys| == 0 then []
    else (if Get(totals, keys[0]) > 0 then [keys[0]] else []) + ActiveFrom(keys[1..], totals)
  }

  /** `get_active_countries`: the countries with claims, in the order they were first seen. */
  function ActiveCountries(t: Tracker): (cs: seq<string>)
    requires Counting.Valid(t.totals)
    ensures forall c :: c in cs <==> Get(t.totals, c) > 0
  {
    ActiveFrom(t.totals.keys, t.totals)
  }

  /** `r` is a whole number of tenths. */
  predicate IsTenth(r: real) {
    (r * 10.0).Floor as real == r * 10.0
  }

  /** Python's `round(x, 1)` on exact reals: a tenth within 0.05 of `x`, hence a nearest
      tenth, and on a tie (exactly 0.05 away) the one with an even number of tenths. */
  function RoundTenth(x: real): (r: real)
    ensures IsTenth(r) && -0.05 <= r - x <= 0.05
    ensures r - x == 0.05 || x - r == 0.05 ==> (r * 10.0).Floor % 2 == 0
    ensures 0.0 <= x <= 100.0 ==> 0.0 <= r <= 100.0
  {
    var y := x * 10.0;
    var f := y.Floor;
    var frac := y - f as real;
    var n := if frac > 0.5 then f + 1 else if frac < 0.5 then f else if f % 2 == 0 then f else f + 1;
    assert (n as real / 10.0) * 10.0 == n as real;
    assert (n as real / 10.0) - x == (n as real - y) / 10.0;
    n as real / 10.0
  }

  /** The share of false claims in a non-empty history, in [0, 1]. */
  function FalseShare(h: seq<HistoryEntry>): (share: real)
    requires |h| > 0
    ensures 0.0 <= share <= 1.0
    ensures FalseCount(h) == 0 ==> share == 0.0
    ensures FalseCount(h) == |h| ==> share == 1.0
  {
    ShareBounds(FalseCount(h), |h|);
    FalseCount(h) as real / |h| as real
  }

  /** A part of a non-empty whole is a share in [0, 1], and the whole is all of it. */
  lemma ShareBounds(part: nat, whole: nat)
    requires 0 < whole && part <= whole
    ensures 0.0 <= part as real / whole as real <= 1.0
    ensures part == whole ==> part as real / whole as real == 1.0
  {
    FactResult.MeanInUnit(part as real, whole);
  }

  /** `get_accuracy_rate`: 100 for an empty history, otherwise `(1 - false/total) * 100`,
      rounded to one decimal. */
  function AccuracyRate(t: Tracker): (rate: real)
    ensures 0.0 <= rate <= 100.0
    ensures |t.history| == 0 ==> rate == 100.0
    ensures |t.history| > 0 ==> -0.05 <= rate - (1.0 - FalseShare(t.history)) * 100.0 <= 0.05
    ensures IsTenth(rate)
  {
    if |t.history| == 0 then 100.0
    else RoundTenth((1.0 - FalseShare(t.history)) * 100.0)
  }

  /** No false claim gives 100, only false claims give 0. */
  lemma AccuracyExtremes(t: Tracker)
    ensures FalseCount(t.history) == 0 ==> AccuracyRate(t) == 100.0
    ensures |t.history| > 0 && FalseCount(t.history) == |t.history| ==> AccuracyRate(t) == 0.0
  {
  }

  // ---------------------------------------------------------------------------
  // Hotspots and regional trends
  // ---------------------------------------------------------------------------

  datatype RiskLevel = Low | Medium | High

  /** `_calculate_risk_level` of a false-claim ratio. */
  function RatioRisk(ratio: real): (risk: RiskLevel)
    ensures risk == High <==> ratio >= 0.7
    ensures risk == Medium <==> 0.4 <= ratio < 0.7
    ensures risk == Low <==> ratio < 0.4
  {
    if ratio >= 0.7 then High else if ratio >= 0.4 then Medium else Low
  }

  datatype Hotspot = Hotspot(
    country: string,
    totalClaims: nat,
    falseClaims: nat,
    risk: RiskLevel,
    topics: seq<(string, nat)>,
    sources: seq<(string, nat)>)

  /** The hotspot record of a country with claims. */
  function HotspotOf(t: Tracker, c: string): Hotspot
    requires Get(t.totals, c) > 0
  {
    var total := Get(t.totals, c);
    var falses := Get(t.falses, c);
    Hotspot(c, total, falses, RatioRisk(falses as real / total as real),
            Items(TopicsOf(t, c)), Items(SourcesOf(t, c)))
  }

  function HotspotsOf(t: Tracker, cs: seq<string>): (hs: seq<Hotspot>)
    requires forall i :: 0 <= i < |cs| ==> Get(t.totals, cs[i]) > 0
    ensures |hs| == |cs|
    ensures forall i :: 0 <= i < |cs| ==> hs[i] == HotspotOf(t, cs[i])
  {
    seq(|cs|, i requires 0 <= i < |cs| => HotspotOf(t, cs[i]))
  }

  function FalseClaimsKey(h: Hotspot): int {
    h.falseClaims
  }

  /** `get_hotspots`: one record per country with claims, by false claims, most first. */
  function Hotspots(t: Tracker): (hs: seq<Hotspot>)
    requires Counting.Valid(t.totals)
    ensures SortedDesc(hs, FalseClaimsKey)
    ensures multiset(hs) == multiset(HotspotsOf(t, ActiveCountries(t)))
  {
    var active := ActiveCountries(t);
    SortDesc(HotspotsOf(t, active), FalseClaimsKey)
  }

  /** Every hotspot belongs to a country with claims and is that country's summary, with
      the risk band of its false-claim ratio. */
  lemma HotspotsSound(t: Tracker)
    requires Counting.Valid(t.totals)
    ensures forall h :: h in Hotspots(t) ==>
      && Get(t.totals, h.country) > 0
      && h == HotspotOf(t, h.country)
      && h.risk == RatioRisk(Get(t.falses, h.country) as real / Get(t.totals, h.country) as real)
  {
    var hs := HotspotsOf(t, ActiveCountries(t));
    forall h | h in Hotspots(t)
      ensures Get(t.totals, h.country) > 0 && h == HotspotOf(t, h.country)
    {
      assert h in multiset(hs);
      var i :| 0 <= i < |hs| && hs[i] == h;
    }
  }

  /** Every country with claims has its hotspot. */
  lemma HotspotsComplete(t: Tracker)
    requires Counting.Valid(t.totals)
    ensures forall c :: Get(t.totals, c) > 0 ==> HotspotOf(t, c) in Hotspots(t)
  {
    var active := ActiveCountries(t);
    var hs := HotspotsOf(t, active);
    forall c | Get(t.totals, c) > 0 ensures HotspotOf(t, c) in Hotspots(t) {
      var i :| 0 <= i < |active| && active[i] == c;
      assert hs[i] == HotspotOf(t, c);
      assert HotspotOf(t, c) in multiset(Hotspots(t));
    }
  }


  datatype RegionStats = RegionStats(
    country: string,
    totalClaims: nat,
    falseClaims: nat,
    risk: RiskLevel,
    topics: seq<(string, nat)>,
    sources: seq<(string, nat)>)

  /** `get_regional_trends`: the statistics of a country, and the tracker after the lookup,
      which inserts an all-zero record for a country never seen (a defaultdict access). */
  function RegionalTrends(t: Tracker, code: string): (Tracker, RegionStats) {
    var c := CountryOf(Some(code));
    var total := Get(t.totals, c);
    var falses := Get(t.falses, c);
    var t' := Tracker(
      IncBy(t.totals, c, 0),
      IncBy(t.falses, c, 0),
      t.topics[c := TopicsOf(t, c)],
      t.sources[c := SourcesOf(t, c)],
      t.history);
    (t', RegionStats(c, total, falses, RatioRisk(if total > 0 then falses as real / total as real else 0.0),
                     Items(TopicsOf(t, c)), Items(SourcesOf(t, c))))
  }

  /** The lookup changes no count and no history. */
  lemma RegionalTrendsChangesNoCount(t: Tracker, code: string)
    ensures var t' := RegionalTrends(t, code).0;
      && t'.history == t.history
      && (forall c :: Get(t'.totals, c) == Get(t.totals, c) && Get(t'.falses, c) == Get(t.falses, c))
      && (forall c :: TopicsOf(t', c) == TopicsOf(t, c) && SourcesOf(t', c) == SourcesOf(t, c))
  {
  }

  /** The lookup keeps every counter well formed. */
  lemma RegionalTrendsValid(t: Tracker, code: string)
    requires CountersValid(t)
    ensures CountersValid(RegionalTrends(t, code).0)
  {
    var c := CountryOf(Some(code));
    var t' := RegionalTrends(t, code).0;
    IncByValid(t.totals, c, 0);
    IncByValid(t.falses, c, 0);
    UpdateValid(t.topics, c, TopicsOf(t, c), t'.topics);
    UpdateValid(t.sources, c, SourcesOf(t, c), t'.sources);
  }

  /** The lookup keeps the counters adding up to the history. */
  lemma RegionalTrendsTotals(t: Tracker, code: string)
    requires Counting.Valid(t.totals) && Counting.Valid(t.falses)
    ensures var t' := RegionalTrends(t, code).0;
      Total(t'.totals) == Total(t.totals) && Total(t'.falses) == Total(t.falses)
  {
    var c := CountryOf(Some(code));
    TotalIncBy(t.totals, c, 0);
    TotalIncBy(t.falses, c, 0);
  }

  /** The lookup keeps the invariant and the set of active countries. */
  lemma RegionalTrendsConsistent(t: Tracker, code: string)
    requires Consistent(t)
    ensures var t' := RegionalTrends(t, code).0;
      && Consistent(t')
      && (forall c :: c in ActiveCountries(t') <==> c in ActiveCountries(t))
  {
    var t' := RegionalTrends(t, code).0;
    RegionalTrendsChangesNoCount(t, code);
    RegionalTrendsValid(t, code);
    RegionalTrendsTotals(t, code);
    assert SameCountries(t');
  }

  /** The statistics report the country's own counts and counters. A country without claims
      reads as no false claims and low risk; otherwise the risk is the band of its
      false-claim ratio. */
  lemma RegionalTrendsStats(t: Tracker, code: string)
    requires Consistent(t)
    ensures var stats := RegionalTrends(t, code).1;
      && stats.country == CountryOf(Some(code))
      && stats.totalClaims == Get(t.totals, stats.country)
      && stats.falseClaims == Get(t.falses, stats.country)
      && stats.falseClaims <= stats.totalClaims
      && (stats.totalClaims == 0 ==> stats.falseClaims == 0 && stats.risk == Low)
      && (stats.totalClaims > 0 ==>
            stats.risk == RatioRisk(stats.falseClaims as real / stats.totalClaims as real))
      && stats.topics == Items(TopicsOf(t, stats.country))
      && stats.sources == Items(SourcesOf(t, stats.country))
  {
  }
  // ---------------------------------------------------------------------------
  // Recent claims
  // ---------------------------------------------------------------------------

  function TimestampOf(e: HistoryEntry): int {
    e.timestamp
  }

  /** `get_recent_claims`: the history sorted newest first (stably), cut to `limit` entries
      with Python's slice semantics. */
  function RecentClaims(t: Tracker, limit: int): seq<HistoryEntry> {
    Prefix(SortDesc(t.history, TimestampOf), limit)
  }

  /** An element of a prefix of a sorted sequence that is strictly newer than the prefix's
      last element has all its copies in the prefix. */
  lemma NewerAllKept(s: seq<HistoryEntry>, m: nat, e: HistoryEntry)
    requires SortedDesc(s, TimestampOf) && 0 < m <= |s|
    requires e.timestamp > s[m - 1].timestamp
    ensures multiset(s[..m])[e] == multiset(s)[e]
  {
    assert s == s[..m] + s[m..];
    assert e !in s[m..] by {
      forall q | m <= q < |s| ensures s[q] != e {
        assert TimestampOf(s[m - 1]) >= TimestampOf(s[q]);
      }
    }
  }

  /** The recent claims are history entries, newest first, as many as the limit allows. */
  lemma RecentClaimsProps(t: Tracker, limit: int)
    ensures var r := RecentClaims(t, limit);
      && multiset(r) <= multiset(t.history)
      && (limit >= 0 ==> |r| == if limit < |t.history| then limit else |t.history|)
      && (forall i, j :: 0 <= i < j < |r| ==> r[i].timestamp >= r[j].timestamp)
  {
    var s := SortDesc(t.history, TimestampOf);
    var r := RecentClaims(t, limit);
    assert s == r + s[|r|..];
    forall i, j | 0 <= i < j < |r| ensures r[i].timestamp >= r[j].timestamp {
      assert r[i] == s[i] && r[j] == s[j];
      assert TimestampOf(s[i]) >= TimestampOf(s[j]);
    }
  }

  /** Every entry newer than the oldest one listed is listed, with all its copies. */
  lemma RecentClaimsNewest(t: Tracker, limit: int)
    ensures var r := RecentClaims(t, limit);
      |r| > 0 ==> forall e :: e in t.history && e.timestamp > r[|r| - 1].timestamp
                              ==> multiset(r)[e] == multiset(t.history)[e]
  {
    var s := SortDesc(t.history, TimestampOf);
    var r := RecentClaims(t, limit);
    if |r| > 0 {
      assert r == s[..|r|];
      forall e | e in t.history && e.timestamp > r[|r| - 1].timestamp
        ensures multiset(r)[e] == multiset(t.history)[e]
      {
        NewerAllKept(s, |r|, e);
      }
    }
  }

  // ---------------------------------------------------------------------------
  // Timeline
  // ---------------------------------------------------------------------------

  const MicrosPerDay: int := 86_400_000_000

  /** The date of a timestamp, as a day number (dates compare as their ISO strings do). */
  function Day(timestamp: int): int {
    timestamp / MicrosPerDay
  }

  /** One row of `get_timeline_data`. */
  datatype DayCount = DayCount(date: int, trueClaims: nat, falseClaims: nat)

  ghost predicate Ascending(days: seq<DayCount>) {
    forall i, j :: 0 <= i < j < |days| ==> days[i].date < days[j].date
  }

  /** Every row counts at least one claim. */
  ghost predicate NonEmptyRows(days: seq<DayCount>) {
    forall i :: 0 <= i < |days| ==> days[i].trueClaims + days[i].falseClaims > 0
  }

  /** The (true, false) counts of a date; a date without a row reads as (0, 0). */
  function Lookup(days: seq<DayCount>, d: int): (nat, nat) {
    if |days| == 0 then (0, 0)
    else if days[0].date == d then (days[0].trueClaims, days[0].falseClaims)
    else Lookup(days[1..], d)
  }

  function Bump(counts: (nat, nat), isFalse: bool): (nat, nat) {
    if isFalse then (counts.0, counts.1 + 1) else (counts.0 + 1, counts.1)
  }

  /** The number of claims counted by the rows. */
  function RowsTotal(days: seq<DayCount>): nat {
    if |days| == 0 then 0 else days[0].trueClaims + days[0].falseClaims + RowsTotal(days[1..])
  }

  /** Counts one claim of day `d` in rows kept in ascending date order. */
  function CountDay(days: seq<DayCount>, d: int, isFalse: bool): (r: seq<DayCount>)
    requires Ascending(days)
    ensures Ascending(r)
    ensures |r| > 0 && (r[0].date == d || (|days| > 0 && r[0].date == days[0].date))
    ensures RowsTotal(r) == RowsTotal(days) + 1
  {
    var one := if isFalse then DayCount(d, 0, 1) else DayCount(d, 1, 0);
    if |days| == 0 || d < days[0].date then [one] + days
    else if days[0].date == d then
      var b := Bump((days[0].trueClaims, days[0].falseClaims), isFalse);
      [DayCount(d, b.0, b.1)] + days[1..]
    else
      var rest := CountDay(days[1..], d, isFalse);
      [days[0]] + rest
  }

  lemma {:induction false} CountDayLookup(days: seq<DayCount>, d: int, isFalse: bool, d': int)
    requires Ascending(days)
    ensures Lookup(CountDay(days, d, isFalse), d')
            == if d' == d then Bump(Lookup(days, d), isFalse) else Lookup(days, d')
  {
    var r := CountDay(days, d, isFalse);
    if |days| == 0 || d < days[0].date {
      assert r[1..] == days;
      forall i | 0 <= i < |days| ensures days[i].date != d {
        if i > 0 {
          assert days[0].date < days[i].date;
        }
      }
      LookupAbsent(days, d);
    } else if days[0].date == d {
      assert r[1..] == days[1..];
    } else {
      assert r[1..] == CountDay(days[1..], d, isFalse);
      CountDayLookup(days[1..], d, isFalse, d');
    }
  }

  lemma {:induction false} CountDayNonEmpty(days: seq<DayCount>, d: int, isFalse: bool)
    requires Ascending(days) && NonEmptyRows(days)
    ensures NonEmptyRows(CountDay(days, d, isFalse))
  {
    if |days| > 0 && d > days[0].date {
      CountDayNonEmpty(days[1..], d, isFalse);
    }
  }

  /** `get_timeline_data`: the claims of each date, dates ascending. */
  function Timeline(h: seq<HistoryEntry>): (days: seq<DayCount>)
    ensures Ascending(days)
    decreases |h|
  {
    if |h| == 0 then []
    else CountDay(Timeline(h[..|h| - 1]), Day(h[|h| - 1].timestamp), h[|h| - 1].isFalse)
  }

  /** The number of entries of a day with the given falsity. */
  function CountOn(h: seq<HistoryEntry>, d: int, isFalse: bool): nat
    decreases |h|
  {
    if |h| == 0 then 0
    else CountOn(h[..|h| - 1], d, isFalse) + (if Day(h[|h| - 1].timestamp) == d && h[|h| - 1].isFalse == isFalse then 1 else 0)
  }

  /** Each date's row holds exactly the true and the false claims of that date, no row is
      empty, and the rows together count every claim once. */
  lemma {:induction false} TimelineCounts(h: seq<HistoryEntry>)
    ensures forall d :: Lookup(Timeline(h), d) == (CountOn(h, d, false), CountOn(h, d, true))
    ensures NonEmptyRows(Timeline(h))
    ensures RowsTotal(Timeline(h)) == |h|
    decreases |h|
  {
    if |h| > 0 {
      var init := h[..|h| - 1];
      var e := h[|h| - 1];
      TimelineCounts(init);
      CountDayNonEmpty(Timeline(init), Day(e.timestamp), e.isFalse);
      forall d ensures Lookup(Timeline(h), d) == (CountOn(h, d, false), CountOn(h, d, true)) {
        CountDayLookup(Timeline(init), Day(e.timestamp), e.isFalse, d);
      }
    }
  }

  /** A date has a row exactly when some claim falls on it. */
  lemma TimelineDates(h: seq<HistoryEntry>, d: int)
    ensures (exists i :: 0 <= i < |Timeline(h)| && Timeline(h)[i].date == d)
            <==> CountOn(h, d, false) + CountOn(h, d, true) > 0
  {
    var days := Timeline(h);
    TimelineCounts(h);
    if exists i :: 0 <= i < |days| && days[i].date == d {
      var i :| 0 <= i < |days| && days[i].date == d;
      LookupRow(days, i);
    } else {
      LookupAbsent(days, d);
    }
  }

  /** The row of a date is what the lookup reads. */
  lemma {:induction false} LookupRow(days: seq<DayCount>, i: nat)
    requires Ascending(days) && i < |days|
    ensures Lookup(days, days[i].date) == (days[i].trueClaims, days[i].falseClaims)
  {
    if i > 0 {
      LookupRow(days[1..], i - 1);
    }
  }

  lemma {:induction false} LookupAbsent(days: seq<DayCount>, d: int)
    requires forall i :: 0 <= i < |days| ==> days[i].date != d
    ensures Lookup(days, d) == (0, 0)
  {
    if |days| > 0 {
      LookupAbsent(days[1..], d);
    }
  }

  // ---------------------------------------------------------------------------
  // Trending topics
  // ---------------------------------------------------------------------------

  /** `all_topics[topic] += count` for each topic of one country's counter `c`, in the key order `ks`. */
  function MergeCounter(acc: Counter, c: Counter, ks: seq<string>): Counter
    decreases |ks|
  {
    if |ks| == 0 then acc else MergeCounter(IncBy(acc, ks[0], Get(c, ks[0])), c, ks[1..])
  }

  lemma {:induction false} MergeCounterGet(acc: Counter, c: Counter, ks: seq<string>)
    requires Distinct(ks)
    ensures forall k :: Get(MergeCounter(acc, c, ks), k) == Get(acc, k) + (if k in ks then Get(c, k) else 0)
    decreases |ks|
  {
    if |ks| > 0 {
      MergeCounterGet(IncBy(acc, ks[0], Get(c, ks[0])), c, ks[1..]);
      assert forall k :: k in ks <==> k == ks[0] || k in ks[1..];
      assert ks[0] !in ks[1..];
    }
  }

  lemma {:induction false} MergeCounterValid(acc: Counter, c: Counter, ks: seq<string>)
    requires Counting.Valid(acc)
    ensures Counting.Valid(MergeCounter(acc, c, ks))
    decreases |ks|
  {
    if |ks| > 0 {
      IncByValid(acc, ks[0], Get(c, ks[0]));
      MergeCounterValid(IncBy(acc, ks[0], Get(c, ks[0])), c, ks[1..]);
    }
  }

  /** The topic counters of the countries `cs` merged into `acc`, country by country. */
  function MergeTopics(acc: Counter, t: Tracker, cs: seq<string>): Counter
    decreases |cs|
  {
    if |cs| == 0 then acc
    else MergeTopics(MergeCounter(acc, TopicsOf(t, cs[0]), TopicsOf(t, cs[0]).keys), t, cs[1..])
  }

  /** A topic's count summed over the countries `cs`. */
  function TopicSum(t: Tracker, cs: seq<string>, k: string): nat
    decreases |cs|
  {
    if |cs| == 0 then 0 else Get(TopicsOf(t, cs[0]), k) + TopicSum(t, cs[1..], k)
  }

  /** A country's topic counter is well formed, also when the country was never touched. */
  lemma TopicsOfValid(t: Tracker, c: string)
    requires CountersValid(t)
    ensures Counting.Valid(TopicsOf(t, c))
  {
  }

  lemma {:induction false} MergeTopicsGet(acc: Counter, t: Tracker, cs: seq<string>)
    requires CountersValid(t) && Counting.Valid(acc)
    ensures Counting.Valid(MergeTopics(acc, t, cs))
    ensures forall k :: Get(MergeTopics(acc, t, cs), k) == Get(acc, k) + TopicSum(t, cs, k)
    decreases |cs|
  {
    if |cs| > 0 {
      var c := TopicsOf(t, cs[0]);
      TopicsOfValid(t, cs[0]);
      MergeCounterGet(acc, c, c.keys);
      MergeCounterValid(acc, c, c.keys);
      MergeTopicsGet(MergeCounter(acc, c, c.keys), t, cs[1..]);
      forall k ensures (if k in c.keys then Get(c, k) else 0) == Get(c, k) {
      }
    }
  }

  /** `all_topics`: every country's topics summed, in the order first seen. */
  function AllTopics(t: Tracker): Counter {
    MergeTopics(Counting.Empty(), t, t.totals.keys)
  }

  function CountOf(p: (string, nat)): int {
    p.1
  }

  /** `get_trending_topics`: the five topics with the highest totals, highest first (ties
      in the order first seen). */
  function TrendingTopics(t: Tracker): seq<(string, nat)> {
    Prefix(SortDesc(Items(AllTopics(t)), CountOf), 5)
  }

  /** The items of a well-formed counter are its topics with their counts, each topic once. */
  lemma ItemsDistinct(c: Counter)
    requires Counting.Valid(c)
    ensures forall p :: p in Items(c) ==> p == (p.0, Get(c, p.0))
    ensures forall k :: Get(c, k) > 0 ==> (k, Get(c, k)) in Items(c)
    ensures forall x :: multiset(Items(c))[x] <= 1
  {
    var items := Items(c);
    forall k | Get(c, k) > 0 ensures (k, Get(c, k)) in items {
      var i :| 0 <= i < |c.keys| && c.keys[i] == k;
      assert items[i] == (k, Get(c, k));
    }
    forall x ensures multiset(items)[x] <= 1 {
      NoRepeatCount(items, x);
    }
  }

  /** The merged counter counts each topic with its total over all countries. */
  lemma AllTopicsCounts(t: Tracker)
    requires CountersValid(t)
    ensures Counting.Valid(AllTopics(t))
    ensures forall k :: Get(AllTopics(t), k) == TopicSum(t, t.totals.keys, k)
  {
    MergeTopicsGet(Counting.Empty(), t, t.totals.keys);
  }

  /** The listed topics are merged items: at most five, each with its total over all
      countries. */
  lemma TrendingTopicsCounts(t: Tracker)
    requires CountersValid(t)
    ensures var r := TrendingTopics(t);
      && |r| <= 5
      && (forall i :: 0 <= i < |r| ==> r[i] in Items(AllTopics(t)))
      && (forall i :: 0 <= i < |r| ==> r[i].1 == TopicSum(t, t.totals.keys, r[i].0))
  {
    AllTopicsCounts(t);
    ItemsDistinct(AllTopics(t));
    var s := SortDesc(Items(AllTopics(t)), CountOf);
    var r := TrendingTopics(t);
    assert r == s[..|r|];
    forall i | 0 <= i < |r| ensures r[i] in Items(AllTopics(t)) {
      assert r[i] in multiset(s);
    }
  }

  /** The listed topics come highest total first. */
  lemma TrendingTopicsSorted(t: Tracker)
    ensures var r := TrendingTopics(t);
      forall i, j :: 0 <= i < j < |r| ==> r[i].1 >= r[j].1
  {
    var s := SortDesc(Items(AllTopics(t)), CountOf);
    var r := TrendingTopics(t);
    assert r == s[..|r|];
    forall i, j | 0 <= i < j < |r| ensures r[i].1 >= r[j].1 {
      assert CountOf(s[i]) >= CountOf(s[j]);
    }
  }

  /** No topic is listed twice. */
  lemma TrendingTopicsDistinct(t: Tracker)
    requires CountersValid(t)
    ensures var r := TrendingTopics(t);
      forall i, j :: 0 <= i < j < |r| ==> r[i].0 != r[j].0
  {
    var all := AllTopics(t);
    AllTopicsCounts(t);
    ItemsDistinct(all);
    TrendingTopicsCounts(t);
    var s := SortDesc(Items(all), CountOf);
    var r := TrendingTopics(t);
    assert r == s[..|r|];
    forall i, j | 0 <= i < j < |r| ensures r[i].0 != r[j].0 {
      if r[i].0 == r[j].0 {
        assert r[i] == r[j];
        TwoPositions(s, i, j);
        assert false;
      }
    }
  }

  /** A topic left out totals no more than the last one listed; with fewer than five listed,
      no topic is left out. */
  lemma TrendingTopicsComplete(t: Tracker)
    requires CountersValid(t)
    ensures var r := TrendingTopics(t);
      && (|r| > 0 ==> forall k :: TopicSum(t, t.totals.keys, k) > r[|r| - 1].1
                                  ==> (k, TopicSum(t, t.totals.keys, k)) in r)
      && (|r| < 5 ==> forall k :: TopicSum(t, t.totals.keys, k) > 0
                                  ==> (k, TopicSum(t, t.totals.keys, k)) in r)
  {
    var all := AllTopics(t);
    AllTopicsCounts(t);
    ItemsDistinct(all);
    var s := SortDesc(Items(all), CountOf);
    var r := TrendingTopics(t);
    assert r == s[..|r|];
    forall k | TopicSum(t, t.totals.keys, k) > 0 && (|r| < 5 || (|r| > 0 && TopicSum(t, t.totals.keys, k) > r[|r| - 1].1))
      ensures (k, TopicSum(t, t.totals.keys, k)) in r
    {
      var p := (k, TopicSum(t, t.totals.keys, k));
      assert p in multiset(s);
      var q :| 0 <= q < |s| && s[q] == p;
    }
  }
}

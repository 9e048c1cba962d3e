/**
 * The older fact-checking front end (utils/fact_checker.py): a rate-limited client of
 * Google's claim search, a keyword-matching local database, and a `FactChecker` that asks
 * both and keeps its answers for 24 hours. The network reply, `time.time()` and
 * `datetime.now()` are parameters.
 */
module LegacyChecker {
  import opened Optional
  import opened Text
  import opened FactResult

  // ---------------------------------------------------------------------------
  // Rate limiting
  // ---------------------------------------------------------------------------

  /** The minimum spacing between two requests of one service, in seconds. */
  const RateLimitDelay: real := 1.0

  /** `last_request_time`, in seconds of `time.time()`; `None` before the first request. */
  datatype Limiter = Limiter(lastRequest: Option<real>)

  /** Python's truth value of `last_request_time`: `None` and `0.0` are false. */
  predicate Truthy(t: Option<real>) {
    t.Some? && t.value != 0.0
  }

  /** `check_rate_limit` called at clock reading `now`: how long it sleeps, and the limiter
      after it, which records the clock at the end of the sleep. */
  function CheckRateLimit(l: Limiter, now: real): (r: (real, Limiter))
    ensures r.0 >= 0.0
    ensures r.1.lastRequest == Some(now + r.0)
    ensures !Truthy(l.lastRequest) ==> r.0 == 0.0
    ensures Truthy(l.lastRequest) && now - l.lastRequest.value >= RateLimitDelay ==> r.0 == 0.0
  {
    var wait :=
      if Truthy(l.lastRequest) && now - l.lastRequest.value < RateLimitDelay
      then RateLimitDelay - (now - l.lastRequest.value)
      else 0.0;
    (wait, Limiter(Some(now + wait)))
  }

  /** Two requests through the limiter start at least the delay apart, and the limiter
      never sleeps longer than the delay once the clock has passed the last request. */
  lemma RequestsSpaced(l: Limiter, now: real)
    requires Truthy(l.lastRequest)
    ensures var (wait, l') := CheckRateLimit(l, now);
      && l'.lastRequest.value >= l.lastRequest.value + RateLimitDelay
      && (now >= l.lastRequest.value ==> wait <= RateLimitDelay)
  {
  }

  /** A sleep happens exactly when the last request is recorded and too recent. */
  lemma SleepsOnlyWhenTooSoon(l: Limiter, now: real)
    ensures CheckRateLimit(l, now).0 > 0.0
            <==> Truthy(l.lastRequest) && now - l.lastRequest.value < RateLimitDelay
  {
  }

  // ---------------------------------------------------------------------------
  // Service replies
  // ---------------------------------------------------------------------------

  /** The dictionary a service returns: `found`, an optional `message`, the optional list
      of `claims`, and the service name under `source`. */
  datatype Reply = Reply(found: bool, message: Option<string>, claims: Option<seq<Fact>>, source: string)

  const GoogleName := "Google Fact Check"
  const MockName := "Local Database"

  // ---------------------------------------------------------------------------
  // Google Fact Check
  // ---------------------------------------------------------------------------

  /** The first `claimReview` entry: its `url` and its publisher's `name`, absent keys as `None`. */
  datatype Review = Review(url: Option<string>, publisherName: Option<string>)

  /** One entry of the `claims` list; `reviews` is `None` when the key is missing, and
      `rating` is `rating.textualRating` (`None` when either key is missing). */
  datatype ClaimReview = ClaimReview(text: Option<string>, rating: Option<string>, reviews: Option<seq<Review>>)

  /** What `requests.get` produced: a 400 status, a `RequestException` (a failed
      connection, another error status, an undecodable body), or a decoded body whose
      `claims` entry is `None` when the body is empty or has no such key. */
  datatype Response =
    | BadRequest
    | RequestFailed(reason: string)
    | Body(claims: Option<seq<ClaimReview>>)

  /** `claim.strip().replace('.', '')`: the pieces of the stripped claim between its
      periods, concatenated in order. */
  function CleanQuery(claim: string): (q: string)
    ensures '.' !in q
    ensures forall c :: c != '.' ==> multiset(q)[c] == multiset(Strip(claim))[c]
    ensures q == Join(SplitOn(Strip(claim), '.'), "")
  {
    RemoveCharIsJoinSplit(Strip(claim), '.');
    RemoveCharKeepsOthers(Strip(claim), '.');
    RemoveChar(Strip(claim), '.')
  }

  /** The fact built from one claim entry; an empty `claimReview` list raises `IndexError`. */
  function FactOfReview(c: ClaimReview): (r: Result<Fact>)
    ensures r.Raised? <==> c.reviews == Some([])
    ensures r.Ok? ==> r.value.Keys == {"text", "rating", "url", "publisher"}
  {
    var reviews := c.reviews.GetOr([Review(None, None)]);
    if |reviews| == 0 then Raised("IndexError: list index out of range")
    else
      Ok(map[
        "text" := c.text.GetOr(""),
        "rating" := c.rating.GetOr("Unknown"),
        "url" := reviews[0].url.GetOr(""),
        "publisher" := reviews[0].publisherName.GetOr("Unknown")])
  }

  /** The facts of the claim entries, in order, or the first `IndexError`. */
  function FactsOfReviews(cs: seq<ClaimReview>): (r: Result<seq<Fact>>)
    ensures r.Ok? <==> forall i :: 0 <= i < |cs| ==> cs[i].reviews != Some([])
    ensures r.Ok? ==> |r.value| == |cs|
    ensures r.Ok? ==> forall i :: 0 <= i < |cs| ==> FactOfReview(cs[i]) == Ok(r.value[i])
  {
    if |cs| == 0 then Ok([])
    else
      match FactOfReview(cs[0])
      case Raised(m) => Raised(m)
      case Ok(f) =>
        match FactsOfReviews(cs[1..])
        case Raised(m) => Raised(m)
        case Ok(fs) =>
          assert forall i :: 1 <= i < |cs| ==> cs[i] == cs[1..][i - 1];
          Ok([f] + fs)
  }

  /** What one call of `GoogleFactCheckAPI.verify_claim` did: the query it sent (`None`
      when it sent nothing), the limiter after it, and its reply or the exception that
      escaped it. */
  datatype GoogleCall = GoogleCall(query: Option<string>, limiter: Limiter, wait: real, reply: Result<Reply>)

  function NotFound(message: string): Reply {
    Reply(false, Some(message), None, GoogleName)
  }

  /** The reply to a sent query, or the `IndexError` that escapes the `try` block. */
  function ReplyOf(response: Response): (r: Result<Reply>)
    ensures r.Ok? && r.value.found ==> r.value.claims.Some? && |r.value.claims.value| > 0
    ensures r.Ok? ==> r.value.source == GoogleName
  {
    match response
    case BadRequest => Ok(NotFound("Invalid request format"))
    case RequestFailed(_) => Ok(NotFound("Service temporarily unavailable"))
    case Body(claims) =>
      if claims.None? || |claims.value| == 0 then Ok(NotFound("No fact checks found"))
      else
        match FactsOfReviews(claims.value)
        case Raised(m) => Raised(m)
        case Ok(facts) => Ok(Reply(true, None, Some(facts), GoogleName))
  }

  /** `GoogleFactCheckAPI.verify_claim` with API key `apiKey` (`None` or empty when the
      variable is not set), clock reading `now`, and network result `response`. */
  function GoogleVerify(l: Limiter, apiKey: Option<string>, claim: string, now: real, response: Response): (g: GoogleCall)
    ensures apiKey.None? || apiKey == Some("") ==> g == GoogleCall(None, l, 0.0, Ok(NotFound("API key not configured")))
    ensures g.query.Some? ==> g.query.value == CleanQuery(claim) && '.' !in g.query.value
    ensures g.reply.Ok? && g.reply.value.found ==> g.reply.value.claims.Some? && |g.reply.value.claims.value| > 0
    ensures g.reply.Ok? ==> g.reply.value.source == GoogleName
  {
    if apiKey.None? || apiKey == Some("") then GoogleCall(None, l, 0.0, Ok(NotFound("API key not configured")))
    else
      var (wait, l') := CheckRateLimit(l, now);
      var query := CleanQuery(claim);
      var reply := ReplyOf(response);
      GoogleCall(Some(query), l', wait, reply)
  }

  /** With a key the limiter runs once, the cleaned query is sent and the reply is the
      reply to the network result. */
  lemma GoogleSendsQuery(l: Limiter, key: string, claim: string, now: real, response: Response)
    requires key != ""
    ensures var g := GoogleVerify(l, Some(key), claim, now, response);
      && g.query == Some(CleanQuery(claim))
      && (g.wait, g.limiter) == CheckRateLimit(l, now)
      && g.reply == ReplyOf(response)
  {
  }

  /** A 400 answer, a request exception and a body without claims all report nothing found. */
  lemma GoogleNothingFound(response: Response)
    ensures response == BadRequest ==> ReplyOf(response) == Ok(NotFound("Invalid request format"))
    ensures response.RequestFailed? ==> ReplyOf(response) == Ok(NotFound("Service temporarily unavailable"))
    ensures response.Body? && response.claims.GetOr([]) == [] ==> ReplyOf(response) == Ok(NotFound("No fact checks found"))
  {
  }

  /** A non-empty list of claims is found, with one fact per claim, unless an entry has an
      empty `claimReview` list, which raises. */
  lemma GoogleFound(cs: seq<ClaimReview>)
    requires |cs| > 0
    ensures var r := ReplyOf(Body(Some(cs)));
      && (r.Raised? <==> exists i :: 0 <= i < |cs| && cs[i].reviews == Some([]))
      && (r.Ok? ==> r.value.found && r.value.claims == Some(FactsOfReviews(cs).value))
  {
  }

  // ---------------------------------------------------------------------------
  // The local database
  // ---------------------------------------------------------------------------

  const VaccineFact: Fact := map[
    "text" := "Claims about vaccines containing microchips are false.",
    "rating" := "False",
    "url" := "https://www.example.com/facts/vaccines",
    "publisher" := "Fact Check Database"]

  const MoonFact: Fact := map[
    "text" := "While the Moon has ice deposits, there are no vast liquid oceans under its surface.",
    "rating" := "False",
    "url" := "https://www.example.com/facts/moon",
    "publisher" := "Space Facts Database"]

  /** `MockFactCheckAPI.verify_claim`: the facts whose keyword occurs in the lower-cased
      claim, "vaccine" before "moon". */
  function MockVerify(claim: string): (r: Reply)
    ensures r.claims.Some? && r.source == MockName && r.message.None?
    ensures r.found <==> |r.claims.value| > 0
    ensures VaccineFact in r.claims.value <==> Contains(Lower(claim), "vaccine")
    ensures MoonFact in r.claims.value <==> Contains(Lower(claim), "moon")
    ensures |r.claims.value| <= 2
  {
    var lower := Lower(claim);
    var facts := (if Contains(lower, "vaccine") then [VaccineFact] else [])
                 + (if Contains(lower, "moon") then [MoonFact] else []);
    assert VaccineFact["url"] != MoonFact["url"];
    Reply(|facts| > 0, None, Some(facts), MockName)
  }

  /** Matching ignores letter case. */
  lemma MockIgnoresCase(claim: string)
    ensures MockVerify(Upper(claim)) == MockVerify(claim)
  {
    LowerUpper(claim);
  }

  // ---------------------------------------------------------------------------
  // FactChecker
  // ---------------------------------------------------------------------------

  /** The result dictionary of `FactChecker.verify_claim`. */
  datatype LegacyResult = LegacyResult(
    verified: bool,
    sources: seq<string>,
    matchingFacts: seq<Fact>,
    status: string,
    error: Option<string>)

  /** `cache_duration`: 24 hours, in microseconds of `datetime`. */
  const CacheDuration: int := 86_400_000_000

  /** A cache entry: when it was stored and the stored result. */
  datatype Entry = Entry(stored: int, result: LegacyResult)

  /** The checker's state: the cache, and the rate limiter of its Google service (the local
      database never consults its own). */
  datatype FactChecker = FactChecker(cache: map<string, Entry>, google: Limiter)

  /** `_check_cache` at time `now`: a fresh entry is returned; a stale one is deleted. */
  function CheckCache(cache: map<string, Entry>, claim: string, now: int): (r: (map<string, Entry>, Option<LegacyResult>))
    ensures r.1.Some? <==> claim in cache && now - cache[claim].stored < CacheDuration
    ensures r.1.Some? ==> r.1.value == cache[claim].result && r.0 == cache
    ensures r.1.None? ==> r.0 == cache - {claim}
  {
    if claim in cache then
      if now - cache[claim].stored < CacheDuration then (cache, Some(cache[claim].result))
      else (cache - {claim}, None)
    else (cache, None)
  }

  /** `_update_cache`. */
  function UpdateCache(cache: map<string, Entry>, claim: string, result: LegacyResult, now: int): (r: map<string, Entry>)
    ensures claim in r && r[claim] == Entry(now, result)
    ensures forall k :: k != claim ==> (k in r <==> k in cache) && (k in cache ==> r[k] == cache[k])
  {
    cache[claim := Entry(now, result)]
  }

  /** The starting `results` dictionary. */
  const Unverified := LegacyResult(false, [], [], "unverified", None)

  /** One pass of the service loop. */
  function CollectOne(acc: LegacyResult, rp: Reply): LegacyResult {
    if rp.found
    then LegacyResult(true, acc.sources + [rp.source], acc.matchingFacts + rp.claims.GetOr([]), "verified", acc.error)
    else acc
  }

  /** The service loop: each reply that found something marks the result verified, appends
      the service name and extends the facts. */
  function Collect(acc: LegacyResult, replies: seq<Reply>): LegacyResult
    decreases |replies|
  {
    if |replies| == 0 then acc else Collect(CollectOne(acc, replies[0]), replies[1..])
  }

  /** The names of the services that found something, in order. */
  function FoundSources(replies: seq<Reply>): seq<string> {
    if |replies| == 0 then []
    else (if replies[0].found then [replies[0].source] else []) + FoundSources(replies[1..])
  }

  /** Their facts, in order. */
  function FoundFacts(replies: seq<Reply>): seq<Fact> {
    if |replies| == 0 then []
    else (if replies[0].found then replies[0].claims.GetOr([]) else []) + FoundFacts(replies[1..])
  }

  predicate AnyFound(replies: seq<Reply>) {
    exists i :: 0 <= i < |replies| && replies[i].found
  }

  lemma AnyFoundCons(replies: seq<Reply>)
    requires |replies| > 0
    ensures AnyFound(replies) <==> replies[0].found || AnyFound(replies[1..])
  {
    if AnyFound(replies[1..]) {
      var i :| 0 <= i < |replies[1..]| && replies[1..][i].found;
      assert replies[i + 1].found;
    }
    if AnyFound(replies) && !replies[0].found {
      var i :| 0 <= i < |replies| && replies[i].found;
      assert replies[1..][i - 1].found;
    }
  }

  lemma {:induction false} CollectVerified(acc: LegacyResult, replies: seq<Reply>)
    requires acc.status == (if acc.verified then "verified" else "unverified")
    ensures var r := Collect(acc, replies);
      && r.verified == (acc.verified || AnyFound(replies))
      && r.status == (if r.verified then "verified" else "unverified")
      && r.error == acc.error
    decreases |replies|
  {
    if |replies| > 0 {
      assert Collect(acc, replies) == Collect(CollectOne(acc, replies[0]), replies[1..]);
      CollectVerified(CollectOne(acc, replies[0]), replies[1..]);
      AnyFoundCons(replies);
    }
  }

  lemma {:induction false} CollectSources(acc: LegacyResult, replies: seq<Reply>)
    ensures Collect(acc, replies).sources == acc.sources + FoundSources(replies)
    decreases |replies|
  {
    if |replies| > 0 {
      var rp := replies[0];
      assert Collect(acc, replies) == Collect(CollectOne(acc, rp), replies[1..]);
      CollectSources(CollectOne(acc, rp), replies[1..]);
      if rp.found {
        assert acc.sources + [rp.source] + FoundSources(replies[1..]) == acc.sources + ([rp.source] + FoundSources(replies[1..]));
      }
    }
  }

  lemma {:induction false} CollectFacts(acc: LegacyResult, replies: seq<Reply>)
    ensures Collect(acc, replies).matchingFacts == acc.matchingFacts + FoundFacts(replies)
    decreases |replies|
  {
    if |replies| > 0 {
      var rp := replies[0];
      assert Collect(acc, replies) == Collect(CollectOne(acc, rp), replies[1..]);
      CollectFacts(CollectOne(acc, rp), replies[1..]);
      if rp.found {
        assert acc.matchingFacts + rp.claims.GetOr([]) + FoundFacts(replies[1..])
               == acc.matchingFacts + (rp.claims.GetOr([]) + FoundFacts(replies[1..]));
      }
    }
  }

  /** The loop result: verified exactly when some service found something, with the
      finders' names and facts in service order. */
  lemma CollectSpec(acc: LegacyResult, replies: seq<Reply>)
    requires acc.status == (if acc.verified then "verified" else "unverified")
    ensures var r := Collect(acc, replies);
      && r.verified == (acc.verified || AnyFound(replies))
      && r.status == (if r.verified then "verified" else "unverified")
      && r.sources == acc.sources + FoundSources(replies)
      && r.matchingFacts == acc.matchingFacts + FoundFacts(replies)
      && r.error == acc.error
  {
    CollectVerified(acc, replies);
    CollectSources(acc, replies);
    CollectFacts(acc, replies);
  }

  const ErrorMessage := "Error processing fact check request"

  /** `FactChecker.verify_claim` with `_check_cache` reading datetime `now`, `_update_cache`
      reading datetime `stored` (after the rate-limit sleep and the network call), the rate
      limiter reading clock `clock`, and the network result `response` of the Google service
      (used only when it sends a query). */
  function Verify(fc: FactChecker, apiKey: Option<string>, claim: string, now: int, stored: int, clock: real, response: Response): (FactChecker, LegacyResult) {
    var (cache, hit) := CheckCache(fc.cache, claim, now);
    if hit.Some? then (fc, hit.value)
    else
      var g := GoogleVerify(fc.google, apiKey, claim, clock, response);
      match g.reply
      case Raised(_) =>
        (FactChecker(cache, g.limiter), LegacyResult(false, [], [], "error", Some(ErrorMessage)))
      case Ok(googleReply) =>
        var result := Collect(Unverified, [googleReply, MockVerify(claim)]);
        (FactChecker(UpdateCache(cache, claim, result, stored), g.limiter), result)
  }

  /** A fresh cache entry is answered without asking any service: nothing changes. */
  lemma CacheHitAnswers(fc: FactChecker, apiKey: Option<string>, claim: string, now: int, stored: int, clock: real, response: Response)
    requires claim in fc.cache && now - fc.cache[claim].stored < CacheDuration
    ensures Verify(fc, apiKey, claim, now, stored, clock, response) == (fc, fc.cache[claim].result)
  {
  }

  /** Without a fresh entry both services are asked: the result is verified exactly when
      one of them found something, lists the finders in service order, and is stored with
      the time `stored` read after the call; when the Google call raises, the result is an error and nothing is
      stored, though a stale entry is still gone. */
  lemma VerifyAsksServices(fc: FactChecker, apiKey: Option<string>, claim: string, now: int, stored: int, clock: real, response: Response)
    requires !(claim in fc.cache && now - fc.cache[claim].stored < CacheDuration)
    ensures var (fc', r) := Verify(fc, apiKey, claim, now, stored, clock, response);
      var g := GoogleVerify(fc.google, apiKey, claim, clock, response);
      && fc'.google == g.limiter
      && (g.reply.Raised? ==>
            r == LegacyResult(false, [], [], "error", Some(ErrorMessage)) && fc'.cache == fc.cache - {claim})
      && (g.reply.Ok? ==>
            var replies := [g.reply.value, MockVerify(claim)];
            && r.verified == AnyFound(replies)
            && r.status == (if r.verified then "verified" else "unverified")
            && r.sources == FoundSources(replies)
            && r.matchingFacts == FoundFacts(replies)
            && fc'.cache == fc.cache[claim := Entry(stored, r)])
  {
    var g := GoogleVerify(fc.google, apiKey, claim, clock, response);
    if g.reply.Ok? {
      CollectSpec(Unverified, [g.reply.value, MockVerify(claim)]);
    }
  }

  /** Without an API key the answer is the local database's alone. */
  lemma NoKeyUsesLocalDatabase(fc: FactChecker, claim: string, now: int, stored: int, clock: real, response: Response)
    requires !(claim in fc.cache && now - fc.cache[claim].stored < CacheDuration)
    ensures var (fc', r) := Verify(fc, None, claim, now, stored, clock, response);
      && fc'.google == fc.google
      && (r.verified <==> MockVerify(claim).found)
      && r.sources == (if MockVerify(claim).found then [MockName] else [])
      && r.matchingFacts == MockVerify(claim).claims.value
  {
    VerifyAsksServices(fc, None, claim, now, stored, clock, response);
    var replies := [NotFound("API key not configured"), MockVerify(claim)];
    assert FoundSources(replies[1..][1..]) == [];
    assert FoundFacts(replies[1..][1..]) == [];
    assert AnyFound(replies) <==> MockVerify(claim).found by {
      assert !replies[0].found;
      if MockVerify(claim).found {
        assert replies[1].found;
      }
    }
  }

  /** A fresh answer that is not an error is asked again within 24 hours of being stored:
      the stored answer comes back and nothing changes. */
  lemma AnswerIsCachedForADay(fc: FactChecker, apiKey: Option<string>, claim: string, now: int, stored: int, clock: real,
                               response: Response, later: int, stored2: int, clock2: real, response2: Response)
    requires !(claim in fc.cache && now - fc.cache[claim].stored < CacheDuration)
    requires stored <= later < stored + CacheDuration
    ensures var (fc1, r1) := Verify(fc, apiKey, claim, now, stored, clock, response);
      r1.status != "error" ==> Verify(fc1, apiKey, claim, later, stored2, clock2, response2) == (fc1, r1)
  {
    var (fc1, r1) := Verify(fc, apiKey, claim, now, stored, clock, response);
    VerifyAsksServices(fc, apiKey, claim, now, stored, clock, response);
    if r1.status != "error" {
      assert claim in fc1.cache && fc1.cache[claim] == Entry(stored, r1);
    }
  }
}

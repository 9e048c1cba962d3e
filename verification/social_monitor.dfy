/**
 * Term tracking and trend counting of `SocialMediaMonitor` (utils/social_monitor.py):
 * normalised sets of tracked keywords and hashtags, the per-batch trend summary, and the
 * ten most engaging viral posts of the trend history.
 */
module SocialMonitor {
  import opened Optional
  import opened Text
  import opened Counting
  import opened Sorting

  // ---------------------------------------------------------------------------
  // Tracked terms
  // ---------------------------------------------------------------------------

  /** Engagement above this makes a post viral. */
  const ViralityThreshold: int := 1000

  datatype Monitor = Monitor(keywords: set<string>, hashtags: set<string>)

  function NewMonitor(): Monitor {
    Monitor({}, {})
  }

  /** How a keyword is stored: lower-cased. The result is lower case and equal to `k` up
      to case, which determines it (`LowerIsUnique`). */
  function NormalKeyword(k: string): (r: string)
    ensures |r| == |k|
    ensures Lower(r) == r
    ensures Upper(r) == Upper(k)
  {
    LowerTwice(k);
    UpperLower(k);
    Lower(k)
  }

  /** How a hashtag is stored: `#` stripped from both ends, then lower-cased. */
  function NormalHashtag(h: string): (r: string)
    ensures Lower(r) == r
    ensures r == [] || (r[0] != '#' && r[|r| - 1] != '#')
  {
    var s := StripChars(h, {'#'});
    LowerTwice(s);
    LowerKeepsEnds(s, '#');
    Lower(s)
  }

  /** A stored hashtag is lower case and equals `StripChars(h, {'#'})` up to case, which
      determines it (`LowerIsUnique`); with `StripChars`'s contract, it is the part of `h`
      between its leading and trailing runs of `#`, lower-cased. */
  lemma NormalHashtagFolds(h: string)
    ensures Lower(NormalHashtag(h)) == NormalHashtag(h)
    ensures Upper(NormalHashtag(h)) == Upper(StripChars(h, {'#'}))
  {
    UpperLower(StripChars(h, {'#'}));
  }

  /** Lower-casing turns no character into a character that is not a lower-case letter. */
  lemma LowerKeepsEnds(s: string, c: char)
    requires !('a' <= c <= 'z')
    requires s == [] || (s[0] !in {c} && s[|s| - 1] !in {c})
    ensures Lower(s) == [] || (Lower(s)[0] != c && Lower(s)[|s| - 1] != c)
  {
  }

  lemma LowerTwice(s: string)
    ensures Lower(Lower(s)) == Lower(s)
  {
  }

  /** A text that neither starts nor ends with a stripped character is left alone. */
  lemma StripCharsNoop(s: string, chars: set<char>)
    requires s == [] || (s[0] !in chars && s[|s| - 1] !in chars)
    ensures StripChars(s, chars) == s
  {
  }

  /** Normalising is idempotent: a stored term normalises to itself. */
  lemma NormalIdempotent(k: string, h: string)
    ensures NormalKeyword(NormalKeyword(k)) == NormalKeyword(k)
    ensures NormalHashtag(NormalHashtag(h)) == NormalHashtag(h)
  {
    NormalHashtagIdempotent(h);
  }

  lemma NormalHashtagIdempotent(h: string)
    ensures NormalHashtag(NormalHashtag(h)) == NormalHashtag(h)
  {
    var r := NormalHashtag(h);
    StripCharsNoop(r, {'#'});
    assert NormalHashtag(r) == Lower(StripChars(r, {'#'})) == Lower(r);
  }

  function AddKeyword(m: Monitor, k: string): Monitor {
    m.(keywords := m.keywords + {NormalKeyword(k)})
  }

  function RemoveKeyword(m: Monitor, k: string): Monitor {
    m.(keywords := m.keywords - {NormalKeyword(k)})
  }

  function AddHashtag(m: Monitor, h: string): Monitor {
    m.(hashtags := m.hashtags + {NormalHashtag(h)})
  }

  function RemoveHashtag(m: Monitor, h: string): Monitor {
    m.(hashtags := m.hashtags - {NormalHashtag(h)})
  }

  ghost predicate KeywordsNormal(ks: set<string>) {
    forall k :: k in ks ==> NormalKeyword(k) == k
  }

  ghost predicate HashtagsNormal(hs: set<string>) {
    forall h :: h in hs ==> NormalHashtag(h) == h
  }

  /** Every stored term is in normal form. */
  ghost predicate Normalised(m: Monitor) {
    KeywordsNormal(m.keywords) && HashtagsNormal(m.hashtags)
  }

  /** The keyword operations keep the stored terms normalised and leave the hashtags alone. */
  lemma KeywordOpsKeepNormalised(m: Monitor, k: string)
    requires Normalised(m)
    ensures Normalised(AddKeyword(m, k)) && AddKeyword(m, k).hashtags == m.hashtags
    ensures Normalised(RemoveKeyword(m, k)) && RemoveKeyword(m, k).hashtags == m.hashtags
  {
    LowerTwice(k);
    var ks := m.keywords + {NormalKeyword(k)};
    forall x | x in ks ensures NormalKeyword(x) == x {
      if x != NormalKeyword(k) {
        assert x in m.keywords;
      }
    }
    assert KeywordsNormal(ks);
  }

  /** The hashtag operations keep the stored terms normalised and leave the keywords alone. */
  lemma HashtagOpsKeepNormalised(m: Monitor, h: string)
    requires Normalised(m)
    ensures Normalised(AddHashtag(m, h)) && AddHashtag(m, h).keywords == m.keywords
    ensures Normalised(RemoveHashtag(m, h)) && RemoveHashtag(m, h).keywords == m.keywords
  {
    NormalHashtagIdempotent(h);
    HashtagsNormalUpdate(m.hashtags, NormalHashtag(h));
  }

  /** Adding or removing a normal hashtag keeps a set of normal hashtags normal. */
  lemma HashtagsNormalUpdate(hs: set<string>, v: string)
    requires HashtagsNormal(hs) && NormalHashtag(v) == v
    ensures HashtagsNormal(hs + {v}) && HashtagsNormal(hs - {v})
  {
    forall x | x in hs + {v} ensures NormalHashtag(x) == x {
      if x != v {
        assert x in hs;
      }
    }
  }

  /** Adding twice is adding once; removing after adding leaves the term untracked, whatever
      spelling of it is used for either call. */
  lemma AddRemove(m: Monitor, k: string, k': string, h: string, h': string)
    requires NormalKeyword(k) == NormalKeyword(k') && NormalHashtag(h) == NormalHashtag(h')
    ensures AddKeyword(AddKeyword(m, k), k') == AddKeyword(m, k)
    ensures AddHashtag(AddHashtag(m, h), h') == AddHashtag(m, h)
    ensures NormalKeyword(k) !in RemoveKeyword(AddKeyword(m, k), k').keywords
    ensures NormalHashtag(h) !in RemoveHashtag(AddHashtag(m, h), h').hashtags
    ensures NormalKeyword(k) !in m.keywords ==> RemoveKeyword(AddKeyword(m, k), k') == m
    ensures NormalHashtag(h) !in m.hashtags ==> RemoveHashtag(AddHashtag(m, h), h') == m
  {
  }

  /** A hashtag is tracked under the same name with or without its `#`, and in any case. */
  lemma HashtagSpellings(m: Monitor, h: string)
    ensures AddHashtag(m, "#" + h) == AddHashtag(m, h)
    ensures AddHashtag(m, Upper(h)) == AddHashtag(m, h)
  {
    assert StripLeading("#" + h, {'#'}) == StripLeading(h, {'#'}) by {
      assert ("#" + h)[1..] == h;
    }
    StripUpper(h);
  }

  /** Upper-casing commutes with stripping `#` up to letter case. */
  lemma StripUpper(h: string)
    ensures Lower(StripChars(Upper(h), {'#'})) == Lower(StripChars(h, {'#'}))
  {
    LeadingUpper(h);
    TrailingUpper(StripLeading(h, {'#'}));
    LowerUpper(StripChars(h, {'#'}));
  }

  lemma {:induction false} LeadingUpper(h: string)
    ensures StripLeading(Upper(h), {'#'}) == Upper(StripLeading(h, {'#'}))
    decreases |h|
  {
    if |h| > 0 && h[0] == '#' {
      assert Upper(h)[1..] == Upper(h[1..]);
      LeadingUpper(h[1..]);
    }
  }

  lemma {:induction false} TrailingUpper(h: string)
    ensures StripTrailing(Upper(h), {'#'}) == Upper(StripTrailing(h, {'#'}))
    decreases |h|
  {
    if |h| > 0 && h[|h| - 1] == '#' {
      assert Upper(h)[..|h| - 1] == Upper(h[..|h| - 1]);
      TrailingUpper(h[..|h| - 1]);
    }
  }

  /** `list(s)`: the members of `s` without repetition, in an order left unspecified (Python
      lists a set in hash order). */
  method Listing(s: set<string>) returns (xs: seq<string>)
    ensures |xs| == |s|
    ensures forall x :: x in xs <==> x in s
    ensures forall i, j :: 0 <= i < j < |xs| ==> xs[i] != xs[j]
  {
    xs := [];
    var rest := s;
    while rest != {}
      invariant rest !! set x | x in xs
      invariant rest + (set x | x in xs) == s
      invariant |xs| + |rest| == |s|
      invariant forall i, j :: 0 <= i < j < |xs| ==> xs[i] != xs[j]
      decreases |rest|
    {
      var x :| x in rest;
      assert x !in xs;
      xs := xs + [x];
      rest := rest - {x};
    }
  }

  /** `get_tracked_terms`: the tracked keywords and hashtags as lists. */
  method TrackedTerms(m: Monitor) returns (keywords: seq<string>, hashtags: seq<string>)
    ensures |keywords| == |m.keywords| && forall x :: x in keywords <==> x in m.keywords
    ensures |hashtags| == |m.hashtags| && forall x :: x in hashtags <==> x in m.hashtags
  {
    keywords := Listing(m.keywords);
    hashtags := Listing(m.hashtags);
  }

  // ---------------------------------------------------------------------------
  // Trend analysis
  // ---------------------------------------------------------------------------

  /** What the trend analysis reads of a post; absent optional keys are `None`. */
  datatype Post = Post(
    platform: string,
    content: string,
    matchedTerms: Option<seq<string>>,
    likes: int,
    shares: int,
    comments: int,
    sentiment: Option<string>,
    reach: Option<int>)

  /** One entry of `virality`. */
  datatype Viral = Viral(content: string, engagement: int, platform: string)

  datatype Trends = Trends(
    totalPosts: nat,
    platforms: Counter,
    topTerms: Counter,
    high: nat,
    medium: nat,
    low: nat,
    virality: seq<Viral>,
    positive: nat,
    neutral: nat,
    negative: nat,
    totalReach: int)

  /** Likes count once, shares twice, comments three times. */
  function Engagement(p: Post): int {
    p.likes + p.shares * 2 + p.comments * 3
  }

  function SentimentOf(p: Post): string {
    p.sentiment.GetOr("neutral")
  }

  /** The sentiments `sentiment_distribution` has a slot for. */
  predicate KnownSentiment(p: Post) {
    SentimentOf(p) in {"positive", "neutral", "negative"}
  }

  function Terms(p: Post): seq<string> {
    p.matchedTerms.GetOr([])
  }

  const EmptyTrends := Trends(0, Counting.Empty(), Counting.Empty(), 0, 0, 0, [], 0, 0, 0, 0)

  /** The loop body for one post; a sentiment without a slot raises `KeyError`. */
  function Step(t: Trends, p: Post): Result<Trends> {
    if !KnownSentiment(p) then Raised("KeyError: " + SentimentOf(p))
    else
      var e := Engagement(p);
      var s := SentimentOf(p);
      Ok(t.(
        platforms := IncBy(t.platforms, p.platform, 1),
        topTerms := IncAll(t.topTerms, Terms(p)),
        high := t.high + (if e > 1000 then 1 else 0),
        medium := t.medium + (if 100 < e <= 1000 then 1 else 0),
        low := t.low + (if e <= 100 then 1 else 0),
        virality := t.virality + (if e > ViralityThreshold then [Viral(p.content, e, p.platform)] else []),
        positive := t.positive + (if s == "positive" then 1 else 0),
        neutral := t.neutral + (if s == "neutral" then 1 else 0),
        negative := t.negative + (if s == "negative" then 1 else 0),
        totalReach := t.totalReach + p.reach.GetOr(0)))
  }

  function AnalyzeFrom(t: Trends, posts: seq<Post>): Result<Trends>
    decreases |posts|
  {
    if |posts| == 0 then Ok(t)
    else
      match Step(t, posts[0])
      case Raised(m) => Raised(m)
      case Ok(t') => AnalyzeFrom(t', posts[1..])
  }

  /** `analyze_social_trends`. */
  function AnalyzeTrends(posts: seq<Post>): Result<Trends> {
    match AnalyzeFrom(EmptyTrends, posts)
    case Raised(m) => Raised(m)
    case Ok(t) => Ok(t.(totalPosts := |posts|))
  }

  // Reference definitions over a whole batch.

  function CountWhere(posts: seq<Post>, f: Post -> bool): nat {
    if |posts| == 0 then 0 else (if f(posts[0]) then 1 else 0) + CountWhere(posts[1..], f)
  }

  predicate IsHigh(p: Post) { Engagement(p) > 1000 }
  predicate IsMedium(p: Post) { 100 < Engagement(p) <= 1000 }
  predicate IsLow(p: Post) { Engagement(p) <= 100 }
  predicate IsPositive(p: Post) { SentimentOf(p) == "positive" }
  predicate IsNeutral(p: Post) { SentimentOf(p) == "neutral" }
  predicate IsNegative(p: Post) { SentimentOf(p) == "negative" }

  function PlatformCount(posts: seq<Post>, k: string): nat {
    if |posts| == 0 then 0 else (if posts[0].platform == k then 1 else 0) + PlatformCount(posts[1..], k)
  }

  function ViralOf(posts: seq<Post>): seq<Viral> {
    if |posts| == 0 then []
    else
      var e := Engagement(posts[0]);
      (if e > ViralityThreshold then [Viral(posts[0].content, e, posts[0].platform)] else []) + ViralOf(posts[1..])
  }

  function ReachOf(posts: seq<Post>): int {
    if |posts| == 0 then 0 else posts[0].reach.GetOr(0) + ReachOf(posts[1..])
  }

  function TermCount(posts: seq<Post>, k: string): nat {
    if |posts| == 0 then 0 else multiset(Terms(posts[0]))[k] + TermCount(posts[1..], k)
  }

  predicate AllKnown(posts: seq<Post>) {
    forall i :: 0 <= i < |posts| ==> KnownSentiment(posts[i])
  }

  /** A batch has only known sentiments exactly when its first post and the rest do. */
  lemma AllKnownCons(posts: seq<Post>)
    requires |posts| > 0
    ensures AllKnown(posts) <==> KnownSentiment(posts[0]) && AllKnown(posts[1..])
  {
    if KnownSentiment(posts[0]) && AllKnown(posts[1..]) {
      forall i | 0 <= i < |posts| ensures KnownSentiment(posts[i]) {
        if i > 0 {
          assert posts[i] == posts[1..][i - 1];
        }
      }
    }
    if AllKnown(posts) {
      forall i | 0 <= i < |posts[1..]| ensures KnownSentiment(posts[1..][i]) {
        assert posts[1..][i] == posts[i + 1];
      }
    }
  }

  /** The analysis raises exactly when some post has a sentiment without a slot. */
  lemma {:induction false} AnalyzeFromRaises(t: Trends, posts: seq<Post>)
    ensures AnalyzeFrom(t, posts).Raised? <==> !AllKnown(posts)
    decreases |posts|
  {
    if |posts| > 0 {
      AllKnownCons(posts);
      if KnownSentiment(posts[0]) {
        AnalyzeFromRaises(Step(t, posts[0]).value, posts[1..]);
      }
    }
  }

  /** The engagement buckets of a successful analysis. */
  lemma {:induction false} AnalyzeFromBuckets(t: Trends, posts: seq<Post>)
    requires AllKnown(posts)
    ensures AnalyzeFrom(t, posts).Ok?
    ensures var r := AnalyzeFrom(t, posts).value;
      && r.high == t.high + CountWhere(posts, IsHigh)
      && r.medium == t.medium + CountWhere(posts, IsMedium)
      && r.low == t.low + CountWhere(posts, IsLow)
    decreases |posts|
  {
    if |posts| > 0 {
      AllKnownCons(posts);
      AnalyzeFromBuckets(Step(t, posts[0]).value, posts[1..]);
    }
  }

  /** The sentiment counts of a successful analysis. */
  lemma {:induction false} AnalyzeFromSentiments(t: Trends, posts: seq<Post>)
    requires AllKnown(posts)
    ensures AnalyzeFrom(t, posts).Ok?
    ensures var r := AnalyzeFrom(t, posts).value;
      && r.positive == t.positive + CountWhere(posts, IsPositive)
      && r.neutral == t.neutral + CountWhere(posts, IsNeutral)
      && r.negative == t.negative + CountWhere(posts, IsNegative)
    decreases |posts|
  {
    if |posts| > 0 {
      AllKnownCons(posts);
      AnalyzeFromSentiments(Step(t, posts[0]).value, posts[1..]);
    }
  }

  lemma AppendAssoc<T>(a: seq<T>, b: seq<T>, c: seq<T>)
    ensures a + b + c == a + (b + c)
  {
  }

  /** The viral list of a successful analysis. */
  lemma {:induction false} AnalyzeFromViral(t: Trends, posts: seq<Post>)
    requires AllKnown(posts)
    ensures AnalyzeFrom(t, posts).Ok?
    ensures AnalyzeFrom(t, posts).value.virality == t.virality + ViralOf(posts)
    decreases |posts|
  {
    if |posts| > 0 {
      AllKnownCons(posts);
      var t' := Step(t, posts[0]).value;
      AnalyzeFromViral(t', posts[1..]);
      var v := if Engagement(posts[0]) > ViralityThreshold
               then [Viral(posts[0].content, Engagement(posts[0]), posts[0].platform)] else [];
      AppendAssoc(t.virality, v, ViralOf(posts[1..]));
    }
  }

  /** The reach of a successful analysis. */
  lemma {:induction false} AnalyzeFromReach(t: Trends, posts: seq<Post>)
    requires AllKnown(posts)
    ensures AnalyzeFrom(t, posts).Ok?
    ensures AnalyzeFrom(t, posts).value.totalReach == t.totalReach + ReachOf(posts)
    decreases |posts|
  {
    if |posts| > 0 {
      AllKnownCons(posts);
      AnalyzeFromReach(Step(t, posts[0]).value, posts[1..]);
    }
  }

  /** The platform and term counters of a successful analysis. */
  lemma {:induction false} AnalyzeFromCounters(t: Trends, posts: seq<Post>)
    requires AllKnown(posts) && Counting.Valid(t.platforms)
    ensures AnalyzeFrom(t, posts).Ok?
    ensures var r := AnalyzeFrom(t, posts).value;
      && Counting.Valid(r.platforms)
      && (forall k :: Get(r.platforms, k) == Get(t.platforms, k) + PlatformCount(posts, k))
      && (forall k :: Get(r.topTerms, k) == Get(t.topTerms, k) + TermCount(posts, k))
      && Total(r.platforms) == Total(t.platforms) + |posts|
    decreases |posts|
  {
    if |posts| > 0 {
      AllKnownCons(posts);
      var t' := Step(t, posts[0]).value;
      IncByValid(t.platforms, posts[0].platform, 1);
      TotalIncBy(t.platforms, posts[0].platform, 1);
      AnalyzeFromCounters(t', posts[1..]);
    }
  }

  /** Each of the three engagement buckets and of the three sentiments takes every post
      exactly once. */
  lemma {:induction false} Partitions(posts: seq<Post>)
    requires AllKnown(posts)
    ensures CountWhere(posts, IsHigh) + CountWhere(posts, IsMedium) + CountWhere(posts, IsLow) == |posts|
    ensures CountWhere(posts, IsPositive) + CountWhere(posts, IsNeutral) + CountWhere(posts, IsNegative) == |posts|
    decreases |posts|
  {
    if |posts| > 0 {
      AllKnownCons(posts);
      Partitions(posts[1..]);
    }
  }

  /** `analyze_social_trends` raises `KeyError` exactly when a post's sentiment has no slot. */
  lemma AnalyzeTrendsRaises(posts: seq<Post>)
    ensures AnalyzeTrends(posts).Raised? <==> !AllKnown(posts)
  {
    AnalyzeFromRaises(EmptyTrends, posts);
  }

  /** Otherwise it counts every post once per engagement bucket and once per sentiment,
      lists the viral posts in input order, and sums the reach. */
  lemma AnalyzeTrendsTallies(posts: seq<Post>)
    requires AllKnown(posts)
    ensures AnalyzeTrends(posts).Ok?
    ensures var r := AnalyzeTrends(posts).value;
      && r.totalPosts == |posts|
      && r.high + r.medium + r.low == |posts|
      && r.high == CountWhere(posts, IsHigh) && r.medium == CountWhere(posts, IsMedium)
      && r.positive + r.neutral + r.negative == |posts|
      && r.virality == ViralOf(posts)
      && r.totalReach == ReachOf(posts)
  {
    AnalyzeFromBuckets(EmptyTrends, posts);
    AnalyzeFromSentiments(EmptyTrends, posts);
    AnalyzeFromViral(EmptyTrends, posts);
    AnalyzeFromReach(EmptyTrends, posts);
    Partitions(posts);
  }

  /** ... and counts every post once under its platform and each term once per occurrence. */
  lemma AnalyzeTrendsCounters(posts: seq<Post>)
    requires AllKnown(posts)
    ensures AnalyzeTrends(posts).Ok?
    ensures var r := AnalyzeTrends(posts).value;
      && Total(r.platforms) == |posts|
      && (forall k :: Get(r.platforms, k) == PlatformCount(posts, k))
      && (forall k :: Get(r.topTerms, k) == TermCount(posts, k))
  {
    AnalyzeFromCounters(EmptyTrends, posts);
  }

  /** A post is in the viral list exactly when its engagement passes the threshold. */
  lemma {:induction false} ViralOfMembers(posts: seq<Post>)
    ensures forall v :: v in ViralOf(posts) ==> v.engagement > ViralityThreshold
    ensures forall i :: 0 <= i < |posts| && Engagement(posts[i]) > ViralityThreshold
              ==> Viral(posts[i].content, Engagement(posts[i]), posts[i].platform) in ViralOf(posts)
    decreases |posts|
  {
    if |posts| > 0 {
      ViralOfMembers(posts[1..]);
      forall i | 1 <= i < |posts| ensures posts[i] == posts[1..][i - 1] {
      }
    }
  }

  // ---------------------------------------------------------------------------
  // Viral content
  // ---------------------------------------------------------------------------

  /** One entry of `trend_history`. */
  datatype TrendRecord = TrendRecord(timestamp: int, trends: Trends)

  function AllViral(history: seq<TrendRecord>): seq<Viral> {
    if |history| == 0 then [] else history[0].trends.virality + AllViral(history[1..])
  }

  function EngagementOf(v: Viral): int {
    v.engagement
  }

  /** `get_viral_content`: the viral posts of all records, most engaging first (stably),
      at most ten. */
  function ViralContent(history: seq<TrendRecord>): seq<Viral> {
    Prefix(SortDesc(AllViral(history), EngagementOf), 10)
  }

  /** At most ten entries, most engaging first, all from the history; a viral post left out
      is no more engaging than the last one listed, and with fewer than ten listed none is
      left out. */
  lemma ViralContentProps(history: seq<TrendRecord>)
    ensures var r := ViralContent(history);
      && |r| <= 10
      && (forall i, j :: 0 <= i < j < |r| ==> r[i].engagement >= r[j].engagement)
      && multiset(r) <= multiset(AllViral(history))
      && (|r| < 10 ==> multiset(r) == multiset(AllViral(history)))
      && (|r| > 0 ==> forall v :: v in AllViral(history) && v.engagement > r[|r| - 1].engagement ==> v in r)
  {
    var s := SortDesc(AllViral(history), EngagementOf);
    var r := ViralContent(history);
    assert r == s[..|r|];
    assert s == r + s[|r|..];
    forall i, j | 0 <= i < j < |r| ensures r[i].engagement >= r[j].engagement {
      assert EngagementOf(s[i]) >= EngagementOf(s[j]);
    }
    if |r| > 0 {
      forall v | v in AllViral(history) && v.engagement > r[|r| - 1].engagement ensures v in r {
        assert v in multiset(s);
        var q :| 0 <= q < |s| && s[q] == v;
      }
    }
  }
}

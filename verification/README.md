# TruthLens claim pipeline in Dafny

A model of the core of TruthLens, a Flask service that checks the factual claims in a piece
of text. The model covers the following steps.

- **Claim extraction.** The `ClaimProcessor` splits the text into sentences. It keeps the
  sentences that look like claims, tags their capitalised and numeric words, and gives each
  claim a confidence.
- **Fact checking.** The `GoogleFactChecker` turns a Google Fact Check Tools response into a
  `FactCheckResult`. The `FactCheckAggregator` merges the results of several checkers and
  de-duplicates the facts they found.
- **Scoring and display.** The `CredibilityScorer` weighs sources, facts and the claim's
  confidence into a score and a risk level. The front end turns the score into a label, a
  colour and three factors.
- **Tracking.** The `GeoTracker` keeps per-country statistics, hotspots, a timeline and
  trending topics.
- **Social monitoring.** The `SocialMediaMonitor` tracks keywords and hashtags, tallies
  trends over posts and lists viral content.
- **The `/analyze` route.** It wires these steps together. When the request carries a
  location, a claim is recorded as false exactly when its risk level is 'high'.
- **Older and smaller components.** The older `FactChecker` has a rate limiter, a Google
  client, a local mock database and a one-day cache. The browser extension has a one-hour
  cache holding at most 100 entries.

Each component is a module over immutable datatypes. Its operations are pure functions. The
clock, HTTP responses and the checkers' outcomes are parameters. Python dictionaries with
insertion order are modelled as a key sequence together with a map (`Counting.Counter`).
Exceptions are modelled as `Result.Raised`.

Modules: `Optional`, `Text`, `Picking`, `Sorting`, `Counting` (shared helpers);
`ClaimProcessor`, `FactResult`, `GoogleChecker`, `Aggregator`, `Credibility`,
`ScoreDisplay`, `GeoTracker`, `LegacyChecker`, `SocialMonitor`, `ExtensionCache`, `Pipeline`.

## Model

| member | source | states |
|---|---|---|
| ClaimProcessor.NewProcessor | utils/nlp_processor.py:7-12 | the processor starts with the 21 claim-indicator phrases, among them "according to" and "reported" |
| ClaimProcessor.Sentences | utils/nlp_processor.py:20 | every sentence the text splits into on '.' is stripped, non-empty and free of '.' |
| ClaimProcessor.StrippedPiecesArePicked | utils/nlp_processor.py:20 | the comprehension keeps the stripped pieces that are not blank, in the order of the pieces |
| ClaimProcessor.StrippedPiecesMembers | utils/nlp_processor.py:20 | a piece that does not strip to nothing gives a sentence, and every sentence is some piece stripped |
| ClaimProcessor.SentencesOfText | utils/nlp_processor.py:20 | the sentences are the non-blank stripped pieces between the periods, in text order; the pieces join back to the text |
| ClaimProcessor.TagWord | utils/nlp_processor.py:34-40 | a word is tagged as an entity exactly when it is capitalised and as a number exactly when it holds a digit; a word that is both gets the entity tag first; no word gets any other tag or a tag twice |
| ClaimProcessor.TagWordsSound | utils/nlp_processor.py:34-40 | the tags of a word list are sound and complete: every tagged word is in the list with the right kind, and every capitalised or numeric word is tagged |
| ClaimProcessor.Confidence | utils/nlp_processor.py:60-83 | the confidence lies in [0.5, 1.0]; it is at least 0.7 when the sentence has a claim indicator, or has entities and at least three words |
| ClaimProcessor.AnalyseMeaning | utils/nlp_processor.py:27-40 | a sentence's words are its non-empty runs of non-whitespace; it has numbers exactly when one of its words holds a digit and a claim indicator exactly when some indicator occurs in its lower-cased text; its tags are exactly its capitalised and digit-bearing words, each with its kind |
| ClaimProcessor.ClaimOf | utils/nlp_processor.py:48-52 | the claim built from a sentence is well shaped: its text is the sentence with exactly one '.' at the end, its confidence lies in [0.5, 1], and its entities are the sentence's tags |
| ClaimProcessor.ExtractClaims | utils/nlp_processor.py:14-58 | every extracted claim is well shaped and its text is one of the text's sentences |
| ClaimProcessor.ExtractKeepsOrder | utils/nlp_processor.py:14-58 | the claims are exactly the claim sentences' records, in sentence order: sentence i yields a claim if and only if it passes the claim test |
| ClaimProcessor.ExtractIsPick | utils/nlp_processor.py:22-55 | the extraction loop equals picking, from the per-sentence records, those whose claim flag is set |
| ClaimProcessor.ClaimTest | utils/nlp_processor.py:24-47 | a sentence of at least three words is a claim exactly when it has an indicator, or has four words and an entity, or holds a digit |
| ClaimProcessor.EntityClaimConfidence | utils/nlp_processor.py:60-83 | every extracted claim with an entity has confidence at least 0.7 |
| ClaimProcessor.KeyEntities | utils/nlp_processor.py:85-104 | the map has an "ENTITY" key exactly when some word is capitalised and a "NUMBER" key exactly when some uncapitalised word holds a digit; no other keys; each list is every such word, in text order |
| ClaimProcessor.CapitalisedMembers | utils/nlp_processor.py:92-95 | the "ENTITY" list holds exactly the capitalised words |
| ClaimProcessor.NumberMembers | utils/nlp_processor.py:96-99 | the "NUMBER" list holds exactly the uncapitalised words with a digit |
| ClaimProcessor.KeyEntitiesMatchTags | utils/nlp_processor.py:85-104 | the "ENTITY" list agrees word for word with the entity tags of `extract_claims` |
| ClaimProcessor.KeyNumbersVersusTags | utils/nlp_processor.py:85-104 | the "NUMBER" list is the number tags of `extract_claims` with the capitalised words removed (the `elif` makes the two functions differ there) |
| FactResult.Build | utils/fact_checkers/base.py:34-46 | each field takes its keyword argument or the default: not verified, no facts, no sources, 0.0, 'unknown', no error |
| FactResult.New | utils/fact_checkers/base.py:34-40 | the constructor raises exactly when it is passed a keyword it does not declare, naming that keyword; otherwise it builds the result |
| FactResult.Defaults | utils/fact_checkers/base.py:34-46 | a call without arguments gives the default result |
| FactResult.ToDict | utils/fact_checkers/base.py:48-57 | the dictionary has exactly the six keys, each holding its field, with `None` for no error |
| FactResult.FromToDict | utils/fact_checkers/base.py:48-57 | reading back the dictionary gives the result back, so `to_dict` loses nothing |
| GoogleChecker.RatingScoreAsWritten | utils/fact_checkers/google_fact_check.py:132-151 | as written, an empty rating scores 0.5 and every score is one of 0.0, 0.2, 0.5, 0.8, 1.0 |
| GoogleChecker.MostlyTrueScoresOne | utils/fact_checkers/google_fact_check.py:138-149 | as written, any rating text containing "TRUE" scores 1.0, so "Mostly True" scores 1.0 and 0.8 is never returned |
| GoogleChecker.RatingScore | utils/fact_checkers/google_fact_check.py:132-151 | with the longer keys tried first, an empty rating scores 0.5 and every score is one of the five mapped values |
| GoogleChecker.RatingScoreDiffersOnlyOnMostlyTrue | utils/fact_checkers/google_fact_check.py:138-149 | the corrected score differs from the code's only on texts containing "MOSTLY TRUE", which score 0.8 |
| GoogleChecker.RatingLabelsScoreThemselves | utils/fact_checkers/google_fact_check.py:138-144 | each of the five labels scores its own mapped value: True 1.0, Mostly True 0.8, Mixed 0.5, Mostly False 0.2, False 0.0 |
| GoogleChecker.FactOf | utils/fact_checkers/google_fact_check.py:73-80 | a fact has exactly the six keys, with the review publisher's name as its publisher |
| GoogleChecker.MeanBounds | utils/fact_checkers/google_fact_check.py:88 | the mean of scores in [0, 1] lies in [0, 1] |
| GoogleChecker.PublishersOf | utils/fact_checkers/google_fact_check.py:83-84 | the sources are the distinct non-empty publishers of the facts, and nothing else |
| GoogleChecker.TryArgs | utils/fact_checkers/google_fact_check.py:45-99 | no claims gives the neutral fallback; a claim without reviews raises; otherwise the arguments are verified, 'success', no error, with a confidence in [0, 1] |
| GoogleChecker.AsWrittenAlwaysRaises | utils/fact_checkers/google_fact_check.py:23-130 | as written, `verify_claim` raises the unexpected-keyword `TypeError` for `reasoning` on every input |
| GoogleChecker.Verify | utils/fact_checkers/google_fact_check.py:23-130 | with `reasoning` dropped and ratings scored by the corrected table, the result is always verified and 'success' with no error, and its confidence lies in [0, 1] |
| GoogleChecker.VerifyIsVerifyWith | utils/fact_checkers/google_fact_check.py:23-130 | the corrected checker follows the source's control flow with the extra keyword removed, scoring ratings with the corrected table (both corrections of "## Findings") |
| GoogleChecker.VerifyFallbacks | utils/fact_checkers/google_fact_check.py:45-130 | a failed request, an empty claims list and a claim without reviews each give their own neutral fallback |
| GoogleChecker.VerifyClaims | utils/fact_checkers/google_fact_check.py:61-99 | with reviewed claims the facts are one per claim, the sources the distinct publishers, and the confidence the mean rating score |
| Aggregator.KeyOf | utils/fact_checkers/aggregator.py:76-89 | a fact is keyed by its URL exactly when the URL is non-empty, otherwise by its whole content |
| Aggregator.KeySetMembers | utils/fact_checkers/aggregator.py:76-89 | the set of keys seen is exactly the keys of the facts so far |
| Aggregator.KeepFirstKeys | utils/fact_checkers/aggregator.py:76-89 | keeping the first fact of each key keeps every key |
| Aggregator.KeepFirstDistinct | utils/fact_checkers/aggregator.py:76-89 | after keeping the first fact of each key, no two facts share a key |
| Aggregator.KeepFirstSubsequence | utils/fact_checkers/aggregator.py:76-89 | the kept facts are a subsequence of the input, in input order |
| Aggregator.KeepFirstKeepsFirst | utils/fact_checkers/aggregator.py:76-89 | the first fact with a given key is always kept |
| Aggregator.KeepFirstOfDistinct | utils/fact_checkers/aggregator.py:76-89 | facts whose keys are already distinct are kept unchanged |
| Aggregator.DedupIsKeepFirst | utils/fact_checkers/aggregator.py:76-89 | the loop with its `seen_urls` set and its `not in unique_facts` test equals keeping the first fact of each key |
| Aggregator.DedupProperties | utils/fact_checkers/aggregator.py:76-89 | `_deduplicate_facts` keeps a subsequence with the same keys, no repeated fact, no repeated non-empty URL, and every first occurrence |
| Aggregator.DedupIdempotent | utils/fact_checkers/aggregator.py:76-89 | de-duplicating twice is de-duplicating once |
| Aggregator.ErrorLine | utils/fact_checkers/aggregator.py:47-52 | a run adds an error line exactly when it raised or returned status 'error', never when it succeeded; the line is the checker's name, ": ", and the exception's text or the result's `error` (`None` for none) |
| Aggregator.AddNewProps | utils/fact_checkers/aggregator.py:44 | adding sources to the set keeps them distinct and holds exactly the old and new sources |
| Aggregator.AddNewAppend | utils/fact_checkers/aggregator.py:44 | adding two batches of sources one after the other is adding them at once |
| Aggregator.FoldSpec | utils/fact_checkers/aggregator.py:36-52 | the loop counts the successes, sums their confidence, collects their sources and facts, and collects one error line per failed run |
| Aggregator.Aggregate | utils/fact_checkers/aggregator.py:55-74 | the aggregate is verified exactly when its status is 'success', and then it has no error |
| Aggregator.AggregateSpec | utils/fact_checkers/aggregator.py:17-74 | without a success the result is the 'error' result naming every failure; otherwise it is verified with the mean confidence, the de-duplicated facts and the union of the sources |
| Aggregator.AggregateVerified | utils/fact_checkers/aggregator.py:42-74 | the aggregate is verified if and only if some checker returned 'success' |
| Aggregator.AggregateSources | utils/fact_checkers/aggregator.py:44 | the sources are distinct and are exactly those of the successful results |
| Aggregator.AggregateConfidence | utils/fact_checkers/aggregator.py:55-56 | with confidences in [0, 1] the mean confidence lies in [0, 1] |
| Aggregator.SuccessesAppend | utils/fact_checkers/aggregator.py:36-46 | the successes of two runs of checkers are the successes of each, in order |
| Aggregator.ErrorLinesAppend | utils/fact_checkers/aggregator.py:47-52 | the error lines of two runs of checkers are the lines of each, in order |
| Aggregator.ExceptionOnlyAddsError | utils/fact_checkers/aggregator.py:50-52 | a checker that raises adds its "name: message" line and nothing else |
| Aggregator.OtherStatusIgnored | utils/fact_checkers/aggregator.py:42-48 | a result whose status is neither 'success' nor 'error' leaves the aggregate unchanged |
| Credibility.EvaluateSources | utils/credibility_scorer.py:54-61 | the source score is 0.2 per source, capped at 0.8 |
| Credibility.FactScore | utils/credibility_scorer.py:28-33 | the fact score is 0.2 per fact, capped at 1.0 |
| Credibility.RiskOf | utils/credibility_scorer.py:63-70 | the risk is low exactly from 0.7, medium exactly on [0.4, 0.7), and high exactly below 0.4 |
| Credibility.Clamp | utils/credibility_scorer.py:43 | the clamped score lies in [0, 1] and equals its input when that is already in [0, 1] |
| Credibility.CalculateScore | utils/credibility_scorer.py:11-52 | the score is the 0.4/0.3/0.3 weighted sum of the components, clamped to [0, 1]; the risk is the score's risk; a missing confidence counts 0 |
| Credibility.FalsyIsUnverified | utils/credibility_scorer.py:17-18 | a falsy fact check scores like an unverified one without sources or facts |
| Credibility.ComponentScores | utils/credibility_scorer.py:20-40 | the source score counts only for a verified result, and the fact score is taken from the matching facts |
| Credibility.ReasoningLines | utils/credibility_scorer.py:20-40 | there is one reasoning line per branch taken, in the order source, facts, confidence |
| Credibility.NoClampForUnitConfidence | utils/credibility_scorer.py:36-43 | for a confidence in [0, 1] the clamp never bites, and the score is at most 0.92 |
| Credibility.NoEvidenceIsHighRisk | utils/credibility_scorer.py:11-70 | with no verification and no facts, the score is at most 0.3 and the risk is high |
| Credibility.UnverifiedNeverLowRisk | utils/credibility_scorer.py:11-70 | an unverified result is never low risk |
| Credibility.RiskMonotone | utils/credibility_scorer.py:63-70 | a higher score never has a higher risk |
| Credibility.ScoreMonotone | utils/credibility_scorer.py:11-52 | more confidence, more sources or more facts never lower the score |
| ScoreDisplay.ScoreLabel | static/js/main.js:208-214 | each of the five labels is chosen exactly on its score band: 0.8, 0.6, 0.4 and 0.2 are the lower bounds |
| ScoreDisplay.LabelTextsDistinct | static/js/main.js:208-214 | different labels display different texts |
| ScoreDisplay.ScoreLabelMonotone | static/js/main.js:208-214 | a higher score never gets a worse label |
| ScoreDisplay.ScoreColour | static/js/main.js:216-220 | the colour is green exactly from 0.7, yellow exactly on [0.4, 0.7), and red below 0.4 |
| ScoreDisplay.ColourMatchesRisk | static/js/main.js:216-220 | green, yellow and red coincide with the scorer's low, medium and high risk |
| ScoreDisplay.ScoreFactors | static/js/main.js:222-239 | there are three factors, in order, each positive exactly from its threshold: 0.7, 0.5 and 0.6 |
| ScoreDisplay.FactorsMonotone | static/js/main.js:222-239 | a higher score keeps every positive factor positive, and a green score has all three positive |
| GeoTracker.NewTrackerConsistent | utils/geo_tracker.py:7-23 | a new tracker is consistent: its counters are valid and its totals match the empty history |
| GeoTracker.CountryOfIdempotent | utils/geo_tracker.py:27-28 | mapping a country code twice is mapping it once |
| GeoTracker.TrackCounts | utils/geo_tracker.py:25-35 | tracking adds one claim to its country, and one false claim when it is false; other countries are untouched |
| GeoTracker.TrackTopicsAndSources | utils/geo_tracker.py:38-44 | the country's topic and source counters grow by the claim's entity words and sources, counted with repeats |
| GeoTracker.TrackHistory | utils/geo_tracker.py:46-54 | tracking appends one history entry with the upper-cased risk level, and keeps the earlier entries |
| GeoTracker.TrackCountersValid | utils/geo_tracker.py:25-54 | tracking keeps every counter well formed |
| GeoTracker.TrackTotals | utils/geo_tracker.py:25-54 | the claim totals stay equal to the history length and the false totals to the false entries |
| GeoTracker.TrackCountries | utils/geo_tracker.py:25-54 | total and false counters keep the same countries, and no country has more false than total claims |
| GeoTracker.TrackConsistent | utils/geo_tracker.py:25-54 | tracking preserves the tracker's consistency |
| GeoTracker.TotalClaimsIsSum | utils/geo_tracker.py:103-105 | the total claim count equals the sum of the per-country totals |
| GeoTracker.ActiveCountries | utils/geo_tracker.py:114-117 | the active countries are exactly those with at least one claim |
| GeoTracker.RoundTenth | utils/geo_tracker.py:107-112 | rounding to one decimal gives a whole number of tenths at most 0.05 from the value, the even one on a tie, and keeps a percentage within [0, 100] |
| GeoTracker.FalseShare | utils/geo_tracker.py:107-112 | the share of false claims lies in [0, 1]; it is 0 without false claims and 1 when all are false |
| GeoTracker.AccuracyRate | utils/geo_tracker.py:107-112 | the accuracy is 100 without history and otherwise the share of non-false claims rounded to a tenth, in [0, 100] |
| GeoTracker.AccuracyExtremes | utils/geo_tracker.py:107-112 | no false claims gives 100.0, and all claims false gives 0.0 |
| GeoTracker.RatioRisk | utils/geo_tracker.py:73-79 | a hotspot is high exactly from a 0.7 false ratio, medium on [0.4, 0.7), and low below 0.4 |
| GeoTracker.Hotspots | utils/geo_tracker.py:56-71 | the hotspots are sorted by false claims, descending, and are a permutation of one hotspot per active country |
| GeoTracker.HotspotsSound | utils/geo_tracker.py:56-71 | every hotspot is an active country with its own counts and the risk of its false ratio |
| GeoTracker.HotspotsComplete | utils/geo_tracker.py:56-71 | every country with a claim appears as a hotspot |
| GeoTracker.RegionalTrendsChangesNoCount | utils/geo_tracker.py:81-101 | reading the regional trends changes no count, topic, source or history entry, even when it creates the country's record |
| GeoTracker.RegionalTrendsConsistent | utils/geo_tracker.py:81-101 | reading the regional trends keeps the tracker consistent and the set of active countries unchanged |
| GeoTracker.RegionalTrendsTotals | utils/geo_tracker.py:81-101 | reading the regional trends keeps the claim and false totals |
| GeoTracker.RegionalTrendsStats | utils/geo_tracker.py:81-101 | the statistics report the mapped country, its total and false-claim counts and its topic and source counters; an unseen country reads as no false claims and low risk, and a country with claims gets the risk band of its false-claim ratio |
| GeoTracker.RecentClaimsProps | utils/geo_tracker.py:119-123 | the recent claims are drawn from the history, newest first, and number `limit` or the whole history; a negative limit follows Python's slicing |
| GeoTracker.RecentClaimsNewest | utils/geo_tracker.py:119-123 | every entry newer than the last one returned is returned |
| GeoTracker.CountDay | utils/geo_tracker.py:125-148 | counting a claim on a day keeps the rows ascending by date and adds exactly one claim |
| GeoTracker.CountDayLookup | utils/geo_tracker.py:132-138 | counting a claim on a day bumps only that day's true or false count |
| GeoTracker.Timeline | utils/geo_tracker.py:125-148 | the timeline rows are sorted by date with no date twice |
| GeoTracker.TimelineCounts | utils/geo_tracker.py:125-148 | each day's row counts exactly the true and the false claims of that day, and the rows add up to the history |
| GeoTracker.TimelineDates | utils/geo_tracker.py:125-148 | a date has a row if and only if some claim falls on it |
| GeoTracker.AllTopicsCounts | utils/geo_tracker.py:152-155 | the merged topic counter counts each topic over all countries |
| GeoTracker.TrendingTopicsCounts | utils/geo_tracker.py:150-160 | there are at most five trending topics, each with its count summed over all countries |
| GeoTracker.TrendingTopicsSorted | utils/geo_tracker.py:158-160 | the trending topics are ordered by count, descending |
| GeoTracker.TrendingTopicsDistinct | utils/geo_tracker.py:150-160 | no topic appears twice |
| GeoTracker.TrendingTopicsComplete | utils/geo_tracker.py:150-160 | every topic counted more often than the last one listed is listed, and with fewer than five listed, every counted topic is |
| LegacyChecker.CheckRateLimit | utils/fact_checker.py:16-22 | the wait is never negative; there is no wait without a previous request or once a full second has passed; the request time recorded is the time after the wait |
| LegacyChecker.RequestsSpaced | utils/fact_checker.py:16-22 | consecutive requests are at least one second apart, and the wait is at most one second |
| LegacyChecker.SleepsOnlyWhenTooSoon | utils/fact_checker.py:16-22 | it sleeps if and only if the previous request was less than a second ago |
| LegacyChecker.CleanQuery | utils/fact_checker.py:49 | the query is the pieces of the stripped claim between its periods, concatenated in order, so it has no '.' and keeps every other character |
| LegacyChecker.FactOfReview | utils/fact_checker.py:78-83 | mapping a claim raises exactly when its review list is present and empty; otherwise the fact has the four keys |
| LegacyChecker.FactsOfReviews | utils/fact_checker.py:76-89 | all claims map, one fact each in order, exactly when none has an empty review list |
| LegacyChecker.ReplyOf | utils/fact_checker.py:59-97 | a reply that found something carries a non-empty claims list, and every reply names Google as its source |
| LegacyChecker.GoogleVerify | utils/fact_checker.py:36-97 | without an API key nothing is sent and the reply says so; a query sent is the claim with '.' removed |
| LegacyChecker.GoogleSendsQuery | utils/fact_checker.py:36-97 | with a key, the cleaned claim is sent after the rate limit, and the reply is read from the response |
| LegacyChecker.GoogleNothingFound | utils/fact_checker.py:59-97 | HTTP 400, a failed request and an empty claims list each give their not-found reply |
| LegacyChecker.GoogleFound | utils/fact_checker.py:76-89 | with claims, the reply raises exactly when some claim has an empty review list, and otherwise carries the mapped facts |
| LegacyChecker.MockVerify | utils/fact_checker.py:107-136 | the local database finds the vaccine fact exactly when the lower-cased claim mentions "vaccine", and the moon fact exactly when it mentions "moon" |
| LegacyChecker.MockIgnoresCase | utils/fact_checker.py:107-136 | the local database ignores the claim's case |
| LegacyChecker.CheckCache | utils/fact_checker.py:197-204 | a hit is returned exactly for an entry younger than a day; a stale entry is deleted |
| LegacyChecker.UpdateCache | utils/fact_checker.py:206-208 | the claim's entry becomes the new result at the current time, and other entries are unchanged |
| LegacyChecker.CollectSpec | utils/fact_checker.py:225-235 | the result is verified exactly when some service found something, and lists the finders' sources and facts in service order |
| LegacyChecker.CacheHitAnswers | utils/fact_checker.py:213-215 | a fresh cache entry is the answer, and nothing changes |
| LegacyChecker.VerifyAsksServices | utils/fact_checker.py:197-246 | without a fresh entry both services are asked and the result is stored with the time read after the call; when the Google call raises, the result is the error result and nothing is stored |
| LegacyChecker.NoKeyUsesLocalDatabase | utils/fact_checker.py:210-246 | without an API key the answer is the local database's alone, and the rate limiter is untouched |
| LegacyChecker.AnswerIsCachedForADay | utils/fact_checker.py:197-246 | an answer that is not an error comes back unchanged when asked again within a day of being stored |
| SocialMonitor.NormalKeyword | utils/social_monitor.py:16-18 | a stored keyword is lower case and equals the given keyword up to case, which determines it |
| SocialMonitor.NormalHashtagFolds | utils/social_monitor.py:20-23 | a stored hashtag is lower case and equals, up to case, the hashtag with its leading and trailing '#' stripped, which determines it |
| SocialMonitor.NormalIdempotent | utils/social_monitor.py:16-31 | normalising a keyword or a hashtag twice is normalising it once |
| SocialMonitor.KeywordOpsKeepNormalised | utils/social_monitor.py:16-27 | adding or removing a keyword keeps every stored term normalised and leaves the hashtags alone |
| SocialMonitor.HashtagOpsKeepNormalised | utils/social_monitor.py:20-31 | adding or removing a hashtag keeps every stored term normalised and leaves the keywords alone |
| SocialMonitor.AddRemove | utils/social_monitor.py:16-31 | adding a term twice under equivalent spellings is adding it once, and removing any spelling of it removes it |
| SocialMonitor.HashtagSpellings | utils/social_monitor.py:20-23 | "#tag", "TAG" and "tag" track the same hashtag |
| SocialMonitor.TrackedTerms | utils/social_monitor.py:33-38 | the two lists hold exactly the tracked keywords and hashtags, each once |
| SocialMonitor.AnalyzeTrendsRaises | utils/social_monitor.py:133-134 | the analysis raises exactly when some post has a sentiment other than positive, neutral or negative |
| SocialMonitor.AnalyzeTrendsTallies | utils/social_monitor.py:84-139 | the engagement levels and the sentiments each partition the posts; the viral list and the reach cover every post |
| SocialMonitor.AnalyzeTrendsCounters | utils/social_monitor.py:104-111 | the platform counter counts each platform's posts and adds up to the post count; the term counter counts each matched term |
| SocialMonitor.Partitions | utils/social_monitor.py:113-134 | high, medium and low engagement partition the posts, and so do the three sentiments |
| SocialMonitor.ViralOfMembers | utils/social_monitor.py:124-130 | a post is listed as viral if and only if its weighted engagement exceeds 1000 |
| SocialMonitor.ViralContentProps | utils/social_monitor.py:159-164 | at most ten viral items, by engagement descending, drawn from the history; all of them when there are fewer than ten; and every item more engaging than the last one listed is listed |
| ExtensionCache.DropExpired | browser_extension/background.js:54-58 | exactly the entries at most an hour old are kept, in order |
| ExtensionCache.CleanSmallIsNoop | browser_extension/background.js:50-51 | a cache of at most 100 entries is not cleaned |
| ExtensionCache.CleanDropsExpired | browser_extension/background.js:50-66 | an over-full cache loses its expired entries first, and nothing more when that is enough |
| ExtensionCache.EvictOrder | browser_extension/background.js:60-66 | eviction removes only entries no newer than every entry kept |
| ExtensionCache.EvictCount | browser_extension/background.js:60-66 | eviction leaves exactly 100 entries with distinct keys |
| ExtensionCache.CleanEvictsOldest | browser_extension/background.js:50-68 | when too many entries are still fresh, the oldest are evicted down to exactly 100 |
| ExtensionCache.CleanBound | browser_extension/background.js:50-68 | after cleaning, the cache holds at most 100 entries with distinct keys |
| ExtensionCache.Find | browser_extension/background.js:73-74 | a lookup finds an entry under the key, or reports that the key is absent |
| ExtensionCache.FreshEntryAnswers | browser_extension/background.js:70-77 | an entry younger than an hour is the answer, and nothing is fetched |
| ExtensionCache.MissFetches | browser_extension/background.js:70-92 | otherwise a stale entry is dropped and the fetched result is returned; a success is stored last, and a failure is rethrown with nothing stored |
| ExtensionCache.CheckKeepsBound | browser_extension/background.js:70-92 | keys stay distinct, and the cache never exceeds 101 entries because the bound is enforced before insertion |
| ExtensionCache.RepeatWithinHourIsCached | browser_extension/background.js:70-92 | a text asked again within the hour of being stored is answered from the cache |
| Pipeline.TrackedOf | app.py:99-105 | the tracked claim is false if and only if its risk level is 'high' |
| Pipeline.ResultsPerClaim | app.py:88-113 | the loop gives one result per claim, in order, computed from that claim and its checkers' outcomes only |
| Pipeline.NoLocationNoTracking | app.py:98 | without a truthy location nothing is tracked |
| Pipeline.TrackedHistory | app.py:98-106 | with a truthy location every result is tracked once, in order, with its own clock reading |
| Pipeline.FalseClaimIsHighRisk | app.py:104 | a tracked entry is false exactly when the risk is 'high', which is exactly when it reads "HIGH" |
| Pipeline.AsWrittenEveryClaimHighRisk | app.py:17-18 | with the checker as written, every claim's fact check is an error, its score is at most 0.3 and its risk high, and with a location it is tracked as false |
| Pipeline.CorrectedIsVerified | app.py:17-18 | with the corrected checker every claim's fact check is verified, with Google's confidence and its facts de-duplicated |
| Pipeline.AggregateOfOne | app.py:17-18 | the aggregate over one successful checker is that checker's result, with its facts de-duplicated |
| Pipeline.PlaceholdersTrackNothing | app.py:62-84 | empty content and content without claims give their placeholder responses and track nothing; otherwise there is one result per claim |
| Text.SplitOn | utils/nlp_processor.py:20 | splitting gives at least one piece, and no piece contains the separator |
| Text.JoinSplit | utils/nlp_processor.py:20 | joining the pieces with the separator gives the text back |
| Text.SplitJoin | utils/nlp_processor.py:20 | splitting pieces that were joined gives the pieces back |
| Text.Strip | utils/nlp_processor.py:21 | a stripped string is a slice of its input with no whitespace at either end and only whitespace around it |
| Text.StripChars | utils/social_monitor.py:22 | stripping '#' gives a slice of the input with no '#' at either end and only '#' around it |
| Text.LowerUpper | utils/fact_checker.py:126 | lower-casing an upper-cased string is lower-casing it |
| Text.LowerIsUnique | utils/social_monitor.py:16-23 | a lower-case string equal to another up to case is that string lower-cased |
| Text.DigitInWords | utils/nlp_processor.py:31 | a sentence holds a digit if and only if one of its words does |
| Text.RemoveCharAppend | utils/fact_checker.py:49 | removing a character distributes over concatenation, so the other characters are kept in order |
| Text.RemoveCharIsJoinSplit | utils/fact_checker.py:49 | `s.replace(c, '')` equals `''.join(s.split(c))`: the pieces between the occurrences of `c`, in order |
| Counting.IncBy | utils/geo_tracker.py:31 | incrementing a counter adds to that key only, and appends the key when it is new |
| Counting.IncAll | utils/geo_tracker.py:38-44 | counting a list adds each key's number of occurrences |
| Counting.TotalIncAll | utils/geo_tracker.py:38-44 | counting a list adds its length to the counter's total |
| Counting.ItemsAreCounts | utils/geo_tracker.py:158 | the items of a counter list each key once, and a pair is an item exactly when its key is counted and its number is that key's count |
| Sorting.SortDesc | utils/geo_tracker.py:71 | the sort is a descending permutation of its input |
| Sorting.Insert | utils/geo_tracker.py:71 | inserting into a descending list keeps it descending and adds exactly the new element |
| Sorting.Prefix | utils/geo_tracker.py:123 | Python's `[:n]` slice gives a prefix of length n clipped to the list, and a negative n drops entries from the end |
| Picking.PickAtTrueIndices | utils/nlp_processor.py:22-55 | the picked elements are exactly those at the flagged indices, in order |
| Picking.TrueIndicesFromExact | utils/nlp_processor.py:22-55 | an index is listed if and only if its flag is set |

## Left out

- Network I/O is not modelled. The Google API, `checkFacts` of the extension and the Snopes
  scraper are replaced by parameters: an `HttpOutcome`/`Response` value, the `fetched` result
  and the checkers' outcomes.
- Clocks and sleeps are parameters. `datetime.now()`, `Date.now()` and `time.time()` become
  integer or real arguments. `time.sleep` becomes a returned wait.
- ISO timestamps are integers. A timestamp's date is an integer day, which `Timeline` groups by.
- Logging, `print` and `console.error` have no effect on results and are left out.
- Character classes are ASCII only. This covers case mapping (`lower()`, `upper()`,
  `isupper()`), digits (`isdigit()`) and the whitespace that `split()` and `strip()` use.
  Python also counts non-ASCII characters in these classes: "Élysée" starts with an upper-case
  letter, '²' is a digit, and '\xa0' separates words. The model does not.
- Python sets have no specified order. Where a set becomes a list, the model claims only
  membership and absence of repeats, in one of two ways:
  - for the Google publishers (`GoogleChecker.PublishersOf`) and the aggregator's sources, the
    model fixes first-occurrence order;
  - for the tracked keywords and hashtags (`SocialMonitor.Listing`), the model leaves the order
    unspecified: any listing of the set will do.
- `monitor_social_media`, `update_trend_history` and `get_trend_history` are not modelled.
  They return canned posts stamped with the clock and drop trend records older than a day.
  `ViralContent` takes the trend records as a parameter instead.
- The Snopes checker of utils/fact_checker.py:138-185 is not modelled. It scrapes HTML, so
  `LegacyChecker` has only the Google and mock services.
- The other Flask routes and the HTML and UI code of main.js are not modelled. Only the three
  score helpers of main.js are.
- Several parts of `analyze()` in app.py are not modelled:
  - the outer `try/except`, which turns any exception into a 500 response;
  - the `isinstance(fact_check, dict)` check, because the aggregator always returns `to_dict()`;
  - the JSON formatting of the response.
- JSON values are datatypes. A fact is a `map<string, string>` and `to_dict` gives a map to a
  small `Value` datatype.
- Reals are exact. Python floats are not modelled. `round(x, 1)` is modelled on exact reals
  as the nearest tenth, with a tie going to the even tenth. Where a binary float stands just
  off a tie, Python may round the other way; the model does not capture this.
- Pipeline.ResultsPerClaim: the loop of `analyze()` is modelled as the per-claim results
  followed by their tracking. This is the same computation, because a result never reads the
  tracker.
- ExtensionCache.CheckKeepsBound: the bound is 101, not 100. The source cleans before it
  inserts, so the cache can hold 101 entries until the next call.
- ExtensionCache.RepeatWithinHourIsCached: it requires that the cache holds at most 100
  entries after the first call. With 101 entries the next call's cleaning can evict the entry.
- ExtensionCache.MissFetches: the time stored with a fetched result is its own parameter
  (`stored`), separate from the lookup time. The source reads `Date.now()` again after the
  `await`.
- GoogleChecker.Verify: it carries both corrections of "## Findings", not only the removal of
  `reasoning`. It scores ratings with the corrected table, so a "Mostly True" rating gives 0.8
  where the source with only the keyword removed would give 1.0.
- Credibility.CalculateScore: the reasoning texts are data constructors rather than formatted
  strings. Their numbers are the component scores.

## Findings

| source | as written | input that shows it | evidently intended | confidence | as-written member | corrected member |
|---|---|---|---|---|---|---|
| utils/fact_checkers/google_fact_check.py:58 | every `FactCheckResult(...)` call in `verify_claim` passes `reasoning=`, a keyword that base.py:34-40 does not declare, so each path raises `TypeError`, including the exception handlers | any claim text with any HTTP outcome, e.g. a failed request | construct the result without `reasoning`, so that `verify_claim` returns its success or fallback result | not executed | GoogleChecker.AsWrittenAlwaysRaises | GoogleChecker.VerifyIsVerifyWith |
| utils/fact_checkers/google_fact_check.py:146-149 | the rating loop tests 'TRUE' before 'MOSTLY TRUE', and 'TRUE' is a substring of it, so a "Mostly True" rating scores 1.0 and 0.8 is unreachable | `{"textualRating": "Mostly True"}` | "Mostly True" scores 0.8 | not executed | GoogleChecker.MostlyTrueScoresOne | GoogleChecker.RatingLabelsScoreThemselves |

With the first finding, the Google checker is the only checker app.py:17-18 configures, and it
always raises. Every aggregate is therefore the 'error' result, and every claim scores high
risk; see Pipeline.AsWrittenEveryClaimHighRisk. The rest of the model uses the corrected
`GoogleChecker.Verify` and `GoogleChecker.RatingScore`.

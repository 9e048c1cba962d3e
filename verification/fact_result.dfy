/**
 * The standardised fact-check result (`FactCheckResult` in utils/fact_checkers/base.py):
 * its constructor with Python's keyword-argument defaults and its `to_dict` view.
 */
module FactResult {
  import opened Optional

  /** One fact-check record, a JSON object with string values (`text`, `rating`, `url`, ...). */
  type Fact = map<string, string>

  datatype FactCheckResult = FactCheckResult(
    verified: bool,
    matchingFacts: seq<Fact>,
    sources: seq<string>,
    confidence: real,
    status: string,
    error: Option<string>)

  /** The keyword arguments of a constructor call; `None` stands for an argument not passed
      (or, for the two lists and `error`, passed as `None`). */
  datatype Args = Args(
    verified: Option<bool>,
    matchingFacts: Option<seq<Fact>>,
    sources: Option<seq<string>>,
    confidence: Option<real>,
    status: Option<string>,
    error: Option<string>)

  const NoArgs := Args(None, None, None, None, None, None)

  /** The keyword parameters `__init__` declares. */
  const Parameters: set<string> := {"verified", "matching_facts", "sources", "confidence", "status", "error"}

  /** The message Python raises for a keyword argument `__init__` does not declare. */
  function UnexpectedKeyword(name: string): string {
    "FactCheckResult.__init__() got an unexpected keyword argument '" + name + "'"
  }

  /** The object `__init__` builds from accepted arguments: a missing argument takes its
      default and a missing or empty list is stored as the empty list. */
  function Build(args: Args): (r: FactCheckResult)
    ensures r.verified == args.verified.GetOr(false)
    ensures r.matchingFacts == args.matchingFacts.GetOr([])
    ensures r.sources == args.sources.GetOr([])
    ensures r.confidence == args.confidence.GetOr(0.0)
    ensures r.status == args.status.GetOr("unknown")
    ensures r.error == args.error
  {
    FactCheckResult(
      args.verified.GetOr(false),
      args.matchingFacts.GetOr([]),
      args.sources.GetOr([]),
      args.confidence.GetOr(0.0),
      args.status.GetOr("unknown"),
      args.error)
  }

  /** `FactCheckResult(**args, **extra)`: `extra` lists any further keyword names in the call.
      A name outside the declared parameters raises `TypeError` for the first such name;
      otherwise the object is built from `args`. */
  function New(args: Args, extra: seq<string>): (r: Result<FactCheckResult>)
    ensures (exists i :: 0 <= i < |extra| && extra[i] !in Parameters) <==> r.Raised?
    ensures r.Raised? ==> exists i :: 0 <= i < |extra| && r.message == UnexpectedKeyword(extra[i])
    ensures r.Ok? ==> r.value == Build(args)
    decreases |extra|
  {
    if |extra| == 0 then Ok(Build(args))
    else if extra[0] !in Parameters then Raised(UnexpectedKeyword(extra[0]))
    else
      var r := New(args, extra[1..]);
      assert forall i :: 1 <= i < |extra| ==> extra[i] == extra[1..][i - 1];
      r
  }

  /** The constructor called with no arguments gives the documented defaults. */
  lemma Defaults()
    ensures New(NoArgs, []) == Ok(FactCheckResult(false, [], [], 0.0, "unknown", None))
  {
  }

  /** A dictionary value as `to_dict` produces it. */
  datatype Value =
    | Bool(b: bool)
    | Facts(facts: seq<Fact>)
    | Strings(strings: seq<string>)
    | Number(x: real)
    | Text(s: string)
    | Null

  const Keys: set<string> := {"verified", "matching_facts", "sources", "confidence", "status", "error"}

  /** `to_dict`: exactly the six keys, each holding the stored value (`error` as `null` when absent). */
  function ToDict(r: FactCheckResult): (d: map<string, Value>)
    ensures d.Keys == Keys
    ensures d["verified"] == Bool(r.verified) && d["matching_facts"] == Facts(r.matchingFacts)
    ensures d["sources"] == Strings(r.sources) && d["confidence"] == Number(r.confidence)
    ensures d["status"] == Text(r.status)
    ensures d["error"] == if r.error.Some? then Text(r.error.value) else Null
  {
    map[
      "verified" := Bool(r.verified),
      "matching_facts" := Facts(r.matchingFacts),
      "sources" := Strings(r.sources),
      "confidence" := Number(r.confidence),
      "status" := Text(r.status),
      "error" := if r.error.Some? then Text(r.error.value) else Null]
  }

  /** Reads a result back from a dictionary of `to_dict`'s shape. */
  function FromDict(d: map<string, Value>): (r: Option<FactCheckResult>)
    ensures r.Some? ==> d.Keys >= Keys
  {
    if && "verified" in d && d["verified"].Bool?
       && "matching_facts" in d && d["matching_facts"].Facts?
       && "sources" in d && d["sources"].Strings?
       && "confidence" in d && d["confidence"].Number?
       && "status" in d && d["status"].Text?
       && "error" in d && (d["error"].Text? || d["error"].Null?)
    then
      Some(FactCheckResult(
        d["verified"].b, d["matching_facts"].facts, d["sources"].strings,
        d["confidence"].x, d["status"].s,
        if d["error"].Text? then Some(d["error"].s) else None))
    else None
  }

  /** `to_dict` loses nothing: the result can be read back from its dictionary. */
  lemma FromToDict(r: FactCheckResult)
    ensures FromDict(ToDict(r)) == Some(r)
  {
  }

  /** A sum of `n` confidences in [0, 1], divided by `n`, is a confidence in [0, 1]. */
  lemma MeanInUnit(sum: real, n: nat)
    requires n > 0 && 0.0 <= sum <= n as real
    ensures 0.0 <= sum / n as real <= 1.0
  {
    var m := sum / n as real;
    assert m * n as real == sum;
    assert (1.0 - m) * n as real == n as real - sum;
  }
}

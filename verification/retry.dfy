/** The control skeleton of `call_gemini_api`: a bounded number of attempts,
    each of which either raises or yields a parsed JSON value. The service,
    the fenced-block search and `json.loads` are folded into one abstract
    attempt outcome. */
module Retry {
  import opened Common

  /** A parsed JSON value as far as the caller distinguishes it: an array (of
      MCQ records) or anything else. */
  datatype Json = JArray(items: seq<Record>) | JObject(fields: Record) | JScalar

  /** What one attempt ends in: an exception anywhere in the attempt, or the
      value `json.loads` returned. */
  datatype Attempt = Raised | Parsed(value: Json)

  /** The result of one call: the records handed back and how many attempts
      were spent on them. */
  datatype Reply = Reply(records: seq<Record>, attempts: nat)

  const Retries: nat := 3

  /** `value if isinstance(value, list) else []`. */
  function AsRecords(v: Json): (rs: seq<Record>)
    ensures v.JArray? ==> rs == v.items
    ensures !v.JArray? ==> rs == []
  {
    match v
    case JArray(items) => items
    case _ => []
  }

  /** The attempts from `i` on, given what each of the `Retries` attempts would
      end in. The call stops at the first attempt that parses; a raising
      attempt is followed by another only while attempts remain. */
  function RetryFrom(outcomes: seq<Attempt>, i: nat): (r: Reply)
    requires |outcomes| == Retries && i < Retries
    ensures i < r.attempts <= Retries
    ensures forall j :: i <= j < r.attempts - 1 ==> outcomes[j].Raised?
    ensures outcomes[r.attempts - 1].Parsed? ==>
              r.records == AsRecords(outcomes[r.attempts - 1].value)
    ensures outcomes[r.attempts - 1].Raised? ==>
              r.attempts == Retries && r.records == []
    decreases Retries - i
  {
    match outcomes[i]
    case Parsed(v) => Reply(AsRecords(v), i + 1)
    case Raised =>
      if i >= Retries - 1 then Reply([], i + 1) else RetryFrom(outcomes, i + 1)
  }

  /** The whole call: attempts from the first one on. */
  function Call(outcomes: seq<Attempt>): Reply
    requires |outcomes| == Retries
  {
    RetryFrom(outcomes, 0)
  }

  /** The `for i in range(retries)` loop of `call_gemini_api`, returning from inside. */
  method CallWithRetry(outcomes: seq<Attempt>) returns (records: seq<Record>, attempts: nat)
    requires |outcomes| == Retries
    ensures Reply(records, attempts) == Call(outcomes)
    ensures 1 <= attempts <= Retries
  {
    var i := 0;
    while i < Retries
      invariant 0 <= i < Retries
      invariant Call(outcomes) == RetryFrom(outcomes, i)
      invariant forall j :: 0 <= j < i ==> outcomes[j].Raised?
      decreases Retries - i
    {
      match outcomes[i]
      case Parsed(v) =>
        return AsRecords(v), i + 1;
      case Raised =>
        if i >= Retries - 1 {
          return [], i + 1;
        }
      i := i + 1;
    }
    // The trailing `return []` of `call_gemini_api` is unreachable: the last attempt
    // returns from inside the loop.
    assert false;
  }

  /** The first attempt that parses ends the call, whatever it parsed to. */
  lemma FirstParseWins(outcomes: seq<Attempt>, k: nat)
    requires |outcomes| == Retries && k < Retries
    requires outcomes[k].Parsed?
    requires forall j :: 0 <= j < k ==> outcomes[j].Raised?
    ensures Call(outcomes) == Reply(AsRecords(outcomes[k].value), k + 1)
  {
  }

  /** Three raising attempts give the empty list, never an error. */
  lemma AllRaisedGivesNothing(outcomes: seq<Attempt>)
    requires |outcomes| == Retries
    requires forall j :: 0 <= j < Retries ==> outcomes[j].Raised?
    ensures Call(outcomes) == Reply([], Retries)
  {
    assert outcomes[Call(outcomes).attempts - 1].Raised?;
  }

  /** Records come back only from an attempt that parsed to a JSON array. */
  lemma RecordsOnlyFromArray(outcomes: seq<Attempt>)
    requires |outcomes| == Retries
    requires |Call(outcomes).records| > 0
    ensures exists k :: 0 <= k < Retries && outcomes[k] == Parsed(JArray(Call(outcomes).records))
  {
    var k := Call(outcomes).attempts - 1;
    assert outcomes[k] == Parsed(JArray(Call(outcomes).records));
  }
}

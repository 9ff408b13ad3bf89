/** The confidence gate of /api/interpret. The model call that extracts
    data and scores each field is outside this module: its parsed reply is
    an input. What remains is the validation of the request, the mean of
    the field scores and the strict threshold test that decides whether the
    caller should escalate to a human. */
module ConfidenceGate {
  import opened Common

  /** The threshold used when the request gives none. */
  const DefaultThreshold: real := 0.7

  const ModelUsed: string := "claude-haiku-4-5-20251001"

  /** The fixed cost estimate, in US dollars, the reply reports. */
  const CostEstimate: real := 0.0001

  datatype Request = Request(
    data: Option<Json>,
    schema: Option<Json>,
    context: Option<string>,
    threshold: Option<real>)

  /** The model's reply after JSON parsing: the normalised data, one
      confidence score per field (in the order of the JSON object), the
      fields it could not extract, and free-form notes. */
  datatype Parsed = Parsed(
    normalized: Option<Json>,
    confidence: Option<seq<(string, real)>>,
    missingFields: Option<seq<string>>,
    notes: Option<string>)

  /** The reason attached to an escalation: "Low confidence (<overall>) or
      missing fields", the number printed to two decimals. */
  datatype EscalationReason = LowConfidenceOrMissingFields(overall: real)

  datatype Reply = Reply(
    data: Option<Json>,
    confidence: Option<seq<(string, real)>>,
    overallConfidence: real,
    missingFields: seq<string>,
    notes: Option<string>,
    shouldEscalate: bool,
    escalationReason: Option<EscalationReason>,
    modelUsed: string,
    costEstimate: real)

  /** The arithmetic mean, and 0 for no scores at all. */
  function Mean(xs: seq<real>): (m: real)
    ensures |xs| == 0 ==> m == 0.0
    ensures |xs| > 0 ==> m * (|xs| as real) == Sum(xs)
  {
    if |xs| == 0 then 0.0 else Sum(xs) / (|xs| as real)
  }

  /** The gate itself: escalate below the threshold (strictly) or when
      some field is missing. */
  predicate Escalates(overall: real, missing: seq<string>, threshold: real) {
    overall < threshold || |missing| > 0
  }

  /** The request check made before any model call: `data` and `schema`
      must both be truthy. Gives the threshold in force. */
  function Validate(req: Request): (r: Result<real>)
    ensures r.Err? <==> !Present(req.data) || !Present(req.schema)
    ensures r.Err? ==> r.error == BadRequest("data and schema are required")
    ensures r.Ok? ==> r.value == req.threshold.GetOr(DefaultThreshold)
  {
    if !Present(req.data) || !Present(req.schema) then
      Err(BadRequest("data and schema are required"))
    else
      Ok(200, req.threshold.GetOr(DefaultThreshold))
  }

  /** POST /api/interpret, given what the model's reply parsed to. */
  function Interpret(req: Request, parsed: Parsed): (r: Result<Reply>)
    ensures r.Err? <==> Validate(req).Err?
    ensures r.Err? ==> r.error.BadRequest?
    ensures r.Ok? ==>
      var reply := r.value;
      var scores := Seconds(parsed.confidence.GetOr([]));
      var threshold := req.threshold.GetOr(DefaultThreshold);
      && r.code == 200
      && (|scores| == 0 ==> reply.overallConfidence == 0.0)
      && (|scores| > 0 ==> reply.overallConfidence * (|scores| as real) == Sum(scores))
      && (parsed.missingFields.None? ==> reply.missingFields == [])
      && (parsed.missingFields.Some? ==> reply.missingFields == parsed.missingFields.value)
      && (reply.shouldEscalate <==> reply.overallConfidence < threshold || |reply.missingFields| > 0)
      && (reply.escalationReason.Some? <==> reply.shouldEscalate)
      && (reply.escalationReason.Some? ==>
            reply.escalationReason.value == LowConfidenceOrMissingFields(reply.overallConfidence))
      && reply.data == parsed.normalized && reply.confidence == parsed.confidence
      && reply.notes == parsed.notes
      && reply.modelUsed == ModelUsed && reply.costEstimate == CostEstimate
  {
    match Validate(req)
    case Err(e) => Err(e)
    case Ok(_, threshold) =>
      var overall := Mean(Seconds(parsed.confidence.GetOr([])));
      var missing := parsed.missingFields.GetOr([]);
      var escalate := Escalates(overall, missing, threshold);
      Ok(200, Reply(parsed.normalized, parsed.confidence, overall, missing, parsed.notes, escalate,
                    if escalate then Some(LowConfidenceOrMissingFields(overall)) else None,
                    ModelUsed, CostEstimate))
  }

  /** Scores that all lie in [lo, hi] sum to between n*lo and n*hi. */
  lemma {:induction false} SumBounds(xs: seq<real>, lo: real, hi: real)
    requires forall i :: 0 <= i < |xs| ==> lo <= xs[i] <= hi
    ensures (|xs| as real) * lo <= Sum(xs) <= (|xs| as real) * hi
  {
    if |xs| > 0 {
      SumBounds(xs[..|xs| - 1], lo, hi);
    }
  }

  /** The mean of scores in [lo, hi] lies in [lo, hi]; in particular
      scores in [0, 1] give an overall confidence in [0, 1]. */
  lemma MeanBounds(xs: seq<real>, lo: real, hi: real)
    requires |xs| > 0
    requires forall i :: 0 <= i < |xs| ==> lo <= xs[i] <= hi
    ensures lo <= Mean(xs) <= hi
  {
    SumBounds(xs, lo, hi);
    var n := |xs| as real;
    var m := Mean(xs);
    assert m * n >= n * lo;
    assert m * n <= n * hi;
  }

  /** n copies of one score sum to n times it. */
  lemma {:induction false} SumConstant(xs: seq<real>, t: real)
    requires forall i :: 0 <= i < |xs| ==> xs[i] == t
    ensures Sum(xs) == (|xs| as real) * t
  {
    if |xs| > 0 {
      SumConstant(xs[..|xs| - 1], t);
    }
  }

  /** The threshold boundary: when every field scores exactly the
      threshold and none is missing, the gate does not escalate, because
      the test is a strict `<`. */
  lemma AtThresholdDoesNotEscalate(req: Request, parsed: Parsed)
    requires Validate(req).Ok?
    requires parsed.confidence.Some? && |parsed.confidence.value| > 0
    requires forall i :: 0 <= i < |parsed.confidence.value| ==>
      parsed.confidence.value[i].1 == req.threshold.GetOr(DefaultThreshold)
    requires parsed.missingFields.None? || parsed.missingFields.value == []
    ensures Interpret(req, parsed).Ok?
    ensures !Interpret(req, parsed).value.shouldEscalate
    ensures Interpret(req, parsed).value.escalationReason.None?
  {
    var xs := Seconds(parsed.confidence.value);
    var t := req.threshold.GetOr(DefaultThreshold);
    SumConstant(xs, t);
    var n := |xs| as real;
    assert Mean(xs) * n == n * t;
  }

  /** A request without `data` or `schema` is turned away whatever the
      model would have said: the reply does not depend on it. */
  lemma RejectedBeforeModelCall(req: Request, p1: Parsed, p2: Parsed)
    requires !Present(req.data) || !Present(req.schema)
    ensures Interpret(req, p1) == Interpret(req, p2)
    ensures Interpret(req, p1) == Err(BadRequest("data and schema are required"))
  {
  }

  /** With no scores at all the overall confidence is 0, so any positive
      threshold escalates. */
  lemma NoScoresEscalates(req: Request, parsed: Parsed)
    requires Validate(req).Ok?
    requires parsed.confidence.None? || parsed.confidence.value == []
    requires req.threshold.GetOr(DefaultThreshold) > 0.0
    ensures Interpret(req, parsed).Ok? && Interpret(req, parsed).value.shouldEscalate
  {
  }

  /** Raising the threshold never turns an escalation into an accept. */
  lemma EscalationMonotone(overall: real, missing: seq<string>, t1: real, t2: real)
    requires t1 <= t2
    requires Escalates(overall, missing, t1)
    ensures Escalates(overall, missing, t2)
  {
  }
}

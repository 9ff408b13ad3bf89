/** The email triage agent of examples/email-triage.ts: an email is sent
    through the confidence gate, escalated to a human when the gate says
    so, and otherwise saved to the state store for 30 days and routed to
    exactly one workflow. What the control plane answered is an input; the
    calls the agent makes in return are the result. */
module EmailTriage {
  import opened Common
  import ConfidenceGate

  datatype Category = Support | Sales | Billing | Spam | Other
  datatype Priority = Low | Medium | High | Urgent
  datatype Sentiment = Positive | Neutral | Negative

  datatype Email = Email(id: string, sender: string, subject: string, body: string, receivedAt: string)

  /** The interpreted data, read as a triage result. */
  datatype Triage = Triage(
    category: Category,
    priority: Priority,
    requiresResponse: bool,
    sentiment: Sentiment,
    keyEntities: seq<string>)

  /** The reason an escalation gives: the gate's own, or the agent's
      fallback text when the gate gave none. */
  datatype Reason = GateReason(reason: ConfidenceGate.EscalationReason) | Fallback(text: string)

  /** A call the agent makes to the control plane. */
  datatype Call =
    | Escalate(reason: Reason, priority: Priority, emailId: string, sender: string, subject: string,
               extracted: Option<Json>, confidenceScores: Option<seq<(string, real)>>,
               missingFields: seq<string>)
    | SaveState(component: string, key: string, triage: Triage, triagedAt: int, confidence: real,
                cost: real, expiresInSeconds: int)
    | ExecuteWorkflow(workflowName: string, email: Email, triage: Triage)

  const FallbackReason: string := "Low confidence in email classification"

  const Component: string := "email_triage"

  /** 30 days, in seconds. */
  const Retention: int := 30 * 24 * 60 * 60

  const Threshold: real := 0.7

  const UrgentWorkflow: string := "urgent_response"

  const RoutePrefix: string := "route_to_"

  function CategoryName(c: Category): string {
    match c
    case Support => "support"
    case Sales => "sales"
    case Billing => "billing"
    case Spam => "spam"
    case Other => "other"
  }

  /** The request the agent sends to the confidence gate. */
  function InterpretRequest(email: Email): (req: ConfidenceGate.Request)
    ensures req.threshold == Some(Threshold)
  {
    ConfidenceGate.Request(
      Some(JStr("\n      Subject: " + email.subject + "\n      From: " + email.sender
                + "\n      Body: " + email.body + "\n    ")),
      Some(JObj(map[
        "category" := JStr("string (support|sales|billing|spam|other)"),
        "priority" := JStr("string (low|medium|high|urgent)"),
        "requires_response" := JStr("boolean"),
        "sentiment" := JStr("string (positive|neutral|negative)"),
        "key_entities" := JStr("array of strings (names, companies, products mentioned)")])),
      Some("This is an incoming email that needs to be triaged and routed to the appropriate team."),
      Some(Threshold))
  }

  /** The workflow an accepted email is routed to. */
  function Route(t: Triage): (name: string)
    ensures t.priority == Urgent || t.sentiment == Negative ==> name == UrgentWorkflow
    ensures t.priority != Urgent && t.sentiment != Negative ==> name == RoutePrefix + CategoryName(t.category)
  {
    if t.priority == Urgent || t.sentiment == Negative then UrgentWorkflow
    else RoutePrefix + CategoryName(t.category)
  }

  /** triageEmail, given the gate's reply and the reply's data read as a
      triage result: the result it returns and the calls it makes, in
      order. */
  function TriageEmail(email: Email, reply: ConfidenceGate.Reply, data: Triage, now: int): (r: (Option<Triage>, seq<Call>))
    ensures reply.shouldEscalate ==> r.0.None? && |r.1| == 1 && r.1[0].Escalate?
    ensures reply.shouldEscalate ==>
      && r.1[0].priority == Medium && r.1[0].emailId == email.id
      && r.1[0].sender == email.sender && r.1[0].subject == email.subject
      && r.1[0].extracted == reply.data && r.1[0].confidenceScores == reply.confidence
      && r.1[0].missingFields == reply.missingFields
      && (reply.escalationReason.Some? ==> r.1[0].reason == GateReason(reply.escalationReason.value))
      && (reply.escalationReason.None? ==> r.1[0].reason == Fallback(FallbackReason))
    ensures !reply.shouldEscalate ==>
      && r.0 == Some(data) && |r.1| == 2
      && r.1[0] == SaveState(Component, email.id, data, now, reply.overallConfidence, reply.costEstimate, Retention)
      && r.1[1].ExecuteWorkflow? && r.1[1].email == email && r.1[1].triage == data
      && r.1[1].workflowName == Route(data)
  {
    if reply.shouldEscalate then
      var reason := match reply.escalationReason
        case Some(g) => GateReason(g)
        case None => Fallback(FallbackReason);
      (None, [Escalate(reason, Medium, email.id, email.sender, email.subject,
                       reply.data, reply.confidence, reply.missingFields)])
    else
      (Some(data), [SaveState(Component, email.id, data, now, reply.overallConfidence, reply.costEstimate, Retention),
                    ExecuteWorkflow(Route(data), email, data)])
  }

  /** The agent's request always passes the gate's validation: the email
      text is never empty and the schema is an object. */
  lemma RequestAlwaysAccepted(email: Email)
    ensures ConfidenceGate.Validate(InterpretRequest(email)) == Ok(200, Threshold)
  {
    var text := "\n      Subject: " + email.subject + "\n      From: " + email.sender
                + "\n      Body: " + email.body + "\n    ";
    assert text[0] == '\n';
  }

  /** Through the gate, an email is escalated exactly when the mean score
      is below 0.7 or a field is missing; escalations then always carry
      the gate's reason, never the fallback. */
  lemma EscalatesIffGateSays(email: Email, parsed: ConfidenceGate.Parsed, data: Triage, now: int)
    ensures ConfidenceGate.Interpret(InterpretRequest(email), parsed).Ok?
    ensures var reply := ConfidenceGate.Interpret(InterpretRequest(email), parsed).value;
      var r := TriageEmail(email, reply, data, now);
      && (r.0.None? <==> reply.overallConfidence < Threshold || |reply.missingFields| > 0)
      && (r.0.None? ==> r.1[0].reason.GateReason?)
  {
    RequestAlwaysAccepted(email);
  }

  /** An accepted email starts exactly one workflow, after its triage is
      saved; an escalated one starts none and saves nothing. */
  lemma OneWorkflowPerAcceptedEmail(email: Email, reply: ConfidenceGate.Reply, data: Triage, now: int)
    ensures var calls := TriageEmail(email, reply, data, now).1;
      && (forall i :: 0 <= i < |calls| && calls[i].ExecuteWorkflow? ==> i == |calls| - 1)
      && (forall i :: 0 <= i < |calls| && calls[i].SaveState? ==> i == 0)
      && (!reply.shouldEscalate <==> calls[|calls| - 1].ExecuteWorkflow?)
  {
  }

  /** Category routes are distinct from each other and from the urgent
      queue, so the routing decision can be read back from the name. */
  lemma RoutesDistinct(a: Triage, b: Triage)
    requires a.priority != Urgent && a.sentiment != Negative
    requires b.priority != Urgent && b.sentiment != Negative
    ensures Route(a) == Route(b) <==> a.category == b.category
    ensures Route(a) != UrgentWorkflow
  {
    var pa := Route(a);
    var pb := Route(b);
    var n := |RoutePrefix|;
    assert pa[n..] == CategoryName(a.category);
    assert pb[n..] == CategoryName(b.category);
    assert pa[..n] == RoutePrefix;
    assert pa[0] == 'r' && UrgentWorkflow[0] == 'u';
  }
}

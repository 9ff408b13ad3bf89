/** Handoffs behind /api/handoffs: POST records a pending transfer of
    context between agents, checking the agents it names; GET lists
    handoffs newest first. */
module Handoffs {
  import opened Common
  import opened Db
  import opened Ordering

  datatype CreateRequest = CreateRequest(
    fromAgent: Option<Id>,
    toAgent: Option<Id>,
    workflowId: Option<Id>,
    executionId: Option<Id>,
    context: Option<Json>,
    reason: Option<string>)

  /** The filters of a listing; each one that is given must match. */
  datatype Filter = Filter(
    fromAgent: Option<Id>,
    toAgent: Option<Id>,
    status: Option<HandoffStatus>,
    workflowId: Option<Id>)

  /** An agent reference that is given must name an existing agent. */
  predicate Resolves(agents: map<Id, Agent>, ref: Option<Id>) {
    ref.Some? ==> ref.value in agents
  }

  /** POST /api/handoffs. The context is checked first, then the from-agent,
      then the to-agent; all three failures answer 400. The workflow
      reference is not checked by the handler, but `handoffs.workflow_id`
      is a foreign key (the listing embeds `workflows` through it), so an
      insert naming an unknown workflow fails and answers 500. The
      execution reference is stored unchecked. */
  function Create(db: Db, req: CreateRequest, now: int): (r: Result<(Db, Id, Handoff)>)
    ensures (r.Err? && r.error.BadRequest?) <==>
      !Present(req.context) || !Resolves(db.agents, req.fromAgent) || !Resolves(db.agents, req.toAgent)
    ensures !Present(req.context) ==> r == Err(BadRequest("context is required"))
    ensures (r.Err? && r.error.ServerError?) <==>
      && Present(req.context) && Resolves(db.agents, req.fromAgent) && Resolves(db.agents, req.toAgent)
      && ((req.workflowId.Some? && req.workflowId.value !in db.workflows) || db.nextId in db.handoffs)
    ensures r.Err? ==> r.error.BadRequest? || r.error.ServerError?
    ensures r.Ok? ==>
      var (db', id, h) := r.value;
      && r.code == 201
      && (req.workflowId.Some? ==> req.workflowId.value in db.workflows)
      && h == Handoff(req.fromAgent, req.toAgent, req.workflowId, req.executionId, req.context.value,
                      req.reason, HandoffStatus.Pending, now)
      && Truthy(h.context)
      && id !in db.handoffs
      && db'.handoffs == db.handoffs[id := h]
      && db'.agents == db.agents && db'.workflows == db.workflows
      && db'.executions == db.executions && db'.state == db.state
      && db'.audit == db.audit + [AuditEvent(req.fromAgent, "handoff_create", "handoff", id,
                                             HandoffCreate(req.toAgent, req.workflowId, req.reason))]
  {
    if !Present(req.context) then
      Err(BadRequest("context is required"))
    else if !Resolves(db.agents, req.fromAgent) then
      Err(BadRequest("from_agent_id does not exist"))
    else if !Resolves(db.agents, req.toAgent) then
      Err(BadRequest("to_agent_id does not exist"))
    else if req.workflowId.Some? && req.workflowId.value !in db.workflows then
      Err(ServerError("Internal server error"))
    else if db.nextId in db.handoffs then
      Err(ServerError("Internal server error"))
    else
      var id := db.nextId;
      var h := Handoff(req.fromAgent, req.toAgent, req.workflowId, req.executionId, req.context.value,
                       req.reason, HandoffStatus.Pending, now);
      var event := AuditEvent(req.fromAgent, "handoff_create", "handoff", id,
                              HandoffCreate(req.toAgent, req.workflowId, req.reason));
      Ok(201, (db.(handoffs := db.handoffs[id := h], nextId := id + 1, audit := db.audit + [event]), id, h))
  }

  predicate Matches(h: Handoff, f: Filter) {
    && (f.fromAgent.Some? ==> h.fromAgent == f.fromAgent)
    && (f.toAgent.Some? ==> h.toAgent == f.toAgent)
    && (f.status.Some? ==> h.status == f.status.value)
    && (f.workflowId.Some? ==> h.workflowId == f.workflowId)
  }

  /** The creation times of the handoffs that pass the filter. */
  function Selected(db: Db, f: Filter): (stamp: map<Id, int>)
    ensures forall id :: id in stamp <==> id in db.handoffs && Matches(db.handoffs[id], f)
    ensures forall id :: id in stamp ==> stamp[id] == db.handoffs[id].createdAt
  {
    map id | id in db.handoffs && Matches(db.handoffs[id], f) :: db.handoffs[id].createdAt
  }

  /** GET /api/handoffs: every handoff that passes all given filters,
      newest first; there is no limit. */
  method List(db: Db, f: Filter) returns (ids: seq<Id>, rows: seq<Handoff>)
    ensures |rows| == |ids|
    ensures forall i :: 0 <= i < |ids| ==>
      ids[i] in db.handoffs && rows[i] == db.handoffs[ids[i]] && Matches(rows[i], f)
    ensures forall id :: id in db.handoffs && Matches(db.handoffs[id], f) ==> id in ids
    ensures forall i, j :: 0 <= i < j < |ids| ==> ids[i] != ids[j]
    ensures forall i, j :: 0 <= i < j < |rows| ==> rows[i].createdAt >= rows[j].createdAt
  {
    var stamp := Selected(db, f);
    ids := TakeNewest(stamp, |stamp|);
    rows := seq(|ids|, i requires 0 <= i < |ids| => db.handoffs[ids[i]]);
  }

  lemma CreateKeepsValid(db: Db, req: CreateRequest, now: int)
    requires Valid(db)
    requires Create(db, req, now).Ok?
    ensures Valid(Create(db, req, now).value.0)
  {
  }

  /** Agent ids that are left out are not checked: a handoff naming no
      agent is created in any valid store, provided it carries context. */
  lemma OmittedAgentsNotChecked(db: Db, ctx: Json, now: int)
    requires Valid(db)
    requires Truthy(ctx)
    ensures Create(db, CreateRequest(None, None, None, None, Some(ctx), None), now).Ok?
  {
  }

  /** A handoff naming a workflow that does not exist is refused by the
      database, after the agent checks pass. */
  lemma DanglingWorkflowFails(db: Db, req: CreateRequest, now: int)
    requires Present(req.context) && Resolves(db.agents, req.fromAgent) && Resolves(db.agents, req.toAgent)
    requires req.workflowId.Some? && req.workflowId.value !in db.workflows
    ensures Create(db, req, now) == Err(ServerError("Internal server error"))
  {
  }
}

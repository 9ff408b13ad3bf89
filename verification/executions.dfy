/** Workflow executions behind /api/executions: POST starts an execution of
    an existing workflow, optionally attributed to an existing agent; GET
    lists executions newest first. */
module Executions {
  import opened Common
  import opened Db
  import opened Ordering

  datatype CreateRequest = CreateRequest(
    workflowId: Option<Id>,
    agentId: Option<Id>,
    model: Option<string>,
    inputData: Option<Json>)

  /** The filters of a listing; each one that is given must match. The
      `id` filter is used by /api/observe only. */
  datatype Filter = Filter(
    workflowId: Option<Id>,
    agentId: Option<Id>,
    status: Option<ExecStatus>,
    id: Option<Id>)

  /** The page size when the query gives no `limit`. */
  const DefaultLimit: nat := 50

  /** POST /api/executions. */
  function Create(db: Db, req: CreateRequest, now: int): (r: Result<(Db, Id, Execution)>)
    ensures (r.Err? && r.error.BadRequest?) <==> req.workflowId.None?
    ensures (r.Err? && r.error.NotFound?) <==>
      && req.workflowId.Some?
      && (req.workflowId.value !in db.workflows || (req.agentId.Some? && req.agentId.value !in db.agents))
    ensures r.Err? && r.error.ServerError? ==> db.nextId in db.executions
    ensures r.Ok? ==>
      var (db', id, e) := r.value;
      && r.code == 201
      && req.workflowId.Some? && req.workflowId.value in db.workflows
      && (req.agentId.Some? ==> req.agentId.value in db.agents)
      && e == Execution(req.workflowId.value, req.agentId, req.model, ExecStatus.Pending, req.inputData,
                        None, None, now, None, None, None)
      && id !in db.executions
      && db'.executions == db.executions[id := e]
      && db'.agents == db.agents && db'.workflows == db.workflows
      && db'.handoffs == db.handoffs && db'.state == db.state
      && db'.audit == db.audit + [AuditEvent(req.agentId, "execution_start", "workflow_execution", id,
                                             ExecutionStart(e.workflowId, db.workflows[e.workflowId].name))]
  {
    if req.workflowId.None? then
      Err(BadRequest("workflow_id is required"))
    else if req.workflowId.value !in db.workflows then
      Err(NotFound("Workflow not found"))
    else if req.agentId.Some? && req.agentId.value !in db.agents then
      Err(NotFound("Agent not found"))
    else if db.nextId in db.executions then
      Err(ServerError("Internal server error"))
    else
      var wid := req.workflowId.value;
      var id := db.nextId;
      var e := Execution(wid, req.agentId, req.model, ExecStatus.Pending, req.inputData,
                         None, None, now, None, None, None);
      var event := AuditEvent(req.agentId, "execution_start", "workflow_execution", id,
                              ExecutionStart(wid, db.workflows[wid].name));
      Ok(201, (db.(executions := db.executions[id := e], nextId := id + 1, audit := db.audit + [event]), id, e))
  }

  predicate Matches(id: Id, e: Execution, f: Filter) {
    && (f.workflowId.Some? ==> e.workflowId == f.workflowId.value)
    && (f.agentId.Some? ==> e.agentId == f.agentId)
    && (f.status.Some? ==> e.status == f.status.value)
    && (f.id.Some? ==> id == f.id.value)
  }

  /** The start times of the executions that pass the filter. */
  function Selected(db: Db, f: Filter): (stamp: map<Id, int>)
    ensures forall id :: id in stamp <==> id in db.executions && Matches(id, db.executions[id], f)
    ensures forall id :: id in stamp ==> stamp[id] == db.executions[id].startedAt
  {
    map id | id in db.executions && Matches(id, db.executions[id], f) :: db.executions[id].startedAt
  }

  /** GET /api/executions: the executions that pass every given filter,
      most recently started first, at most `limit` of them (50 by default). */
  method List(db: Db, f: Filter, limit: Option<nat>) returns (ids: seq<Id>, rows: seq<Execution>)
    ensures |rows| == |ids|
    ensures |ids| == Min(limit.GetOr(DefaultLimit), |Selected(db, f)|)
    ensures forall i :: 0 <= i < |ids| ==>
      ids[i] in db.executions && rows[i] == db.executions[ids[i]] && Matches(ids[i], rows[i], f)
    ensures forall i, j :: 0 <= i < j < |ids| ==> ids[i] != ids[j]
    ensures forall i, j :: 0 <= i < j < |rows| ==> rows[i].startedAt >= rows[j].startedAt
    ensures forall id, i :: id in db.executions && Matches(id, db.executions[id], f) && id !in ids && 0 <= i < |rows| ==>
      db.executions[id].startedAt <= rows[i].startedAt
  {
    var stamp := Selected(db, f);
    ids := TakeNewest(stamp, limit.GetOr(DefaultLimit));
    rows := seq(|ids|, i requires 0 <= i < |ids| => db.executions[ids[i]]);
  }

  lemma CreateKeepsValid(db: Db, req: CreateRequest, now: int)
    requires Valid(db)
    requires Create(db, req, now).Ok?
    ensures Valid(Create(db, req, now).value.0)
  {
  }

  /** In a valid store the only failures are the three reference checks. */
  lemma ValidStoreNoServerError(db: Db, req: CreateRequest, now: int)
    requires Valid(db)
    ensures Create(db, req, now).Ok? <==>
      && req.workflowId.Some? && req.workflowId.value in db.workflows
      && (req.agentId.Some? ==> req.agentId.value in db.agents)
  {
  }
}

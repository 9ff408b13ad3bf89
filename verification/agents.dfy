/** The agent registry behind /api/agents: POST registers an agent under a
    unique name, PATCH is the heartbeat that stamps `last_seen` and may set
    the status, GET lists agents or fetches one by name. */
module Agents {
  import opened Common
  import opened Db

  datatype RegisterRequest = RegisterRequest(
    name: string,
    framework: Option<string>,
    description: Option<string>,
    capabilities: Option<Json>,
    config: Option<Json>)

  datatype HeartbeatRequest = HeartbeatRequest(name: string, status: Option<AgentStatus>)

  /** Query parameters; `""` stands for an absent name or framework. */
  datatype Query = Query(name: string, framework: string, status: Option<AgentStatus>)

  datatype Listing = Single(id: Id, agent: Agent) | Many(agents: map<Id, Agent>)

  /** The ids of the agents registered under `name`. */
  function Named(agents: map<Id, Agent>, name: string): (ids: set<Id>)
    ensures forall id :: id in ids <==> id in agents && agents[id].name == name
  {
    set id | id in agents && agents[id].name == name
  }

  /** POST /api/agents. A new agent starts active and seen now (the column
      defaults of the agents table). Any unique violation, on the name or on
      the generated id, answers 409. */
  function Register(db: Db, req: RegisterRequest, now: int): (r: Result<(Db, Id, Agent)>)
    ensures (r.Err? && r.error.BadRequest?) <==> req.name == ""
    ensures (r.Err? && r.error.Conflict?) <==>
      req.name != "" && (AgentNamed(db.agents, req.name) || db.nextId in db.agents)
    ensures r.Err? ==> r.error.BadRequest? || r.error.Conflict?
    ensures r.Ok? ==>
      var (db', id, a) := r.value;
      && r.code == 201
      && a.name == req.name && a.framework == req.framework
      && a.description == req.description && a.capabilities == req.capabilities && a.config == req.config
      && a.status == Active && a.lastSeen == now && a.createdAt == now
      && id !in db.agents
      && db'.agents == db.agents[id := a]
      && db'.workflows == db.workflows && db'.executions == db.executions
      && db'.handoffs == db.handoffs && db'.state == db.state
      && db'.audit == db.audit + [AuditEvent(Some(id), "agent_register", "agent", id,
                                             AgentRegister(req.name, req.framework))]
  {
    if req.name == "" then
      Err(BadRequest("name is required"))
    else if AgentNamed(db.agents, req.name) || db.nextId in db.agents then
      Err(Conflict("Agent with this name already exists"))
    else
      var id := db.nextId;
      var a := Agent(req.name, req.framework, req.description, req.capabilities, req.config,
                     now, now, Active);
      var event := AuditEvent(Some(id), "agent_register", "agent", id, AgentRegister(req.name, req.framework));
      Ok(201, (db.(agents := db.agents[id := a], nextId := id + 1, audit := db.audit + [event]), id, a))
  }

  /** PATCH /api/agents: stamps `last_seen`, sets `status` when one is
      given, whatever the current status. The update ends in `.single()`,
      so a name that matches no agent answers 500. */
  function Heartbeat(db: Db, req: HeartbeatRequest, now: int): (r: Result<(Db, Id, Agent)>)
    ensures (r.Err? && r.error.BadRequest?) <==> req.name == ""
    ensures req.name != "" && !AgentNamed(db.agents, req.name) ==> r == Err(ServerError("agent not found"))
    ensures req.name != "" && |Named(db.agents, req.name)| == 1 ==> r.Ok?
    ensures r.Ok? ==>
      var (db', id, a) := r.value;
      && r.code == 200
      && id in db.agents
      && var prev := db.agents[id];
      && prev.name == req.name
      && a == prev.(lastSeen := now, status := if req.status.Some? then req.status.value else prev.status)
      && db'.agents == db.agents[id := a]
      && db'.workflows == db.workflows && db'.executions == db.executions
      && db'.handoffs == db.handoffs && db'.state == db.state
      && db'.audit == db.audit && db'.nextId == db.nextId
  {
    if req.name == "" then
      Err(BadRequest("name is required"))
    else
      var ids := Named(db.agents, req.name);
      if |ids| != 1 then
        Err(ServerError("agent not found"))
      else
        var id := TheOnly(ids);
        var prev := db.agents[id];
        var a := prev.(lastSeen := now, status := if req.status.Some? then req.status.value else prev.status);
        Ok(200, (db.(agents := db.agents[id := a]), id, a))
  }

  predicate Matches(a: Agent, q: Query) {
    && (q.name != "" ==> a.name == q.name)
    && (q.framework != "" ==> a.framework == Some(q.framework))
    && (q.status.Some? ==> a.status == q.status.value)
  }

  /** GET /api/agents. With a name the query ends in `.single()`: exactly
      one matching agent is returned, anything else is a 404. */
  function List(db: Db, q: Query): (r: Result<Listing>)
    ensures q.name == "" ==>
      && r.Ok? && r.value.Many?
      && (forall id :: id in r.value.agents <==> id in db.agents && Matches(db.agents[id], q))
      && (forall id :: id in r.value.agents ==> r.value.agents[id] == db.agents[id])
    ensures q.name != "" && r.Ok? ==>
      && r.value.Single?
      && r.value.id in db.agents && db.agents[r.value.id] == r.value.agent
      && r.value.agent.name == q.name && Matches(r.value.agent, q)
      && (forall id :: id in db.agents && Matches(db.agents[id], q) ==> id == r.value.id)
    ensures q.name != "" && r.Err? ==>
      r.error.NotFound? && |set id | id in db.agents && Matches(db.agents[id], q)| != 1
    ensures q.name == "" || r.Err? || r.value.Single?
  {
    var matching := map id | id in db.agents && Matches(db.agents[id], q) :: db.agents[id];
    if q.name == "" then
      Ok(200, Many(matching))
    else if |matching.Keys| == 1 then
      var id := TheOnly(matching.Keys);
      assert forall k :: k in db.agents && Matches(db.agents[k], q) ==> k in matching.Keys;
      Ok(200, Single(id, matching[id]))
    else
      Err(NotFound("no agent"))
  }

  /** Under the unique name index at most one agent carries a name. */
  lemma NamedAtMostOne(db: Db, name: string)
    requires Valid(db)
    ensures |Named(db.agents, name)| <= 1
  {
    var ids := Named(db.agents, name);
    if ids != {} {
      Inhabited(ids);
      var id :| id in ids;
      assert ids == {id};
    }
  }

  lemma RegisterKeepsValid(db: Db, req: RegisterRequest, now: int)
    requires Valid(db)
    requires Register(db, req, now).Ok?
    ensures Valid(Register(db, req, now).value.0)
  {
  }

  /** In a valid store, registering a fresh name always succeeds: the
      409 arises from a taken name and from nothing else. */
  lemma RegisterFreshNameSucceeds(db: Db, req: RegisterRequest, now: int)
    requires Valid(db)
    requires req.name != "" && !AgentNamed(db.agents, req.name)
    ensures Register(db, req, now).Ok?
  {
  }

  /** A registered agent can be fetched by its name. */
  lemma RegisterThenGet(db: Db, req: RegisterRequest, now: int)
    requires Valid(db)
    requires Register(db, req, now).Ok?
    ensures var (db', id, a) := Register(db, req, now).value;
      List(db', Query(req.name, "", None)) == Ok(200, Single(id, a))
  {
    var (db', id, a) := Register(db, req, now).value;
    var q := Query(req.name, "", None);
    var matching := map k | k in db'.agents && Matches(db'.agents[k], q) :: db'.agents[k];
    assert matching.Keys == {id};
  }

  /** The heartbeat has no transition guard: in a valid store any status
      may follow any other. */
  lemma HeartbeatAnyStatus(db: Db, name: string, s: AgentStatus, now: int)
    requires Valid(db)
    requires name != "" && AgentNamed(db.agents, name)
    ensures Heartbeat(db, HeartbeatRequest(name, Some(s)), now).Ok?
    ensures Heartbeat(db, HeartbeatRequest(name, Some(s)), now).value.2.status == s
  {
    NamedAtMostOne(db, name);
    var id :| id in db.agents && db.agents[id].name == name;
    assert id in Named(db.agents, name);
  }

  /** In a valid store names are unique, so every heartbeat that names a
      registered agent succeeds, whatever status it carries. */
  lemma HeartbeatKnownNameSucceeds(db: Db, req: HeartbeatRequest, now: int)
    requires Valid(db)
    requires req.name != "" && AgentNamed(db.agents, req.name)
    ensures Heartbeat(db, req, now).Ok?
    ensures Heartbeat(db, req, now).value.2.name == req.name
  {
    NamedAtMostOne(db, req.name);
    var id :| id in db.agents && db.agents[id].name == req.name;
    assert id in Named(db.agents, req.name);
  }

  lemma HeartbeatKeepsValid(db: Db, req: HeartbeatRequest, now: int)
    requires Valid(db)
    requires Heartbeat(db, req, now).Ok?
    ensures Valid(Heartbeat(db, req, now).value.0)
  {
  }
}

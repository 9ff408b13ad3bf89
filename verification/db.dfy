/** The relational store the handlers read and write, as in-memory maps.
    Row shapes follow the table types of src/lib/supabase.ts; columns the
    handlers never touch (created_at/updated_at bookkeeping, joins) are
    dropped. A row's id is its key in its table. Timestamps are integers in
    milliseconds since the epoch. */
module Db {
  import opened Common

  datatype AgentStatus = Active | Inactive | Deprecated

  datatype Agent = Agent(
    name: string,
    framework: Option<string>,
    description: Option<string>,
    capabilities: Option<Json>,
    config: Option<Json>,
    createdAt: int,
    lastSeen: int,
    status: AgentStatus)

  datatype Workflow = Workflow(
    name: string,
    version: int,
    description: Option<string>,
    definition: string,
    designedBy: Option<Id>,
    designedWithModel: Option<string>,
    executableByModel: Option<string>,
    metadata: Option<Json>,
    createdAt: int,
    isActive: bool)

  datatype ExecStatus = Pending | Running | Completed | Failed

  datatype Execution = Execution(
    workflowId: Id,
    agentId: Option<Id>,
    model: Option<string>,
    status: ExecStatus,
    inputData: Option<Json>,
    outputData: Option<Json>,
    errorMessage: Option<string>,
    startedAt: int,
    completedAt: Option<int>,
    durationSeconds: Option<real>,
    costEstimate: Option<real>)

  datatype HandoffStatus = Pending | Accepted | Rejected | Completed

  datatype Handoff = Handoff(
    fromAgent: Option<Id>,
    toAgent: Option<Id>,
    workflowId: Option<Id>,
    executionId: Option<Id>,
    context: Json,
    reason: Option<string>,
    status: HandoffStatus,
    createdAt: int)

  /** A component_state row; its (component_name, state_key) pair is the
      key of the `state` table and is unique by construction. */
  datatype StateEntry = StateEntry(
    id: Id,
    value: Json,
    agentId: Option<Id>,
    expiresAt: Option<int>)

  type StateKey = (string, string)

  /** The `details` blob of each kind of audit event. None of them can
      hold a state value. */
  datatype Details =
    | StateWrite(component: string, key: string)
    | WorkflowCreate(name: string, version: int)
    | ExecutionStart(workflowId: Id, workflowName: string)
    | HandoffCreate(toAgent: Option<Id>, workflow: Option<Id>, reason: Option<string>)
    | AgentRegister(name: string, framework: Option<string>)
    | ObserveNote(message: Option<Json>, metadata: Option<Json>, timestamp: int)

  datatype AuditEvent = AuditEvent(
    agentId: Option<Id>,
    action: string,
    resourceType: string,
    resourceId: Id,
    details: Details)

  datatype Db = Db(
    agents: map<Id, Agent>,
    workflows: map<Id, Workflow>,
    executions: map<Id, Execution>,
    handoffs: map<Id, Handoff>,
    state: map<StateKey, StateEntry>,
    audit: seq<AuditEvent>,
    nextId: Id)

  /** Every id in use is below `nextId`, so a row inserted under `nextId`
      is new. */
  ghost predicate IdsFresh(db: Db) {
    && (forall id :: id in db.agents ==> id < db.nextId)
    && (forall id :: id in db.workflows ==> id < db.nextId)
    && (forall id :: id in db.executions ==> id < db.nextId)
    && (forall id :: id in db.handoffs ==> id < db.nextId)
    && (forall k :: k in db.state ==> db.state[k].id < db.nextId)
  }

  /** The unique index on agents.name. */
  ghost predicate UniqueAgentNames(agents: map<Id, Agent>) {
    forall a, b :: a in agents && b in agents && agents[a].name == agents[b].name ==> a == b
  }

  /** The unique index on workflows(name, version). */
  ghost predicate UniqueWorkflowVersions(workflows: map<Id, Workflow>) {
    forall a, b ::
      a in workflows && b in workflows &&
      workflows[a].name == workflows[b].name && workflows[a].version == workflows[b].version
      ==> a == b
  }

  /** The constraints the database maintains in every state. */
  ghost predicate Valid(db: Db) {
    && IdsFresh(db)
    && UniqueAgentNames(db.agents)
    && UniqueWorkflowVersions(db.workflows)
  }

  function Empty(): (db: Db)
    ensures Valid(db)
    ensures db.audit == []
  {
    Db(map[], map[], map[], map[], map[], [], 0)
  }

  predicate AgentNamed(agents: map<Id, Agent>, name: string) {
    exists id :: id in agents && agents[id].name == name
  }
}

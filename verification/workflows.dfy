/** The workflow registry behind /api/workflows: POST creates a workflow
    version, numbering it one past the name's highest version when the
    caller gives none; GET lists workflows or fetches one by name, the
    highest version unless a version is asked for. */
module Workflows {
  import opened Common
  import opened Db

  datatype CreateRequest = CreateRequest(
    name: string,
    version: Option<int>,
    description: Option<string>,
    definition: string,
    designedBy: Option<Id>,
    designedWithModel: Option<string>,
    executableByModel: Option<string>,
    metadata: Option<Json>)

  /** Query parameters; `""` stands for an absent name. */
  datatype Query = Query(name: string, version: Option<int>, activeOnly: bool)

  datatype Listing = Single(id: Id, workflow: Workflow) | Many(workflows: map<Id, Workflow>)

  /** The versions stored under `name`. */
  function VersionsOf(workflows: map<Id, Workflow>, name: string): (vs: set<int>)
    ensures forall id :: id in workflows && workflows[id].name == name ==> workflows[id].version in vs
    ensures forall v :: v in vs ==> exists id :: id in workflows && workflows[id].name == name && workflows[id].version == v
  {
    set id | id in workflows && workflows[id].name == name :: workflows[id].version
  }

  /** A supplied version counts only when it is truthy, i.e. non-zero. */
  predicate Supplied(version: Option<int>) {
    version.Some? && version.value != 0
  }

  /** The version a POST writes: the supplied one, else one past the
      highest version of the name, else 1 for a new name. */
  function AssignedVersion(workflows: map<Id, Workflow>, req: CreateRequest): (v: int)
    ensures Supplied(req.version) ==> v == req.version.value
    ensures !Supplied(req.version) ==>
      && (forall w :: w in VersionsOf(workflows, req.name) ==> w < v)
      && (VersionsOf(workflows, req.name) == {} ==> v == 1)
      && (VersionsOf(workflows, req.name) != {} ==> v - 1 in VersionsOf(workflows, req.name))
  {
    if Supplied(req.version) then req.version.value
    else
      var vs := VersionsOf(workflows, req.name);
      if vs == {} then 1 else MaxOf(vs) + 1
  }

  predicate VersionTaken(workflows: map<Id, Workflow>, name: string, version: int) {
    exists id :: id in workflows && workflows[id].name == name && workflows[id].version == version
  }

  /** POST /api/workflows. A new workflow is active (the column default).
      A unique violation, on (name, version) or on the generated id,
      answers 409. */
  function Create(db: Db, req: CreateRequest, now: int): (r: Result<(Db, Id, Workflow)>)
    ensures (r.Err? && r.error.BadRequest?) <==> req.name == "" || req.definition == ""
    ensures (r.Err? && r.error.Conflict?) <==>
      && req.name != "" && req.definition != ""
      && (VersionTaken(db.workflows, req.name, AssignedVersion(db.workflows, req)) || db.nextId in db.workflows)
    ensures r.Err? ==> r.error.BadRequest? || r.error.Conflict?
    ensures r.Ok? ==>
      var (db', id, w) := r.value;
      && r.code == 201
      && w.name == req.name && w.definition == req.definition
      && w.version == AssignedVersion(db.workflows, req)
      && !VersionTaken(db.workflows, req.name, w.version)
      && w.description == req.description && w.designedBy == req.designedBy
      && w.designedWithModel == req.designedWithModel && w.executableByModel == req.executableByModel
      && w.metadata == req.metadata && w.createdAt == now && w.isActive
      && id !in db.workflows
      && db'.workflows == db.workflows[id := w]
      && db'.agents == db.agents && db'.executions == db.executions
      && db'.handoffs == db.handoffs && db'.state == db.state
      && db'.audit == db.audit + [AuditEvent(req.designedBy, "workflow_create", "workflow", id,
                                             WorkflowCreate(req.name, w.version))]
  {
    if req.name == "" || req.definition == "" then
      Err(BadRequest("name and definition are required"))
    else
      var v := AssignedVersion(db.workflows, req);
      if VersionTaken(db.workflows, req.name, v) || db.nextId in db.workflows then
        Err(Conflict("Workflow with this name and version already exists"))
      else
        var id := db.nextId;
        var w := Workflow(req.name, v, req.description, req.definition, req.designedBy,
                          req.designedWithModel, req.executableByModel, req.metadata, now, true);
        var event := AuditEvent(req.designedBy, "workflow_create", "workflow", id, WorkflowCreate(req.name, v));
        Ok(201, (db.(workflows := db.workflows[id := w], nextId := id + 1, audit := db.audit + [event]), id, w))
  }

  /** The filters a GET applies. The version is used only with a name. */
  predicate Matches(w: Workflow, q: Query) {
    && (q.name != "" ==> w.name == q.name)
    && (q.name != "" && q.version.Some? ==> w.version == q.version.value)
    && (q.activeOnly ==> w.isActive)
  }

  /** GET /api/workflows. Without a name: every workflow (active ones only
      when asked). With a name and a version: that one workflow, through
      `.single()`. With a name only: the highest version, the filters
      being applied before the one-row limit (should two rows tie, the
      smallest id stands for the database's arbitrary pick). */
  function Get(db: Db, q: Query): (r: Result<Listing>)
    ensures r.Err? ==> r.error.NotFound? && q.name != ""
    ensures q.name == "" ==>
      && r.Ok? && r.value.Many?
      && (forall id :: id in r.value.workflows <==> id in db.workflows && Matches(db.workflows[id], q))
      && (forall id :: id in r.value.workflows ==> r.value.workflows[id] == db.workflows[id])
    ensures q.name != "" && r.Ok? ==>
      && r.value.Single?
      && r.value.id in db.workflows && db.workflows[r.value.id] == r.value.workflow
      && Matches(r.value.workflow, q)
    ensures q.name != "" && q.version.Some? ==>
      (r.Ok? <==> |set id | id in db.workflows && Matches(db.workflows[id], q)| == 1)
    ensures q.name != "" && q.version.Some? && r.Ok? ==>
      forall id :: id in db.workflows && Matches(db.workflows[id], q) ==> id == r.value.id
    ensures q.name != "" && q.version.None? ==>
      (r.Ok? <==> exists id :: id in db.workflows && Matches(db.workflows[id], q))
    ensures q.name != "" && q.version.None? && r.Ok? ==>
      forall id :: id in db.workflows && Matches(db.workflows[id], q) ==>
        db.workflows[id].version <= r.value.workflow.version
  {
    var cands := map id | id in db.workflows && Matches(db.workflows[id], q) :: db.workflows[id];
    assert forall id :: id in db.workflows && Matches(db.workflows[id], q) ==> id in cands;
    assert cands.Keys == set id | id in db.workflows && Matches(db.workflows[id], q);
    if q.name == "" then
      Ok(200, Many(cands))
    else if q.version.Some? then
      if |cands.Keys| == 1 then
        var id := TheOnly(cands.Keys);
        Ok(200, Single(id, cands[id]))
      else
        Err(NotFound("no workflow"))
    else if cands == map[] then
      Err(NotFound("no workflow"))
    else
      var versions := set id | id in cands :: cands[id].version;
      Inhabited(cands.Keys);
      var k0 :| k0 in cands;
      assert cands[k0].version in versions;
      var top := MaxOf(versions);
      assert forall k :: k in cands ==> cands[k].version in versions;
      var tops := set id | id in cands && cands[id].version == top;
      var k1 :| k1 in cands && cands[k1].version == top;
      assert k1 in tops;
      var id := MinOf(tops);
      Ok(200, Single(id, cands[id]))
  }

  /** A POST without a version never collides in a valid registry: the
      assigned version is new for the name. */
  lemma AutoVersionNeverConflicts(db: Db, req: CreateRequest, now: int)
    requires Valid(db)
    requires req.name != "" && req.definition != "" && !Supplied(req.version)
    ensures Create(db, req, now).Ok?
  {
    var v := AssignedVersion(db.workflows, req);
    forall id | id in db.workflows && db.workflows[id].name == req.name
      ensures db.workflows[id].version != v
    {
      assert db.workflows[id].version in VersionsOf(db.workflows, req.name);
    }
  }

  /** A POST with a version already stored under the name is a conflict
      and changes nothing. */
  lemma DuplicateVersionConflicts(db: Db, req: CreateRequest, now: int)
    requires req.name != "" && req.definition != "" && Supplied(req.version)
    requires VersionTaken(db.workflows, req.name, req.version.value)
    ensures Create(db, req, now).Err? && Create(db, req, now).error.Conflict?
  {
  }

  lemma CreateKeepsValid(db: Db, req: CreateRequest, now: int)
    requires Valid(db)
    requires Create(db, req, now).Ok?
    ensures Valid(Create(db, req, now).value.0)
  {
  }

  /** After a POST without a version, a GET by name returns the workflow
      just created: it is the newest version. */
  lemma {:induction false} CreateThenGetLatest(db: Db, req: CreateRequest, now: int)
    requires Valid(db)
    requires req.name != "" && req.definition != "" && !Supplied(req.version)
    ensures Create(db, req, now).Ok?
    ensures var (db', id, w) := Create(db, req, now).value;
      Get(db', Query(req.name, None, false)) == Ok(200, Single(id, w))
  {
    AutoVersionNeverConflicts(db, req, now);
    var (db', id, w) := Create(db, req, now).value;
    var q := Query(req.name, None, false);
    var r := Get(db', q);
    assert id in db'.workflows && Matches(db'.workflows[id], q);
    assert r.Ok? && r.value.Single?;
    forall k | k in db.workflows && db.workflows[k].name == req.name
      ensures db.workflows[k].version < w.version
    {
      assert db.workflows[k].version in VersionsOf(db.workflows, req.name);
    }
    assert r.value.id == id;
  }

  /** After a POST, a GET of the same name and version returns it. */
  lemma CreateThenGetExact(db: Db, req: CreateRequest, now: int)
    requires Valid(db)
    requires Create(db, req, now).Ok?
    ensures var (db', id, w) := Create(db, req, now).value;
      Get(db', Query(req.name, Some(w.version), false)) == Ok(200, Single(id, w))
  {
    var (db', id, w) := Create(db, req, now).value;
    var q := Query(req.name, Some(w.version), false);
    var cands := map k | k in db'.workflows && Matches(db'.workflows[k], q) :: db'.workflows[k];
    assert cands.Keys == {id};
  }
}

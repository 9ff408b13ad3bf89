/** The component state store behind /api/state: GET reads one entry or all
    entries of a component, POST upserts on (component_name, state_key) and
    records a `state_write` audit event, DELETE removes one entry. The
    stored `expires_at` is never consulted by a read. */
module StateStore {
  import opened Common
  import opened Db

  /** A body field that may be left out, sent as `null`, or given. The
      distinction matters on an upsert: a column left out of the body is
      not touched when the row already exists. */
  datatype Field<T> = Omitted | Null | Given(v: T)

  /** A column's value after an upsert that carried field `f`. */
  function Apply<T>(f: Field<T>, current: Option<T>): Option<T> {
    match f
    case Omitted => current
    case Null => None
    case Given(v) => Some(v)
  }

  /** Query parameters; `""` stands for a parameter that is absent. */
  datatype Query = Query(component: string, key: string)

  datatype PutRequest = PutRequest(
    component: string,
    key: string,
    value: Option<Json>,
    agentId: Field<Id>,
    expiresAt: Field<int>)

  datatype Found = One(entry: StateEntry) | All(entries: map<StateKey, StateEntry>)

  /** The entries of one component, keyed by (component, key). */
  function EntriesOf(state: map<StateKey, StateEntry>, component: string): (m: map<StateKey, StateEntry>)
    ensures forall k :: k in m <==> k in state && k.0 == component
    ensures forall k :: k in m ==> m[k] == state[k]
  {
    map k | k in state && k.0 == component :: state[k]
  }

  /** GET /api/state?component=&key= */
  function Get(db: Db, q: Query): (r: Result<Found>)
    ensures q.component == "" ==> r == Err(BadRequest("component parameter is required"))
    ensures q.component != "" && q.key != "" ==>
      (r.Ok? <==> (q.component, q.key) in db.state) &&
      (r.Ok? ==> r.value == One(db.state[(q.component, q.key)])) &&
      (r.Err? ==> r.error.NotFound?)
    ensures q.component != "" && q.key == "" ==>
      r.Ok? && r.value.All? &&
      (forall k :: k in r.value.entries <==> k in db.state && k.0 == q.component) &&
      (forall k :: k in r.value.entries ==> r.value.entries[k] == db.state[k])
    ensures r.Ok? ==> r.code == 200
  {
    if q.component == "" then
      Err(BadRequest("component parameter is required"))
    else if q.key != "" then
      if (q.component, q.key) in db.state then Ok(200, One(db.state[(q.component, q.key)]))
      else Err(NotFound("no state entry"))
    else
      Ok(200, All(EntriesOf(db.state, q.component)))
  }

  /** The row an upsert leaves under (component, key). */
  function Upserted(db: Db, req: PutRequest, v: Json): StateEntry {
    var k := (req.component, req.key);
    if k in db.state then
      var prev := db.state[k];
      StateEntry(prev.id, v, Apply(req.agentId, prev.agentId), Apply(req.expiresAt, prev.expiresAt))
    else
      StateEntry(db.nextId, v, Apply(req.agentId, None), Apply(req.expiresAt, None))
  }

  /** POST /api/state */
  function Put(db: Db, req: PutRequest): (r: Result<(Db, StateEntry)>)
    ensures r.Err? <==> req.component == "" || req.key == "" || req.value.None?
    ensures r.Err? ==> r.error.BadRequest?
    ensures r.Ok? ==>
      var (db', e) := r.value;
      && r.code == 200
      && (req.component, req.key) in db'.state
      && db'.state[(req.component, req.key)] == e
      && e.value == req.value.value
      && var prev := if (req.component, req.key) in db.state then Some(db.state[(req.component, req.key)]) else None;
      && e.id == (if prev.Some? then prev.value.id else db.nextId)
      && e.agentId == Apply(req.agentId, if prev.Some? then prev.value.agentId else None)
      && e.expiresAt == Apply(req.expiresAt, if prev.Some? then prev.value.expiresAt else None)
      && db'.nextId == (if prev.Some? then db.nextId else db.nextId + 1)
      && (forall k :: k != (req.component, req.key) ==>
            (k in db'.state <==> k in db.state) && (k in db.state ==> db'.state[k] == db.state[k]))
      && db'.agents == db.agents && db'.workflows == db.workflows
      && db'.executions == db.executions && db'.handoffs == db.handoffs
      && db'.audit == db.audit + [AuditEvent(Apply(req.agentId, None), "state_write", "state", e.id,
                                             StateWrite(req.component, req.key))]
  {
    if req.component == "" || req.key == "" || req.value.None? then
      Err(BadRequest("component, key, and value are required"))
    else
      var k := (req.component, req.key);
      var e := Upserted(db, req, req.value.value);
      var event := AuditEvent(Apply(req.agentId, None), "state_write", "state", e.id,
                              StateWrite(req.component, req.key));
      var db' := db.(state := db.state[k := e],
                     nextId := if k in db.state then db.nextId else db.nextId + 1,
                     audit := db.audit + [event]);
      Ok(200, (db', e))
  }

  /** DELETE /api/state?component=&key= */
  function Delete(db: Db, q: Query): (r: Result<Db>)
    ensures r.Err? <==> q.component == "" || q.key == ""
    ensures r.Err? ==> r.error.BadRequest?
    ensures r.Ok? ==>
      && r.code == 200
      && (q.component, q.key) !in r.value.state
      && (forall k :: k != (q.component, q.key) ==>
            (k in r.value.state <==> k in db.state) && (k in db.state ==> r.value.state[k] == db.state[k]))
      && r.value.audit == db.audit
      && r.value.agents == db.agents && r.value.workflows == db.workflows
      && r.value.executions == db.executions && r.value.handoffs == db.handoffs
      && r.value.nextId == db.nextId
  {
    if q.component == "" || q.key == "" then
      Err(BadRequest("component and key parameters are required"))
    else
      Ok(200, db.(state := db.state - {(q.component, q.key)}))
  }

  /** Round trip: after a successful POST of (c, k, v), a GET of (c, k)
      returns an entry holding v. */
  lemma PutThenGet(db: Db, req: PutRequest)
    requires Put(db, req).Ok?
    ensures var db' := Put(db, req).value.0;
      && Get(db', Query(req.component, req.key)).Ok?
      && Get(db', Query(req.component, req.key)).value.One?
      && Get(db', Query(req.component, req.key)).value.entry.value == req.value.value
  {
  }

  /** Writes are upserts: a second POST of the same key replaces the entry
      in place (same row id) and adds no entry. */
  lemma PutIsUpsert(db: Db, req: PutRequest, req2: PutRequest)
    requires Put(db, req).Ok?
    requires req2.component == req.component && req2.key == req.key && req2.value.Some?
    ensures var db1 := Put(db, req).value.0;
      var (db2, e2) := Put(db1, req2).value;
      && db2.state.Keys == db1.state.Keys
      && e2.id == db1.state[(req.component, req.key)].id
      && e2.value == req2.value.value
      && db2.nextId == db1.nextId
  {
  }

  /** A column the second write leaves out keeps the value the first gave it. */
  lemma OmittedColumnsKept(db: Db, req: PutRequest, req2: PutRequest)
    requires Put(db, req).Ok?
    requires req2.component == req.component && req2.key == req.key && req2.value.Some?
    requires req2.expiresAt.Omitted?
    ensures Put(Put(db, req).value.0, req2).value.1.expiresAt == Put(db, req).value.1.expiresAt
  {
  }

  /** After a successful DELETE the key reads as not found; DELETE of an
      absent key still succeeds and leaves the store as it was. */
  lemma DeleteThenGet(db: Db, q: Query)
    requires q.component != "" && q.key != ""
    ensures Delete(db, q).Ok?
    ensures Get(Delete(db, q).value, q).Err?
    ensures Get(Delete(db, q).value, q).error.NotFound?
    ensures (q.component, q.key) !in db.state ==> Delete(db, q).value == db
  {
  }

  /** Reads do not look at the expiry: whatever `expires_at` an entry
      carries, past or future, GET returns it with its value. */
  lemma ExpiredEntriesStillRead(db: Db, c: string, k: string, expiry: Option<int>)
    requires c != "" && k != ""
    requires (c, k) in db.state
    ensures var e := db.state[(c, k)].(expiresAt := expiry);
      Get(db.(state := db.state[(c, k) := e]), Query(c, k)) == Ok(200, One(e))
  {
  }

  lemma PutKeepsValid(db: Db, req: PutRequest)
    requires Valid(db)
    requires Put(db, req).Ok?
    ensures Valid(Put(db, req).value.0)
  {
  }

  /** Deleting an entry touches only the state table. */
  lemma DeleteKeepsValid(db: Db, q: Query)
    requires Valid(db)
    requires Delete(db, q).Ok?
    ensures Valid(Delete(db, q).value)
  {
  }
}

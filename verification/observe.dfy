/** The observability endpoint /api/observe. GET lists recent executions,
    each with its audit trail, its cost and its duration, plus summary
    statistics over the page; POST appends a custom event to the audit log
    under the action `observe:<event_type>`. */
module Observe {
  import opened Common
  import opened Db
  import opened Ordering
  import Executions

  /** The query parameters of a GET. */
  datatype Query = Query(
    workflowId: Option<Id>,
    executionId: Option<Id>,
    agentId: Option<Id>,
    limit: Option<nat>,
    includeCosts: bool)

  /** One execution as the GET reports it. */
  datatype Enriched = Enriched(
    id: Id,
    execution: Execution,
    trail: seq<AuditEvent>,
    actualCost: Option<real>,
    duration: Option<real>)

  datatype Stats = Stats(
    total: nat,
    byStatus: map<ExecStatus, nat>,
    totalCost: real,
    avgDuration: real,
    errorRate: real)

  /** The body of a POST; `""` stands for a missing event type. */
  datatype Note = Note(
    executionId: Option<Id>,
    eventType: string,
    message: Option<Json>,
    metadata: Option<Json>,
    agentId: Option<Id>)

  const ActionPrefix: string := "observe:"

  /** The audit trail of a resource: the events about it, oldest first.
      The log is append-only and stamped as it grows, so its order is the
      timestamp order the query asks for. Each event about the resource is
      kept, as often as it occurs and in log order; no other event is. */
  function Trail(log: seq<AuditEvent>, id: Id): (t: seq<AuditEvent>)
    ensures |t| <= |log|
    ensures forall i :: 0 <= i < |t| ==> t[i].resourceId == id && t[i] in log
    ensures forall i :: 0 <= i < |log| && log[i].resourceId == id ==> log[i] in t
    ensures Subsequence(t, log)
  {
    if |log| == 0 then []
    else
      var init := log[..|log| - 1];
      var last := log[|log| - 1];
      var prefix := Trail(init, id);
      assert forall i :: 0 <= i < |log| - 1 ==> log[i] == init[i];
      SubsequenceSnoc(prefix, init, last);
      assert log == init + [last];
      if last.resourceId == id then prefix + [last] else prefix
  }

  /** The trail keeps every event about the resource as often as the log
      holds it, and no other event. */
  lemma {:induction false} TrailCounts(log: seq<AuditEvent>, id: Id)
    ensures forall e :: multiset(Trail(log, id))[e] == if e.resourceId == id then multiset(log)[e] else 0
  {
    if |log| > 0 {
      var init := log[..|log| - 1];
      TrailCounts(init, id);
      assert log == init + [log[|log| - 1]];
    }
  }

  /** The `details.cost` of an audit event, 0 when it has none. No kind of
      event the API writes carries a cost. */
  function LoggedCost(e: AuditEvent): real {
    0.0
  }

  function Costs(trail: seq<AuditEvent>): (cs: seq<real>)
    ensures |cs| == |trail|
    ensures forall i :: 0 <= i < |cs| ==> cs[i] == LoggedCost(trail[i])
  {
    seq(|trail|, i requires 0 <= i < |trail| => LoggedCost(trail[i]))
  }

  /** The costs that are truthy, i.e. non-zero, in order. */
  function NonZero(xs: seq<real>): (ys: seq<real>)
    ensures |ys| <= |xs|
    ensures forall i :: 0 <= i < |ys| ==> ys[i] != 0.0
  {
    if |xs| == 0 then []
    else if xs[|xs| - 1] == 0.0 then NonZero(xs[..|xs| - 1])
    else NonZero(xs[..|xs| - 1]) + [xs[|xs| - 1]]
  }

  /** Dropping zero terms does not change a sum. */
  lemma {:induction false} SumNonZero(xs: seq<real>)
    ensures Sum(NonZero(xs)) == Sum(xs)
  {
    if |xs| > 0 {
      SumNonZero(xs[..|xs| - 1]);
      var ys := NonZero(xs[..|xs| - 1]);
      if xs[|xs| - 1] != 0.0 {
        assert (ys + [xs[|xs| - 1]])[..|ys|] == ys;
      }
    }
  }

  /** The reported cost: with `include_costs` and a trail read back, the
      sum of the truthy logged costs, which is 0 when no event logged one;
      otherwise the execution's cost estimate. */
  function ActualCost(estimate: Option<real>, includeCosts: bool, logs: Option<seq<real>>): (c: Option<real>)
    ensures !includeCosts || logs.None? ==> c == estimate
    ensures includeCosts && logs.Some? ==> c == Some(Sum(logs.value))
  {
    if includeCosts && logs.Some? then
      SumNonZero(logs.value);
      Some(Sum(NonZero(logs.value)))
    else estimate
  }

  /** With `include_costs`, a trail of events that log no cost reports a
      cost of 0 whatever the execution's estimate; without it, or without a
      trail, the estimate is reported. */
  lemma IncludeCostsOverridesEstimate(estimate: Option<real>, trail: seq<AuditEvent>)
    ensures ActualCost(estimate, true, Some(Costs(trail))) == Some(0.0)
    ensures ActualCost(estimate, false, Some(Costs(trail))) == estimate
    ensures ActualCost(estimate, true, None) == estimate
  {
    NoLoggedCosts(Costs(trail));
    SumNonZero(Costs(trail));
  }

  /** The reported duration in seconds: the stored one when it is truthy,
      else the time from start to completion, else none. */
  function Duration(e: Execution): (d: Option<real>)
    ensures e.durationSeconds.Some? && e.durationSeconds.value != 0.0 ==> d == e.durationSeconds
    ensures d.None? <==>
      (e.durationSeconds.None? || e.durationSeconds.value == 0.0) && e.completedAt.None?
    ensures (e.durationSeconds.None? || e.durationSeconds.value == 0.0) && e.completedAt.Some? ==>
      d.value * 1000.0 == (e.completedAt.value - e.startedAt) as real
  {
    if e.durationSeconds.Some? && e.durationSeconds.value != 0.0 then e.durationSeconds
    else if e.completedAt.Some? then Some((e.completedAt.value - e.startedAt) as real / 1000.0)
    else None
  }

  /** An execution as the GET reports it. */
  function Enrich(db: Db, id: Id, includeCosts: bool): (x: Enriched)
    requires id in db.executions
    ensures x.id == id && x.execution == db.executions[id]
    ensures forall i :: 0 <= i < |x.trail| ==> x.trail[i] in db.audit && x.trail[i].resourceId == id
    ensures forall i :: 0 <= i < |db.audit| && db.audit[i].resourceId == id ==> db.audit[i] in x.trail
    ensures x.trail == Trail(db.audit, id)
    ensures x.actualCost == if includeCosts then Some(0.0) else db.executions[id].costEstimate
    ensures x.duration == Duration(db.executions[id])
  {
    var trail := Trail(db.audit, id);
    var e := db.executions[id];
    NoLoggedCosts(Costs(trail));
    SumNonZero(Costs(trail));
    Enriched(id, e, trail, ActualCost(e.costEstimate, includeCosts, Some(Costs(trail))), Duration(e))
  }

  lemma {:induction false} NoLoggedCosts(cs: seq<real>)
    requires forall i :: 0 <= i < |cs| ==> cs[i] == 0.0
    ensures NonZero(cs) == []
  {
    if |cs| > 0 {
      NoLoggedCosts(cs[..|cs| - 1]);
    }
  }

  /** How many reported executions have a status. */
  function CountStatus(rows: seq<Enriched>, st: ExecStatus): (n: nat)
    ensures n <= |rows|
  {
    if |rows| == 0 then 0
    else CountStatus(rows[..|rows| - 1], st) + (if rows[|rows| - 1].execution.status == st then 1 else 0)
  }

  /** `by_status` as the handler folds it: each status seen gets a count. */
  function ByStatus(rows: seq<Enriched>): map<ExecStatus, nat> {
    if |rows| == 0 then map[]
    else
      var acc := ByStatus(rows[..|rows| - 1]);
      var st := rows[|rows| - 1].execution.status;
      acc[st := (if st in acc then acc[st] else 0) + 1]
  }

  /** A status appears in `by_status` exactly when some execution has it,
      and then with the number of executions that have it. */
  lemma {:induction false} ByStatusCounts(rows: seq<Enriched>)
    ensures forall st :: st in ByStatus(rows) <==> CountStatus(rows, st) > 0
    ensures forall st :: st in ByStatus(rows) ==> ByStatus(rows)[st] == CountStatus(rows, st)
  {
    if |rows| > 0 {
      ByStatusCounts(rows[..|rows| - 1]);
    }
  }

  /** The status counts add up to the number of executions. */
  lemma {:induction false} CountsSumToTotal(rows: seq<Enriched>)
    ensures CountStatus(rows, ExecStatus.Pending) + CountStatus(rows, ExecStatus.Running)
          + CountStatus(rows, ExecStatus.Completed) + CountStatus(rows, ExecStatus.Failed) == |rows|
  {
    if |rows| > 0 {
      CountsSumToTotal(rows[..|rows| - 1]);
    }
  }

  function CountIn(byStatus: map<ExecStatus, nat>, st: ExecStatus): nat {
    if st in byStatus then byStatus[st] else 0
  }

  /** The counts in `by_status` add up to `total_executions`. */
  lemma ByStatusSumsToTotal(rows: seq<Enriched>)
    ensures var s := Summarize(rows);
      CountIn(s.byStatus, ExecStatus.Pending) + CountIn(s.byStatus, ExecStatus.Running)
      + CountIn(s.byStatus, ExecStatus.Completed) + CountIn(s.byStatus, ExecStatus.Failed) == s.total
  {
    CountsSumToTotal(rows);
  }

  /** Each row's actual cost, a missing one counting 0. */
  function RowCosts(rows: seq<Enriched>): (cs: seq<real>)
    ensures |cs| == |rows|
    ensures forall i :: 0 <= i < |cs| ==> cs[i] == rows[i].actualCost.GetOr(0.0)
  {
    seq(|rows|, i requires 0 <= i < |rows| => rows[i].actualCost.GetOr(0.0))
  }

  /** `total_cost` as the handler folds it: the sum of the rows' actual
      costs, a missing one counting 0. */
  function TotalCost(rows: seq<Enriched>): real {
    if |rows| == 0 then 0.0
    else TotalCost(rows[..|rows| - 1]) + rows[|rows| - 1].actualCost.GetOr(0.0)
  }

  /** `total_cost` is the sum of the rows' actual costs, a missing one
      counting 0. */
  lemma {:induction false} TotalCostIsSum(rows: seq<Enriched>)
    ensures TotalCost(rows) == Sum(RowCosts(rows))
  {
    if |rows| > 0 {
      var prefix := rows[..|rows| - 1];
      TotalCostIsSum(prefix);
      assert RowCosts(rows)[..|rows| - 1] == RowCosts(prefix);
    }
  }

  /** A single row contributes its actual cost, or 0 when it has none. */
  lemma TotalCostOfOne(row: Enriched)
    ensures TotalCost([row]) == row.actualCost.GetOr(0.0)
  {
    assert [row][..0] == [];
  }

  /** The total cost of two pages is the sum of their total costs. */
  lemma {:induction false} TotalCostAdditive(a: seq<Enriched>, b: seq<Enriched>)
    ensures TotalCost(a + b) == TotalCost(a) + TotalCost(b)
  {
    if |b| > 0 {
      TotalCostAdditive(a, b[..|b| - 1]);
      assert (a + b)[..|a + b| - 1] == a + b[..|b| - 1];
    } else {
      assert a + b == a;
    }
  }

  /** The truthy durations, in order: the executions `avg_duration` is
      taken over. */
  function Durations(rows: seq<Enriched>): (ds: seq<real>)
    ensures |ds| <= |rows|
    ensures forall i :: 0 <= i < |ds| ==> ds[i] != 0.0
  {
    if |rows| == 0 then []
    else
      var d := rows[|rows| - 1].duration;
      assert forall i :: 0 <= i < |rows| - 1 ==> rows[i] == rows[..|rows| - 1][i];
      if d.Some? && d.value != 0.0 then Durations(rows[..|rows| - 1]) + [d.value]
      else Durations(rows[..|rows| - 1])
  }

  /** The durations of two pages are those of the first, then those of the
      second. With `DurationsOfOne`, `Durations` is exactly the
      order-preserving filter of the truthy durations. */
  lemma {:induction false} DurationsAppend(a: seq<Enriched>, b: seq<Enriched>)
    ensures Durations(a + b) == Durations(a) + Durations(b)
  {
    if |b| > 0 {
      DurationsAppend(a, b[..|b| - 1]);
      assert (a + b)[..|a + b| - 1] == a + b[..|b| - 1];
    } else {
      assert a + b == a;
    }
  }

  /** A single row contributes its duration exactly when it is truthy. */
  lemma DurationsOfOne(row: Enriched)
    ensures Durations([row]) == if row.duration.Some? && row.duration.value != 0.0 then [row.duration.value] else []
  {
    assert [row][..0] == [];
  }

  /** `reduce((sum, d) => sum + d / n, 0)`: the average as the handler
      accumulates it, each term divided by the count first. */
  function AvgFold(ds: seq<real>, n: real): real
    requires n != 0.0
  {
    if |ds| == 0 then 0.0 else AvgFold(ds[..|ds| - 1], n) + ds[|ds| - 1] / n
  }

  /** Dividing each term first gives the same result as dividing the sum. */
  lemma {:induction false} AvgFoldIsMean(ds: seq<real>, n: real)
    requires n != 0.0
    ensures AvgFold(ds, n) * n == Sum(ds)
  {
    if |ds| > 0 {
      AvgFoldIsMean(ds[..|ds| - 1], n);
      var a := AvgFold(ds[..|ds| - 1], n);
      var x := ds[|ds| - 1];
      assert (a + x / n) * n == a * n + (x / n) * n;
    }
  }

  /** `avg_duration`: the mean of the truthy durations, 0 when none. */
  function AvgDuration(rows: seq<Enriched>): (avg: real)
    ensures |Durations(rows)| == 0 ==> avg == 0.0
    ensures |Durations(rows)| > 0 ==> avg * (|Durations(rows)| as real) == Sum(Durations(rows))
  {
    var ds := Durations(rows);
    if |ds| == 0 then 0.0
    else
      AvgFoldIsMean(ds, |ds| as real);
      AvgFold(ds, |ds| as real)
  }

  /** `error_rate`: the share of failed executions, `length || 1` keeping
      an empty page at 0. */
  function ErrorRate(rows: seq<Enriched>): (rate: real)
    ensures 0.0 <= rate <= 1.0
    ensures rate == 0.0 <==> CountStatus(rows, ExecStatus.Failed) == 0
    ensures |rows| > 0 ==> rate * (|rows| as real) == CountStatus(rows, ExecStatus.Failed) as real
  {
    var failed := CountStatus(rows, ExecStatus.Failed) as real;
    var n := if |rows| == 0 then 1.0 else |rows| as real;
    assert failed <= n;
    failed / n
  }

  /** The `stats` block over a page of executions. */
  function Summarize(rows: seq<Enriched>): (s: Stats)
    ensures s.total == |rows|
    ensures forall st :: st in s.byStatus <==> CountStatus(rows, st) > 0
    ensures forall st :: st in s.byStatus ==> s.byStatus[st] == CountStatus(rows, st)
    ensures s.totalCost == TotalCost(rows)
    ensures s.avgDuration == AvgDuration(rows)
    ensures |Durations(rows)| == 0 ==> s.avgDuration == 0.0
    ensures |Durations(rows)| > 0 ==> s.avgDuration * (|Durations(rows)| as real) == Sum(Durations(rows))
    ensures 0.0 <= s.errorRate <= 1.0
    ensures s.errorRate == 0.0 <==> CountStatus(rows, ExecStatus.Failed) == 0
    ensures s.errorRate == ErrorRate(rows)
  {
    ByStatusCounts(rows);
    Stats(|rows|, ByStatus(rows), TotalCost(rows), AvgDuration(rows), ErrorRate(rows))
  }

  /** The executions `ids`, each enriched, in the same order. */
  function EnrichAll(db: Db, ids: seq<Id>, includeCosts: bool): (rows: seq<Enriched>)
    requires forall i :: 0 <= i < |ids| ==> ids[i] in db.executions
    ensures |rows| == |ids|
    ensures forall i :: 0 <= i < |ids| ==>
      rows[i] == Enrich(db, ids[i], includeCosts) && rows[i].id == ids[i] && rows[i].execution == db.executions[ids[i]]
  {
    seq(|ids|, i requires 0 <= i < |ids| => Enrich(db, ids[i], includeCosts))
  }

  /** Some reported row is about execution `id`. */
  predicate Listed(rows: seq<Enriched>, id: Id) {
    exists j :: 0 <= j < |rows| && rows[j].id == id
  }

  /** `rows` describes the executions `ids`, one row each, in order. */
  predicate Mirrors(db: Db, ids: seq<Id>, rows: seq<Enriched>) {
    && |rows| == |ids|
    && forall i :: 0 <= i < |ids| ==>
      ids[i] in db.executions && rows[i].id == ids[i] && rows[i].execution == db.executions[ids[i]]
  }

  /** Every row of a page drawn from the selection passes the filter. */
  lemma PageMatches(db: Db, f: Executions.Filter, ids: seq<Id>, rows: seq<Enriched>)
    requires Mirrors(db, ids, rows)
    requires forall i :: 0 <= i < |ids| ==> ids[i] in Executions.Selected(db, f)
    ensures forall i :: 0 <= i < |rows| ==> Executions.Matches(rows[i].id, rows[i].execution, f)
  {
  }

  /** A page of distinct ids, newest first, gives distinct rows, newest first. */
  lemma PageOrdered(db: Db, stamp: map<Id, int>, ids: seq<Id>, rows: seq<Enriched>)
    requires Mirrors(db, ids, rows)
    requires forall i :: 0 <= i < |ids| ==> ids[i] in stamp && stamp[ids[i]] == db.executions[ids[i]].startedAt
    requires Distinct(ids) && NewestFirst(ids, stamp)
    ensures forall i, j :: 0 <= i < j < |rows| ==> rows[i].id != rows[j].id
    ensures forall i, j :: 0 <= i < j < |rows| ==> rows[i].execution.startedAt >= rows[j].execution.startedAt
  {
  }

  /** When no id left out is newer than a taken one, no execution left off
      the page is newer than a row on it. */
  lemma PageNewest(db: Db, stamp: map<Id, int>, ids: seq<Id>, rows: seq<Enriched>)
    requires Mirrors(db, ids, rows)
    requires forall id :: id in stamp ==> id in db.executions && stamp[id] == db.executions[id].startedAt
    requires forall i :: 0 <= i < |ids| ==> ids[i] in stamp
    requires forall id, i :: id in stamp && id !in ids && 0 <= i < |ids| ==> stamp[id] <= stamp[ids[i]]
    ensures forall id, i :: id in stamp && !Listed(rows, id) && 0 <= i < |rows| ==>
      db.executions[id].startedAt <= rows[i].execution.startedAt
  {
    assert forall id :: Listed(rows, id) <== id in ids;
  }

  /** The page GET /api/observe reports: the newest executions that pass
      the filters, at most `limit` (50 by default), each enriched. */
  method Page(db: Db, q: Query) returns (rows: seq<Enriched>)
    ensures |rows| == Min(q.limit.GetOr(Executions.DefaultLimit),
                          |Executions.Selected(db, Executions.Filter(q.workflowId, q.agentId, None, q.executionId))|)
    ensures forall i :: 0 <= i < |rows| ==>
      && rows[i].id in db.executions
      && rows[i] == Enrich(db, rows[i].id, q.includeCosts)
      && (q.workflowId.Some? ==> rows[i].execution.workflowId == q.workflowId.value)
      && (q.agentId.Some? ==> rows[i].execution.agentId == q.agentId)
      && (q.executionId.Some? ==> rows[i].id == q.executionId.value)
    ensures forall i, j :: 0 <= i < j < |rows| ==> rows[i].id != rows[j].id
    ensures forall i, j :: 0 <= i < j < |rows| ==> rows[i].execution.startedAt >= rows[j].execution.startedAt
    ensures forall id, i ::
      id in Executions.Selected(db, Executions.Filter(q.workflowId, q.agentId, None, q.executionId)) &&
      !Listed(rows, id) && 0 <= i < |rows| ==>
      db.executions[id].startedAt <= rows[i].execution.startedAt
    ensures q.executionId.Some? ==> |rows| <= 1
  {
    var f := Executions.Filter(q.workflowId, q.agentId, None, q.executionId);
    var stamp := Executions.Selected(db, f);
    var ids := TakeNewest(stamp, q.limit.GetOr(Executions.DefaultLimit));
    rows := EnrichAll(db, ids, q.includeCosts);
    assert Mirrors(db, ids, rows);
    PageMatches(db, f, ids, rows);
    PageOrdered(db, stamp, ids, rows);
    PageNewest(db, stamp, ids, rows);
    assert q.executionId.Some? ==> forall i :: 0 <= i < |ids| ==> ids[i] == q.executionId.value;
    assert |ids| > 1 ==> ids[0] != ids[1];
  }

  /** GET /api/observe: the page and the statistics over it. */
  method Report(db: Db, q: Query) returns (rows: seq<Enriched>, stats: Stats)
    ensures |rows| == Min(q.limit.GetOr(Executions.DefaultLimit),
                          |Executions.Selected(db, Executions.Filter(q.workflowId, q.agentId, None, q.executionId))|)
    ensures forall i :: 0 <= i < |rows| ==>
      && rows[i].id in db.executions
      && rows[i] == Enrich(db, rows[i].id, q.includeCosts)
      && (q.workflowId.Some? ==> rows[i].execution.workflowId == q.workflowId.value)
      && (q.agentId.Some? ==> rows[i].execution.agentId == q.agentId)
      && (q.executionId.Some? ==> rows[i].id == q.executionId.value)
    ensures forall i, j :: 0 <= i < j < |rows| ==> rows[i].id != rows[j].id
    ensures forall i, j :: 0 <= i < j < |rows| ==> rows[i].execution.startedAt >= rows[j].execution.startedAt
    ensures forall id, i ::
      id in Executions.Selected(db, Executions.Filter(q.workflowId, q.agentId, None, q.executionId)) &&
      !Listed(rows, id) && 0 <= i < |rows| ==>
      db.executions[id].startedAt <= rows[i].execution.startedAt
    ensures q.executionId.Some? ==> |rows| <= 1
    ensures stats == Summarize(rows)
    ensures stats.total == |rows|
  {
    rows := Page(db, q);
    stats := Summarize(rows);
  }

  /** POST /api/observe. Both the execution id and a non-empty event type
      are required; the event is logged, unchecked, against the execution. */
  function Record(db: Db, n: Note, now: int): (r: Result<(Db, AuditEvent)>)
    ensures r.Err? <==> n.executionId.None? || n.eventType == ""
    ensures r.Err? ==> r.error == BadRequest("execution_id and event_type are required")
    ensures r.Ok? ==>
      var (db', e) := r.value;
      && r.code == 201
      && db' == db.(audit := db.audit + [e])
      && e.agentId == n.agentId && e.resourceType == "execution"
      && e.resourceId == n.executionId.value
      && e.details == ObserveNote(n.message, n.metadata, now)
      && |e.action| == |ActionPrefix| + |n.eventType|
      && e.action[..|ActionPrefix|] == ActionPrefix && e.action[|ActionPrefix|..] == n.eventType
  {
    if n.executionId.None? || n.eventType == "" then
      Err(BadRequest("execution_id and event_type are required"))
    else
      var e := AuditEvent(n.agentId, ActionPrefix + n.eventType, "execution", n.executionId.value,
                          ObserveNote(n.message, n.metadata, now));
      Ok(201, (db.(audit := db.audit + [e]), e))
  }

  /** A recorded event ends the trail of its execution and no other. */
  lemma RecordExtendsTrail(db: Db, n: Note, now: int, id: Id)
    requires Record(db, n, now).Ok?
    ensures var (db', e) := Record(db, n, now).value;
      Trail(db'.audit, id) == if id == e.resourceId then Trail(db.audit, id) + [e] else Trail(db.audit, id)
  {
    var (db', e) := Record(db, n, now).value;
    assert db'.audit[..|db'.audit| - 1] == db.audit;
  }

  /** Recording an observation touches no table but the audit log. */
  lemma RecordKeepsValid(db: Db, n: Note, now: int)
    requires Valid(db)
    requires Record(db, n, now).Ok?
    ensures Valid(Record(db, n, now).value.0)
  {
  }
}

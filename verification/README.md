# agent-plane control plane, modelled in Dafny

agent-plane is a Next.js control plane for AI agents. Agents register
themselves and record workflows. They start executions of those workflows
and hand work to each other. They keep small pieces of state between
sessions, and they send messy data through a confidence gate that tells
them when to escalate to a human.

This project models the decision logic of that control plane. Each HTTP
handler is a pure function from a store, the current time and a request
to either an error or a new store plus a reply:

- The store is a `Db` value: maps keyed by row id or by
  `(component, key)`, an append-only audit log, and a counter that
  stands in for the database's id generator.
- A failing request returns an `Err` that carries no store, so an error
  changes nothing.
- `Valid` states the constraints the database keeps: unique agent names,
  unique `(name, version)` workflows, and fresh ids.
- Every handler that writes is proved to preserve `Valid`.

| file | module | models |
|---|---|---|
| common.dfy | `Common` | JSON values, JavaScript truthiness, HTTP errors, `.single()` on a set of rows |
| db.dfy | `Db` | the tables and the audit log; the database's unique constraints |
| state_store.dfy | `StateStore` | `/api/state`: GET, POST upsert, DELETE |
| agents.dfy | `Agents` | `/api/agents`: registration, heartbeat, lookup |
| workflows.dfy | `Workflows` | `/api/workflows`: version assignment, conflicts, latest-or-exact lookup |
| ordering.dfy | `Ordering` | `ORDER BY … DESC LIMIT n` over timestamped rows |
| executions.dfy | `Executions` | `/api/executions`: reference checks, pending creation, filtered listing |
| handoffs.dfy | `Handoffs` | `/api/handoffs`: context requirement, agent checks, filtered listing |
| interpret.dfy | `ConfidenceGate` | `/api/interpret`: validation, mean confidence, escalation |
| observe.dfy | `Observe` | `/api/observe`: enrichment, summary statistics, custom events |
| templates.dfy | `Templates` | the workflow template catalogue |
| stateful_chat.dfy | `StatefulChat` | the stateful chat example agent |
| email_triage.dfy | `EmailTriage` | the email triage example agent |

Four behaviours of the code are kept as written, though a reader of the
API might expect otherwise:

- `expires_at` is stored but no read ever filters on it.
- An upsert that leaves `agent_id` or `expires_at` out of the body keeps
  the column's old value. PostgREST's merge-duplicates upsert only
  updates the columns the body names. The tri-state `Field` type models
  this.
- A supplied workflow version is used unchanged whenever it is truthy,
  negative numbers included.
- Version `0` counts as "not supplied".

## Model

| member | source | states |
|---|---|---|
| StateStore.Get | src/app/api/state/route.ts:5-38 | no component gives 400. With a key, the reply is the single entry under (component, key) exactly when one exists, otherwise 404. Without a key, the reply holds every entry of that component, with its stored value, and no other entry. |
| StateStore.Put | src/app/api/state/route.ts:49-85 | 400 exactly when component or key is empty or value is undefined. On success the entry under (component, key) holds the value. It keeps the existing row's id, or takes a fresh id for a new key. Its `agent_id` and `expires_at` are the body's (`null` clears a column), and a column the body omits keeps the existing row's value, or is null for a new key. Every other entry and every other table is unchanged. One `state_write` event is appended, carrying only (component, key). |
| StateStore.Delete | src/app/api/state/route.ts:98-119 | 400 exactly when component or key is missing. Otherwise that entry is gone and every other entry is unchanged. The other tables, the id counter and the audit log are also untouched. |
| StateStore.PutThenGet | src/app/api/state/route.ts:18-74 | round trip: after a successful POST of (c, k, v), a GET of (c, k) returns a single entry holding v |
| StateStore.PutIsUpsert | src/app/api/state/route.ts:62-72 | a second POST to the same key updates the same row in place. The key set stays the same and no new id is used. |
| StateStore.OmittedColumnsKept | src/app/api/state/route.ts:64-72 | an upsert that leaves `expires_at` out keeps the expiry the entry already had |
| StateStore.DeleteThenGet | src/app/api/state/route.ts:104-119 | DELETE always succeeds for a full (component, key). A later GET is then 404, and deleting an absent key leaves the store identical. |
| StateStore.ExpiredEntriesStillRead | src/app/api/state/route.ts:18-28 | whatever `expires_at` an entry carries, past or future, GET of its key returns it |
| StateStore.PutKeepsValid | src/app/api/state/route.ts:62-72 | an upsert preserves the store's constraints |
| StateStore.DeleteKeepsValid | src/app/api/state/route.ts:104-119 | a delete preserves the store's constraints |
| Agents.Register | src/app/api/agents/route.ts:44-96 | 400 exactly when the name is empty. 409 exactly when the name is taken, or the fresh id collides. On success the new agent is active, seen now, and has the given fields, and no other table changes. An `agent_register` event is appended whose agent and resource are the new id. |
| Agents.Heartbeat | src/app/api/agents/route.ts:99-128 | 400 exactly when the name is empty. An unknown name is a 500 from `.single()`, and a name matching exactly one agent succeeds. On success only that agent changes: `last_seen` becomes now and `status` becomes the given one or stays. No audit event is written. |
| Agents.List | src/app/api/agents/route.ts:5-33 | without a name, the agents matching every given filter. With a name, the one matching agent, or 404 when the number of matches is not one. |
| Agents.RegisterKeepsValid | src/app/api/agents/route.ts:56-89 | registration preserves unique names and fresh ids |
| Agents.RegisterFreshNameSucceeds | src/app/api/agents/route.ts:83-89 | in a valid store the only cause of 409 is a name already taken |
| Agents.RegisterThenGet | src/app/api/agents/route.ts:12-33 | a registered agent is returned by a GET of its name |
| Agents.HeartbeatAnyStatus | src/app/api/agents/route.ts:111-124 | any existing agent can be set to any status; there is no transition guard |
| Agents.HeartbeatKnownNameSucceeds | src/app/api/agents/route.ts:111-124 | in a valid store, any heartbeat naming a registered agent succeeds and updates that agent |
| Agents.HeartbeatKeepsValid | src/app/api/agents/route.ts:119-124 | the heartbeat preserves the store's constraints |
| Workflows.AssignedVersion | src/app/api/workflows/route.ts:73-86 | a truthy supplied version is used as is. Otherwise the version is 1 for a new name. For a known name it exceeds every existing version, and it is one more than the highest. |
| Workflows.Create | src/app/api/workflows/route.ts:51-123 | 400 exactly when name or definition is empty. 409 exactly when the assigned (name, version) is taken or the id collides. On success the new workflow is active and carries the assigned version and the given fields, and only the workflows table and the audit log change. The audit gets `workflow_create` with the assigned version. |
| Workflows.Get | src/app/api/workflows/route.ts:5-40 | without a name, all workflows matching the filters. With a name and a version, the reply succeeds exactly when one workflow matches, and is that workflow; otherwise 404. With a name only, a match whose version is at least every other match's (the `active_only` filter is applied before the limit), or 404 when nothing matches. |
| Workflows.AutoVersionNeverConflicts | src/app/api/workflows/route.ts:72-101 | in a valid store a POST without a version always succeeds |
| Workflows.DuplicateVersionConflicts | src/app/api/workflows/route.ts:115-123 | a POST of an existing (name, version) is a 409 |
| Workflows.CreateKeepsValid | src/app/api/workflows/route.ts:88-123 | creation preserves unique (name, version) and fresh ids |
| Workflows.CreateThenGetLatest | src/app/api/workflows/route.ts:15-31 | after an auto-versioned POST, a GET by name returns exactly the new workflow |
| Workflows.CreateThenGetExact | src/app/api/workflows/route.ts:15-31 | after any POST, a GET by name and assigned version returns exactly the new workflow |
| Ordering.TakeNewest | src/app/api/executions/route.ts:29-31 | returns min(limit, rows) distinct rows, newest first, and no row left out is newer than a row taken |
| Executions.Create | src/app/api/executions/route.ts:48-119 | 400 exactly when `workflow_id` is missing. 404 exactly when the workflow is unknown, or a given agent is unknown (an omitted agent is not checked). On success the execution is pending, started now, and stores the input. Only the executions table and the audit log change. The audit gets `execution_start` with the workflow id and name. |
| Executions.Selected | src/app/api/executions/route.ts:19-27 | a row is selected exactly when it matches every supplied filter |
| Executions.List | src/app/api/executions/route.ts:5-37 | only rows matching every filter, each once, by `started_at` descending, at most `limit` (50 by default). No matching row left out is newer. |
| Executions.CreateKeepsValid | src/app/api/executions/route.ts:95-108 | creation preserves the store's constraints |
| Executions.ValidStoreNoServerError | src/app/api/executions/route.ts:58-108 | in a valid store, creation succeeds exactly when the workflow exists and any given agent exists |
| Handoffs.Create | src/app/api/handoffs/route.ts:50-125 | 400 exactly when the context is falsy or a given from/to agent is unknown. After those checks, a given workflow that does not exist makes the insert fail with 500 through the foreign key. On success the handoff is pending and stores the given agents, workflow, execution, context and reason. Only the handoffs table and the audit log change. The audit gets `handoff_create` attributed to the from-agent. |
| Handoffs.Selected | src/app/api/handoffs/route.ts:20-31 | a handoff is selected exactly when it matches every supplied filter |
| Handoffs.List | src/app/api/handoffs/route.ts:5-39 | every matching handoff exactly once, each row matching, newest `created_at` first |
| Handoffs.CreateKeepsValid | src/app/api/handoffs/route.ts:100-114 | creation preserves the store's constraints |
| Handoffs.OmittedAgentsNotChecked | src/app/api/handoffs/route.ts:69-98 | a handoff naming no agents is created in any valid store as long as it has context |
| Handoffs.DanglingWorkflowFails | src/app/api/handoffs/route.ts:100-114 | once the agent checks pass, a handoff naming an unknown workflow is refused with 500 |
| ConfidenceGate.Validate | src/app/api/interpret/route.ts:11-18 | 400 exactly when `data` or `schema` is falsy; otherwise the threshold in force is the given one, or 0.7 |
| ConfidenceGate.Mean | src/app/api/interpret/route.ts:80-83 | 0 for no scores; otherwise mean times count is the sum |
| ConfidenceGate.Escalates | src/app/api/interpret/route.ts:86-87 | the gate's rule: strictly below the threshold, or any missing field; AtThresholdDoesNotEscalate, NoScoresEscalates and EscalationMonotone state its consequences |
| ConfidenceGate.Interpret | src/app/api/interpret/route.ts:8-102 | rejected exactly when validation fails. The overall confidence is the mean of the scores (0 when there are none). `missing_fields` defaults to empty. It escalates exactly when overall < threshold or a field is missing. A reason is present exactly when it escalates. |
| ConfidenceGate.SumBounds | src/app/api/interpret/route.ts:80-83 | n scores within [lo, hi] sum to between n·lo and n·hi |
| ConfidenceGate.MeanBounds | src/app/api/interpret/route.ts:80-83 | the mean of scores within [lo, hi] lies in [lo, hi], so scores in [0, 1] give an overall confidence in [0, 1] |
| ConfidenceGate.SumConstant | src/app/api/interpret/route.ts:82 | n equal scores t sum to n·t |
| ConfidenceGate.AtThresholdDoesNotEscalate | src/app/api/interpret/route.ts:86-87 | every score equal to the threshold and nothing missing: no escalation and no reason, because the test is strict |
| ConfidenceGate.RejectedBeforeModelCall | src/app/api/interpret/route.ts:13-18 | a request without data or schema gets the same 400 whatever the model would have answered |
| ConfidenceGate.NoScoresEscalates | src/app/api/interpret/route.ts:80-87 | no confidence scores means an overall confidence of 0, which escalates under any positive threshold |
| ConfidenceGate.EscalationMonotone | src/app/api/interpret/route.ts:86-87 | raising the threshold never turns an escalation into an accept |
| Observe.Trail | src/app/api/observe/route.ts:47-51 | the events about a resource, in log order (the order they were stamped in), as a subsequence of the audit log that holds every such event and no other |
| Observe.TrailCounts | src/app/api/observe/route.ts:47-51 | each event about the resource occurs in the trail as often as in the log; other events occur zero times |
| Observe.SumNonZero | src/app/api/observe/route.ts:56-58 | filtering out falsy costs before summing does not change the sum |
| Observe.ActualCost | src/app/api/observe/route.ts:54-59 | with `include_costs` and logs read back, the cost is the sum of the logged costs. Otherwise it is the cost estimate. |
| Observe.IncludeCostsOverridesEstimate | src/app/api/observe/route.ts:54-59 | for every estimate and every trail of events that log no cost, `include_costs` reports a cost of 0. Without the flag, or without a trail, the estimate is reported. |
| Observe.Duration | src/app/api/observe/route.ts:65-69 | the stored duration when truthy. Otherwise, for a completed execution, the duration times 1000 is `completed_at − started_at`. Otherwise there is none. |
| Observe.Enrich | src/app/api/observe/route.ts:45-70 | the row itself and its full audit trail. The cost is 0 under `include_costs` (no event the API writes logs a cost), else the estimate. The duration is the one `Duration` reports. |
| Observe.ByStatusCounts | src/app/api/observe/route.ts:77-80 | a status appears in `by_status` exactly when some execution has it, with the number of such executions |
| Observe.CountsSumToTotal | src/app/api/observe/route.ts:76-80 | the per-status counts add up to the number of executions |
| Observe.ByStatusSumsToTotal | src/app/api/observe/route.ts:76-80 | the entries of `by_status` add up to `total_executions` |
| Observe.TotalCostAdditive | src/app/api/observe/route.ts:81 | `total_cost` is additive over concatenated pages |
| Observe.TotalCost | src/app/api/observe/route.ts:81 | the fold the handler computes; TotalCostIsSum and TotalCostOfOne characterise it |
| Observe.TotalCostIsSum | src/app/api/observe/route.ts:81 | `total_cost` is the sum of the rows' `actual_cost`, a missing cost counting 0 |
| Observe.TotalCostOfOne | src/app/api/observe/route.ts:81 | a single row contributes exactly its `actual_cost`, or 0 when it has none |
| Observe.ByStatus | src/app/api/observe/route.ts:77-80 | the fold the handler computes; ByStatusCounts shows each status present maps to exactly the number of executions with it |
| Observe.AvgFold | src/app/api/observe/route.ts:82-86 | the term-wise `sum + d / n` fold; AvgFoldIsMean shows it equals the sum over n |
| Observe.Durations | src/app/api/observe/route.ts:82-83 | only truthy durations enter the average |
| Observe.DurationsAppend | src/app/api/observe/route.ts:82-83 | the durations of two pages are those of the first followed by those of the second |
| Observe.DurationsOfOne | src/app/api/observe/route.ts:82-83 | a single execution contributes its duration exactly when that duration is truthy |
| Observe.AvgFoldIsMean | src/app/api/observe/route.ts:82-86 | adding d/n term by term gives the sum divided by n |
| Observe.AvgDuration | src/app/api/observe/route.ts:82-86 | the mean of the truthy durations, 0 when there are none |
| Observe.ErrorRate | src/app/api/observe/route.ts:87-88 | in [0, 1], 0 exactly when nothing failed, and failed/total for a non-empty page |
| Observe.Summarize | src/app/api/observe/route.ts:75-89 | `total_executions` is the page size. `by_status` is exact, `total_cost` is `TotalCost` (the sum of actual costs, by TotalCostIsSum), `avg_duration` is the mean of the truthy durations, and `error_rate` is the `ErrorRate` of the page: failed over the page size (1 for an empty page), in [0, 1] and 0 exactly when nothing failed. |
| Observe.Report | src/app/api/observe/route.ts:15-95 | the newest matching executions, each once and enriched, at most `limit` (50 by default). No matching execution left out started later than one reported. An `execution_id` filter yields at most one row. The stats are computed over that page. |
| Observe.Record | src/app/api/observe/route.ts:107-144 | 400 exactly when the execution id or the event type is missing. Otherwise one audit event is appended: its action splits into `observe:` and the event type, its resource is the execution, and its details are the message, the metadata and the time. |
| Observe.RecordExtendsTrail | src/app/api/observe/route.ts:126-138 | a recorded event is appended to its execution's trail and to no other trail |
| Observe.RecordKeepsValid | src/app/api/observe/route.ts:126-138 | recording touches only the audit log |
| Templates.Get | src/lib/templates.ts:278-280 | a name resolves exactly when it is a key of the catalogue, and then to the template filed under it |
| Templates.Search | src/lib/templates.ts:285-290 | exactly the catalogue's templates that carry the tag |
| Templates.List | src/lib/templates.ts:292-294 | the catalogue's keys, one per template, in catalogue order |
| Templates.Lookup | src/lib/templates.ts:278-280 | a key resolves exactly when it is a key of the table, and then to the template stored under it |
| Templates.WithTag | src/lib/templates.ts:285-287 | exactly the templates whose tags contain the tag |
| Templates.WithTagKeepsOrder | src/lib/templates.ts:285-287 | the filtered list is a subsequence of the table's values, so the table order is preserved |
| Templates.CatalogueWellFormed | src/lib/templates.ts:16-273 | `listTemplates()` is the seven keys in declaration order. Each template's name equals its key. Each carries a cost estimate. |
| Templates.GetIffListed | src/lib/templates.ts:278-294 | `getTemplate(n)` is defined exactly when n is listed, and then its name is n |
| Templates.SearchExact | src/lib/templates.ts:285-287 | a template is found exactly when it is in the table and carries the tag |
| Templates.TagsDisjoint | src/lib/templates.ts:16-273 | no two templates share a tag |
| Templates.TagsPartitionCatalogue | src/lib/templates.ts:285-287 | searching by any listed tag returns exactly the one template that carries it |
| Templates.SearchOrderedNoDuplicates | src/lib/templates.ts:285-287 | a search keeps table order and never returns a template twice |
| Templates.SearchNeedsWholeTag | src/lib/templates.ts:285-287 | a search finds nothing exactly when the string is none of the templates' tags. So the empty string, a proper prefix, or a tag in other capitals finds nothing. |
| StatefulChat.LoadContext | examples/stateful-chat.ts:34-51 | the saved conversation if there is one, otherwise empty messages, preferences and pending tasks |
| StatefulChat.ExtractPreferences | examples/stateful-chat.ts:116-133 | nothing is extracted unless the message contains a preference keyword |
| StatefulChat.CompletedTasks | examples/stateful-chat.ts:138-151 | with nothing pending the result is empty without asking |
| StatefulChat.UpdatedPreferences | examples/stateful-chat.ts:70-74 | extracted preferences are merged in; otherwise the preferences are unchanged |
| StatefulChat.Merge | examples/stateful-chat.ts:72 | the keys of both maps survive, and new values override old ones |
| StatefulChat.Remove | examples/stateful-chat.ts:80 | the tasks not done, as a subsequence of the list, each as often as it occurs; a done task is gone entirely |
| StatefulChat.StillPending | examples/stateful-chat.ts:77-81 | the tasks not reported done, in their original order and with their repetitions. Nothing reported leaves the list as it was, and nothing pending stays empty. |
| StatefulChat.RemoveNothing | examples/stateful-chat.ts:80 | removing tasks none of which was reported keeps the list, order included |
| StatefulChat.KeepRecent | examples/stateful-chat.ts:94-96 | at most 50 messages, and the kept ones are a suffix of the history |
| StatefulChat.Extend | examples/stateful-chat.ts:63-96 | the user message then the reply end the history. The history is capped at 50, and what survives of the old history is its tail. |
| StatefulChat.LastUserContents | examples/stateful-chat.ts:160-165 | exactly the final two (or fewer) user contents within the last five messages, in order; hence each quote is a user message among the last five, and a history ending in a user message quotes that message last |
| StatefulChat.UserContents | examples/stateful-chat.ts:165 | only contents of user messages, and the last one when the history ends with a user message |
| StatefulChat.UserContentsAppend | examples/stateful-chat.ts:165 | the user-message filter distributes over concatenation |
| StatefulChat.UserContentsOne | examples/stateful-chat.ts:165 | one message contributes its content exactly when the user sent it; with UserContentsAppend this fixes the filter |
| StatefulChat.Respond | examples/stateful-chat.ts:156-173 | a recall exactly when the message contains "what did i say", quoting the user's recent messages. Otherwise the known preferences when there are any. Otherwise an acknowledgement of the message count. |
| StatefulChat.Chat | examples/stateful-chat.ts:56-111 | saved under ("conversation", user) with a 90-day expiry. The history ends with the user message and the reply, holds at most 50 messages, and keeps the tail of the old history. Preferences are merged. The pending tasks are the old ones not reported done, in order and with repetitions. The reply is `Respond` applied to the updated context: the old history plus the question, and the preferences and tasks as saved. |
| StatefulChat.ChatReplyUsesUpdatedContext | examples/stateful-chat.ts:70-85 | without the recall phrase, the reply shows the preferences as saved after the merge, or, when there are none, counts the old history plus the question |
| StatefulChat.MentionsPreference | examples/stateful-chat.ts:118-119 | a keyword occurs in the lower-cased message; KeywordsMatchInsideWords and MentionsPreferenceIgnoresCase state its consequences |
| StatefulChat.AddTask | examples/stateful-chat.ts:178-190 | the task is appended at the end, messages and preferences are untouched, and the save has no expiry |
| StatefulChat.ChatAppendsTwo | examples/stateful-chat.ts:63-96 | below the cap a turn appends exactly two messages and drops nothing |
| StatefulChat.AddThenCompleteTask | examples/stateful-chat.ts:77-81 | a task added and then reported done is gone, while the other pending tasks stay |
| StatefulChat.NothingReportedKeepsTasks | examples/stateful-chat.ts:77-81 | a turn with no task reported done keeps the pending list in order |
| StatefulChat.FirstTurn | examples/stateful-chat.ts:39-105 | a new user's first turn saves exactly the user message and the reply, with no tasks, and the next load reads it back |
| StatefulChat.RecallQuotesTheQuestion | examples/stateful-chat.ts:63-84 | asked what they said, the agent recalls, and the last quote is the question itself, because the message is stored before the reply is generated |
| StatefulChat.KeywordsMatchInsideWords | examples/stateful-chat.ts:118-119 | any text containing a keyword written in any capitals, even inside a longer word, mentions a preference |
| StatefulChat.MentionsPreferenceIgnoresCase | examples/stateful-chat.ts:118-119 | lower-casing a message does not change whether it mentions a preference |
| EmailTriage.InterpretRequest | examples/email-triage.ts:31-46 | the gate is asked with threshold 0.7 |
| EmailTriage.Route | examples/email-triage.ts:89-101 | urgent priority or negative sentiment goes to `urgent_response`; otherwise the route is `route_to_<category>` |
| EmailTriage.TriageEmail | examples/email-triage.ts:27-104 | on escalation there is one medium-priority escalation carrying the email's id, sender and subject, the gate's extracted data, confidence scores and missing fields, and the gate's reason or the fallback text, no save, no workflow, and a null result. Otherwise the triage is saved under ("email_triage", email id) for 30 days, then the workflow `Route` picks runs. |
| EmailTriage.RequestAlwaysAccepted | examples/email-triage.ts:31-46 | the agent's request always passes the gate's validation |
| EmailTriage.EscalatesIffGateSays | examples/email-triage.ts:52-69 | through the gate, an email is escalated exactly when its mean confidence is below 0.7 or a field is missing, and then with the gate's reason, never the fallback |
| EmailTriage.OneWorkflowPerAcceptedEmail | examples/email-triage.ts:89-101 | an accepted email starts exactly one workflow, after the save; an escalated one starts none |
| EmailTriage.RoutesDistinct | examples/email-triage.ts:89-101 | category routes differ from each other and from `urgent_response` |

## Left out

- The lifecycle handlers `/api/executions/[id]`, `/api/handoffs/[id]` and `/api/escalations/[id]` are not part of this model. Neither is any transition rule for statuses, nor how `duration_seconds` is filled in.
- The Supabase client (src/lib/supabase.ts) is not part of this model beyond its row shapes. The fetch SDK (src/lib/client.ts) and the HTTP test drivers are not part of it either. The example agents take what the SDK returned as parameters.
- The model call in `/api/interpret` is not modelled: the prompt, the Anthropic request, and the JSON/markdown extraction of the answer. Its parsed answer is an input. A reply that cannot be parsed (a 500) is not modelled.
- The generic 500 paths are not modelled: database errors, failed audit inserts, malformed request bodies, and `parseInt` of a non-numeric `limit` or `version`. A negative `limit` is not modelled either: `limit` is a `nat`, while the source passes `parseInt("-5")` on to `.limit(-5)`.
- Ids are serial numbers rather than uuids, so a malformed id string cannot be expressed.
- Timestamps are integers in milliseconds. Scores, costs and durations are exact reals rather than doubles. `toFixed` and ISO date strings are not modelled. The escalation reason's text is represented by the number it prints.
- Concurrency is not modelled: racing upserts, and the parallel enrichment in `/api/observe`.
- Embedded joins are not modelled: the `workflow:` and `agent:` columns of listings. Listings return the rows themselves.
- Foreign keys: the one on `handoffs.workflow_id` is modelled, because the handoff listing embeds `workflows` through it. The others (handoff execution ids, audit agent ids, state agent ids) cannot be inferred from the handlers and are not modelled.
- Column defaults are taken as the handlers' evident intent: a new agent is `active` with `last_seen` and `created_at` set to now, a new workflow is active, and a handoff's `created_at` is now.
- An explicit `null` `confidence_threshold` is not modelled. Only an omitted one, which defaults to 0.7, is.
- Agents.Heartbeat: when several agents share a name, the source updates them all before `.single()` fails. The model reports the 500 and leaves the store unchanged. Under the unique name index this case cannot arise.
- Observe.Trail: the audit query also matches `details->>workflow_execution_id`. No modelled handler writes that detail, so the trail is the events whose resource is the execution.
- Observe.Enrich: its cost under `include_costs` is 0 because no audit event the API writes carries `details.cost`. Costs written by other clients are not modelled.
- Templates: the `definition` and `example_usage` texts are prose and code for readers and are left out. `getTemplate` of an inherited object key such as `toString` (which returns a function) is not modelled.
- StatefulChat.Respond: the wording of the replies (JSON rendering, quoting) is not modelled. A stored reply is represented by the reply value.
- StatefulChat: `getSummary` (string formatting) and the demo driver are left out. Lower-casing covers ASCII letters only.
- EmailTriage: interpreted data that does not have the triage shape is not modelled. The source casts it unchecked.
- ConfidenceGate.Interpret: `should_escalate` is a boolean in the model. In the source, when the confidence clears the threshold the `||` yields `missing_fields` itself. So the reply carries `undefined` (the key is dropped) when the model returned no `missing_fields`, and `null` when it returned `null`, rather than `false`. Its truthiness, which is what the model states, is the same.
- StatefulChat.LoadContext: the agent takes `state.data` to be the conversation. GET /api/state returns the stored row (with `state_value` inside), so on a real store the loaded value is not a conversation. The model passes the stored conversation in directly.
- StatefulChat.Chat: the agent's calls are taken to succeed. The SDK client (src/lib/client.ts:89-91) throws on any non-2xx reply. The client also sends `component_name`/`state_key`/`state_value`/`expires_in_seconds` where POST /api/state reads `component`/`key`/`value`/`expires_at`, so a real save answers 400. Likewise `loadState` sends `component_name` where GET reads `component`. The model describes what the agent asks for, not what the server makes of it.
- EmailTriage.TriageEmail: the same client mismatches apply: `saveState` sends names the state handler does not read. `executeWorkflow` sends `workflow_name` where POST /api/executions requires `workflow_id`, so that call answers 400. The model describes the calls the agent makes, assuming each succeeds.

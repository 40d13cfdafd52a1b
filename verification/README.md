# Verified model of the assistant platform

A Dafny model of the stateful cores of the service, with proofs of what they promise over all inputs,
all interleavings and all runs. `dafny verify dfyconfig.toml` checks everything.

| file | models |
|---|---|
| `MemoryMirror.dfy`, `MemoryExposure.dfy`, `MemoryJobs.dfy`, `MemoryRefinement.dfy` | the mirror table and the vector index: an interleaved machine, the exact conditions under which the two can part, the jobs as methods of a store, and the proof that each job is a run of the machine |
| `UserFacts.dfy`, `UserFactAnswers.dfy` | promoting a user fact under concurrency, against an atomic get-or-create, and which answer a caller gets |
| `AgentGraph.dfy`, `AgentRuns.dfy`, `Intent.dfy`, `ToolBudget.dfy`, `WorkingSets.dfy` | the agent workflow, its call budget, deterministic intents and their check, the working set |
| `Gateway.dfy`, `RateLimit.dfy`, `AgentBehindGateway.dfy` | the tool gateway, its limiter and the tool listing; the workflow with the gateway as its invoker |
| `WorkOrders.dfy` | work-order status changes by compare-and-swap |
| `Conversations.dfy` | the two conversation stores against one plain log |
| `EvidenceCodec.dfy` | the JSON codec of conversation evidence |
| `ContextBudget.dfy` | the token-budget allocator and the context assembler |
| `Outbox.dfy`, `Chunks.dfy`, `Ingestion.dfy` | publishing the outbox, cutting text into windows, ingesting documents |
| `Container.dfy` | starting, rolling back and closing the container |
| `Common.dfy`, `Text.dfy`, `Batches.dfy`, `Sums.dfy` | shared notions: options and results, words and text order, ordered and limited queries, sums |

How the source is carried over:

- Code that changes state is a class or a method with loops, proved against a specification function;
  what the source promises is proved about that function. Protocols with several actors are
  machines of atomic actions, and results hold for every enabled sequence of them.
- Foreign calls (database drivers, vector index, embeddings, language model, broker, downloads,
  tokeniser, hashing, regular expressions, identifier text) are parameters: which calls fail, whether
  a failing call had taken effect, whether a commit succeeds. Only what a theorem needs of them is a
  hypothesis of that theorem.
- The text of a vector identifier is that of its row, so both are one identifier in the model.
- A query of the agent is what its patterns say about it; every pattern is one field.

Where the code does less than one might expect, the model follows the code:

- Reconciliation reads the table before it lists the vectors. A row recorded and synced in between
  loses its vector for good (`ReconciliationCanLoseAVector`, `LostVectorsStayLost`).
- The user-memory eraser reads rows without locking them and can leave an orphan vector
  (`ErasureCanLeaveAnOrphan`), which reconciliation removes (`ReconcileOnce`).
- When exactly either can still happen to a row is `LossRiskIsExact` and `OrphanRiskIsExact`.
- The caller that loses the race for a user fact gets the record, but its turns are not merged
  (`RacedCallerLosesItsTurns`); `TurnsAreExact` says whose are, and `AnswersFollowFirstLook` who is told what. A caller can also be turned away with
  an error although an active record of its key exists (`CallerCanRaiseBesideARecord`).
- A fixed window admits up to 2 * max_calls - 1 calls in a window-long span, and the bound is tight.
- The composer refuses empty evidence, so a run whose tool records carry none ends in an error
  instead of an answer (`EmptyEvidenceRaises`); `AgentRunEnds` says exactly when. Behind the gateway
  it never happens (`RunBehindGatewayAnswers`).
- No node produces the reason `tool_limit_reached`: a run that uses up its budget reports completed.
- Turns with equal times are ordered by a random identifier in the database, so an exchange can come
  back swapped there and not in memory (`TiedExchangeMaySwap`); when the stores
  agree is `StoresAgreeIffRanksFollow`.
- Blocks with equal sort keys keep their arrival order, so the selection depends on it exactly when
  two different blocks share a key (`OrderMattersOnlyForSharedKeys`).
- One announcement whose download keeps raising, first in id order, stalls its topic
  (`FirstFailureBlocks`).
- The site check of the gateway looks at the validated input; it relies on validation keeping a site
  that is present (`SiteHeldIffKept`).

## Model

| member | source | states |
|---|---|---|
| `MemoryMirror.StepKeepsInv` | src/app/modules/assistant/infrastructure/conversation_memory/long_term/vector_sync_worker.py:36-86 | Every atomic step of every process (lock, upsert, failed upsert that may have landed, commit, soft and hard deletion, listing and deleting orphans, erasure, failing index calls, abort) keeps the invariant: vectors have rows, row locks are disjoint, locked rows are live and unsynced, a hard deletion has really cleared what it believes cleared |
| `MemoryMirror.RunKeepsInv` | src/app/modules/assistant/infrastructure/conversation_memory/long_term/vector_sync_worker.py:36-86 | The same along every interleaving |
| `MemoryExposure.LossRiskIsExact` | src/app/modules/assistant/infrastructure/conversation_memory/long_term/reconciliation_job.py:34-51 | A row can end up live and synced without its vector, in some future in which no eraser selects it anew, exactly when one of these holds now: it is so already; a sync is about to mark it though its vector has gone; a pass in flight has missed it (read the table before the row and has yet to list its namespace, or has its vector on the list to delete); an eraser at work has selected it and has yet to clear its namespace |
| `MemoryExposure.OrphanRiskIsExact` | src/app/modules/assistant/infrastructure/conversation_memory/long_term/user_memory_eraser.py:41-105 | A vector can outlive its row exactly when an eraser at work holds the row and either has cleared its namespace while the vector is there again, or the row is still unsynced |
| `MemoryExposure.LossIsReachable` | src/app/modules/assistant/infrastructure/conversation_memory/long_term/reconciliation_job.py:45-50 | Whenever a row is at that risk, the accident needs nothing new: no insertion, no new pass, no new erasure |
| `MemoryExposure.ErasureExposes` | src/app/modules/assistant/infrastructure/conversation_memory/long_term/user_memory_eraser.py:41-75 | An eraser that selects a live row puts it at risk of losing its vector at once, and of an orphan exactly when it is unsynced or was at that risk before |
| `MemoryExposure.QuietRunsAgree` | src/app/modules/assistant/infrastructure/conversation_memory/long_term/memory_retention_job.py:75-140 | From the empty system, any run without erasers in which rows are inserted only when no pass in flight can still miss them, aborts and failed index calls included, ends with every vector having its row in that namespace and every live synced row having its vector |
| `MemoryExposure.DisagreementIsExposed` | src/app/modules/assistant/infrastructure/conversation_memory/long_term/reconciliation_job.py:34-51 | In every run, erasers included: a row that ends up live and synced without its vector, or a vector without its row, was at that risk at every moment since the row was inserted and since an eraser last selected it |
| `MemoryExposure.RecordedRowsStay` | src/app/modules/assistant/infrastructure/conversation_memory/long_term/memory_retention_job.py:75-140 | From its insertion on, a row stays live in every run in which no retention pass reads a clock past its expiry and no eraser selects it |
| `MemoryMirror.HardDeletionIsFinal` | src/app/modules/assistant/infrastructure/conversation_memory/long_term/memory_retention_job.py:99-140 | A row that hard deletion removes leaves no vector behind, and neither row nor vector ever comes back, whatever runs afterwards and whoever had selected the row before |
| `MemoryMirror.LostVectorsStayLost` | src/app/modules/assistant/infrastructure/conversation_memory/long_term/vector_sync_worker.py:38-45 | A synced row without its vector stays without it for ever: nothing selects it again |
| `MemoryMirror.ReconciliationCanLoseAVector` | src/app/modules/assistant/infrastructure/conversation_memory/long_term/reconciliation_job.py:36-49 | A concrete run: a row recorded and synced between the table read and the vector listing ends up live, synced and without a vector |
| `MemoryMirror.ErasureCanLeaveAnOrphan` | src/app/modules/assistant/infrastructure/conversation_memory/long_term/user_memory_eraser.py:41-105 | A concrete run: an erase racing a sync leaves a vector whose row is gone |
| `MemoryJobs.MemoryStore.SyncOnce` | src/app/modules/assistant/infrastructure/conversation_memory/long_term/vector_sync_worker.py:36-86 | A pass picks the oldest unsynced live rows up to the batch size; the index gains exactly the vectors that were upserted or landed, even when the commit fails; rows are marked synced or charged a retry only if it commits |
| `MemoryJobs.MemoryStore.ReconcileOnce` | src/app/modules/assistant/infrastructure/conversation_memory/long_term/reconciliation_job.py:34-51 | One pass removes exactly the orphans of the configured namespaces and returns their number |
| `MemoryJobs.MemoryStore.DrainAndReconcile` | src/app/modules/assistant/infrastructure/conversation_memory/long_term/reconciliation_job.py:34-51 | From synced rows having vectors, orphans allowed, syncing until a pass finds nothing and then reconciling leaves each configured namespace with exactly the vectors of its live rows; the count is that of the orphans there were |
| `MemoryJobs.MemoryStore.SoftDeleteExpired` | src/app/modules/assistant/infrastructure/conversation_memory/long_term/memory_retention_job.py:75-97 | The oldest live rows whose expiry is before the clock, up to the batch size, are stamped deleted and nothing else changes; a pass that finds none leaves no live row past its expiry |
| `MemoryJobs.MemoryStore.DeleteSoftDeletedBatch` | src/app/modules/assistant/infrastructure/conversation_memory/long_term/memory_retention_job.py:99-140 | Vectors go first, rows only if every namespace call and the commit succeed; on success both counts equal the batch length; on failure every row stays and the index has lost exactly the vectors of the namespaces cleared before and what the failing call had removed |
| `MemoryJobs.MemoryStore.DeleteExpiredCandidates` | src/app/modules/assistant/infrastructure/conversation_memory/long_term/memory_retention_job.py:57-73 | The oldest expired candidates go and no others |
| `MemoryJobs.GroupByNamespace` | src/app/modules/assistant/infrastructure/conversation_memory/long_term/memory_retention_job.py:115-136 | The grouping partitions the batch: each row is in the group of its namespace, once, and no group is empty |
| `MemoryJobs.MemoryStore.PurgeOnce` | src/app/modules/assistant/infrastructure/conversation_memory/long_term/memory_retention_job.py:45-55 | With any failures: twice the expired live rows, plus the soft-deleted rows, plus the expired candidates, drops by exactly the work done before the pass ended; a pass that returns reports just that work, and none exactly when the measure is zero; rows that are not due and vectors of live rows are never touched |
| `MemoryJobs.MemoryStore.PurgeUntilClean` | src/app/modules/assistant/infrastructure/conversation_memory/long_term/memory_retention_job.py:45-55 | Repeated passes end, within as many passes as the measure; a row is left, unchanged, exactly when it was live and without expiry or with one not before the clock, likewise the candidates, and the index is short of exactly the removed rows' vectors |
| `MemoryRefinement.SyncPassIsARun` | src/app/modules/assistant/infrastructure/conversation_memory/long_term/vector_sync_worker.py:36-86 | A sync pass with any failures, committed or aborted, is a run of the interleaved machine |
| `MemoryRefinement.SoftDeleteIsARun` | src/app/modules/assistant/infrastructure/conversation_memory/long_term/memory_retention_job.py:75-97 | So is a soft-deletion pass |
| `MemoryRefinement.HardDeleteIsARun` | src/app/modules/assistant/infrastructure/conversation_memory/long_term/memory_retention_job.py:99-140 | So is a hard-deletion pass with its namespace calls in any order and with any outcome: rows deleted, a failing call, a failing commit |
| `MemoryRefinement.ReconciliationIsARun` | src/app/modules/assistant/infrastructure/conversation_memory/long_term/reconciliation_job.py:34-51 | So is an uninterrupted reconciliation pass, and it is a quiet one |
| `UserFacts.NormalFormIsWords` | src/app/modules/assistant/infrastructure/conversation_memory/long_term/memory_record_repository.py:110-111 | Two contents get the same key text exactly when their lowered word sequences are equal (splitting undoes joining); the key text is its own key text when lower-casing fixes it |
| `UserFacts.SameKeyMeansSameWords` | src/app/modules/assistant/infrastructure/conversation_memory/long_term/memory_record_repository.py:52-65 | With an injective hash two promotions compete for one record exactly when owner and words agree |
| `UserFacts.StepKeepsInv` | src/app/modules/assistant/infrastructure/conversation_memory/long_term/memory_record_repository.py:57-101 | Every step of every caller and every deletion keeps: the log of answers replays as atomic operations, active records are its facts, a held row is unchanged, a pending insert is alone on its key |
| `UserFacts.PromotionsAreLinearizable` | src/app/modules/assistant/infrastructure/conversation_memory/long_term/memory_record_repository.py:57-101 | In every interleaving the answers are those of an atomic get-or-create in commit order, an error is raised only after a deletion since the refused insert, and no two active records share a key |
| `UserFacts.ExactlyOneCreates` | src/app/modules/assistant/infrastructure/conversation_memory/long_term/memory_record_repository.py:95-101 | Of all callers told about a record exactly one is told it created it, before all the others |
| `UserFacts.DifferentRecordsMeanDeletion` | src/app/modules/assistant/infrastructure/conversation_memory/long_term/memory_record_repository.py:66-72 | Two callers of one key get different records only if the first was deleted in between |
| `UserFacts.SameWordsSameRecord` | src/app/modules/assistant/infrastructure/conversation_memory/long_term/memory_record_repository.py:52-111 | The same in terms of the contents: same owner and words, same record unless deleted in between; otherwise never the same record |
| `UserFacts.TurnsAreExact` | src/app/modules/assistant/infrastructure/conversation_memory/long_term/memory_record_repository.py:67-72 | A record's source turns are exactly those of its creator and of the callers that merged into it |
| `UserFacts.RacedCallerLosesItsTurns` | src/app/modules/assistant/infrastructure/conversation_memory/long_term/memory_record_repository.py:95-100 | A concrete run: the caller that loses the insert race gets the record but its turns are recorded nowhere |
| `UserFacts.CallerCanRaiseBesideARecord` | src/app/modules/assistant/infrastructure/conversation_memory/long_term/memory_record_repository.py:93-100 | A concrete run: the record a caller was refused for is deleted and made anew while its second locking read waits, so it is turned away with an error although an active record exists |
| `UserFacts.PromotedExactly` | src/app/modules/assistant/infrastructure/conversation_memory/long_term/memory_record_repository.py:52-54 | Exactly an owned conversation summary can be promoted, with its own turns, and promotions of different owners never compete |
| `UserFactAnswers.FoundIsMerged` | src/app/modules/assistant/infrastructure/conversation_memory/long_term/memory_record_repository.py:57-72 | In every run, a caller whose first look saw a record that was not deleted before it could lock it can from then on only merge or give up; merging tells it so and leaves that record with exactly the turns it had and the caller's, the others unchanged |
| `UserFactAnswers.AnswersFollowFirstLook` | src/app/modules/assistant/infrastructure/conversation_memory/long_term/memory_record_repository.py:57-101 | Every answer in every run: a caller is told of a merge exactly when its first look saw a record that was not deleted before it could lock it, and then of that record; so a refused insert, an error or a creation belongs to a caller that saw none, or one deleted before that |
| `ToolBudget.ToolCallBudget.Record` | src/app/modules/assistant/infrastructure/agents/langgraph/context.py:28-39 | Recording succeeds exactly when a call is allowed and then moves one call from remaining to total and to the tool's count |
| `ToolBudget.RecordKeepsBalance` | src/app/modules/assistant/infrastructure/agents/langgraph/context.py:21-39 | total + remaining is the initial budget, total is the sum of the per-tool counts, no count exceeds the cap |
| `AgentGraph.StepAdvances` | src/app/modules/assistant/infrastructure/agents/langgraph/workflow.py:22-37 | Every node keeps the invariant and lowers the termination measure, whatever brain and invoker return |
| `AgentGraph.RunKeepsInv` | src/app/modules/assistant/infrastructure/agents/langgraph/workflow.py:22-37 | Along every run the books balance and enough steps finish it |
| `AgentRuns.AgentRunEnds` | src/app/modules/assistant/infrastructure/agents/langgraph/orchestrator.py:91-174 | Within 4n+2 node executions (3 for an empty budget) the run is over; invoker calls never exceed the budget, not even on the identity-mismatch exit; the budget error is unreachable; it ends with an answer and a reason unless the composer raised, which happens exactly when there are recorded calls, none has evidence, and the run was neither blocked nor answered by the planner |
| `AgentRuns.EvidenceNeverRaises` | src/app/modules/assistant/infrastructure/agents/langgraph/nodes/respond.py:9-39 | If every record carries evidence the run never raises |
| `AgentRuns.ResolvedReadRaisesWithoutEvidence` | src/app/modules/assistant/infrastructure/agents/langgraph/nodes/respond.py:9-39 | The calls of a resolved read are the records the invoker returned round by round, min(budget, cap) of them, and the run raises exactly when none of these carries evidence |
| `AgentRuns.EmptyEvidenceRaises` | src/app/modules/assistant/application/response_composer.py:19-32 | A concrete run: one record without evidence makes the respond node raise |
| `AgentRuns.OrchestratedRun` | src/app/modules/assistant/infrastructure/agents/langgraph/orchestrator.py:91-174 | With the policy's tools and limits: nothing is invoked when tools are disallowed, only named tools are invoked, never more often than either limit, and the result carries the run's answer, its recorded calls and a reason, completed or policy-blocked |
| `AgentRuns.OrchestratedRead` | src/app/modules/assistant/infrastructure/agents/langgraph/orchestrator.py:104-150 | A query resolved to a registered read tool that the policy names calls it exactly as often as the smallest of the request's, the policy's and the per-tool limit allows, and never when tools are disallowed |
| `AgentRuns.AllowedToolsAreNamed` | src/app/modules/assistant/infrastructure/agents/langgraph/orchestrator.py:107-109 | The tools on offer are exactly those available that the policy names, and a name stands for the same tool as before |
| `AgentRuns.RunInPolicy` | src/app/modules/assistant/infrastructure/agents/langgraph/nodes/tool_call.py:22-110 | No brain can make a run call a tool that is not on offer, or a mutating one without the text asking for that write |
| `AgentRuns.ResolvedReadCallsToTheLimit` | src/app/modules/assistant/infrastructure/agents/langgraph/nodes/plan_action.py:28-89 | A query resolved to an available read tool calls exactly that tool, exactly min(budget, cap) times, is never blocked, and answers with the composition of the recorded evidence |
| `AgentRuns.RunAnswers` | src/app/modules/assistant/infrastructure/agents/langgraph/nodes/respond.py:9-39 | What every run says: one of the three fixed refusals if it was blocked; the planner's answer if the last plan had one; without recorded calls the stripped reply the brain gave in the run's respond step, or the fixed fallback if that is empty; with evidence the stripped composition of the evidence of all its recorded calls; with calls and no evidence it raises |
| `AgentRuns.PlannedAnswerIsTheRuns` | src/app/modules/assistant/infrastructure/agents/langgraph/nodes/plan_action.py:19-25 | A non-empty answer the brain plans, when it is asked, ends the run with that very answer and no further call |
| `AgentRuns.PlannedCallIsChecked` | src/app/modules/assistant/infrastructure/agents/langgraph/nodes/tool_call.py:22-110 | A call the brain plans is blocked with the refusal of its cause (not on offer or used up; not what the text asks for; a record of another tool), and otherwise that very tool is invoked and its record kept |
| `AgentRuns.NothingToCallAnswers` | src/app/modules/assistant/infrastructure/agents/langgraph/nodes/plan_action.py:28-105 | When no tool can be called, or the resolved one cannot, the brain's plan does not count: nothing more is called and the run answers from its evidence or, without calls, in the brain's words |
| `AgentRuns.DirectRunCallsNothing` | src/app/modules/assistant/infrastructure/agents/langgraph/nodes/plan_action.py:32-60 | A direct answer, or a resolved tool that is not on offer, calls nothing |
| `AgentRuns.DirectRunAnswers` | src/app/modules/assistant/infrastructure/agents/langgraph/nodes/plan_action.py:32-70 | Such a run answers what the brain says in its respond step, completed |
| `AgentRuns.Execute` | src/app/modules/assistant/infrastructure/agents/langgraph/workflow.py:22-37 | Driving the nodes with the shared mutable budget reaches the final state of the value model within the bound, and the budget object agrees with it |
| `Intent.FieldsAccepted` | src/app/modules/assistant/infrastructure/agents/langgraph/semantic_validation.py:111-155 | The entity checks accept exactly when every listed field agrees with the request, or is absent or a default when the request does not name it |
| `Intent.OwnPlanAccepted` | src/app/modules/assistant/infrastructure/agents/langgraph/semantic_validation.py:62-155 | The plan built from a resolution's own payload passes exactly when its tool is a read tool |
| `Intent.DirectResponseRejectsAll` | src/app/modules/assistant/infrastructure/agents/langgraph/semantic_validation.py:62-109 | A planned call is rejected as not requested exactly when the query wants a direct answer |
| `Intent.MutationAcceptedExactly` | src/app/modules/assistant/infrastructure/agents/langgraph/semantic_validation.py:62-230 | A mutating call passes exactly when the text asks for the one supported write, with status, identifier (the code before the identifier) and site as the text names them and nothing else named |
| `Intent.ReadAcceptedExactly` | src/app/modules/assistant/infrastructure/agents/langgraph/semantic_validation.py:62-155 | A read call passes exactly when the text leaves it open and any site it names is the call's, or resolves to that very tool and every entity field agrees with the text |
| `Intent.FirstFaultIsNamed` | src/app/modules/assistant/infrastructure/agents/langgraph/semantic_validation.py:111-155 | A rejected call names the fault of the first field at fault: left out, contradicted or not asked for |
| `Intent.NotExplicitIsTextual` | src/app/modules/assistant/infrastructure/agents/langgraph/semantic_validation.py:158-230 | A write is rejected as not explicit exactly when the text asks for none, names no status or names no order |
| `Intent.ResolutionIsFromText` | src/app/modules/assistant/infrastructure/agents/langgraph/deterministic_intent.py:97-173 | A resolution names no tool exactly for a direct answer; its payload names only entity fields of its tool, each with the value read from the text (a limit only from 1 to 100) |
| `Intent.PatternsChooseTools` | src/app/modules/assistant/infrastructure/agents/langgraph/deterministic_intent.py:97-158 | Which patterns lead to which tool, each exactly, with the earlier ones going first |
| `WorkingSets.MergeIsBounded` | src/app/modules/assistant/infrastructure/agents/langgraph/state.py:62-76 | Every merge yields distinct entities, at most 32, and invents none |
| `WorkingSets.RemergeKeepsEntities` | src/app/modules/assistant/infrastructure/agents/langgraph/nodes/classify_intent.py:9-18 | Re-emitting the entity list, or an empty one, changes no entity |
| `WorkingSets.ObservedEntitySurvives` | src/app/modules/assistant/infrastructure/agents/langgraph/state.py:62-76 | A new entity of an observed payload survives its merge |
| `WorkingSets.EntitiesAreThoseOfPayload` | src/app/modules/assistant/infrastructure/agents/langgraph/state.py:79-86 | The extracted entities are exactly the payload's text entries of the eight known fields with 1 to 128 characters |
| `AgentRuns.TurnsKeepWorkingSet` | src/app/modules/assistant/infrastructure/agents/langgraph/nodes/observe_result.py:9-25 | Over any number of turns the working set stays bounded and only holds entities it started with or observed |
| `AgentRuns.ActiveIntentIsLatest` | src/app/modules/assistant/infrastructure/agents/langgraph/nodes/classify_intent.py:9-18 | A run's active intent is the one it was classified with, or the previous turn's when that is empty |
| `RateLimit.FixedWindowRateLimiter.TryConsume` | src/app/modules/assistant/tool_gateway/rate_limit.py:44-73 | One call changes its own key's counter only, and gets the verdict of the window it falls in |
| `RateLimit.WindowRespectsLimit` | src/app/modules/assistant/tool_gateway/rate_limit.py:44-73 | A counter window never holds more grants than the limit |
| `RateLimit.SpanRespectsLimit` | src/app/modules/assistant/tool_gateway/rate_limit.py:44-73 | Any half-open span of one window length holds at most 2*max_calls - 1 grants |
| `RateLimit.SpanBoundIsTight` | src/app/modules/assistant/tool_gateway/rate_limit.py:44-73 | For every limit some history reaches that bound |
| `RateLimit.RetryAfterIsExact` | src/app/modules/assistant/tool_gateway/rate_limit.py:60-69 | A denial changes nothing and its wait is the least whole number of seconds after which the next call is granted |
| `RateLimit.KeysAreIndependent` | src/app/modules/assistant/tool_gateway/rate_limit.py:44-58 | In any interleaving of actors and tools the counter an actor has for a tool, and the verdicts it got, are those its own calls of that tool alone would give; callers without a name share one counter |
| `RateLimit.EveryKeyRespectsItsLimit` | src/app/modules/assistant/tool_gateway/rate_limit.py:44-73 | So in every span of one shared clock no actor is granted more calls of a tool than that tool's limit admits |
| `Gateway.ToolGateway.Invoke` | src/app/modules/assistant/tool_gateway/gateway.py:50-312 | Outcome, audit and trace records are those of the staged specification; the limiter is charged only for calls that passed validation and permission |
| `Gateway.HandlerRunsIffApproved` | src/app/modules/assistant/tool_gateway/gateway.py:136-236 | A permitted call within its rate reaches the handler exactly when the tool needs no approval, or the approval service allows writes, or there is one and the name neither starts with write_ nor ends with _write; otherwise it awaits approval, with one audit record and no handler call; beyond its rate it is refused with its wait |
| `Gateway.GrantedExactly` | src/app/modules/assistant/tool_gateway/gateway.py:67-134 | Access is granted exactly when the arguments, with a single own site filled in where the site is left out, validate, some role of the actor has the permission, and the validated site is absent, the actor's or the actor is global |
| `Gateway.UnpermittedRunsNothing` | src/app/modules/assistant/tool_gateway/gateway.py:50-134 | Without that no handler runs and no record is returned |
| `Gateway.HandlerIsAuditedAndCounted` | src/app/modules/assistant/tool_gateway/gateway.py:184-312 | If the handler runs: the call was within its rate and needed no further approval; exactly one approval record, before it; between 1 and max_retries+1 calls, all but the last failing; one trace with the true number of calls; failure only when no attempt is left |
| `Gateway.AttemptsCounted` | src/app/modules/assistant/tool_gateway/gateway.py:238-266 | The retry loop stops at the first success or when the attempts are used up |
| `AgentBehindGateway.RunBehindGatewayAnswers` | src/app/modules/assistant/tool_gateway/gateway.py:136-312 | With the gateway as invoker no run raises: whatever records it returns, successes, failures, throttled and unapproved calls, the run ends with an answer and a reason |
| `Gateway.ToolGateway.ListTools` | src/app/modules/assistant/infrastructure/tool_runtime/gateway_runtime.py:29-63 | The listing holds, in registration order, exactly the tools the actor has permission for and, for site-scoped ones, any site |
| `Gateway.ReachedWasListed` | src/app/modules/assistant/tool_gateway/gateway.py:67-134 | Given validation keeps a present site: reaching the handler proves the tool was listed and, for a site-scoped tool and an actor without global scope, the validated site is one of the actor's |
| `Gateway.SiteHeldIffKept` | src/app/modules/assistant/tool_gateway/gateway.py:67-134 | For a site-scoped tool anybody may call: everyone without global scope who reaches the handler acts on an own site, exactly when validation keeps a present site |
| `Gateway.DroppedSiteSkipsTheScope` | src/app/modules/assistant/tool_gateway/gateway.py:92-134 | Whenever validation drops a site, some actor without sites reaches the handler with that call |
| `WorkOrders.WorkOrderStore.ApplyStatus` | src/app/modules/operations/infrastructure/repositories/work_order_status_repository.py:66-89 | The write takes effect exactly when the expected status is still there, and otherwise changes nothing |
| `WorkOrders.WorkOrderStore.Execute` | src/app/modules/operations/application/change_work_order_status.py:43-83 | With any changes committed by others between read and write, one change acts as the atomic operation before or after them, or reports a conflict and changes nothing |
| `WorkOrders.AnswersByStatus` | src/app/modules/operations/domain/manufacturing_maintenance/work_order_status.py:14-42 | Every answer of the operation by status: the seven steps, with a reason where one is needed, change the order; the same status, an end status, a missing reason and any other step are told apart and change nothing |
| `WorkOrders.StatusChangesAreLinearizable` | src/app/modules/operations/application/change_work_order_status.py:43-83 | For any number of interleaved clients the store is that of the effects run one at a time, each returning what its client was told, inside its own interval; a conflict only if another change of that order committed since the read |
| `WorkOrders.EveryCallIsAnswered` | src/app/modules/operations/application/change_work_order_status.py:43-83 | Whatever the others do meanwhile, a call is answered at once with what the atomic operation says, unless that is a change; then its write makes that change exactly if the order still has the status read, and otherwise reports a conflict and changes nothing |
| `WorkOrders.CommittedHistories` | src/app/modules/operations/domain/manufacturing_maintenance/work_order_status.py:14-42 | In each order's committed history completed and cancelled are last, completed is entered only from in progress, in progress only from open, open only from pending or in progress, pending never, and every entry into completed or cancelled had a reason |
| `WorkOrders.DifferenceMeansChange` | src/app/modules/operations/infrastructure/repositories/work_order_status_repository.py:66-89 | An order whose status differs between two points was changed by some operation in between |
| `ContextBudget.OrderedSorts` | src/app/modules/assistant/application/context/budget.py:21-30 | The priority order is a descending rearrangement of the blocks |
| `ContextBudget.SharesComeFirst` | src/app/modules/assistant/application/context/budget.py:29-37 | Blocks come by the share of their kind, largest first, then by source and by content, both in descending text order |
| `ContextBudget.GreedyIsLexicographicallyGreatest` | src/app/modules/assistant/application/context/budget.py:29-52 | No choice within the budget is lexicographically greater in priority order |
| `ContextBudget.DroppedDoesNotFit` | src/app/modules/assistant/application/context/budget.py:29-52 | A dropped block does not fit beside the final selection |
| `ContextBudget.GreedyFits` | src/app/modules/assistant/application/context/budget.py:29-52 | The selection costs no more than a non-negative budget |
| `ContextBudget.AllocationIgnoresInputOrder` | src/app/modules/assistant/application/context/budget.py:21-30 | The result does not depend on input order when equal sort keys mean equal blocks |
| `ContextBudget.OrderMattersOnlyForSharedKeys` | src/app/modules/assistant/application/context/budget.py:21-52 | For every list of blocks: the selection is the same for every arrival order and every budget exactly when no two different blocks share a sort key |
| `ContextBudget.OrderedIsStable` | src/app/modules/assistant/application/context/budget.py:21-30 | Blocks of one key keep their order of arrival |
| `ContextBudget.Allocate` | src/app/modules/assistant/application/context/budget.py:21-52 | The loop selects the greedy choice of the priority order; selected and dropped add up to the input |
| `ContextBudget.Assemble` | src/app/modules/assistant/application/context/assembler.py:19-51 | Failed providers are skipped and a cancellation is passed on; the reported tokens are those of the selected blocks and never exceed a non-negative budget |
| `Conversations.InMemoryConversationStore.Perform` | src/app/modules/assistant/infrastructure/conversation_memory/in_memory/inmemory_conversation_store.py:31-80 | Any operation keeps the store showing the last max_turns of the full log and the first claimer as owner; a refused one changes nothing |
| `Conversations.InMemoryConversationStore.Trim` | src/app/modules/assistant/infrastructure/conversation_memory/in_memory/inmemory_conversation_store.py:135-140 | Trimming leaves the last max_turns turns |
| `Conversations.InMemoryConversationStore.ReadRecent` | src/app/modules/assistant/infrastructure/conversation_memory/in_memory/inmemory_conversation_store.py:41-51 | The owner reads the last turns, anybody else is refused |
| `Conversations.PostgresConversationStore.Perform` | src/app/modules/assistant/infrastructure/conversation_memory/short_term/postgres_conversation_store.py:85-157 | Any transaction keeps the tables recording the log: owner, first claim time, last_turn_at the latest of claim and touched times, turn_count the number of turns; turns open a closed conversation again, a claim does not, the other conversations stay as they were; a refused transaction changes nothing |
| `Conversations.PostgresConversationStore.ReadRecent` | src/app/modules/assistant/infrastructure/conversation_memory/short_term/postgres_conversation_store.py:46-83 | The owner reads the newest rows by time then identifier, oldest first |
| `Conversations.RecordsStep` | src/app/modules/assistant/infrastructure/conversation_memory/short_term/postgres_conversation_store.py:261-337 | Claim and advance keep the tables recording the log |
| `Conversations.ReadsAgree` | src/app/modules/assistant/infrastructure/conversation_memory/short_term/postgres_conversation_store.py:60-83 | With strictly increasing turn times and limit <= max_turns both stores' reads are the last turns of the log |
| `Conversations.ReadBoth` | src/app/modules/assistant/infrastructure/conversation_memory/in_memory/inmemory_conversation_store.py:41-51 | After any history, refused calls included, both stores answer a read alike under those conditions |
| `Conversations.TiedExchangeMaySwap` | src/app/modules/assistant/infrastructure/conversation_memory/short_term/postgres_conversation_store.py:60-83 | Inside any table, an exchange is read back in order exactly when its times increase or, on a tie, the user row has the smaller identifier |
| `Conversations.StoresAgreeIffRanksFollow` | src/app/modules/assistant/infrastructure/conversation_memory/short_term/postgres_conversation_store.py:60-83 | Both stores answer every read up to the in-memory limit with the same turns exactly when each of the last turns is carried by the row of its rank by time and (unique) identifier |
| `Conversations.ReadsFollowTheLog` | src/app/modules/assistant/infrastructure/conversation_memory/short_term/postgres_conversation_store.py:60-83 | Every read of a conversation returns its last rows as written exactly when their times and identifiers increase |
| `Conversations.NewestFirstSorts` | src/app/modules/assistant/infrastructure/conversation_memory/short_term/postgres_conversation_store.py:63-74 | The query returns the same rows, ordered by time and then identifier |
| `Conversations.OwnersAreForever` | src/app/modules/assistant/infrastructure/conversation_memory/in_memory/inmemory_conversation_store.py:122-133 | The first claimer owns a conversation for ever, and logs only grow |
| `EvidenceCodec.SnapshotRoundTrip` | src/app/modules/assistant/domain/conversation_evidence.py:55-94 | A snapshot the encoder accepts is decoded unchanged exactly when its required strings are non-empty and no item carries a source; the second size check never interferes |
| `EvidenceCodec.BlocksRoundTrip` | src/app/modules/assistant/domain/conversation_evidence.py:135-217 | The same for the blocks |
| `EvidenceCodec.DecodedBlocksOk` | src/app/modules/assistant/domain/conversation_evidence.py:174-244 | Whatever is decoded has its required strings and no sources |
| `EvidenceCodec.ReencodingIsNormalForm` | src/app/modules/assistant/domain/conversation_evidence.py:55-94 | For any accepted payload, decode, encode, decode equals the first decode |
| `EvidenceCodec.EncoderAcceptsExactly` | src/app/modules/assistant/domain/conversation_evidence.py:55-68 | Exactly snapshots of version 1 of at most 128000 bytes are encoded |
| `EvidenceCodec.DecoderAcceptsExactly` | src/app/modules/assistant/domain/conversation_evidence.py:70-244 | Exactly payloads with version 1 (also written as true or 1.0), a printed identifier, a tool name and a list of blocks that have the required fields of their type, and of at most 128000 bytes when encoded again, are decoded |
| `Outbox.OutboxPublisher.PublishBatch` | src/app/modules/documents/infrastructure/outbox_publisher.py:48-80 | A pass takes the first unlocked due rows by id; the broker gains one message for each publish that returned or landed, even when the commit fails; rows are marked or charged only if it commits |
| `Outbox.RunIsSafe` | src/app/modules/documents/infrastructure/outbox_publisher.py:48-80 | Over every run with failures, lost acknowledgements, aborted commits and new rows: a published row has its message in the broker, and no retry count exceeds the maximum |
| `Outbox.CommitCosts` | src/app/modules/documents/infrastructure/outbox_publisher.py:62-79 | A committed pass lowers the number of attempts still possible by at least the rows it processed |
| `Outbox.CommittedWorkIsBounded` | src/app/modules/documents/infrastructure/outbox_publisher.py:42-80 | Without new rows all committed passes of any run together process at most the attempts possible at its start |
| `Outbox.OutboxPublisher.PublishUntilIdle` | src/app/modules/documents/infrastructure/outbox_publisher.py:42-46 | Whatever the publish calls do and whichever rows others hold, the loop ends, with an empty batch or a failing commit; after an empty batch every row not held by others is published or at its maximum of retries |
| `Chunks.WindowsAreSlices` | src/app/modules/documents/infrastructure/ingestion/chunker.py:12-22 | There are as many windows as tokens divided by the step, rounded up, and window i is the slice from i * step |
| `Chunks.TailsOverlap` | src/app/modules/documents/infrastructure/ingestion/chunker.py:12-22 | A window's tail after step tokens is a prefix of the next window, at most overlap long, and nothing in the last |
| `Chunks.WindowsRebuildInput` | src/app/modules/documents/infrastructure/ingestion/chunker.py:12-22 | The windows' first step tokens, one after another, are the input |
| `Chunks.RebuildableIffOverlapIsSmaller` | src/app/core/config.py:187-197 | The input can be rebuilt from the windows exactly under the settings' guard overlap < size |
| `Chunks.NonBlankIsComplete` | src/app/modules/documents/infrastructure/ingestion/chunker.py:18-22 | The chunks are exactly the non-blank window texts |
| `Chunks.NonBlankKeepsOrder` | src/app/modules/documents/infrastructure/ingestion/chunker.py:18-22 | They come in the order of their windows, one for each that is not blank |
| `Chunks.ChunkingIsExact` | src/app/modules/documents/infrastructure/ingestion/chunker.py:12-22 | Chunking is refused exactly when there are tokens and the overlap is the size, yields nothing when it is larger, and otherwise yields exactly the non-blank texts of the windows every size minus overlap tokens |
| `Ingestion.DocumentIngestionConsumer.IngestOnce` | src/app/modules/documents/infrastructure/ingestion/document_ingestion_consumer.py:43-94 | A pass is one step of the run model: recorded chunks stay when it aborts, documents and events change only when it commits |
| `Ingestion.RunKeepsBooks` | src/app/modules/documents/infrastructure/ingestion/document_ingestion_consumer.py:43-94 | Over every run of uploads and passes with failing downloads, a memory store raising half way and aborted commits: an indexed document has every non-blank window recorded under its site, and nothing but windows of known documents is recorded |
| `Ingestion.IndexedMeansEveryWindow` | src/app/modules/documents/infrastructure/ingestion/document_ingestion_consumer.py:43-94 | From the empty system, in terms of the settings: every non-blank window of an indexed document is recorded under its site, and whatever is recorded is such a window |
| `Ingestion.BatchSettles` | src/app/modules/documents/infrastructure/ingestion/document_ingestion_consumer.py:55-93 | A pass goes through exactly when every announcement can be handled and the store accepts all chunks; it then marks its own announcements only and counts those whose document exists |
| `Ingestion.DocumentsSettle` | src/app/modules/documents/infrastructure/ingestion/document_ingestion_consumer.py:61-92 | It leaves each announced document indexed, or failed with the reader's error exactly when unreadable, and the others alone |
| `Ingestion.UploadSettles` | src/app/modules/documents/infrastructure/ingestion/document_ingestion_consumer.py:43-94 | An upload is pending, and any pass over it that goes through settles its document under its own site |
| `Ingestion.UploadGoesThrough` | src/app/modules/documents/infrastructure/ingestion/document_ingestion_consumer.py:55-93 | Alone in its pass an upload goes through exactly when its text can be read, cut and stored in full, or is reported unreadable |
| `Ingestion.FirstFailureBlocks` | src/app/modules/documents/infrastructure/ingestion/document_ingestion_consumer.py:43-94 | An announcement that raises and comes first blocks its topic: no pass changes any document or event |
| `ContainerLifecycle.Container.Start` | src/app/container.py:270-300 | Start, roll back in reverse on a failure, refuse when closed: state, log and error counts are those of the specification |
| `ContainerLifecycle.Container.Close` | src/app/container.py:302-327 | Every running resource is stop-attempted in reverse order although others raise |
| `ContainerLifecycle.CommandKeepsBrackets` | src/app/container.py:270-327 | Each call keeps the log well bracketed with the running resources open |
| `ContainerLifecycle.LifecycleIsBracketed` | src/app/container.py:270-327 | Over every sequence of calls, whatever raises: starts and stop attempts nest last in, first out, and every start has exactly one stop attempt unless the container is running |
| `ContainerLifecycle.NothingAfterClose` | src/app/container.py:270-327 | After the first close no call changes the state or reaches a resource again |

## Left out

- Routers, middleware, settings loading, logging, telemetry, migrations and seed data: plumbing. Of the migrations only the partial unique index on active user facts is used, as a guard of the insert.
- `LangChainAgentOrchestrator`: not wired.
- Role tables, response wording, fact-policy order, reference resolver, user administration, consistency audit: finite tables or settled by reading a branch; the role table is a parameter of the gateway.
- Sleeps, jitter, back-off durations and polling intervals.
- Regular expressions, hashing, JSON rendering and identifier text: uninterpreted; injectivity of the hash and parsing back of printed identifiers are hypotheses where used.
- Checkpoint serialisation, the message reducer and the recursion limit of the graph library: the node relation, the working-set reducer and the call budget are modelled, not the library.
- `to_context_text` of the evidence snapshot: rendering only.
- Evidence lists, `close_conversation` and retention of conversations: the turns, owners and counters are modelled; `record_turn` is `append` under another name.
- The lookup of work orders by code as a list: the use case consumes one snapshot or none, so a code names at most one order here.
- Error texts such as `sync_last_error`, `last_error` and their truncation; the retry counters are modelled.
- User facts: the stored content (stripped, not normalised), expiry and the interplay with plain `record` of owned summaries; the key, the turns and deletion are modelled.
- MemoryExposure.QuietRunsAgree: excludes erasers and insertions a pass in flight can still miss, because agreement can fail after them; MemoryExposure.LossRiskIsExact and MemoryExposure.OrphanRiskIsExact say when.
- ContainerLifecycle.Container.Start: calls do not overlap; start and close awaiting at the same time are not modelled.
- Gateway.ToolGateway.Invoke: the limiter is always there, as the wiring provides one; the contents of audit and trace records beyond decision, event name and attempt count are not modelled.
- RateLimit.FixedWindowRateLimiter.TryConsume: time is a real number that never goes back; floating-point rounding of the clock is not modelled.
- ContextBudget.Assemble: concurrent gathering of the providers is their results in order.
- EvidenceCodec.SnapshotRoundTrip: floats are reals, so not-a-number values are not modelled; the byte size is an arbitrary function of the payload.
- The default shares of the block kinds: the table of shares is a parameter of the allocator.
- The document status "ingesting": it is overwritten before the commit of the same transaction, so nobody sees it.

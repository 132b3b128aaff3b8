# AdAgentFlow: a verified model of the workflow engine

AdAgentFlow drives an advertising task through eight steps and a side step `repair`. Steps are
dispatched by at-least-once messages that a transactional outbox publishes; executions are guarded by
leases with a time-to-live; failures are retried within a task-wide budget, repaired by a repair
agent, or dead-lettered; a judge at the end accepts, sends to manual review, or asks for a rerun. This
project models four parts of it and proves what they promise.

## How it is organised

**Workflow engine.** `workflow.dfy` has one function per database transaction of the orchestrator on
the rows of one task, and the handlers composed from them. `orchestrator.dfy` is the orchestrator as an
object that updates those rows in place and takes and returns leases, each method proved equal to its
function. `interleaving.dfy` is the concurrent system: every delivery is a worker that performs one
transaction or lease operation at a time, mixed with others in any order; events may be delivered any
number of times, workers may die between any two steps, time passes, a dead task may be resumed and its
leases deleted. The consumer's settlement is part of it: the message of a worker that raised or died goes
back to its queue and comes again with the redelivered mark, and a marked message whose handler raises is
rejected. `uninterrupted.dfy` connects the two views: a worker nobody interrupts has exactly the
effect of the handler.

On the concurrent system rest `exactly_once.dfy`, `safety.dfy`, `tokens.dfy` (token conservation),
`messages.dfy` (what every message says when it is committed), `feedback.dfy` (what a task created with
feedback inherits), `columns.dfy` (who writes each column), `provenance.dfy` (where every stored value comes
from), `ledger.dfy` (what the counters count),
`concurrent_bound.dfy` (how many executions a task can take) and `termination.dfy` (runs go quiet).
`scenarios.dfy` builds concrete runs out of larger pieces; `counterexample_lost_tokens.dfy`,
`counterexample_requeued_return.dfy`, `counterexample_stale_duplicates.dfy` and
`counterexample_outlived_lease.dfy` use it to show where the promises end. On crash-free runs whose
handlers do not overlap rest `sequential.dfy` and `execution_bound.dfy` (the worst case is reached).

**Outbox.** `outbox.dfy` is the service as a class; `outbox_runs.dfy` is every run of direct publishers
racing with claiming workers, with crashes; `outbox_drain.dfy` is repeated publish passes without crashes.

**Lease.** `lease.dfy`: the store as a class, and all runs of acquisitions, releases and elapsing time.

**JSON and the executor.** `json.dfy` is a parser and a serializer for the texts `json.loads` reads and
`json.dumps` writes; `json_grammar.dfy` is the grammar of RFC 8259 written apart from it, and with
`json_loads.dfy` proves that exactly the texts of the grammar load; `json_locality.dfy` and `json_texts.dfy`
prove that parsing is local and inverts writing; `json_repair.dfy`, `json_completion.dfy`, `json_layout.dfy` and `json_strings.dfy` say exactly
which texts the quick repair restores. `validator.dfy` and `executor.dfy` are the governed pipeline,
`schema_safety.dfy` joins it with the engine. `light_worker.dfy` is the acknowledgement rule of the
consumers.

## What a run is assumed to respect

Claims name their assumptions in their `requires`:

- `Interleaving.Leased`: executions stay inside their lease, and a manual resume deletes no lease of a
  running worker. Needed: `OutlivedLease.LeaseDisciplineNeeded`.
- `Interleaving.UpToDate`: no message crosses a reset, that is, a step is not entered on an event that
  was committed before the last reset of that step. In a run without crashes and duplicates it holds if and
  only if no message that was put back enters its step (`Tokens.UpToDateIff`), and such a message is that of
  a worker that could not put the task back to running, delivered again after a reset of its step
  (`Tokens.ReentryIsAReturnPutBack`). Needed for the frontier (`StaleDuplicates.StaleDuplicateRunsEarly`,
  `RequeuedReturn.RequeuedReturnRunsEarly`), for the transition table and for success being final
  (`StaleDuplicates.StaleFailureLeavesTable`).
- `Safety.ProperRun`: a newly created task, and both of the above.
- `Tokens.DeliveredOnce`: nobody has crashed and the broker has delivered no message twice of its own accord.
  Messages put back by the consumer because a handler raised are delivered again all the same.
- Sequential runs: besides, each message is handled before the next is delivered.

`StepRow.resets`, `StepRow.commits`, `Event.generation`, `Db.start`, `State.taken` and `State.crashes` are
not part of the source: they count or remember what has happened, and no branch of the model reads them
except through the assumptions above.

## Findings

- **The worst case.** With agents that may ask for a repair at any of the first seven steps a new task takes
  at most max(15, 7 * max_retry + 7) executions; with the shipped agents, whose media steps never ask,
  max(12, 7 * max_retry + 4). This holds with overlapping handlers and duplicated messages as long as no
  message crosses a reset, plus one for every worker that dies and the bound again for every resume
  (`ConcurrentBound.ExecutionsAreBounded`), and the bounds are reached (`ExecutionBound.ExecutionsOfATask`).
  When the broker delivers nothing twice, such a run contains only boundedly many deliveries and
  transactions (`Termination.RunsGoQuiet`), and when, without crashes, nothing is left to do the task is over
  unless its token was lost (`ConcurrentBound.EveryTaskEndsUnlessLost`).
- **A task can be lost without crash or duplicate.** A retry message for the same step
  can be delivered while its sender still holds the lease of that step; it is dropped and acknowledged
  (`LostTokens.RetryDroppedWhileLeaseHeld`; app/services/orchestrator.py:226-230). And the worker of
  composition can put the task back to running after the judge's worker, out of budget, has set it to
  retrying; running has no edge to manual review, the judge's worker raises, and its message, delivered
  again, finds the evaluation finished (`LostTokens.RejectionLostToReturn`;
  app/services/orchestrator.py:345-346, 626-629).
- **A step can be executed out of turn without crash or duplicate.** The worker of composition may find the task
  evaluating, from where no edge leads back to running. It raises although its work is committed, and its
  message goes back to the queue. When the judge asks for a rerun before that message comes again, it gets
  past all checks, and composition is executed while the script is still to be redone
  (`RequeuedReturn.RequeuedReturnRunsEarly`; app/services/orchestrator.py:345-346,
  app/workers/light_worker.py:112-113, app/workers/heavy_worker.py:124-125).
- **These are the only three ways.** Without crashes and without duplicates by the broker there is one
  token at every point of a run, an undelivered message or a worker that has not handed on (none when the
  task is over), if and only if none of the three has happened (`Tokens.OneTokenThroughout`).
- **The analysis a task inherits is lost at the first repair or rerun.** A task created with feedback starts at
  the script with the earlier product analysis in its first message. A repair that is written back, or a judge
  that asks for a rerun, builds the history anew from the rows of this task, which do not have the analysis, so
  the script is redone without it (`Feedback.RebuildDropsInherited`; app/services/orchestrator.py:514, 635,
  844-850).
- **Duplicates that cross a reset take tasks off the transition table**, inside all leases: a stale failure
  puts a task that is queued, finished or dead to retrying, and a task that has succeeded can be buried.
  These are the only statuses and the only two writes (`StaleDuplicates.TaskLeavesTableIff`).
- **Truncated strings are not repaired**, although the documentation string of `quick_json_repair` lists
  them (app/services/json_validator.py:133-136): no text is ever restored whose content, the fence around it
  taken away as the code does it, ends inside a string.
- **Brackets inside strings count.** A text lacking some of its last closing brackets is restored if and
  only if all of them are missing and the strings hold as many opening as closing brackets.
- **A one-line fence loses its content**: everything up to the first line break is dropped.
- **The quick repair never rescues an output in the executor.** The model client parses before it returns:
  an answer that is not JSON is not kept (the repair then gets an empty text), and an answer that is kept
  parses, so the repair hands the same value to the same schema again (`Executor.NoLocalRescue`).
- **A repair of a step without a schema never succeeds** (`SchemaSafety.RepairsOnlyWithSchema`): its agent
  raises before any model call. With the shipped media agents none is ever asked for
  (`SchemaSafety.RepairsAreHopeful`).
- The header of app/services/idempotency.py gives 24 hours as time-to-live; the code uses a setting. The
  model follows the code and takes the period as a parameter.

## Model

| member | source | states |
|---|---|---|
| Orchestrator.WorkflowOrchestrator.constructor | app/services/orchestrator.py:57-160 | a new task has nine pending rows without output and one event, without delay, for the first step and with an empty history, or, when feedback on another task is given, for the script and with exactly that task's product analysis as history if there is one |
| Orchestrator.WorkflowOrchestrator.ResumeDeadLetter | app/services/orchestrator.py:165-203 | refuses tasks that are not dead; otherwise all rows are cleared, counters are zero, one event for the first step with empty history is committed with them, and all nine leases are deleted whoever owns them |
| Orchestrator.WorkflowOrchestrator.ExecuteStep | app/services/orchestrator.py:226-267 | a delivery that meets a running lease changes nothing; otherwise the handler runs under the lease, which is given back, exception or not |
| Orchestrator.WorkflowOrchestrator.RunStep | app/services/orchestrator.py:231-261 | the body of a granted delivery: finished steps are left alone, task and step enter running along table edges or an exception leaves the rows as committed so far, then the answer is handled |
| Orchestrator.WorkflowOrchestrator.HandleAgentResult | app/services/orchestrator.py:269-281 | success and failure go to their handlers |
| Orchestrator.WorkflowOrchestrator.CommitSuccess | app/services/orchestrator.py:302-324 | the success row and the next step's event with the extended history are one change |
| Orchestrator.WorkflowOrchestrator.OnStepSuccess | app/services/orchestrator.py:283-346 | after the commit repair and evaluation branch off; otherwise the task returns to running |
| Orchestrator.WorkflowOrchestrator.OnStepFailure | app/services/orchestrator.py:348-402 | failure is counted on step and task, then exactly one of repair, retry and dead letter, in that order of preference |
| Orchestrator.WorkflowOrchestrator.ScheduleRetry | app/services/orchestrator.py:404-441 | the step becomes retrying and one event for the same step with the next attempt number and the configured delay is added |
| Orchestrator.WorkflowOrchestrator.ScheduleRepair | app/services/orchestrator.py:443-476 | the side step is cleared and one repair event names the failed step, whatever the budget |
| Orchestrator.WorkflowOrchestrator.HandleRepairSuccess | app/services/orchestrator.py:478-537 | the output goes to the target row, everything after it is cleared, history is rebuilt from the rows, one event for the following step is added |
| Orchestrator.WorkflowOrchestrator.HandleEvaluation | app/services/orchestrator.py:574-654 | records the verdict and takes exactly one of success, manual review and rerun from the script; without budget the rerun becomes manual review |
| Orchestrator.WorkflowOrchestrator.FinalizeTask | app/services/orchestrator.py:656-684 | the final status, along a table edge, with the stored outputs except the side step's and the score as output |
| Orchestrator.WorkflowOrchestrator.MarkTaskRetrying | app/services/retry.py:57-72 | counts and sets retrying without asking the table |
| Orchestrator.WorkflowOrchestrator.TransitionTask | app/services/orchestrator.py:687-696 | self-loops pass, table edges change the status, everything else raises and changes nothing |
| Orchestrator.WorkflowOrchestrator.TransitionStep | app/services/orchestrator.py:698-713 | the same for step rows |
| Orchestrator.WorkflowOrchestrator.ClearForRerun | app/services/orchestrator.py:801-832 | exactly the rows from the given step to the last workflow step are cleared, the side step is not |
| Orchestrator.WorkflowOrchestrator.CollectHistory | app/services/orchestrator.py:844-850 | the non-empty stored outputs, of all nine rows |
| Retry.BackOff | app/services/retry.py:27-33 | the delay grows with the number of failures if the configured list does, and stays at the last entry |
| StateMachine.BeforeEvaluation | app/core/state_machine.py:119-128 | the steps a repair may be asked for are those before the evaluation |
| StateMachine.TablesByTarget | app/core/state_machine.py:34-74 | the two tables read by target: from where each status may be entered |
| StateMachine.OnlySuccessIsFinal | app/core/state_machine.py:34-64 | success is the only status without a way out, and every task can still get there along at most two edges |
| StateMachine.Chain | app/core/state_machine.py:143-153 | every workflow step leads to the next one, the last and the side step to none |
| Uninterrupted.HandlerAlone | app/services/orchestrator.py:209-402 | the single transactions of an uninterrupted worker compose to the handler, for every state and answer |
| Uninterrupted.RunsAlone | app/services/orchestrator.py:226-267 | in the concurrent system a worker that finds its lease free and is not interrupted has the handler's effect, returns the lease and is gone |
| Safety.FrontierAndHistory | app/services/orchestrator.py:490-521 | under duplicates and crashes the finished steps form one interval from the start of the pass, nothing after the first unfinished step has run, and the live message carries exactly the stored outputs; kept by write-back, rerun and resume |
| Safety.OneExecutionAtATime | app/services/orchestrator.py:226-260 | at most one execution is under way on the whole task, whatever the steps, and it works from the stored history |
| Safety.EveryChangeIsAnEdge | app/core/state_machine.py:34-74 | under duplicates and crashes, as long as no message crosses a reset, every task status change is a table edge or a self-loop even where the code does not ask; every step change is an edge, a reset, or the write-back of a repair over a failed step |
| Safety.SuccessIsFinal | app/core/state_machine.py:34-64 | a task that has succeeded stays so, whatever is still delivered, as long as no message crosses a reset |
| Safety.MeaningOfTheEnd | app/services/orchestrator.py:603-675 | success means all steps of the pass done, the output exactly their non-empty outputs and the latest score, and that verdict passed without high risk; manual review means a verdict that did not, with a score below 40, high risk, or no budget left; dead means the budget is used up |
| Safety.StartOfPass | app/services/orchestrator.py:76-106 | a pass starts where the task was created to start, or at the first step after a resume |
| ExactlyOnce.CommitsAtMostOncePerReset | app/services/orchestrator.py:226-324 | for any deliveries, duplicates, reorderings and crashes inside the lease discipline, a step commits success by its own execution at most once more than it was reset |
| ExactlyOnce.SendsOnAtMostOncePerReset | app/services/orchestrator.py:302-324 | likewise the messages for the next step that a step's own executions commit |
| OutlivedLease.LeaseDisciplineNeeded | app/services/idempotency.py:43-57 | a concrete run in which an execution outlives its lease, one duplicate, and two commits without any reset |
| ExactlyOnce.OneHolderAtATime | app/services/orchestrator.py:226-267 | in every run within the lease discipline two workers past the acquisition never hold the same step |
| Tokens.OneTokenUnlessLost | app/services/orchestrator.py:226-402 | in all runs that nobody crashes in and the broker delivers once, handlers overlapping in any way, until a message put back enters its step: an open task has exactly one token (an undelivered message, or a worker that has not handed on) and a task that is over has none, if and only if no first delivery met a running lease and no rejection without budget found the task put back to running; after such a loss the task is open for ever and has none |
| Tokens.OneTokenThroughout | app/workers/light_worker.py:112-129 | in the same runs without that proviso: one token at every point if and only if neither loss has happened and no message put back after an exception has entered its step |
| Tokens.ReturnedMessagesAreSpent | app/workers/light_worker.py:112-129 | until one gets in, every message that was put back is for a step that is finished or was reset since, and no worker of such a message executes anything |
| Tokens.ReentryIsAReturnPutBack | app/services/orchestrator.py:345-346 | the first message put back that enters its step is that of a worker whose trailing return of the task to running raised, and its step was reset after it was committed |
| Tokens.OverWhenQuiet | app/services/orchestrator.py:226-402 | when nothing is undelivered and no worker is left the task is over if and only if no token was lost |
| RequeuedReturn.RequeuedReturnRunsEarly | app/services/orchestrator.py:345-346 | a concrete run without crash and duplicate, inside all leases, without a loss: composition's message, put back because the task was evaluating, is executed again while the script is pending with its own message; two tokens, and no frontier |
| Tokens.ActivePasses | app/services/orchestrator.py:278-402 | every transaction from the entry of a step to the one that hands on keeps the work in its hands, adds exactly one message that is due, or ends the task; up to there nothing raises but in the second loss, and whoever then leaves or raises has finished its step |
| Tokens.UpToDateIff | app/services/orchestrator.py:231-235 | in runs that nobody crashes in and the broker delivers once, every step is entered on a message newer than its last reset if and only if no message put back after an exception has entered its step |
| LostTokens.RetryDroppedWhileLeaseHeld | app/services/orchestrator.py:226-230 | a concrete run, inside all leases: the task stays retrying, everything is delivered once and no worker is left |
| LostTokens.RejectionLostToReturn | app/services/orchestrator.py:626-629 | a concrete run, inside all leases: the task stays running with the evaluation finished, everything is delivered once, the judge's message also a second time, and nothing is left |
| StaleDuplicates.StaleDuplicateRunsEarly | app/services/orchestrator.py:176-184 | a concrete run: a duplicate delivered after a resume finishes the script while the analysis before it is pending |
| StaleDuplicates.TaskLeavesTableIff | app/services/retry.py:64-72 | in every run whatsoever the task leaves its table exactly when it is marked retrying from queued, success, manual review or dead letter, or sent to dead letter from success |
| StaleDuplicates.StepLeavesTableIff | app/services/orchestrator.py:302-324 | in every state a step leaves its table, resets and write-backs over a failure aside, exactly when a result or a write-back is written over a status it does not expect |
| StaleDuplicates.StaleFailureLeavesTable | app/services/retry.py:64-72 | each of the four statuses is left for retrying in a concrete run inside all leases; in particular success is not final there |
| StaleDuplicates.StaleBurial | app/services/retry.py:97-101 | a concrete run inside all leases in which a task that has succeeded is sent to dead letter |
| Messages.EveryMessageOnTarget | app/services/orchestrator.py:300-324 | with overlapping handlers, duplicates and crashes: every message any action commits is at that moment for the first unfinished step, or for the repair of that step which has failed, carries exactly the stored outputs of the pass and the number of the attempt, a retry with the delay the list has for it and anything else without delay; no action commits two |
| Messages.FirstMessageOnTarget | app/services/orchestrator.py:143-155 | so is the message a task is created with |
| Messages.DelayOfAnyMessage | app/services/orchestrator.py:414-440 | in every state, stale messages included: a worker's retry of its own step is delayed by the list's entry for the number of failures before, the last entry beyond the end and never less than zero, any other message not at all |
| Feedback.InheritedUntilRebuilt | app/services/orchestrator.py:300-307 | in every run until the history is built anew, all messages ever committed carry the entries from before the start of the pass as given at creation |
| Feedback.RebuiltFromRows | app/services/orchestrator.py:514-524 | in every state a repair's write-back and a rerun commit one message whose history is exactly the non-empty outputs of all nine rows they leave |
| Feedback.RebuildDropsInherited | app/services/orchestrator.py:844-850 | that message carries nothing from before the start of the pass: the inherited analysis is lost |
| Provenance.NothingIsMadeUp | app/services/orchestrator.py:303-312 | in every run whatsoever: stored outputs, recorded verdicts, the final output and the histories of all messages were answered by agents, each for the step it stands for or for the repair of that step, or were given at creation |
| Columns.TaskColumns | app/services/orchestrator.py:574-713 | in every state, by column: where each transaction leaves the task's status (asking the table or not), and who alone changes the count of failures, the executions, the verdicts and the dead-letter rows, and to what |
| Columns.OutputColumn | app/services/orchestrator.py:656-684 | in every state the final output changes exactly when a verdict ends the task along an edge, and is then the non-empty outputs of the workflow steps with the verdict's score |
| Columns.StepColumns | app/services/orchestrator.py:302-381 | in every state, for every row: who alone changes its status, output, failure count, resets and commits, and to what |
| Columns.OutboxColumn | app/services/orchestrator.py:300-324 | in every state: which transactions commit a message, one each, for which step, with which repair target and with which history |
| Columns.ResumeColumns | app/services/orchestrator.py:165-196 | a resume clears all rows and counters and commits one first-step message; verdicts, dead-letter rows and the output stay |
| Columns.BurialRecordsTheFailure | app/services/orchestrator.py:546-563 | a dead-letter row names the step that has failed for good and the number of failures of the task, which is no less than allowed, and is only ever added |
| SequentialRuns.OneToken | app/services/orchestrator.py:278-402 | where handlers do not overlap no token is ever lost: always exactly one undelivered message, for the unfinished frontier step or its repair, and handling it raises nothing |
| SequentialRuns.DeliveryHandsOn | app/services/orchestrator.py:269-402 | every handler path adds exactly one event, the next token, or ends the task and adds none |
| Ledger.CountersAlwaysAccount | app/services/retry.py:57-101 | with overlapping handlers, duplicates and crashes: retry_count is failed executions plus rerun requests of the judge since the last resume, less the answer under way and those whose worker died before counting; the steps' counters likewise; dead-letter rows are the resumes, plus one when the task is dead |
| Ledger.CountersWithoutCrash | app/services/retry.py:57-72 | without crashes the counters are exact but for at most one answer under way |
| ConcurrentBound.ExecutionsAreBounded | app/services/orchestrator.py:383-402 | with overlapping handlers and any duplicates, as long as no message crosses a reset: the executions are at most the worst case of the first step, one more for every worker that died, and the bound again for every resume, although repairs do not ask the budget |
| ConcurrentBound.AnyAgentsAreBounded | app/services/orchestrator.py:383-402 | in numbers: max(15, 7 * max_retry + 7) for the task and for each resume, plus the deaths |
| ConcurrentBound.EveryTaskEndsUnlessLost | app/services/orchestrator.py:226-402 | in such runs that nobody crashes in and the broker delivers once: when all messages are delivered and all workers gone, the task is over within the bound, if and only if no token was lost |
| ConcurrentBound.ActivePays | app/services/orchestrator.py:278-402 | no transaction of an execution increases executions plus what may still be caused by it or by the frontier it leaves |
| Termination.RunsGoQuiet | app/workers/light_worker.py:105-129 | runs that the broker delivers once contain at most 26 * (1 + bound + resumes) deliveries and worker actions, and 39 more for every worker that dies |
| Termination.NotQuietMoves | app/workers/light_worker.py:92-98 | as long as a message or a worker is left there is such an action to take, within the leases and without a second delivery |
| Termination.DeliveriesAreBounded | app/workers/light_worker.py:112-129 | in every run whatsoever the messages put back or delivered again are at most the first deliveries plus the deaths |
| Termination.MessagesAreEarned | app/services/outbox.py:45-66 | in every run whatsoever a task has at most one message to begin with, one for each resume and one for each execution |
| ExecutionBound.ExecutionsOfATask | app/services/orchestrator.py:383-402 | where handlers do not overlap a new task ends after at most the bound, whatever the agents answer, and some answers use up the bound exactly |
| ExecutionBound.EveryTaskEnds | app/services/orchestrator.py:383-402 | where handlers do not overlap max(15, 7 * max_retry + 7) executions end a new task whatever the agents answer |
| ExecutionBound.EndsInTime | app/services/orchestrator.py:617-654 | the same from every state of such runs, in terms of budget left, steps left and whether a repair is due |
| ExecutionBound.BoundIsMet | app/services/retry.py:36-37 | from every open state some answers use up the remaining bound exactly |
| ExecutionLease.LeaseStore.AcquireIdempotent | app/services/idempotency.py:43-57 | a fresh token if no unexpired key exists, and the key for the given or the default period; otherwise nothing changes |
| ExecutionLease.LeaseStore.ReleaseIdempotent | app/services/idempotency.py:60-77 | deletes only the caller's own running lease, or any when no token is given, and reports whether it did |
| ExecutionLease.LeasesNeverCoexist | app/services/idempotency.py:43-77 | in every run without owner-less release of a running lease, an earlier grant of a key has ended before a later one begins |
| ExecutionLease.OnlyOwnerOrForceFrees | app/services/idempotency.py:60-77 | a running lease is freed by its own token or by the owner-less release, and by nothing else |
| ExecutionLease.ForceReleaseOverlapsIffLive | app/services/orchestrator.py:199-201 | the release on resume leads to overlapping grants if and only if the lease it deletes is still running |
| Outbox.OutboxService.EnqueueStepEvent | app/services/outbox.py:45-66 | one pending event, without attempts, available at once, is added to what the transaction has written |
| Outbox.OutboxService.BusinessTransaction | app/db/database.py:73-89 | a business change and the events enqueued with it are committed together or, after an exception at any point, neither is |
| Outbox.OutboxService.MarkResult | app/services/outbox.py:81-98 | unlocks the row, keeps its attempts, and sets published on success, failed below the limit and exhausted at it; other rows and unknown ids change nothing |
| Outbox.OutboxService.ClaimPendingEvents | app/services/outbox.py:119-147 | exactly the selected rows become locked now by one owner that no row has seen before, with one attempt more; the others stay as they are |
| Outbox.OutboxService.PublishPendingEvents | app/services/outbox.py:150-162 | claims, publishes and marks in id order and returns how many of the claimed events the broker accepted |
| Outbox.SelectsLowest | app/services/outbox.py:124-140 | the claim takes exactly the min(limit, eligible) eligible rows of lowest id |
| OutboxRuns.NothingIsLost | app/services/outbox.py:119-147 | whatever crashes, a committed event has reached the broker, is exhausted after all its attempts, is taken by an unhindered claim now or when its lock times out, or is on its last allowed attempt |
| OutboxRuns.ExhaustedAfterAllClaims | app/services/outbox.py:93-97 | in every run an exhausted event has been claimed as often as allowed, and a row is locked exactly while it is being published |
| OutboxRuns.RefusalIsRetried | app/services/outbox.py:81-98 | in every run, direct publication included: a refusal below the limit leaves an event that is claimed again from its availability on, at the limit one that no claim ever takes, and other rows alone |
| OutboxRuns.AcceptedStaysPublished | app/services/outbox.py:87-91 | an accepted event stays published and no claim takes it, until a slower publisher records a refusal |
| OutboxRuns.DuplicationIsBounded | app/services/outbox.py:101-147 | attempts equals the number of claims and never exceeds what is allowed; at most one broker call more than claims; published implies delivered, failed implies attempts left |
| OutboxRuns.ClaimsAreFarApart | app/services/outbox.py:121-135 | two claims of one row with no result marked in between are more than the lock timeout apart |
| OutboxDrain.ClaimsAreBounded | app/services/outbox.py:150-162 | all passes together claim at most the attempts the eligible events have left, exactly the attempts used when the broker refuses everything; the table may also hold settled, stranded, locked and delayed rows |
| OutboxDrain.DrainsWhateverTheBrokerDoes | app/services/outbox.py:150-179 | after as many passes as attempts were left every eligible event is published or exhausted, every other row is as it was, and no later pass claims anything |
| OutboxDrain.HealthyDrain | app/services/outbox.py:150-179 | with a healthy broker n eligible events are published in ceil(n / limit) passes and not earlier, every other row stays as it is |
| JsonTexts.RoundTrip | app/agents/executor.py:107-111 | loading what was dumped, in any style, gives the value back |
| JsonTexts.ReadWriteRead | app/agents/executor.py:107-111 | everything that loads is well formed and survives dumping and loading |
| JsonLoads.LoadsIff | app/services/json_validator.py:71 | a text loads as a value if and only if it spells a document of the grammar, with its blanks, words, digits, signs and escapes, that stands for this value |
| JsonGrammar.EveryDocumentLoads | app/services/json_validator.py:147 | every document of the grammar loads as what it stands for |
| JsonLoads.OnlyDocumentsLoad | app/services/json_validator.py:71 | for every text that loads, such a document |
| JsonGrammar.AnyStringLoads | app/agents/executor.py:107-111 | every string, escaped as dumps escapes it, loads, and its escapes stand for its characters |
| JsonLoads.DumpIsSpelled | app/agents/executor.py:107-111 | a dump is the same document with one gap after every comma and colon and no other blanks |
| JsonLoads.DumpLoads | app/agents/executor.py:107-111 | the dump of what a document stands for loads as the same value |
| JsonRepair.SpacesByCategory | app/services/json_validator.py:138-145 | what strip removes, by Unicode category, the blanks of JSON among it |
| JsonRepair.QuickJsonRepair | app/services/json_validator.py:130-173 | the statement-by-statement repair computes the function the theorems below are about, and ends on every input |
| JsonRepair.ExtendsParsing | app/services/json_validator.py:146-149 | every text that parses gets its own value |
| JsonRepair.FencedText | app/services/json_validator.py:140-145 | a JSON text in a closed fence, with or without a language name, gets its own value |
| JsonRepair.OpenFence | app/services/json_validator.py:140-145 | the same when the closing fence is missing |
| JsonRepair.OneLineFence | app/services/json_validator.py:140-145 | a fence without line break gives nothing |
| JsonCompletion.NoProperPrefix | app/services/json_validator.py:146-151 | no proper prefix of an object or array text is itself a JSON text |
| JsonLayout.MissingBracketsInAnyLayout | app/services/json_validator.py:151-171 | any object or array text, however it is laid out, cut anywhere in its last closing brackets of its own kind: restored if and only if none of them is left and the text is balanced; otherwise the repair gives nothing |
| JsonLayout.ValueTrim | app/services/json_validator.py:151-171 | the blanks between the closing brackets at the end of a value can be left out without changing the value |
| JsonCompletion.MissingBrackets | app/services/json_validator.py:151-171 | the same law for a run of closing brackets without blanks |
| JsonCompletion.OneCompletion | app/services/json_validator.py:156-159 | at most one number of closing brackets makes a JSON text of a given beginning |
| JsonCompletion.TruncatedDump | app/services/json_validator.py:151-171 | for texts as dumps writes them the condition is on the value: its strings hold as many opening as closing brackets |
| JsonStrings.TruncatedStringIsLost | app/services/json_validator.py:133-145 | no text whose content, its fence removed as the code does, ends inside a string is ever restored |
| JsonStrings.TruncatedWithoutFence | app/services/json_validator.py:133-136 | without a fence it is the text itself that counts |
| Validator.ValidateJsonOutput | app/services/json_validator.py:44-100 | valid exactly for one of the five registered steps, a text that parses and a value the schema accepts; the error type tells parsing from schema errors and the details give location and message of every violation in order |
| Validator.LocationsJoin | app/services/json_validator.py:88 | a location is its parts with one slash between neighbours |
| Validator.DumpDecidesAlike | app/agents/executor.py:107-111 | validating the dump of a parsed text decides as validating the text |
| Executor.AgentExecutor.Execute | app/agents/executor.py:35-72 | success, output, failure reason, retry and repair flags, token counts, last text and names and number of model calls (at most two) for every combination of replies; the repair agent is told the first answer if it is JSON and nothing otherwise, the described violations and the reason; a failure always has a reason and is never both retried and handed to the repair agent |
| Executor.AgentExecutor.Generate | app/agents/executor.py:74-92 | the same before exceptions are mapped |
| Executor.AgentExecutor.Repair | app/agents/executor.py:94-146 | local repair first, then one more call unless schema repair is off; a deadline passes through, other failures hand over to the repair agent with the original text and the first reason |
| Executor.AgentExecutor.GenerateJson | app/services/llm_client.py:80-124 | the client returns only answers that parse and raises otherwise |
| Executor.AgentExecutor.MergeResponse | app/agents/executor.py:148-156 | token counts add up; model and prompt version are replaced only by non-empty ones |
| Executor.NoLocalRescue | app/agents/executor.py:107-121 | the local repair never yields an output the schema accepts |
| SchemaSafety.AnswerFits | app/agents/repair_agent.py:13-22 | what the engine may store for a message satisfies the schema of its step, or of its target for a repair |
| SchemaSafety.AskAgent | app/services/orchestrator.py:386-393 | the engine takes an execution as asking for a repair exactly when flag and payload are both set |
| SchemaSafety.RepairCanSucceedIff | app/agents/repair_agent.py:13-22 | a repair can succeed, for some schemas and answers, exactly for the first four steps |
| SchemaSafety.StoredOutputsConform | app/services/orchestrator.py:303-312 | in all runs, with any duplicates, crashes and resumes, stored outputs of steps with a schema, recorded evaluations and final outputs satisfy their schemas, repairs included |
| SchemaSafety.RepairsOnlyWithSchema | app/agents/repair_agent.py:13-22 | in no governed run does a worker come to write back a repair of a step after the material suggestion |
| SchemaSafety.RepairsAreHopeful | app/agents/media_agents.py:36-45 | with media agents that never ask for a repair, every repair message ever committed is for a step with a schema |
| LightWorker.Worker.Create | app/workers/light_worker.py:38-51 | a concurrency outside 1 .. database capacity is refused, otherwise all slots are free |
| LightWorker.Worker.Consume | app/workers/light_worker.py:92-98 | a task is created and tracked for a delivered message unless the worker is stopping |
| LightWorker.Worker.Enter | app/workers/light_worker.py:101-103 | handling takes a slot, so slots in use and slots free always add up to the concurrency |
| LightWorker.Worker.HandleMessage | app/workers/light_worker.py:105-129 | undecodable messages are rejected, the others acknowledged, requeued once, or rejected when they fail again; the slot is given back |
| LightWorker.FateOfAMessage | app/workers/light_worker.py:105-129 | a message is executed at most twice, once more per worker that dies over it; acknowledged means it returned normally, dead-lettered means undecodable or failed twice with at least one exception; both are final |

## Left out

- Orchestrator.WorkflowOrchestrator.RunStep: an agent that raises instead of returning a result is not modelled (every agent of the repository returns one).
- Orchestrator.WorkflowOrchestrator.FinalizeTask: timestamps and the trace record are not modelled.
- Orchestrator.WorkflowOrchestrator.ScheduleRepair: the payload's failure feedback, original output, product and trace id are carried by the source but decide no branch and are not modelled.
- Orchestrator.WorkflowOrchestrator.ClearForRerun: only status and output of a row are modelled; error texts, latency and token columns are not.
- SequentialRuns.OneToken: one message is handled to its end before the next is delivered; Tokens.OneTokenUnlessLost is the statement for overlapping handlers.
- Safety.EveryChangeIsAnEdge: not stated for runs in which a message crosses a reset, be it a duplicate or a message the consumer put back; with duplicates it is false, and StaleDuplicates.TaskLeavesTableIff says exactly when, for all runs.
- Safety.SuccessIsFinal: not stated for such runs either; StaleDuplicates.StaleFailureLeavesTable shows that it fails there.
- Tokens.ActivePasses: the trailing return to running after the hand-over is not part of it; Tokens.OneTokenThroughout covers it.
- ExecutionBound.ExecutionsOfATask: handlers do not overlap there; ConcurrentBound.ExecutionsAreBounded is the bound for overlapping handlers.
- ExecutionBound.EveryTaskEnds: likewise; with overlapping handlers ConcurrentBound.EveryTaskEndsUnlessLost and Termination.RunsGoQuiet.
- ExecutionBound.EndsInTime: likewise.
- ConcurrentBound.ExecutionsAreBounded: not stated for runs in which a message crosses a reset, where executions of two passes mix.
- Orchestrator.WorkflowOrchestrator.ResumeDeadLetter: the rows and the leases are separate actions in the concurrent system, and deleting a lease is an action of its own there.
- Outbox.OutboxService.PublishPendingEvents: refreshing the status gauges is not modelled; the polling loop around it is the sequence of passes in OutboxDrain.
- Executor.AgentExecutor.Execute: error messages, latency and telemetry are not modelled; prompts are opaque, and a failure while building them counts as raising before the first call.
- Validator.ValidateJsonOutput: schemas are an arbitrary function from a value to a dump or a list of violations; the wording of the two fixed error details is not the source's.
- JsonRepair.QuickJsonRepair: Python's None stands both for "no result" and for JSON null; the model keeps them apart, the executor model treats them alike as the source does.
- JsonTexts.RoundTrip: a tree keeps the characters of numbers and strings, where Python converts them and writes them in its own spelling; a repeated key stays in the tree where Python keeps the last. Equal trees are equal Python values.
- Limits of Python's parser (recursion depth, number of digits of an integer) and lone surrogates in strings are not modelled.
- Liveness when workers die: a message redelivered while its dead worker's lease still runs is dropped, and the follow-ups of evaluation and repair are separate transactions; only safety is proved under crashes.
- Two stalled outcomes the code allows are described, not excluded: an outbox row on its last attempt whose publisher died, and a published row set back to failed by a slower publisher.
- The release of the lease and the settlement of the message are one action of a worker, where the source does one right after the other; a message delivered again is put into its queue at once.
- Broker, key store and database internals: messages are events delivered any number of times, leases are a map with a clock, a transaction is one atomic step; a delayed message is an event whose delay is recorded and not enforced, which only adds runs.
- The cancellation of in-flight handlers at shutdown and the retry loop that waits for a queue to exist (app/workers/light_worker.py:77-99, 131-147).
- app/workers/heavy_worker.py follows the same message rule on other topics.
- Pages, routers, uploads, dashboards, tracing, metrics, media rendering, prompts, the model client's HTTP and mock paths, and message deduplication by id, which the engine does not call.

/**
 The rows of one task and every database transaction of the orchestrator, as functions on them
 (app/services/orchestrator.py, app/services/retry.py, app/services/outbox.py:45-66).

 One transaction is one `session_scope` of the source. `ExecuteStep` and `ResumeDeadLetter` compose
 them the way the handlers do when nothing else runs in between.

 Three fields are not columns of the source. They count what has happened and no branch reads them:
 StepRow.resets (how often the row was cleared to pending), StepRow.commits (how often an execution
 of the step itself committed success) and Event.generation (the value of `resets` of the target row
 when the event was committed). Db.start is the step at which the current pass began.
 */
module Workflow {
  import opened Options
  import opened StateMachine
  import Retry

  /** What an agent produced. `Empty` is Python's empty dict; the judge's fields are read with their defaults. */
  datatype Output = Empty | Doc(score: int, passed: bool, highRisk: bool, body: string)

  function ScoreOf(o: Output): int { if o.Doc? then o.score else 0 }
  predicate PassedOf(o: Output) { o.Doc? && o.passed }
  predicate HighRiskOf(o: Output) { o.Doc? && o.highRisk }

  datatype Payload = Payload(history: map<StepId, Output>, attempt: nat, target: Option<StepId>)

  datatype Event = Event(step: StepId, payload: Payload, delay: nat, generation: nat)

  datatype StepRow = StepRow(
    status: StepStatus, output: Option<Output>, retryCount: nat, resets: nat, commits: nat)

  const FRESH_ROW := StepRow(StepStatus.Pending, None, 0, 0, 0)

  type StepRows = rows: seq<StepRow> | |rows| == 9
    witness [FRESH_ROW, FRESH_ROW, FRESH_ROW, FRESH_ROW, FRESH_ROW, FRESH_ROW, FRESH_ROW, FRESH_ROW, FRESH_ROW]

  datatype FinalOutput = FinalOutput(outputs: map<StepId, Output>, qualityScore: Option<int>)

  datatype DeadLetterRow = DeadLetterRow(step: StepId, retryCount: nat)

  datatype Db = Db(
    status: TaskStatus, retryCount: nat, maxRetry: int, finalOutput: Option<FinalOutput>,
    steps: StepRows, outbox: seq<Event>, evaluations: seq<Output>,
    deadLetters: seq<DeadLetterRow>, executions: nat, start: StepId)

  /** The result of a transaction or handler: committed, or an exception was raised after `db` was committed. */
  datatype Tx = Done(db: Db) | Raised(db: Db) {
    predicate IsFailure() { Raised? }
    function PropagateFailure(): Tx { this }
    function Extract(): Db { db }
  }

  /** `repairable`: the executor set `needs_repair_agent` and filled a non-empty `repair_payload`. */
  datatype AgentResult = Succeeded(output: Output) | Failed(repairable: bool)

  /** A retry count that has just been incremented. */
  type Pos = n: nat | n > 0 witness 1

  // ---------------------------------------------------------------- row helpers

  function Cleared(row: StepRow): StepRow {
    row.(status := StepStatus.Pending, output := None, resets := row.resets + 1)
  }

  /** Rows `from .. to-1` cleared for a rerun, the others as they were. */
  function ClearedBetween(rows: StepRows, from: nat, to: nat): (r: StepRows) {
    seq(9, i requires 0 <= i < 9 => if from <= i < to then Cleared(rows[i]) else rows[i])
  }

  /** The non-empty stored outputs, whatever the status of their rows. */
  function CollectHistory(rows: StepRows): map<StepId, Output> {
    map s: StepId | 0 <= s < 9 && rows[s].output.Some? && rows[s].output.value.Doc? :: rows[s].output.value
  }

  function SetStatus(db: Db, s: StepId, status: StepStatus): Db {
    db.(steps := db.steps[s := db.steps[s].(status := status)])
  }

  function Enqueue(db: Db, s: StepId, payload: Payload, delay: int): Db {
    var e := Event(s, payload, if delay > 0 then delay else 0, db.steps[s].resets);
    db.(outbox := db.outbox + [e])
  }

  // ---------------------------------------------------------------- transactions

  function CreateTask(maxRetry: int, start: StepId, history: map<StepId, Output>): Db {
    var rows: StepRows := seq(9, _ => FRESH_ROW);
    var db := Db(TaskStatus.Created, 0, maxRetry, None, rows, [], [], [], 0, start);
    Enqueue(db, start, Payload(history, 1, None), 0)
  }

  function TransitionTask(db: Db, to: TaskStatus): Tx {
    if db.status == to then Done(db)
    else if CanTransitionTask(db.status, to) then Done(db.(status := to))
    else Raised(db)
  }

  function TransitionStep(db: Db, s: StepId, to: StepStatus): Tx {
    if db.steps[s].status == to then Done(db)
    else if CanTransitionStep(db.steps[s].status, to) then Done(SetStatus(db, s, to))
    else Raised(db)
  }

  function StartExecution(db: Db): Db {
    db.(executions := db.executions + 1)
  }

  /** The success row and, for an ordinary step, the event of the next step, in one transaction. */
  function StepSuccess(db: Db, s: StepId, output: Output, payload: Payload): Db {
    var row := db.steps[s];
    var done := row.(status := StepStatus.Success, output := Some(output), commits := row.commits + 1);
    var d := db.(steps := db.steps[s := done]);
    if s == REPAIR || s == QUALITY_EVALUATION then d
    else Enqueue(d, s + 1, payload.(history := payload.history[s := output], attempt := 1), 0)
  }

  function StepFailure(db: Db, s: StepId): Db {
    var row := db.steps[s];
    db.(steps := db.steps[s := row.(status := StepStatus.Failed, retryCount := row.retryCount + 1)])
  }

  /** Writes the status without consulting the transition table. */
  function MarkTaskRetrying(db: Db): Db {
    db.(retryCount := db.retryCount + 1, status := TaskStatus.Retrying)
  }

  function ScheduleRetry(db: Db, delays: seq<int>, s: StepId, payload: Payload, newRetryCount: Pos): Tx {
    if !CanTransitionStep(db.steps[s].status, StepStatus.Retrying) then Raised(db)
    else
      var d := SetStatus(db, s, StepStatus.Retrying);
      Done(Enqueue(d, s, payload.(attempt := newRetryCount + 1), Retry.ComputeRetryDelay(delays, newRetryCount - 1)))
  }

  function ScheduleRepair(db: Db, s: StepId, payload: Payload): Db {
    var d := db.(steps := db.steps[REPAIR := Cleared(db.steps[REPAIR])]);
    Enqueue(d, REPAIR, payload.(target := Some(s), attempt := 1), 0)
  }

  /** Writes the status without consulting the transition table; `count` was read before. */
  function SendToDeadLetter(db: Db, s: StepId, count: nat): Db {
    db.(status := TaskStatus.DeadLetter, deadLetters := db.deadLetters + [DeadLetterRow(s, count)])
  }

  predicate Repairable(target: Option<StepId>) {
    target.Some? && target.value < QUALITY_EVALUATION
  }

  /** The repaired output becomes the target's output, everything after the target is invalidated. */
  function WriteBack(db: Db, output: Output, payload: Payload): Tx {
    if !Repairable(payload.target) then Raised(db)
    else
      var t := payload.target.value;
      var row := db.steps[t].(status := StepStatus.Success, output := Some(output));
      var rows := ClearedBetween(db.steps[t := row], t + 1, |WORKFLOW_STEPS|);
      var next := Payload(CollectHistory(rows), 1, None);
      Done(Enqueue(db.(steps := rows), t + 1, next, 0))
  }

  function RecordEvaluation(db: Db, verdict: Output): Db {
    db.(evaluations := db.evaluations + [verdict])
  }

  /** A judge rejection that still has budget: everything from the script on is rerun. */
  function RerunFromScript(db: Db): Db {
    var rows := ClearedBetween(db.steps, SCRIPT_GENERATION, |WORKFLOW_STEPS|);
    Enqueue(db.(steps := rows), SCRIPT_GENERATION, Payload(CollectHistory(rows), 1, None), 0)
  }

  function FinalizeTask(db: Db, status: TaskStatus, score: Option<int>): Tx {
    if db.status != status && !CanTransitionTask(db.status, status) then Raised(db)
    else Done(db.(status := status, finalOutput := Some(FinalOutput(CollectHistory(db.steps) - {REPAIR}, score))))
  }

  function Resume(db: Db): Db {
    var rows: StepRows := seq(9, i requires 0 <= i < 9 => Cleared(db.steps[i]).(retryCount := 0));
    var d := db.(status := TaskStatus.Queued, retryCount := 0, steps := rows, start := PRODUCT_ANALYSIS);
    Enqueue(d, PRODUCT_ANALYSIS, Payload(map[], 1, None), 0)
  }

  // ---------------------------------------------------------------- handlers run without interference

  datatype Verdict = Accept | Review | Reject

  function Judge(v: Output): Verdict {
    if PassedOf(v) && !HighRiskOf(v) then Accept
    else if ScoreOf(v) < 40 || HighRiskOf(v) then Review
    else Reject
  }

  function HandleEvaluation(db: Db, v: Output): Tx {
    var d :- TransitionTask(RecordEvaluation(db, v), TaskStatus.Evaluating);
    Decide(d, v)
  }

  function Decide(db: Db, v: Output): Tx {
    match Judge(v)
    case Accept => FinalizeTask(db, TaskStatus.Success, Some(ScoreOf(v)))
    case Review => FinalizeTask(db, TaskStatus.ManualReview, Some(ScoreOf(v)))
    case Reject => RerunOrReview(MarkTaskRetrying(db), v)
  }

  function RerunOrReview(db: Db, v: Output): Tx {
    if Retry.ShouldRetry(db.retryCount, db.maxRetry) then Done(RerunFromScript(db))
    else FinalizeTask(db, TaskStatus.ManualReview, Some(ScoreOf(v)))
  }

  function HandleRepairSuccess(db: Db, output: Output, payload: Payload): Tx {
    var d :- WriteBack(db, output, payload);
    TransitionTask(d, TaskStatus.Running)
  }

  function OnStepSuccess(db: Db, s: StepId, output: Output, payload: Payload): Tx {
    var d := StepSuccess(db, s, output, payload);
    if s == REPAIR then HandleRepairSuccess(d, output, payload)
    else if s == QUALITY_EVALUATION then HandleEvaluation(d, output)
    else TransitionTask(d, TaskStatus.Running)
  }

  function OnStepFailure(db: Db, delays: seq<int>, s: StepId, repairable: bool, payload: Payload): Tx {
    var d := MarkTaskRetrying(StepFailure(db, s));
    if repairable && s < QUALITY_EVALUATION then Done(ScheduleRepair(d, s, payload))
    else if Retry.ShouldRetry(d.retryCount, d.maxRetry) then ScheduleRetry(d, delays, s, payload, d.retryCount)
    else Done(SendToDeadLetter(d, s, d.retryCount))
  }

  function HandleAgentResult(db: Db, delays: seq<int>, s: StepId, r: AgentResult, payload: Payload): Tx {
    match r
    case Succeeded(output) => OnStepSuccess(db, s, output, payload)
    case Failed(repairable) => OnStepFailure(db, delays, s, repairable, payload)
  }

  /** One delivery handled from the lease to its release; `r` is what the agent answers if it is asked. */
  function ExecuteStep(db: Db, delays: seq<int>, s: StepId, payload: Payload, r: AgentResult): Tx {
    if db.steps[s].status == StepStatus.Success then Done(db)
    else
      var d :- TransitionTask(db, TaskStatus.Running);
      var d' :- TransitionStep(d, s, StepStatus.Running);
      HandleAgentResult(StartExecution(d'), delays, s, r, payload)
  }

  predicate CanResume(db: Db) {
    db.status == TaskStatus.DeadLetter
  }

  function ResumeDeadLetter(db: Db): Db {
    if CanResume(db) then Resume(db) else db
  }
}

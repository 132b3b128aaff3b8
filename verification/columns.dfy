/**
 Who writes each column of a task and of its steps, in every state and for every transaction: the columns seen one
 by one, where module Workflow sees the transactions one by one.
 */
module Columns {
  import opened Options
  import opened StateMachine
  import opened Workflow
  import opened Interleaving
  import opened Safety
  import Feedback

  // ---------------------------------------------------------------- what the judge says

  predicate Accepts(v: Output) { v.Doc? && v.passed && !v.highRisk }
  predicate AsksReview(v: Output) { !Accepts(v) && (v.Empty? || v.score < 40 || v.highRisk) }
  predicate AsksRerun(v: Output) { v.Doc? && v.score >= 40 && !v.passed && !v.highRisk }

  function Score(v: Output): int {
    match v case Empty => 0 case Doc(score, _, _, _) => score
  }

  // ---------------------------------------------------------------- the task

  /** The task ends: an accepting verdict, a bad one, or one that asks for a rerun without budget left. */
  function EndsAs(db: Db, w: Worker): Option<TaskStatus> {
    if w.pc.Deciding? && Accepts(w.pc.verdict) then Some(TaskStatus.Success)
    else if w.pc.Deciding? && AsksReview(w.pc.verdict) then Some(TaskStatus.ManualReview)
    else if w.pc.Rejecting? && w.pc.retryCount >= db.maxRetry then Some(TaskStatus.ManualReview)
    else None
  }

  predicate Moves(from: TaskStatus, to: TaskStatus) {
    from == to || CanTransitionTask(from, to)
  }

  /** Without an edge the transaction raises and the task stays as it is. */
  predicate Ends(db: Db, w: Worker) {
    EndsAs(db, w).Some? && Moves(db.status, EndsAs(db, w).value)
  }

  predicate CountsFailure(w: Worker) {
    w.pc.Marking? || (w.pc.Deciding? && AsksRerun(w.pc.verdict))
  }

  /** Where the transaction wants the task to be, and whether it asks the table. */
  function Wanted(db: Db, w: Worker): Option<TaskStatus> {
    if w.pc.EnterTask? || w.pc.Leaving? then Some(TaskStatus.Running)
    else if w.pc.EnteringEvaluation? then Some(TaskStatus.Evaluating)
    else EndsAs(db, w)
  }

  function StatusAfter(db: Db, w: Worker): TaskStatus {
    if CountsFailure(w) then TaskStatus.Retrying
    else if w.pc.Burying? then TaskStatus.DeadLetter
    else if Wanted(db, w).Some? && CanTransitionTask(db.status, Wanted(db, w).value) then Wanted(db, w).value
    else db.status
  }

  /** The final output: the stored outputs of the workflow steps that are not empty, and the score. */
  predicate IsFinal(f: FinalOutput, db: Db, v: Output) {
    && f.qualityScore == Some(Score(v))
    && forall x: StepId ::
         && (x in f.outputs <==> x < REPAIR && db.steps[x].output.Some? && db.steps[x].output.value.Doc?)
         && (x in f.outputs ==> db.steps[x].output == Some(f.outputs[x]))
  }

  lemma TaskColumns(c: Config, db: Db, w: Worker, r: AgentResult)
    ensures var d := DbStep(c, db, w, r).0;
      && d.status == StatusAfter(db, w)
      && d.retryCount == db.retryCount + (if CountsFailure(w) then 1 else 0)
      && d.maxRetry == db.maxRetry && d.start == db.start
      && d.executions == db.executions + (if w.pc.Start? then 1 else 0)
      && d.evaluations == db.evaluations + (if w.pc.Recording? then [w.pc.verdict] else [])
      && d.deadLetters == db.deadLetters + (if w.pc.Burying? then [DeadLetterRow(w.Step(), w.pc.count)] else [])
  {
    match w.pc {
      case Deciding(v) => JudgedColumns(c, db, w, r);
      case Rejecting(_, _) => JudgedColumns(c, db, w, r);
      case _ =>
    }
  }

  lemma JudgedColumns(c: Config, db: Db, w: Worker, r: AgentResult)
    requires w.pc.Deciding? || w.pc.Rejecting?
    ensures var d := DbStep(c, db, w, r).0;
      && d.status == StatusAfter(db, w)
      && d.retryCount == db.retryCount + (if CountsFailure(w) then 1 else 0)
      && d.maxRetry == db.maxRetry && d.start == db.start && d.executions == db.executions
      && d.evaluations == db.evaluations && d.deadLetters == db.deadLetters
  {
  }

  lemma OutputColumn(c: Config, db: Db, w: Worker, r: AgentResult)
    ensures var d := DbStep(c, db, w, r).0;
      if Ends(db, w) then d.finalOutput.Some? && IsFinal(d.finalOutput.value, db, w.pc.verdict)
      else d.finalOutput == db.finalOutput
  {
  }

  // ---------------------------------------------------------------- the steps

  /** The repair asked for by a failure. */
  predicate AsksRepair(w: Worker) {
    w.pc.Scheduling? && w.pc.repairable && w.Step() < QUALITY_EVALUATION
  }

  /** The rows cleared for being done again. */
  predicate Clears(db: Db, w: Worker, x: StepId) {
    || (AsksRepair(w) && x == REPAIR)
    || (w.pc.WritingBack? && w.event.payload.target.Some? && w.event.payload.target.value < QUALITY_EVALUATION
        && w.event.payload.target.value < x < REPAIR)
    || (w.pc.Rejecting? && w.pc.retryCount < db.maxRetry && SCRIPT_GENERATION <= x < REPAIR)
  }

  /** The output the transaction stores in the row. */
  function Stores(w: Worker, x: StepId): Option<Output> {
    if w.pc.Succeeding? && w.Step() == x then Some(w.pc.output)
    else if w.pc.WritingBack? && w.event.payload.target == Some(x) && x < QUALITY_EVALUATION then Some(w.pc.output)
    else None
  }

  function StepStatusAfter(db: Db, w: Worker, x: StepId): StepStatus {
    var before := db.steps[x].status;
    if Clears(db, w, x) then StepStatus.Pending
    else if Stores(w, x).Some? then StepStatus.Success
    else if w.Step() != x then before
    else if w.pc.Failing? then StepStatus.Failed
    else if w.pc.EnterStep? && before in {StepStatus.Pending, StepStatus.Retrying} then StepStatus.Running
    else if w.pc.Scheduling? && !AsksRepair(w) && w.pc.retryCount < db.maxRetry
            && before in {StepStatus.Running, StepStatus.Failed} then StepStatus.Retrying
    else before
  }

  /** Every column of every row after a transaction. */
  predicate RowAfter(db: Db, w: Worker, x: StepId, after: StepRow) {
    var before := db.steps[x];
    && after.status == StepStatusAfter(db, w, x)
    && after.output == (if Clears(db, w, x) then None else if Stores(w, x).Some? then Stores(w, x) else before.output)
    && after.retryCount == before.retryCount + (if w.pc.Failing? && w.Step() == x then 1 else 0)
    && after.resets == before.resets + (if Clears(db, w, x) then 1 else 0)
    && after.commits == before.commits + (if w.pc.Succeeding? && w.Step() == x then 1 else 0)
  }

  lemma StepColumns(c: Config, db: Db, w: Worker, r: AgentResult, x: StepId)
    ensures RowAfter(db, w, x, DbStep(c, db, w, r).0.steps[x])
  {
    match w.pc {
      case Scheduling(_, _) => SchedulingColumns(c, db, w, r, x);
      case WritingBack(_) => WriteBackColumns(c, db, w, r, x);
      case Rejecting(_, _) => RerunColumns(c, db, w, r, x);
      case _ => OtherColumns(c, db, w, r, x);
    }
  }

  lemma SchedulingColumns(c: Config, db: Db, w: Worker, r: AgentResult, x: StepId)
    requires w.pc.Scheduling?
    ensures RowAfter(db, w, x, DbStep(c, db, w, r).0.steps[x])
  {
  }

  lemma WriteBackColumns(c: Config, db: Db, w: Worker, r: AgentResult, x: StepId)
    requires w.pc.WritingBack?
    ensures RowAfter(db, w, x, DbStep(c, db, w, r).0.steps[x])
  {
  }

  lemma RerunColumns(c: Config, db: Db, w: Worker, r: AgentResult, x: StepId)
    requires w.pc.Rejecting?
    ensures RowAfter(db, w, x, DbStep(c, db, w, r).0.steps[x])
  {
  }

  lemma OtherColumns(c: Config, db: Db, w: Worker, r: AgentResult, x: StepId)
    requires !w.pc.Scheduling? && !w.pc.WritingBack? && !w.pc.Rejecting?
    ensures RowAfter(db, w, x, DbStep(c, db, w, r).0.steps[x])
  {
  }

  /** A resume writes these columns of a dead task, and leaves verdicts, the dead-letter rows and the output alone. */
  lemma ResumeColumns(db: Db)
    requires db.status == TaskStatus.DeadLetter
    ensures var d := ResumeDeadLetter(db);
      && d.status == TaskStatus.Queued && d.retryCount == 0 && d.start == PRODUCT_ANALYSIS
      && d.evaluations == db.evaluations && d.deadLetters == db.deadLetters && d.finalOutput == db.finalOutput
      && d.maxRetry == db.maxRetry && d.executions == db.executions
      && (forall x: StepId ::
            d.steps[x] == StepRow(StepStatus.Pending, None, 0, db.steps[x].resets + 1, db.steps[x].commits))
      && |d.outbox| == |db.outbox| + 1 && db.outbox <= d.outbox
      && d.outbox[|db.outbox|] == Event(PRODUCT_ANALYSIS, Payload(map[], 1, None), 0, d.steps[PRODUCT_ANALYSIS].resets)
  {
  }

  // ---------------------------------------------------------------- the messages

  /** The retry of the own step: with budget left, and when the row admits it. */
  predicate Retries(db: Db, w: Worker) {
    && w.pc.Scheduling? && !AsksRepair(w) && w.pc.retryCount < db.maxRetry
    && db.steps[w.Step()].status in {StepStatus.Running, StepStatus.Failed}
  }

  /** The step for which the transaction commits a message. */
  function Sends(db: Db, w: Worker): Option<StepId> {
    if w.pc.Succeeding? && w.Step() < QUALITY_EVALUATION then Some(w.Step() + 1)
    else if AsksRepair(w) then Some(REPAIR)
    else if Retries(db, w) then Some(w.Step())
    else if w.pc.WritingBack? && w.event.payload.target.Some? && w.event.payload.target.value < QUALITY_EVALUATION
    then Some(w.event.payload.target.value + 1)
    else if w.pc.Rejecting? && w.pc.retryCount < db.maxRetry then Some(SCRIPT_GENERATION)
    else None
  }

  /** Its history: that of the worker's message, with its own output in case of success, or read from the rows. */
  predicate RightHistory(w: Worker, d: Db, h: map<StepId, Output>) {
    forall x: StepId ::
      Feedback.Entry(h, x) ==
        if w.pc.WritingBack? || w.pc.Rejecting? then
          (if d.steps[x].output.Some? && d.steps[x].output.value.Doc? then d.steps[x].output else None)
        else if w.pc.Succeeding? && x == w.Step() then Some(w.pc.output)
        else Feedback.Entry(w.event.payload.history, x)
  }

  lemma OutboxColumn(c: Config, db: Db, w: Worker, r: AgentResult)
    ensures var d := DbStep(c, db, w, r).0;
      if Sends(db, w).None? then d.outbox == db.outbox
      else
        && |d.outbox| == |db.outbox| + 1 && d.outbox[..|db.outbox|] == db.outbox
        && var e := d.outbox[|db.outbox|];
           && e.step == Sends(db, w).value && e.generation == d.steps[e.step].resets
           && e.payload.target ==
                (if AsksRepair(w) then Some(w.Step())
                 else if w.pc.WritingBack? || w.pc.Rejecting? then None
                 else w.event.payload.target)
           && RightHistory(w, d, e.payload.history)
  {
    match w.pc {
      case Scheduling(_, _) => ScheduledMessage(c, db, w, r);
      case WritingBack(_) => RebuiltMessage(c, db, w, r);
      case Rejecting(_, _) => RebuiltMessage(c, db, w, r);
      case _ =>
    }
  }

  lemma ScheduledMessage(c: Config, db: Db, w: Worker, r: AgentResult)
    requires w.pc.Scheduling?
    ensures var d := DbStep(c, db, w, r).0;
      if Sends(db, w).None? then d.outbox == db.outbox
      else
        && |d.outbox| == |db.outbox| + 1 && d.outbox[..|db.outbox|] == db.outbox
        && var e := d.outbox[|db.outbox|];
           && e.step == Sends(db, w).value && e.generation == d.steps[e.step].resets
           && e.payload.target == (if AsksRepair(w) then Some(w.Step()) else w.event.payload.target)
           && e.payload.history == w.event.payload.history
  {
  }

  lemma RebuiltMessage(c: Config, db: Db, w: Worker, r: AgentResult)
    requires w.pc.WritingBack? || w.pc.Rejecting?
    ensures var d := DbStep(c, db, w, r).0;
      if Sends(db, w).None? then d.outbox == db.outbox
      else
        && |d.outbox| == |db.outbox| + 1 && d.outbox[..|db.outbox|] == db.outbox
        && var e := d.outbox[|db.outbox|];
           && e.step == Sends(db, w).value && e.generation == d.steps[e.step].resets && e.payload.target == None
           && RightHistory(w, d, e.payload.history)
  {
    if Feedback.BuildsAnew(db, w) {
      Feedback.RebuiltFromRows(c, db, w, r);
    }
  }

  // ---------------------------------------------------------------- dead-letter rows

  /**
   In every run inside leases in which no message crosses a reset: a dead-letter row is written for the step whose
   execution has just failed for good, with the number of failures of the task, which is no less than allowed; a
   row once written stays.
   */
  lemma {:induction false} BurialRecordsTheFailure(c: Config, init: State, actions: seq<Action>, a: Action)
    requires ProperRun(c, init, actions)
    requires var s := Run(c, init, actions); Next(c, s, a).db.deadLetters != s.db.deadLetters
    ensures var s, t := Run(c, init, actions), Next(c, Run(c, init, actions), a);
      && a.Act? && a.id in s.workers && t.db.status == TaskStatus.DeadLetter
      && var x := s.workers[a.id].Step();
         && t.db.deadLetters == s.db.deadLetters + [DeadLetterRow(x, t.db.retryCount)]
         && t.db.steps[x].status == StepStatus.Failed && t.db.retryCount >= t.db.maxRetry
  {
    var s := Run(c, init, actions);
    var k := Safety.InvHolds(c, init, actions);
    if a.Act? && a.id in s.workers {
      var w := s.workers[a.id];
      assert WorkerOk(s.db, k, w);
      TaskColumns(c, s.db, w, a.result);
      if w.pc.Burying? {
        StepColumns(c, s.db, w, a.result, w.Step());
      }
    }
  }
}

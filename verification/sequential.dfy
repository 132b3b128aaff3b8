/**
 Crash-free runs in which every message is delivered once and handled before the next one: the
 engine as a function of the agents' answers. Each delivery moves one token; nothing raises; the
 counters account for what happened. Overlapping handlers are the subject of module Tokens.
 */
module SequentialRuns {
  import opened Options
  import opened StateMachine
  import opened Workflow
  import opened Safety

  /** The rows and how many of the committed events have been delivered. */
  datatype Sys = Sys(db: Db, delivered: nat)

  datatype Input = Deliver(result: AgentResult) | Resume

  predicate Over(db: Db) {
    db.status in {TaskStatus.Success, TaskStatus.ManualReview, TaskStatus.DeadLetter}
  }

  function Undelivered(s: Sys): seq<Event> {
    if s.delivered <= |s.db.outbox| then s.db.outbox[s.delivered..] else []
  }

  function Handle(delays: seq<int>, s: Sys, r: AgentResult): Tx
    requires Undelivered(s) != []
  {
    var e := Undelivered(s)[0];
    ExecuteStep(s.db, delays, e.step, e.payload, r)
  }

  function Step(delays: seq<int>, s: Sys, i: Input): Sys {
    match i
    case Deliver(r) => if Undelivered(s) == [] then s else Sys(Handle(delays, s, r).db, s.delivered + 1)
    case Resume => s.(db := ResumeDeadLetter(s.db))
  }

  function Initial(maxRetry: int, start: StepId, history: map<StepId, Output>): Sys {
    Sys(CreateTask(maxRetry, start, history), 0)
  }

  function Run(delays: seq<int>, s: Sys, inputs: seq<Input>): Sys
    decreases inputs
  {
    if inputs == [] then s else Run(delays, Step(delays, s, inputs[0]), inputs[1..])
  }

  // ---------------------------------------------------------------- the token

  /** The frontier step a message is about. */
  function About(e: Event): nat {
    if e.step == REPAIR && e.payload.target.Some? then e.payload.target.value else e.step
  }

  predicate Waiting(row: StepRow) {
    row.status in {StepStatus.Pending, StepStatus.Retrying}
  }

  /** The one message in flight: for the unfinished frontier step, or for the repair of that step after it failed. */
  ghost predicate Token(db: Db, e: Event) {
    var k := About(e);
    && Frontier(db, k) && k < 8 && HistoryAgrees(e.payload.history, db)
    && Waiting(db.steps[e.step])
    && e.payload.attempt == (if db.steps[e.step].status == StepStatus.Retrying then db.retryCount + 1 else 1)
    && (if e.step == REPAIR then
          e.payload.target.Some? && k < QUALITY_EVALUATION
          && db.steps[k].status == StepStatus.Failed && db.status == TaskStatus.Retrying
        else
          e.payload.target.None?
          && db.status in {TaskStatus.Created, TaskStatus.Queued, TaskStatus.Running, TaskStatus.Retrying})
  }

  /** One token while the task is open, none when it is over; every delivered message has been executed. */
  ghost predicate Inv(s: Sys) {
    && s.delivered <= |s.db.outbox| && s.db.executions == s.delivered
    && s.db.start <= SCRIPT_GENERATION
    && (Over(s.db) ==> Undelivered(s) == [] && Settled(s.db, 8))
    && (s.db.status in {TaskStatus.Success, TaskStatus.ManualReview} ==> Frontier(s.db, 8))
    && (!Over(s.db) ==> |Undelivered(s)| == 1 && Token(s.db, Undelivered(s)[0]))
  }

  // ---------------------------------------------------------------- one delivery

  /** The rows once the step has been entered and its execution recorded. */
  function Entered(db: Db, s: StepId): Db {
    StartExecution(SetStatus(db.(status := TaskStatus.Running), s, StepStatus.Running))
  }

  lemma TokenEnters(db: Db, delays: seq<int>, e: Event, r: AgentResult)
    requires Token(db, e)
    ensures ExecuteStep(db, delays, e.step, e.payload, r) ==
            HandleAgentResult(Entered(db, e.step), delays, e.step, r, e.payload)
    ensures var d := Entered(db, e.step); Frontier(d, About(e)) && HistoryAgrees(e.payload.history, d)
  {
    var d := Entered(db, e.step);
    var k := About(e);
    forall i: StepId | i < REPAIR
      ensures FrontierRow(d, k, i)
    {
      assert FrontierRow(db, k, i);
    }
    HistoryFrame(e.payload.history, db, d);
  }

  /** What a handler leaves behind: the next token as the only new event, or the end of the task. */
  ghost predicate Handed(before: Db, tx: Tx) {
    && tx.Done? && tx.db.executions == before.executions && tx.db.start == before.start
    && (if Over(tx.db) then
          tx.db.outbox == before.outbox && Settled(tx.db, 8)
          && (tx.db.status != TaskStatus.DeadLetter ==> Frontier(tx.db, 8))
        else
          |tx.db.outbox| == |before.outbox| + 1 && tx.db.outbox[..|before.outbox|] == before.outbox
          && Token(tx.db, tx.db.outbox[|before.outbox|]))
  }

  lemma WorkHandsOn(d: Db, e: Event, o: Output)
    requires Frontier(d, e.step) && HistoryAgrees(e.payload.history, d) && e.payload.target.None?
    requires e.step < QUALITY_EVALUATION && d.status == TaskStatus.Running
    ensures Handed(d, OnStepSuccess(d, e.step, o, e.payload))
  {
    var t := OnStepSuccess(d, e.step, o, e.payload).db;
    var next := e.step + 1;
    OutputOnFrontier(d, e.step, t.steps[e.step], t);
    assert FrontierRow(d, e.step, next);
  }

  lemma RepairHandsOn(d: Db, e: Event, o: Output)
    requires e.step == REPAIR && e.payload.target.Some? && e.payload.target.value < QUALITY_EVALUATION
    requires Frontier(d, e.payload.target.value) && d.status == TaskStatus.Running
    ensures Handed(d, OnStepSuccess(d, e.step, o, e.payload))
  {
    var t := OnStepSuccess(d, e.step, o, e.payload).db;
    var k := e.payload.target.value;
    var next := k + 1;
    CollectedHistory(t.steps, t);
    forall i: StepId | i < REPAIR
      ensures FrontierRow(t, next, i)
    {
      assert FrontierRow(d, k, i);
    }
  }

  lemma EvaluationHandsOn(d: Db, e: Event, v: Output)
    requires e.step == QUALITY_EVALUATION && Frontier(d, 7) && d.status == TaskStatus.Running
    ensures Handed(d, OnStepSuccess(d, e.step, v, e.payload))
  {
    var w := StepSuccess(d, e.step, v, e.payload);
    var t := OnStepSuccess(d, e.step, v, e.payload).db;
    OutputOnFrontier(d, 7, w.steps[7], w);
    if Over(t) {
      RowsFrame(w, t, 8);
    } else {
      CollectedHistory(t.steps, t);
      forall i: StepId | i < REPAIR
        ensures FrontierRow(t, SCRIPT_GENERATION, i)
      {
        assert FrontierRow(w, 8, i);
      }
    }
  }

  lemma FailureHandsOn(d: Db, delays: seq<int>, e: Event, repairable: bool)
    requires var k := About(e);
      && Frontier(d, k) && k < 8 && HistoryAgrees(e.payload.history, d) && d.status == TaskStatus.Running
      && (e.step == REPAIR ==>
            e.payload.target.Some? && k < QUALITY_EVALUATION && d.steps[k].status == StepStatus.Failed)
      && (e.step < REPAIR ==> e.payload.target.None?)
    ensures Handed(d, OnStepFailure(d, delays, e.step, repairable, e.payload))
  {
    var t := OnStepFailure(d, delays, e.step, repairable, e.payload).db;
    var k := About(e);
    forall i: StepId | i < REPAIR
      ensures FrontierRow(t, k, i)
    {
      assert FrontierRow(d, k, i);
    }
    HistoryFrame(e.payload.history, d, t);
  }

  lemma DeliveryHandsOn(db: Db, delays: seq<int>, e: Event, r: AgentResult)
    requires Token(db, e)
    ensures Handed(Entered(db, e.step), ExecuteStep(db, delays, e.step, e.payload, r))
  {
    TokenEnters(db, delays, e, r);
    var d := Entered(db, e.step);
    match r
    case Failed(repairable) => FailureHandsOn(d, delays, e, repairable);
    case Succeeded(o) =>
      if e.step == REPAIR {
        RepairHandsOn(d, e, o);
      } else if e.step == QUALITY_EVALUATION {
        EvaluationHandsOn(d, e, o);
      } else {
        WorkHandsOn(d, e, o);
      }
  }

  // ---------------------------------------------------------------- all runs

  lemma ResumeHandsOn(db: Db)
    ensures var t := Workflow.Resume(db); Token(t, t.outbox[|db.outbox|])
  {
    var t := Workflow.Resume(db);
    forall i: StepId | i < REPAIR
      ensures FrontierRow(t, 0, i)
    {
    }
  }

  lemma InvStep(delays: seq<int>, s: Sys, i: Input)
    requires Inv(s)
    ensures Inv(Step(delays, s, i))
    ensures i.Deliver? && !Over(s.db) ==> Handle(delays, s, i.result).Done?
  {
    match i
    case Deliver(r) =>
      if !Over(s.db) {
        DeliveryHandsOn(s.db, delays, Undelivered(s)[0], r);
      }
    case Resume =>
      if CanResume(s.db) {
        ResumeHandsOn(s.db);
      }
  }

  lemma {:induction false} InvHolds(delays: seq<int>, s: Sys, inputs: seq<Input>)
    requires Inv(s)
    ensures Inv(Run(delays, s, inputs))
    decreases inputs
  {
    if inputs != [] {
      InvStep(delays, s, inputs[0]);
      InvHolds(delays, Step(delays, s, inputs[0]), inputs[1..]);
    }
  }

  lemma CreatedIsGood(maxRetry: int, start: StepId, history: map<StepId, Output>)
    requires start <= SCRIPT_GENERATION && HistoryBefore(history, start)
    ensures Inv(Initial(maxRetry, start, history))
  {
    var db := CreateTask(maxRetry, start, history);
    forall i: StepId | i < REPAIR
      ensures FrontierRow(db, start, i)
    {
    }
  }

  /**
   Token conservation: at any point of any run an open task has exactly one undelivered message and
   its handling raises no exception, a task that is over has none, and every delivered message
   was executed exactly once.
   */
  lemma {:induction false} OneToken(
    delays: seq<int>, maxRetry: int, start: StepId, history: map<StepId, Output>, inputs: seq<Input>, r: AgentResult)
    requires start <= SCRIPT_GENERATION && HistoryBefore(history, start)
    ensures var s := Run(delays, Initial(maxRetry, start, history), inputs);
      && |Undelivered(s)| == (if Over(s.db) then 0 else 1)
      && s.db.executions == s.delivered
      && (!Over(s.db) ==> Token(s.db, Undelivered(s)[0]) && Handle(delays, s, r).Done?)
  {
    CreatedIsGood(maxRetry, start, history);
    InvHolds(delays, Initial(maxRetry, start, history), inputs);
    InvStep(delays, Run(delays, Initial(maxRetry, start, history), inputs), Deliver(r));
  }
}

/**
 A delivery that nobody interferes with: driving one worker through its single transactions gives
 exactly the handler composition `Workflow.ExecuteStep`, the function the imperative orchestrator is
 proved against.
 */
module Uninterrupted {
  import opened Options
  import opened StateMachine
  import opened Workflow
  import opened Interleaving
  import opened Safety
  import EL = ExecutionLease
  import Retry

  /** `n` transactions of a worker that holds its lease, nothing in between. */
  function DbDrive(c: Config, db: Db, e: Event, pc: Pc, r: AgentResult, n: nat): (Db, Pc)
    decreases n
  {
    if n == 0 then (db, pc)
    else
      var (d, p) := DbStep(c, db, Worker(e, pc), r);
      DbDrive(c, d, e, p, r, n - 1)
  }

  function Ended(tx: Tx): (Db, Pc) {
    (tx.db, Returning(tx.Raised?))
  }

  lemma StaysReturning(c: Config, db: Db, e: Event, raised: bool, r: AgentResult, n: nat)
    ensures DbDrive(c, db, e, Returning(raised), r, n) == (db, Returning(raised))
  {
  }

  lemma {:induction false} DriveSplit(c: Config, db: Db, e: Event, pc: Pc, r: AgentResult, a: nat, b: nat)
    ensures var (d, p) := DbDrive(c, db, e, pc, r, a);
      DbDrive(c, db, e, pc, r, a + b) == DbDrive(c, d, e, p, r, b)
    decreases a
  {
    if a > 0 {
      var (d, p) := DbStep(c, db, Worker(e, pc), r);
      DriveSplit(c, d, e, p, r, a - 1, b);
    }
  }

  lemma RejectingAlone(c: Config, db: Db, e: Event, v: Output, rc: Pos, r: AgentResult)
    requires rc == db.retryCount
    ensures DbDrive(c, db, e, Rejecting(v, rc), r, 1) == Ended(RerunOrReview(db, v))
  {
  }

  lemma DecidingAlone(c: Config, db: Db, e: Event, v: Output, r: AgentResult)
    ensures DbDrive(c, db, e, Deciding(v), r, 2) == Ended(Decide(db, v))
  {
    DriveSplit(c, db, e, Deciding(v), r, 1, 1);
    var (d, p) := DbStep(c, db, Worker(e, Deciding(v)), r);
    if p.Returning? {
      StaysReturning(c, d, e, p.raised, r, 1);
    } else {
      RejectingAlone(c, d, e, v, p.retryCount, r);
    }
  }

  lemma EnteringAlone(c: Config, db: Db, e: Event, v: Output, r: AgentResult)
    ensures var tx := TransitionTask(db, TaskStatus.Evaluating);
      DbDrive(c, db, e, EnteringEvaluation(v), r, 3) == Ended(if tx.Raised? then tx else Decide(tx.db, v))
  {
    DriveSplit(c, db, e, EnteringEvaluation(v), r, 1, 2);
    var tx := TransitionTask(db, TaskStatus.Evaluating);
    if tx.Raised? {
      StaysReturning(c, tx.db, e, true, r, 2);
    } else {
      DecidingAlone(c, tx.db, e, v, r);
    }
  }

  /** From the written judge result to the end of the handler, in four transactions. */
  lemma EvaluationAlone(c: Config, db: Db, e: Event, v: Output, r: AgentResult)
    ensures DbDrive(c, db, e, Recording(v), r, 4) == Ended(HandleEvaluation(db, v))
  {
    DriveSplit(c, db, e, Recording(v), r, 1, 3);
    EnteringAlone(c, RecordEvaluation(db, v), e, v, r);
  }

  lemma LeavingAlone(c: Config, db: Db, e: Event, r: AgentResult, n: nat)
    ensures DbDrive(c, db, e, Leaving, r, n + 1) == Ended(TransitionTask(db, TaskStatus.Running))
  {
    var tx := TransitionTask(db, TaskStatus.Running);
    StaysReturning(c, tx.db, e, tx.Raised?, r, n);
  }

  lemma RepairAlone(c: Config, db: Db, e: Event, o: Output, r: AgentResult)
    ensures DbDrive(c, db, e, WritingBack(o), r, 4) == Ended(HandleRepairSuccess(db, o, e.payload))
  {
    DriveSplit(c, db, e, WritingBack(o), r, 1, 3);
    var tx := WriteBack(db, o, e.payload);
    if tx.Raised? {
      StaysReturning(c, tx.db, e, true, r, 3);
    } else {
      LeavingAlone(c, tx.db, e, r, 2);
    }
  }

  lemma SuccessAlone(c: Config, db: Db, e: Event, o: Output, r: AgentResult)
    ensures DbDrive(c, db, e, Succeeding(o), r, 5) == Ended(OnStepSuccess(db, e.step, o, e.payload))
  {
    DriveSplit(c, db, e, Succeeding(o), r, 1, 4);
    var d := StepSuccess(db, e.step, o, e.payload);
    if e.step == QUALITY_EVALUATION {
      EvaluationAlone(c, d, e, o, r);
    } else if e.step == REPAIR {
      RepairAlone(c, d, e, o, r);
    } else {
      LeavingAlone(c, d, e, r, 3);
    }
  }

  lemma SchedulingAlone(c: Config, db: Db, e: Event, repairable: bool, rc: Pos, r: AgentResult)
    requires rc == db.retryCount
    ensures DbDrive(c, db, e, Scheduling(repairable, rc), r, 3) ==
      Ended(if repairable && e.step < QUALITY_EVALUATION then Done(ScheduleRepair(db, e.step, e.payload))
            else if Retry.ShouldRetry(rc, db.maxRetry) then ScheduleRetry(db, c.delays, e.step, e.payload, rc)
            else Done(SendToDeadLetter(db, e.step, rc)))
  {
    DriveSplit(c, db, e, Scheduling(repairable, rc), r, 1, 2);
    var (d, p) := DbStep(c, db, Worker(e, Scheduling(repairable, rc)), r);
    if p.Returning? {
      StaysReturning(c, d, e, p.raised, r, 2);
    } else {
      assert (d, p) == (db, Burying(rc));
      StaysReturning(c, SendToDeadLetter(db, e.step, rc), e, false, r, 1);
    }
  }

  lemma FailureAlone(c: Config, db: Db, e: Event, repairable: bool, r: AgentResult)
    ensures DbDrive(c, db, e, Failing(repairable), r, 5) ==
      Ended(OnStepFailure(db, c.delays, e.step, repairable, e.payload))
  {
    var d1 := StepFailure(db, e.step);
    var d2 := MarkTaskRetrying(d1);
    assert DbDrive(c, db, e, Failing(repairable), r, 5) ==
      DbDrive(c, d2, e, Scheduling(repairable, d2.retryCount), r, 3);
    SchedulingAlone(c, d2, e, repairable, d2.retryCount, r);
  }

  lemma AnswerAlone(c: Config, db: Db, e: Event, r: AgentResult)
    ensures DbDrive(c, db, e, Agent, r, 6) == Ended(HandleAgentResult(db, c.delays, e.step, r, e.payload))
  {
    match r
    case Succeeded(o) => SuccessAlone(c, db, e, o, r);
    case Failed(repairable) => FailureAlone(c, db, e, repairable, r);
  }

  /** From the transition of the step to the end. */
  lemma StepEntryAlone(c: Config, db: Db, e: Event, r: AgentResult)
    ensures var tx := TransitionStep(db, e.step, StepStatus.Running);
      DbDrive(c, db, e, EnterStep, r, 8) ==
      Ended(if tx.Raised? then tx else HandleAgentResult(StartExecution(tx.db), c.delays, e.step, r, e.payload))
  {
    DriveSplit(c, db, e, EnterStep, r, 1, 7);
    var tx := TransitionStep(db, e.step, StepStatus.Running);
    if tx.Raised? {
      StaysReturning(c, tx.db, e, true, r, 7);
    } else {
      DriveSplit(c, tx.db, e, Start, r, 1, 6);
      AnswerAlone(c, StartExecution(tx.db), e, r);
    }
  }

  /** From the transition of the task to the end, for a step that is not finished. */
  lemma EntryAlone(c: Config, db: Db, e: Event, r: AgentResult)
    requires db.steps[e.step].status != StepStatus.Success
    ensures DbDrive(c, db, e, EnterTask, r, 9) == Ended(ExecuteStep(db, c.delays, e.step, e.payload, r))
  {
    DriveSplit(c, db, e, EnterTask, r, 1, 8);
    var tx := TransitionTask(db, TaskStatus.Running);
    if tx.Raised? {
      StaysReturning(c, tx.db, e, true, r, 8);
    } else {
      StepEntryAlone(c, tx.db, e, r);
    }
  }

  /** Ten transactions after the acquisition the worker is about to return, and the rows are those of ExecuteStep. */
  lemma HandlerAlone(c: Config, db: Db, e: Event, r: AgentResult)
    ensures DbDrive(c, db, e, CheckDone, r, 10) == Ended(ExecuteStep(db, c.delays, e.step, e.payload, r))
  {
    DriveSplit(c, db, e, CheckDone, r, 1, 9);
    if db.steps[e.step].status == StepStatus.Success {
      StaysReturning(c, db, e, false, r, 9);
    } else {
      EntryAlone(c, db, e, r);
    }
  }

  // ---------------------------------------------------------------- the same on whole states

  lemma {:induction false} NeverAcquires(c: Config, db: Db, e: Event, pc: Pc, r: AgentResult, n: nat)
    requires !pc.AcquireLease?
    ensures !DbDrive(c, db, e, pc, r, n).1.AcquireLease?
    decreases n
  {
    if n > 0 {
      var (d, p) := DbStep(c, db, Worker(e, pc), r);
      NeverAcquires(c, d, e, p, r, n - 1);
    }
  }

  lemma DriveOnce(c: Config, s: State, id: nat, e: Event, pc: Pc, r: AgentResult, n: nat)
    requires var (d, p) := DbDrive(c, s.db, e, pc, r, n);
      Drive(c, s, id, r, n) == Put(s, id, e, p, d) && !p.AcquireLease? && !p.Returning?
    ensures var (d, p) := DbDrive(c, s.db, e, pc, r, n + 1); Drive(c, s, id, r, n + 1) == Put(s, id, e, p, d)
  {
    var (d, p) := DbDrive(c, s.db, e, pc, r, n);
    DriveSplit(c, s.db, e, pc, r, n, 1);
    PutStep(c, s, id, e, p, d, r);
  }

  /** The worker is not done within `n` transactions. */
  ghost predicate Busy(c: Config, db: Db, e: Event, pc: Pc, r: AgentResult, n: nat) {
    forall m | 0 <= m < n :: !DbDrive(c, db, e, pc, r, m).1.Returning?
  }

  lemma BusyBefore(c: Config, db: Db, e: Event, pc: Pc, r: AgentResult, n: nat)
    requires Busy(c, db, e, pc, r, n + 1) && !pc.AcquireLease?
    ensures Busy(c, db, e, pc, r, n)
    ensures var p := DbDrive(c, db, e, pc, r, n).1; !p.Returning? && !p.AcquireLease?
  {
    NeverAcquires(c, db, e, pc, r, n);
  }

  /** Worker `id` driven by the system is worker `id` driven on the rows. */
  lemma {:induction false} SystemDrive(c: Config, s: State, id: nat, e: Event, pc: Pc, r: AgentResult, n: nat)
    requires !pc.AcquireLease? && s == Put(s, id, e, pc, s.db) && Busy(c, s.db, e, pc, r, n)
    ensures var (d, p) := DbDrive(c, s.db, e, pc, r, n); Drive(c, s, id, r, n) == Put(s, id, e, p, d)
  {
    if n > 0 {
      var before := n - 1;
      assert Busy(c, s.db, e, pc, r, before + 1);
      BusyBefore(c, s.db, e, pc, r, before);
      SystemDrive(c, s, id, e, pc, r, before);
      DriveOnce(c, s, id, e, pc, r, before);
    }
  }

  /** The number of transactions until the worker is about to return; what follows changes nothing. */
  lemma {:induction false} FirstReturn(c: Config, db: Db, e: Event, pc: Pc, r: AgentResult, bound: nat) returns (n: nat)
    requires DbDrive(c, db, e, pc, r, bound).1.Returning?
    ensures Busy(c, db, e, pc, r, n)
    ensures DbDrive(c, db, e, pc, r, n) == DbDrive(c, db, e, pc, r, bound)
    decreases bound
  {
    if pc.Returning? {
      n := 0;
      StaysReturning(c, db, e, pc.raised, r, bound);
    } else {
      var (d, p) := DbStep(c, db, Worker(e, pc), r);
      n := FirstReturn(c, d, e, p, r, bound - 1);
      n := n + 1;
      forall m | 0 <= m < n
        ensures !DbDrive(c, db, e, pc, r, m).1.Returning?
      {
        assert m > 0 ==> DbDrive(c, db, e, pc, r, m) == DbDrive(c, d, e, p, r, m - 1);
      }
    }
  }

  /** Worker `id` has returned or raised and is gone, its lease given back, its message settled, the rows at `db`. */
  function Gone(s: State, id: nat, db: Db, raised: bool): State
    requires id in s.workers
  {
    MessageSettled(s, id, raised).(db := db, workers := s.workers - {id}, leases := s.leases - {s.workers[id].Step()})
  }

  /** The state after a delivery that was handled from lease to release. */
  function Handled(c: Config, s: State, id: nat, r: AgentResult): State
    requires id in s.workers
  {
    var e := s.workers[id].event;
    var tx := ExecuteStep(s.db, c.delays, e.step, e.payload, r);
    Gone(s, id, tx.db, tx.Raised?)
  }

  /** The state right after worker `id` took its lease. */
  function Taken(c: Config, s: State, id: nat): State
    requires id in s.workers
  {
    var e := s.workers[id].event;
    Put(s.(leases := EL.Acquired(s.leases, e.step, id, s.now, c.ttl)), id, e, CheckDone, s.db)
  }

  /** The state after the lease and `bound` transactions. */
  function Reached(c: Config, s: State, id: nat, r: AgentResult, bound: nat): State
    requires id in s.workers
  {
    var e := s.workers[id].event;
    var (db, pc) := DbDrive(c, s.db, e, CheckDone, r, bound);
    Put(s.(leases := EL.Acquired(s.leases, e.step, id, s.now, c.ttl)), id, e, pc, db)
  }

  predicate FindsLeaseFree(s: State, id: nat) {
    id in s.workers && s.workers[id].pc.AcquireLease? && !EL.Live(s.leases, s.workers[id].Step(), s.now)
  }

  /** From the lease on, for as many transactions as the worker is busy. */
  lemma HolderRuns(c: Config, s: State, id: nat, r: AgentResult, n: nat)
    requires id in s.workers && Busy(c, s.db, s.workers[id].event, CheckDone, r, n)
    ensures Drive(c, Taken(c, s, id), id, r, n) == Reached(c, s, id, r, n)
  {
    var e := s.workers[id].event;
    var h := Taken(c, s, id);
    assert h.workers[id := Worker(e, CheckDone)] == h.workers;
    SystemDrive(c, h, id, e, CheckDone, r, n);
    var (db, pc) := DbDrive(c, s.db, e, CheckDone, r, n);
  }

  /** A worker driven on from the state `h` it reaches with its first action. */
  lemma {:induction false} DriveFrom(c: Config, s: State, h: State, id: nat, r: AgentResult, n: nat)
    requires Drive(c, s, id, r, 1) == h
    ensures Drive(c, s, id, r, n + 1) == Drive(c, h, id, r, n)
  {
    if n > 0 {
      var before := n - 1;
      DriveFrom(c, s, h, id, r, before);
    }
  }

  lemma DriveTaken(c: Config, s: State, id: nat, r: AgentResult, n: nat)
    requires FindsLeaseFree(s, id)
    ensures Drive(c, s, id, r, n + 1) == Drive(c, Taken(c, s, id), id, r, n)
  {
    DriveFrom(c, s, Taken(c, s, id), id, r, n);
  }

  lemma RunsBusy(c: Config, s: State, id: nat, r: AgentResult, n: nat)
    requires FindsLeaseFree(s, id) && Busy(c, s.db, s.workers[id].event, CheckDone, r, n)
    ensures Drive(c, s, id, r, n + 1) == Reached(c, s, id, r, n)
  {
    HolderRuns(c, s, id, r, n);
    DriveTaken(c, s, id, r, n);
  }

  lemma RunsWithin(c: Config, s: State, id: nat, r: AgentResult, bound: nat) returns (n: nat)
    requires FindsLeaseFree(s, id)
    requires DbDrive(c, s.db, s.workers[id].event, CheckDone, r, bound).1.Returning?
    ensures Drive(c, s, id, r, n) == Reached(c, s, id, r, bound)
  {
    n := FirstReturn(c, s.db, s.workers[id].event, CheckDone, r, bound);
    RunsBusy(c, s, id, r, n);
    n := n + 1;
  }

  /** The same for a worker that is about to return after at most `bound` transactions. */
  lemma RunsAndReturns(c: Config, s: State, id: nat, r: AgentResult, bound: nat) returns (n: nat)
    requires FindsLeaseFree(s, id)
    requires DbDrive(c, s.db, s.workers[id].event, CheckDone, r, bound).1.Returning?
    ensures var (d, p) := DbDrive(c, s.db, s.workers[id].event, CheckDone, r, bound);
      Run(c, s, seq(n, _ => Act(id, r))) == Gone(s, id, d, p.raised)
  {
    n := RunsWithin(c, s, id, r, bound);
    var (d, p) := DbDrive(c, s.db, s.workers[id].event, CheckDone, r, bound);
    LastAct(c, s, id, r, d, p);
    n := n + 1;
    DriveIsRun(c, s, id, r, n);
  }

  /** The release and the settlement. */
  lemma LastAct(c: Config, s: State, id: nat, r: AgentResult, d: Db, p: Pc)
    requires FindsLeaseFree(s, id) && p.Returning?
    ensures var e := s.workers[id].event;
      Next(c, Put(s.(leases := EL.Acquired(s.leases, e.step, id, s.now, c.ttl)), id, e, p, d), Act(id, r)) ==
      Gone(s, id, d, p.raised)
  {
    var e := s.workers[id].event;
    var t := Put(s.(leases := EL.Acquired(s.leases, e.step, id, s.now, c.ttl)), id, e, p, d);
    assert t.workers - {id} == s.workers - {id};
    assert t.leases - {e.step} == s.leases - {e.step};
  }

  /** A worker that finds its lease free and is not interrupted has the effect of the handler, and is gone. */
  lemma RunsAlone(c: Config, s: State, id: nat, r: AgentResult) returns (n: nat)
    requires FindsLeaseFree(s, id)
    ensures Run(c, s, seq(n, _ => Act(id, r))) == Handled(c, s, id, r)
  {
    HandlerAlone(c, s.db, s.workers[id].event, r);
    n := RunsAndReturns(c, s, id, r, 10);
  }
}

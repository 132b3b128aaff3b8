/**
 Many workers on one task: every delivery is a worker that performs one transaction (or one lease
 operation) at a time, in any order with the others. A committed event may be delivered any number
 of times and at any moment, a worker may vanish between any two of its steps, and time passes. The
 message of a worker that raised or vanished goes back to its queue and is delivered again, marked as
 redelivered; a marked message whose handler raises is rejected (app/workers/light_worker.py:112-129).
 */
module Interleaving {
  import opened Options
  import opened StateMachine
  import opened Workflow
  import EL = ExecutionLease
  import LW = LightWorker
  import Retry

  /** Where a worker is: the operation it performs next. */
  datatype Pc =
    | AcquireLease
    | CheckDone
    | EnterTask
    | EnterStep
    | Start
    | Agent
    | Succeeding(output: Output)
    | Failing(repairable: bool)
    | Marking(repairable: bool)
    | Scheduling(repairable: bool, retryCount: Pos)
    | Burying(count: nat)
    | WritingBack(output: Output)
    | Recording(verdict: Output)
    | EnteringEvaluation(verdict: Output)
    | Deciding(verdict: Output)
    | Rejecting(verdict: Output, retryCount: Pos)
    | Leaving
    | Returning(raised: bool)

  datatype Worker = Worker(event: Event, pc: Pc) {
    function Step(): StepId { event.step }
  }

  datatype Config = Config(delays: seq<int>, ttl: Pos)

  /**
   `requeued` are the messages put back into their queues, `redelivered` the workers whose message carries
   the mark. `taken` and `crashes` record what happened: the indices of the events the publisher's copies
   of which were delivered, in order, and the workers that died.
   */
  datatype State = State(
    db: Db, leases: map<StepId, EL.Lease>, now: int, workers: map<nat, Worker>, nextId: nat,
    requeued: multiset<Event>, redelivered: set<nat>, taken: seq<nat>, crashes: nat)

  datatype Action =
    | Deliver(index: nat)
    | Redeliver(event: Event)
    | Act(id: nat, result: AgentResult)
    | Crash(id: nat)
    | Wait(until: int)
    | ResumeTask
    | Forget(step: StepId)

  /** One transaction of a worker that holds its lease; the answer of the agent is an input. */
  function DbStep(c: Config, db: Db, w: Worker, r: AgentResult): (Db, Pc) {
    var s := w.Step();
    match w.pc
    case AcquireLease => (db, CheckDone)
    case CheckDone =>
      if db.steps[s].status == StepStatus.Success then (db, Returning(false)) else (db, EnterTask)
    case EnterTask => Continue(TransitionTask(db, TaskStatus.Running), EnterStep)
    case EnterStep => Continue(TransitionStep(db, s, StepStatus.Running), Start)
    case Start => (StartExecution(db), Agent)
    case Agent => (db, match r case Succeeded(o) => Succeeding(o) case Failed(repairable) => Failing(repairable))
    case Succeeding(o) =>
      (StepSuccess(db, s, o, w.event.payload),
       if s == REPAIR then WritingBack(o) else if s == QUALITY_EVALUATION then Recording(o) else Leaving)
    case Failing(repairable) => (StepFailure(db, s), Marking(repairable))
    case Marking(repairable) => (MarkTaskRetrying(db), Scheduling(repairable, db.retryCount + 1))
    case Scheduling(repairable, rc) =>
      if repairable && s < QUALITY_EVALUATION then (ScheduleRepair(db, s, w.event.payload), Returning(false))
      else if Retry.ShouldRetry(rc, db.maxRetry) then
        Continue(ScheduleRetry(db, c.delays, s, w.event.payload, rc), Returning(false))
      else (db, Burying(db.retryCount))
    case Burying(count) => (SendToDeadLetter(db, s, count), Returning(false))
    case WritingBack(o) => Continue(WriteBack(db, o, w.event.payload), Leaving)
    case Recording(v) => (RecordEvaluation(db, v), EnteringEvaluation(v))
    case EnteringEvaluation(v) => Continue(TransitionTask(db, TaskStatus.Evaluating), Deciding(v))
    case Deciding(v) =>
      (match Judge(v)
       case Accept => Continue(FinalizeTask(db, TaskStatus.Success, Some(ScoreOf(v))), Returning(false))
       case Review => Continue(FinalizeTask(db, TaskStatus.ManualReview, Some(ScoreOf(v))), Returning(false))
       case Reject => (MarkTaskRetrying(db), Rejecting(v, db.retryCount + 1)))
    case Rejecting(v, rc) =>
      if Retry.ShouldRetry(rc, db.maxRetry) then (RerunFromScript(db), Returning(false))
      else Continue(FinalizeTask(db, TaskStatus.ManualReview, Some(ScoreOf(v))), Returning(false))
    case Leaving => Continue(TransitionTask(db, TaskStatus.Running), Returning(false))
    case Returning(raised) => (db, Returning(raised))
  }

  /** An exception leads straight to the release in the `finally` block. */
  function Continue(tx: Tx, next: Pc): (Db, Pc) {
    match tx
    case Done(db) => (db, next)
    case Raised(db) => (db, Returning(true))
  }

  function Next(c: Config, s: State, a: Action): State {
    match a
    case Deliver(index) =>
      if index < |s.db.outbox|
      then s.(workers := s.workers[s.nextId := Worker(s.db.outbox[index], AcquireLease)], nextId := s.nextId + 1,
              taken := s.taken + [index])
      else s
    case Redeliver(e) =>
      if e in s.requeued
      then s.(workers := s.workers[s.nextId := Worker(e, AcquireLease)], nextId := s.nextId + 1,
              requeued := s.requeued - multiset{e}, redelivered := s.redelivered + {s.nextId})
      else s
    case Act(id, r) => if id in s.workers then ActOf(c, s, id, r) else s
    case Crash(id) =>
      if id in s.workers
      then s.(workers := s.workers - {id}, requeued := s.requeued + multiset{s.workers[id].event},
              crashes := s.crashes + 1)
      else s
    case Wait(until) => if until > s.now then s.(now := until) else s
    case ResumeTask => s.(db := ResumeDeadLetter(s.db))
    case Forget(step) => s.(leases := EL.Released(s.leases, step, None, s.now))
  }

  function ActOf(c: Config, s: State, id: nat, r: AgentResult): State
    requires id in s.workers
  {
    var w := s.workers[id];
    if w.pc.AcquireLease? && EL.Live(s.leases, w.Step(), s.now) then
      s.(workers := s.workers - {id})                       // somebody holds the step: message dropped
    else if w.pc.AcquireLease? then
      s.(leases := EL.Acquired(s.leases, w.Step(), id, s.now, c.ttl), workers := s.workers[id := w.(pc := CheckDone)])
    else if w.pc.Returning? then
      MessageSettled(s, id, w.pc.raised).(
        leases := EL.Released(s.leases, w.Step(), Some(id), s.now), workers := s.workers - {id})
    else
      var (d, pc) := DbStep(c, s.db, w, r);
      s.(db := d, workers := s.workers[id := w.(pc := pc)])
  }

  /** What the consumer does with the message of a handler that has returned or raised. */
  function MessageSettled(s: State, id: nat, raised: bool): State
    requires id in s.workers
  {
    if LW.Settle(true, id in s.redelivered, raised).Requeue?
    then s.(requeued := s.requeued + multiset{s.workers[id].event})
    else s
  }

  function Initial(maxRetry: int, start: StepId, history: map<StepId, Output>): State {
    State(CreateTask(maxRetry, start, history), map[], 0, map[], 0, multiset{}, {}, [], 0)
  }

  function Run(c: Config, init: State, actions: seq<Action>): State {
    if actions == [] then init
    else Next(c, Run(c, init, actions[..|actions| - 1]), actions[|actions| - 1])
  }

  lemma {:induction false} RunAppend(c: Config, init: State, a: seq<Action>, b: seq<Action>)
    ensures Run(c, init, a + b) == Run(c, Run(c, init, a), b)
  {
    if b == [] {
      assert a + b == a;
    } else {
      assert (a + b)[..|a + b| - 1] == a + b[..|b| - 1];
      RunAppend(c, init, a, b[..|b| - 1]);
    }
  }

  lemma RunOne(c: Config, s: State, a: Action)
    ensures Run(c, s, [a]) == Next(c, s, a)
  {
    assert [a][..0] == [];
    assert Run(c, s, [a]) == Next(c, Run(c, s, [a][..0]), a);
  }

  lemma RunTwo(c: Config, s: State, a: Action, b: Action)
    ensures Run(c, s, [a, b]) == Next(c, Next(c, s, a), b)
  {
    RunOne(c, s, a);
    assert [a, b][..1] == [a];
    assert Run(c, s, [a, b]) == Next(c, Run(c, s, [a, b][..1]), b);
  }

  /** `n` steps of one worker in a row, its agent answering `r`. */
  function Drive(c: Config, s: State, id: nat, r: AgentResult, n: nat): State
    decreases n
  {
    if n == 0 then s else Next(c, Drive(c, s, id, r, n - 1), Act(id, r))
  }

  lemma {:induction false} DriveIsRun(c: Config, s: State, id: nat, r: AgentResult, n: nat)
    ensures Run(c, s, seq(n, _ => Act(id, r))) == Drive(c, s, id, r, n)
  {
    if n > 0 {
      var acts: seq<Action> := seq(n, _ => Act(id, r));
      assert acts[..n - 1] == seq(n - 1, _ => Act(id, r));
      DriveIsRun(c, s, id, r, n - 1);
    }
  }

  /** The state with worker `id` at `pc` and the rows at `db`. */
  function Put(s: State, id: nat, e: Event, pc: Pc, db: Db): State {
    s.(db := db, workers := s.workers[id := Worker(e, pc)])
  }

  lemma PutStep(c: Config, s: State, id: nat, e: Event, pc: Pc, db: Db, r: AgentResult)
    requires !pc.AcquireLease? && !pc.Returning?
    ensures var (d, p) := DbStep(c, db, Worker(e, pc), r);
      Next(c, Put(s, id, e, pc, db), Act(id, r)) == Put(s, id, e, p, d)
  {
    var (d, p) := DbStep(c, db, Worker(e, pc), r);
    assert s.workers[id := Worker(e, pc)][id := Worker(e, p)] == s.workers[id := Worker(e, p)];
  }

  // ---------------------------------------------------------------- what runs are assumed to respect

  predicate Holding(w: Worker) { !w.pc.AcquireLease? }

  /**
   Executions finish inside their lease (time does not run past the lease of a worker that is still
   going to act), and a manual resume deletes no lease of a running worker.
   */
  ghost predicate InsideLease(s: State, a: Action) {
    match a
    case Wait(until) =>
      forall id | id in s.workers && Holding(s.workers[id]) ::
        s.workers[id].Step() in s.leases ==> until < s.leases[s.workers[id].Step()].expiry
    case Forget(step) => forall id | id in s.workers && Holding(s.workers[id]) :: s.workers[id].Step() != step
    case _ => true
  }

  predicate Fresh(db: Db, e: Event) {
    e.generation == db.steps[e.step].resets
  }

  predicate Enterable(status: StepStatus) {
    status in {StepStatus.Pending, StepStatus.Retrying, StepStatus.Running}
  }

  /** The worker's next transaction sets its step to running. */
  predicate Enters(db: Db, w: Worker) {
    w.pc.EnterStep? && Enterable(db.steps[w.Step()].status)
  }

  /** No message crosses a reset: a step is not entered on an event older than the last reset of that step. */
  predicate NotStale(s: State, a: Action) {
    a.Act? && a.id in s.workers && Enters(s.db, s.workers[a.id]) ==> Fresh(s.db, s.workers[a.id].event)
  }

  /** Every action of the run keeps executions inside their leases. */
  ghost predicate Leased(c: Config, init: State, actions: seq<Action>)
    decreases |actions|
  {
    actions == [] ||
    (var before := actions[..|actions| - 1];
     Leased(c, init, before) && InsideLease(Run(c, init, before), actions[|actions| - 1]))
  }

  /** No action of the run enters a step on a stale event. */
  predicate UpToDate(c: Config, init: State, actions: seq<Action>)
    decreases |actions|
  {
    actions == [] ||
    (var before := actions[..|actions| - 1];
     UpToDate(c, init, before) && NotStale(Run(c, init, before), actions[|actions| - 1]))
  }

  /** Without time passing and without leases deleted, executions stay inside their leases. */
  lemma {:induction false} LeasedWithoutTime(c: Config, init: State, actions: seq<Action>)
    requires forall a | a in actions :: a.Deliver? || a.Redeliver? || a.Act? || a.ResumeTask?
    ensures Leased(c, init, actions)
    decreases |actions|
  {
    if actions != [] {
      var before := actions[..|actions| - 1];
      assert forall a | a in before :: a in actions;
      assert actions[|actions| - 1] in actions;
      LeasedWithoutTime(c, init, before);
    }
  }

  // ---------------------------------------------------------------- the lease discipline

  /** Every worker past the acquisition owns a running lease on its step. */
  ghost predicate LeaseInv(s: State) {
    && (forall id | id in s.workers :: id < s.nextId)
    && (forall id | id in s.workers && Holding(s.workers[id]) :: Owns(s, id))
  }

  predicate Owns(s: State, id: nat)
    requires id in s.workers
  {
    var step := s.workers[id].Step();
    EL.Live(s.leases, step, s.now) && s.leases[step].owner == id
  }

  lemma LeaseStep(c: Config, s: State, a: Action)
    requires LeaseInv(s) && InsideLease(s, a)
    ensures LeaseInv(Next(c, s, a))
  {
    var t := Next(c, s, a);
    forall id | id in t.workers && Holding(t.workers[id])
      ensures Owns(t, id)
    {
      if a.Act? && a.id == id {
        assert id in s.workers;
      } else {
        assert id in s.workers && s.workers[id] == t.workers[id] && Owns(s, id);
      }
    }
  }

  /** At most one worker at a time is past the acquisition on any given step. */
  lemma OneHolderPerStep(s: State, a: nat, b: nat)
    requires LeaseInv(s) && a in s.workers && b in s.workers
    requires Holding(s.workers[a]) && Holding(s.workers[b]) && s.workers[a].Step() == s.workers[b].Step()
    ensures a == b
  {
    assert Owns(s, a) && Owns(s, b);
  }
}

/**
 Runs in which a duplicate crosses a reset. Leases are respected, yet the frontier breaks and the two
 writes that do not consult the transition table leave it; from which statuses is stated exactly, for
 every run whatsoever.
 */
module StaleDuplicates {
  import opened Options
  import opened StateMachine
  import opened Workflow
  import opened Interleaving
  import opened Uninterrupted
  import opened Safety
  import opened Scenarios
  import EL = ExecutionLease
  import SR = SequentialRuns

  // ---------------------------------------------------------------- when a write leaves the table

  /** mark_task_retrying, after a failure or a rejection. */
  predicate Marks(w: Worker) {
    w.pc.Marking? || (w.pc.Deciding? && Judge(w.pc.verdict) == Reject)
  }

  /** send_to_dead_letter */
  predicate Buries(w: Worker) {
    w.pc.Burying?
  }

  predicate TaskLeavesTable(db: Db, w: Worker) {
    || (Marks(w)
        && db.status in {TaskStatus.Queued, TaskStatus.Success, TaskStatus.ManualReview, TaskStatus.DeadLetter})
    || (Buries(w) && db.status == TaskStatus.Success)
  }

  /** A worker that has put the task to running at least once. */
  predicate Begun(pc: Pc) {
    !(pc.AcquireLease? || pc.CheckDone? || pc.EnterTask? || pc.Returning?)
  }

  ghost predicate StatusInv(s: State) {
    && s.db.status != TaskStatus.Failed
    && (s.db.status == TaskStatus.Created ==> forall id | id in s.workers :: !Begun(s.workers[id].pc))
  }

  lemma StatusStep(c: Config, s: State, a: Action)
    requires StatusInv(s)
    ensures StatusInv(Next(c, s, a))
  {
    if a.Act? && a.id in s.workers {
      StatusTransaction(c, s.db, s.workers[a.id], a.result);
    }
  }

  lemma StatusTransaction(c: Config, db: Db, w: Worker, r: AgentResult)
    requires db.status != TaskStatus.Failed && (db.status == TaskStatus.Created ==> !Begun(w.pc))
    ensures var (d, pc) := DbStep(c, db, w, r);
      && d.status != TaskStatus.Failed
      && (d.status == TaskStatus.Created ==> db.status == TaskStatus.Created && !Begun(pc))
  {
  }

  lemma {:induction false} StatusInvHolds(c: Config, init: State, actions: seq<Action>)
    requires StatusInv(init)
    ensures StatusInv(Run(c, init, actions))
    decreases |actions|
  {
    if actions != [] {
      var before := actions[..|actions| - 1];
      StatusInvHolds(c, init, before);
      StatusStep(c, Run(c, init, before), actions[|actions| - 1]);
    }
  }

  lemma StatusEdgeIff(c: Config, db: Db, w: Worker, r: AgentResult)
    requires db.status != TaskStatus.Failed && (db.status == TaskStatus.Created ==> !Begun(w.pc))
    ensures !TaskEdge(db.status, DbStep(c, db, w, r).0.status) <==> TaskLeavesTable(db, w)
  {
  }

  /**
   In every run, with any duplicates, crashes and leases: the next action takes the task off its
   transition table exactly when it marks a task retrying that is queued, finished or dead, or buries one
   that has succeeded. All other writes are checked or harmless.
   */
  lemma TaskLeavesTableIff(
    c: Config, maxRetry: int, start: StepId, history: map<StepId, Output>, actions: seq<Action>, a: Action)
    ensures var s := Run(c, Initial(maxRetry, start, history), actions);
      !TaskEdge(s.db.status, Next(c, s, a).db.status) <==>
      a.Act? && a.id in s.workers && TaskLeavesTable(s.db, s.workers[a.id])
  {
    var init := Initial(maxRetry, start, history);
    StatusInvHolds(c, init, actions);
    var s := Run(c, init, actions);
    if a.Act? && a.id in s.workers {
      StatusEdgeIff(c, s.db, s.workers[a.id], a.result);
    }
  }

  /** The writes of step statuses that consult nothing: the step's own result, and a repair's write-back. */
  predicate StepLeavesTable(db: Db, w: Worker, i: StepId) {
    var status := db.steps[i].status;
    || (w.pc.Succeeding? && w.Step() == i && status !in {StepStatus.Running, StepStatus.Success})
    || (w.pc.Failing? && w.Step() == i && status !in {StepStatus.Running, StepStatus.Failed})
    || (w.pc.WritingBack? && Repairable(w.event.payload.target) && w.event.payload.target.value == i
        && status !in {StepStatus.Running, StepStatus.Success, StepStatus.Failed})
  }

  /** In every state an action takes a step off its table, resets and write-backs over a failure aside, just then. */
  lemma StepLeavesTableIff(c: Config, s: State, a: Action, i: StepId)
    ensures !StepEdge(s.db.steps[i], Next(c, s, a).db.steps[i]) <==>
      a.Act? && a.id in s.workers && StepLeavesTable(s.db, s.workers[a.id], i)
  {
    if a.Act? && a.id in s.workers {
      StepTransactionIff(c, s.db, s.workers[a.id], a.result, i);
    }
  }

  lemma StepTransactionIff(c: Config, db: Db, w: Worker, r: AgentResult, i: StepId)
    ensures !StepEdge(db.steps[i], DbStep(c, db, w, r).0.steps[i]) <==> StepLeavesTable(db, w, i)
  {
    match w.pc {
      case Succeeding(_) => ResultIff(c, db, w, r, i);
      case Failing(_) => ResultIff(c, db, w, r, i);
      case WritingBack(_) => WriteBackIff(c, db, w, r, i);
      case _ => OthersIff(c, db, w, r, i);
    }
  }

  lemma ResultIff(c: Config, db: Db, w: Worker, r: AgentResult, i: StepId)
    requires w.pc.Succeeding? || w.pc.Failing?
    ensures !StepEdge(db.steps[i], DbStep(c, db, w, r).0.steps[i]) <==> StepLeavesTable(db, w, i)
  {
  }

  lemma WriteBackIff(c: Config, db: Db, w: Worker, r: AgentResult, i: StepId)
    requires w.pc.WritingBack?
    ensures !StepEdge(db.steps[i], DbStep(c, db, w, r).0.steps[i]) <==> StepLeavesTable(db, w, i)
  {
  }

  lemma OthersIff(c: Config, db: Db, w: Worker, r: AgentResult, i: StepId)
    requires !w.pc.Succeeding? && !w.pc.Failing? && !w.pc.WritingBack?
    ensures StepEdge(db.steps[i], DbStep(c, db, w, r).0.steps[i])
  {
  }

  // ---------------------------------------------------------------- a stale repair waiting to be counted

  /** An old repair message, delivered again after a resume, has failed; its worker is about to mark the task. */
  ghost predicate StaleParked(c: Config, s: State, b: nat) {
    && s.workers.Keys == {b} && s.workers[b].pc == Marking(false) && s.workers[b].Step() == REPAIR
    && s.leases == map[REPAIR := EL.Lease(b, s.now + c.ttl)]
    && Ready(s) && Frontmost(s) == PRODUCT_ANALYSIS && s.db.maxRetry <= 1 && s.db.retryCount == 0
  }

  /** The first step has failed for good but can be repaired. */
  predicate HandedOver(d: Db) {
    && |d.outbox| == 2 && d.outbox[1].step == REPAIR && d.steps[REPAIR].status == StepStatus.Pending
    && d.status == TaskStatus.Retrying && d.retryCount == 1 && d.maxRetry <= 1
  }

  lemma HandsOver(c: Config, db: Db, e: Event) returns (bound: nat)
    requires db.maxRetry <= 1 && db.outbox == [e] && e.step == PRODUCT_ANALYSIS && db.retryCount == 0
    requires db.status == TaskStatus.Created && db.steps[PRODUCT_ANALYSIS] == FRESH_ROW
    ensures var (d, pc) := DbDrive(c, db, e, CheckDone, AgentResult.Failed(true), bound);
      HandedOver(d) && pc == Returning(false)
  {
    bound := 10;
    HandlerAlone(c, db, e, AgentResult.Failed(true));
  }

  lemma RepairDies(c: Config, db: Db) returns (bound: nat)
    requires HandedOver(db)
    ensures var (d, pc) := DbDrive(c, db, db.outbox[1], CheckDone, AgentResult.Failed(false), bound);
      pc == Returning(false) && d.outbox == db.outbox && d.status == TaskStatus.DeadLetter && d.maxRetry == db.maxRetry
  {
    bound := 10;
    HandlerAlone(c, db, db.outbox[1], AgentResult.Failed(false));
  }

  /** Rows of a resumed task with the stale repair's failure written. */
  lemma StaleFails(c: Config, dead: Db) returns (n: nat)
    requires |dead.outbox| == 2 && dead.outbox[1].step == REPAIR && dead.maxRetry <= 1
    ensures var (d, pc) := DbDrive(c, Resume(dead), dead.outbox[1], CheckDone, AgentResult.Failed(false), n);
      && Busy(c, Resume(dead), dead.outbox[1], CheckDone, AgentResult.Failed(false), n) && pc == Marking(false)
      && |d.outbox| == 3 && d.outbox[2].step == PRODUCT_ANALYSIS && SR.Token(d, d.outbox[2])
      && d.maxRetry <= 1 && d.retryCount == 0
  {
    var db := Resume(dead);
    n := 6;
    var d := StepFailure(SR.Entered(db, REPAIR), REPAIR);
    forall i: StepId | i < REPAIR
      ensures FrontierRow(d, 0, i)
    {
    }
  }

  predicate Idle(s: State) {
    s.workers == map[] && s.leases == map[]
  }

  lemma DiesOnce(c: Config, maxRetry: int) returns (actions: seq<Action>, s: State)
    requires maxRetry <= 1
    ensures s == Run(c, Initial(maxRetry, PRODUCT_ANALYSIS, map[]), actions) && Idle(s)
    ensures |s.db.outbox| == 2 && s.db.outbox[1].step == REPAIR && s.db.maxRetry <= 1
    ensures s.db.status == TaskStatus.DeadLetter
    ensures forall a | a in actions :: a.Deliver? || a.Act?
  {
    var init := Initial(maxRetry, PRODUCT_ANALYSIS, map[]);
    var e := init.db.outbox[0];
    var bound := HandsOver(c, init.db, e);
    var n := DeliverBeside(c, init, 0, AgentResult.Failed(true), bound);
    var first := [Deliver(0)] + Acts(0, AgentResult.Failed(true), n);
    var second: seq<Action>;
    second, s := RepairDiesAlone(
      c, HandledBeside(init, 0, DbDrive(c, init.db, e, CheckDone, AgentResult.Failed(true), bound).0));
    RunAppend(c, init, first, second);
    actions := first + second;
  }

  lemma RepairDiesAlone(c: Config, s: State) returns (actions: seq<Action>, t: State)
    requires Idle(s) && HandedOver(s.db)
    ensures t == Run(c, s, actions) && Idle(t)
    ensures t.db.outbox == s.db.outbox && t.db.maxRetry <= 1 && t.db.status == TaskStatus.DeadLetter
    ensures forall a | a in actions :: a.Deliver? || a.Act?
  {
    var bound := RepairDies(c, s.db);
    var n := DeliverBeside(c, s, 1, AgentResult.Failed(false), bound);
    t := HandledBeside(s, 1, DbDrive(c, s.db, s.db.outbox[1], CheckDone, AgentResult.Failed(false), bound).0);
    actions := [Deliver(1)] + Acts(s.nextId, AgentResult.Failed(false), n);
  }

  lemma ParkedStale(c: Config, s: State, d: Db)
    requires Idle(s) && |s.db.outbox| > 1 && s.db.outbox[1].step == REPAIR
    requires |d.outbox| == 3 && d.outbox[2].step == PRODUCT_ANALYSIS && SR.Token(d, d.outbox[2])
    requires d.maxRetry <= 1 && d.retryCount == 0
    ensures StaleParked(c, Parked(c, s, 1, Marking(false), d), s.nextId)
  {
  }

  /** The task dies, is resumed, and the old repair message is delivered again. */
  lemma ParksStale(c: Config, maxRetry: int) returns (actions: seq<Action>, s: State, b: nat)
    requires maxRetry <= 1
    ensures s == Run(c, Initial(maxRetry, PRODUCT_ANALYSIS, map[]), actions) && StaleParked(c, s, b)
    ensures forall a | a in actions :: a.Deliver? || a.Act? || a.ResumeTask?
  {
    var init := Initial(maxRetry, PRODUCT_ANALYSIS, map[]);
    var r := AgentResult.Failed(false);
    var first, dead := DiesOnce(c, maxRetry);
    var resumed := ResumesIdle(c, dead);
    var n := StaleFails(c, dead.db);
    DeliverAndPark(c, resumed, 1, r, n);
    var d := DbDrive(c, resumed.db, dead.db.outbox[1], CheckDone, r, n).0;
    b := resumed.nextId;
    s := Parked(c, resumed, 1, Marking(false), d);
    ParkedStale(c, resumed, d);
    var rest := [Deliver(1)] + Acts(b, r, n + 1);
    RunThen(c, dead, ResumeTask, rest);
    RunAppend(c, init, first, [ResumeTask] + rest);
    actions := first + ([ResumeTask] + rest);
  }

  // ---------------------------------------------------------------- meanwhile the task comes to an end

  /** The stale worker still waits and the task has come to this status. */
  predicate Waits(s: State, b: nat, status: TaskStatus) {
    b in s.workers && s.workers[b].pc == Marking(false) && s.workers[b].Step() == REPAIR && s.db.status == status
  }

  const ACCEPTED := Doc(90, true, false, "")
  const REVIEWED := Doc(10, false, false, "")

  lemma VerdictEffect(c: Config, db: Db, e: Event, v: Output) returns (bound: nat)
    requires SR.Token(db, e) && e.step == QUALITY_EVALUATION && v in {ACCEPTED, REVIEWED}
    ensures var (d, pc) := DbDrive(c, db, e, CheckDone, Succeeded(v), bound);
      pc == Returning(false) && d.status == if v == ACCEPTED then TaskStatus.Success else TaskStatus.ManualReview
  {
    bound := 10;
    HandlerAlone(c, db, e, Succeeded(v));
    SR.TokenEnters(db, c.delays, e, Succeeded(v));
  }

  lemma FirstStepDies(c: Config, db: Db, e: Event) returns (bound: nat)
    requires SR.Token(db, e) && e.step == PRODUCT_ANALYSIS && db.maxRetry <= 1
    ensures var (d, pc) := DbDrive(c, db, e, CheckDone, AgentResult.Failed(false), bound);
      pc == Returning(false) && d.status == TaskStatus.DeadLetter
  {
    bound := 10;
    HandlerAlone(c, db, e, AgentResult.Failed(false));
    SR.TokenEnters(db, c.delays, e, AgentResult.Failed(false));
  }

  lemma JudgedBeside(c: Config, s: State, b: nat, v: Output) returns (actions: seq<Action>, t: State)
    requires Ready(s) && Frontmost(s) == QUALITY_EVALUATION && v in {ACCEPTED, REVIEWED}
    requires b in s.workers && s.workers[b].pc == Marking(false) && s.workers[b].Step() == REPAIR
    ensures t == Run(c, s, actions)
    ensures Waits(t, b, if v == ACCEPTED then TaskStatus.Success else TaskStatus.ManualReview)
    ensures forall a | a in actions :: a.Deliver? || a.Act?
  {
    var last := |s.db.outbox| - 1;
    var bound := VerdictEffect(c, s.db, s.db.outbox[last], v);
    var n := DeliverBeside(c, s, last, Succeeded(v), bound);
    t := HandledBeside(s, last, DbDrive(c, s.db, s.db.outbox[last], CheckDone, Succeeded(v), bound).0);
    actions := [Deliver(last)] + Acts(s.nextId, Succeeded(v), n);
  }

  lemma EndsBeside(c: Config, s: State, b: nat, v: Output) returns (actions: seq<Action>, t: State)
    requires StaleParked(c, s, b) && v in {ACCEPTED, REVIEWED}
    ensures t == Run(c, s, actions)
    ensures Waits(t, b, if v == ACCEPTED then TaskStatus.Success else TaskStatus.ManualReview)
    ensures forall a | a in actions :: a.Deliver? || a.Act?
  {
    var work, u := WorkUpTo(c, s, Empty, QUALITY_EVALUATION);
    var judge: seq<Action>;
    judge, t := JudgedBeside(c, u, b, v);
    RunAppend(c, s, work, judge);
    actions := work + judge;
  }

  lemma DiesBeside(c: Config, s: State, b: nat) returns (actions: seq<Action>, t: State)
    requires StaleParked(c, s, b)
    ensures t == Run(c, s, actions) && Waits(t, b, TaskStatus.DeadLetter)
    ensures forall a | a in actions :: a.Deliver? || a.Act?
  {
    var last := |s.db.outbox| - 1;
    var r := AgentResult.Failed(false);
    var bound := FirstStepDies(c, s.db, s.db.outbox[last]);
    var n := DeliverBeside(c, s, last, r, bound);
    t := HandledBeside(s, last, DbDrive(c, s.db, s.db.outbox[last], CheckDone, r, bound).0);
    actions := [Deliver(last)] + Acts(s.nextId, r, n);
  }

  /** Any of the four statuses can be reached while the stale worker waits. */
  lemma ReachesStatus(c: Config, s: State, b: nat, status: TaskStatus) returns (actions: seq<Action>, t: State)
    requires StaleParked(c, s, b)
    requires status in {TaskStatus.Queued, TaskStatus.Success, TaskStatus.ManualReview, TaskStatus.DeadLetter}
    ensures t == Run(c, s, actions) && Waits(t, b, status)
    ensures forall a | a in actions :: a.Deliver? || a.Act? || a.ResumeTask?
  {
    if status == TaskStatus.Success {
      actions, t := EndsBeside(c, s, b, ACCEPTED);
    } else if status == TaskStatus.ManualReview {
      actions, t := EndsBeside(c, s, b, REVIEWED);
    } else {
      actions, t := DiesBeside(c, s, b);
      if status == TaskStatus.Queued {
        RunOne(c, t, ResumeTask);
        RunAppend(c, s, actions, [ResumeTask]);
        actions, t := actions + [ResumeTask], Next(c, t, ResumeTask);
      }
    }
  }

  lemma MarksFrom(c: Config, s: State, b: nat, status: TaskStatus, r: AgentResult)
    requires Waits(s, b, status)
    ensures Next(c, s, Act(b, r)).db.status == TaskStatus.Retrying
  {
  }

  lemma WaitsWith(c: Config, maxRetry: int, status: TaskStatus) returns (actions: seq<Action>, t: State, b: nat)
    requires maxRetry <= 1
    requires status in {TaskStatus.Queued, TaskStatus.Success, TaskStatus.ManualReview, TaskStatus.DeadLetter}
    ensures t == Run(c, Initial(maxRetry, PRODUCT_ANALYSIS, map[]), actions) && Waits(t, b, status)
    ensures forall a | a in actions :: a.Deliver? || a.Act? || a.ResumeTask?
  {
    var first: seq<Action>, s: State;
    first, s, b := ParksStale(c, maxRetry);
    var second: seq<Action>;
    second, t := ReachesStatus(c, s, b, status);
    RunAppend(c, Initial(maxRetry, PRODUCT_ANALYSIS, map[]), first, second);
    actions := first + second;
  }

  /**
   Each of the four statuses does get left off the table: a repair message from before a resume, delivered
   again, fails while the task has been queued again, has succeeded, gone to review or died, and puts it to
   retrying. In particular success is not final. Every execution stays inside its lease.
   */
  lemma StaleFailureLeavesTable(c: Config, maxRetry: int, status: TaskStatus) returns (actions: seq<Action>, a: Action)
    requires maxRetry <= 1
    requires status in {TaskStatus.Queued, TaskStatus.Success, TaskStatus.ManualReview, TaskStatus.DeadLetter}
    ensures var init := Initial(maxRetry, PRODUCT_ANALYSIS, map[]);
      var s := Run(c, init, actions);
      && Leased(c, init, actions + [a]) && !UpToDate(c, init, actions + [a])
      && s.db.status == status && Next(c, s, a).db.status == TaskStatus.Retrying
  {
    var t: State, b: nat;
    actions, t, b := WaitsWith(c, maxRetry, status);
    a := Act(b, AgentResult.Failed(false));
    MarksFrom(c, t, b, status, AgentResult.Failed(false));
    LeasedButStale(c, maxRetry, actions, t, a);
  }

  /** A run without time that leaves the table is inside leases, so it is one that crosses a reset. */
  lemma LeasedButStale(c: Config, maxRetry: int, actions: seq<Action>, s: State, a: Action)
    requires s == Run(c, Initial(maxRetry, PRODUCT_ANALYSIS, map[]), actions) && a.Act?
    requires forall b | b in actions :: b.Deliver? || b.Act? || b.ResumeTask?
    requires !TaskEdge(s.db.status, Next(c, s, a).db.status)
    ensures var init := Initial(maxRetry, PRODUCT_ANALYSIS, map[]);
      Leased(c, init, actions + [a]) && !UpToDate(c, init, actions + [a])
  {
    LeasedWithoutTime(c, Initial(maxRetry, PRODUCT_ANALYSIS, map[]), actions + [a]);
    OffTableIsStale(c, maxRetry, actions, a);
  }

  /** A run inside leases that leaves the table contains a duplicate that crossed a reset. */
  lemma OffTableIsStale(c: Config, maxRetry: int, actions: seq<Action>, a: Action)
    ensures var init := Initial(maxRetry, PRODUCT_ANALYSIS, map[]);
      var s := Run(c, init, actions);
      !TaskEdge(s.db.status, Next(c, s, a).db.status) && Leased(c, init, actions + [a]) ==>
        !UpToDate(c, init, actions + [a])
  {
    var init := Initial(maxRetry, PRODUCT_ANALYSIS, map[]);
    var all := actions + [a];
    assert all[..|all| - 1] == actions;
    if Leased(c, init, all) && UpToDate(c, init, all) {
      assert HistoryBefore(map[], PRODUCT_ANALYSIS);
      EveryChangeIsAnEdge(c, init, all);
    }
  }

  // ---------------------------------------------------------------- burying a task that has succeeded

  /** The stale worker, composition's worker about to leave, and the judge's worker about to decide. */
  predicate ThreeWait(s: State, b: nat, c6: nat, j: nat) {
    && b in s.workers && c6 in s.workers && j in s.workers && b != c6 && b != j && c6 != j
    && s.workers[b].pc == Marking(false) && s.workers[b].Step() == REPAIR
    && s.workers[c6].pc == Leaving && s.workers[j].pc == Deciding(ACCEPTED)
    && s.db.status == TaskStatus.Evaluating && s.db.maxRetry <= 1
  }

  lemma LeavesThenSucceeds(c: Config, s: State, b: nat, c6: nat, j: nat, r: AgentResult) returns (t: State)
    requires b in s.workers && c6 in s.workers && j in s.workers && b != c6 && b != j && c6 != j
    requires s.workers[c6].pc == Leaving && s.workers[j].pc == Deciding(ACCEPTED) && s.db.status == TaskStatus.Retrying
    ensures t == Run(c, s, [Act(c6, r), Act(j, r)])
    ensures t.db.status == TaskStatus.Success && t.db.maxRetry == s.db.maxRetry && b in t.workers
    ensures t.workers[b] == s.workers[b]
  {
    var u := Next(c, s, Act(c6, r));
    assert u.db == s.db.(status := TaskStatus.Running) && u.workers[j] == s.workers[j];
    t := Next(c, u, Act(j, r));
    RunTwo(c, s, Act(c6, r), Act(j, r));
  }

  /** The stale worker decides to bury the task, and buries it. */
  lemma BuriedFrom(c: Config, s: State, b: nat, r: AgentResult) returns (t: State)
    requires b in s.workers && s.workers[b].pc.Scheduling? && !s.workers[b].pc.repairable
    requires s.workers[b].pc.retryCount >= s.db.maxRetry
    ensures t == Run(c, s, [Act(b, r)]) && t.db == s.db && Next(c, t, Act(b, r)).db.status == TaskStatus.DeadLetter
  {
    t := Next(c, s, Act(b, r));
    RunOne(c, s, Act(b, r));
    assert t.workers[b].pc == Burying(s.db.retryCount);
    Buried(c, t, b, r);
  }

  lemma Buried(c: Config, s: State, b: nat, r: AgentResult)
    requires b in s.workers && Buries(s.workers[b])
    ensures Next(c, s, Act(b, r)).db.status == TaskStatus.DeadLetter
  {
  }

  function ThreeInTurn(b: nat, c6: nat, j: nat, r: AgentResult): seq<Action> {
    [Act(b, r)] + ([Act(c6, r), Act(j, r)] + [Act(b, r)])
  }

  /** Marked by the first, put to running by the second, the task succeeds by the third; then the first buries it. */
  lemma ThreeAct(c: Config, s: State, b: nat, c6: nat, j: nat, r: AgentResult) returns (t: State)
    requires ThreeWait(s, b, c6, j)
    ensures t == Run(c, s, ThreeInTurn(b, c6, j, r))
    ensures t.db.status == TaskStatus.Success && Next(c, t, Act(b, r)).db.status == TaskStatus.DeadLetter
  {
    var u := Next(c, s, Act(b, r));
    var v := LeavesThenSucceeds(c, u, b, c6, j, r);
    t := BuriedFrom(c, v, b, r);
    RunAppend(c, u, [Act(c6, r), Act(j, r)], [Act(b, r)]);
    RunThen(c, s, Act(b, r), [Act(c6, r), Act(j, r)] + [Act(b, r)]);
  }

  /** Composition's worker is parked on its way out, the evaluation's message is the last. */
  predicate TwoWait(s: State, b: nat, c6: nat) {
    && b in s.workers && c6 in s.workers && b != c6 && s.nextId !in s.workers
    && s.workers[b].pc == Marking(false) && s.workers[b].Step() == REPAIR && s.workers[c6].pc == Leaving
    && |s.db.outbox| > 0 && s.db.outbox[|s.db.outbox| - 1].step == QUALITY_EVALUATION
    && s.db.steps[QUALITY_EVALUATION].status == StepStatus.Pending && s.db.status == TaskStatus.Running
    && s.db.maxRetry <= 1 && QUALITY_EVALUATION !in s.leases
  }

  lemma ParksCompositionBeside(c: Config, s: State, b: nat) returns (actions: seq<Action>, t: State)
    requires Ready(s) && Frontmost(s) == COMPOSITION && s.db.maxRetry <= 1
    requires b in s.workers && s.workers[b].pc == Marking(false) && s.workers[b].Step() == REPAIR
    ensures t == Run(c, s, actions) && TwoWait(t, b, s.nextId)
    ensures forall a | a in actions :: a.Deliver? || a.Act?
  {
    var last := |s.db.outbox| - 1;
    var n := CompositionEffect(c, s.db, s.db.outbox[last], Empty);
    DeliverAndPark(c, s, last, Succeeded(Empty), n);
    actions := [Deliver(last)] + Acts(s.nextId, Succeeded(Empty), n + 1);
    t := Parked(c, s, last, Leaving, DbDrive(c, s.db, s.db.outbox[last], CheckDone, Succeeded(Empty), n).0);
  }

  lemma ParksJudgeBeside(c: Config, s: State, b: nat, c6: nat) returns (actions: seq<Action>, t: State)
    requires TwoWait(s, b, c6)
    ensures t == Run(c, s, actions) && ThreeWait(t, b, c6, s.nextId)
    ensures forall a | a in actions :: a.Deliver? || a.Act?
  {
    var last := |s.db.outbox| - 1;
    var n, d := DecidingEffect(c, s.db, s.db.outbox[last], ACCEPTED);
    DeliverAndPark(c, s, last, Succeeded(ACCEPTED), n);
    actions := [Deliver(last)] + Acts(s.nextId, Succeeded(ACCEPTED), n + 1);
    t := Parked(c, s, last, Deciding(ACCEPTED), d);
  }

  /** The three of them in place. */
  lemma GathersThree(c: Config, maxRetry: int) returns (actions: seq<Action>, s: State, b: nat, c6: nat, j: nat)
    requires maxRetry <= 1
    ensures s == Run(c, Initial(maxRetry, PRODUCT_ANALYSIS, map[]), actions) && ThreeWait(s, b, c6, j)
    ensures forall a | a in actions :: a.Deliver? || a.Act? || a.ResumeTask?
  {
    var a1: seq<Action>;
    var parked: State;
    a1, parked, b := ParksStale(c, maxRetry);
    var a2, u := WorkUpTo(c, parked, Empty, COMPOSITION);
    var a3, two := ParksCompositionBeside(c, u, b);
    var a4: seq<Action>;
    c6, j := u.nextId, two.nextId;
    a4, s := ParksJudgeBeside(c, two, b, c6);
    RunPieces(c, Initial(maxRetry, PRODUCT_ANALYSIS, map[]), a1, a2, a3, a4);
    actions := a1 + a2 + a3 + a4;
  }

  lemma BurialRun(c: Config, maxRetry: int, r: AgentResult) returns (actions: seq<Action>, t: State, b: nat)
    requires maxRetry <= 1
    ensures t == Run(c, Initial(maxRetry, PRODUCT_ANALYSIS, map[]), actions)
    ensures t.db.status == TaskStatus.Success && Next(c, t, Act(b, r)).db.status == TaskStatus.DeadLetter
    ensures forall a | a in actions :: a.Deliver? || a.Act? || a.ResumeTask?
  {
    var first: seq<Action>;
    var s: State;
    var c6: nat, j: nat;
    first, s, b, c6, j := GathersThree(c, maxRetry);
    var last := ThreeInTurn(b, c6, j, r);
    t := ThreeAct(c, s, b, c6, j, r);
    RunAppend(c, Initial(maxRetry, PRODUCT_ANALYSIS, map[]), first, last);
    actions := first + last;
  }

  /** A task that has succeeded can be buried, likewise inside all leases. */
  lemma StaleBurial(c: Config, maxRetry: int) returns (actions: seq<Action>, a: Action)
    requires maxRetry <= 1
    ensures var init := Initial(maxRetry, PRODUCT_ANALYSIS, map[]);
      var s := Run(c, init, actions);
      && Leased(c, init, actions + [a]) && !UpToDate(c, init, actions + [a])
      && s.db.status == TaskStatus.Success && Next(c, s, a).db.status == TaskStatus.DeadLetter
  {
    var r := AgentResult.Failed(false);
    var t: State;
    var b: nat;
    actions, t, b := BurialRun(c, maxRetry, r);
    a := Act(b, r);
    LeasedButStale(c, maxRetry, actions, t, a);
  }

  // ---------------------------------------------------------------- the frontier breaks

  lemma AnalysisDone(c: Config, maxRetry: int, o: Output) returns (actions: seq<Action>, s: State)
    requires maxRetry <= 1
    ensures s == Run(c, Initial(maxRetry, PRODUCT_ANALYSIS, map[]), actions) && Idle(s)
    ensures Ready(s) && Frontmost(s) == SCRIPT_GENERATION && s.db.maxRetry <= 1
    ensures forall a | a in actions :: a.Deliver? || a.Act?
  {
    var init := Initial(maxRetry, PRODUCT_ANALYSIS, map[]);
    NewTaskIsReady(c, maxRetry);
    actions, s := WorkUpTo(c, init, o, SCRIPT_GENERATION);
  }

  lemma ScriptDies(c: Config, db: Db, e: Event) returns (bound: nat)
    requires SR.Token(db, e) && e.step == SCRIPT_GENERATION && db.maxRetry <= 1
    ensures var (d, pc) := DbDrive(c, db, e, CheckDone, AgentResult.Failed(false), bound);
      pc == Returning(false) && d.status == TaskStatus.DeadLetter && d.outbox == db.outbox
  {
    bound := 10;
    HandlerAlone(c, db, e, AgentResult.Failed(false));
    SR.TokenEnters(db, c.delays, e, AgentResult.Failed(false));
  }

  /** The old script message is executed on the rows of the resumed task. */
  lemma ScriptFirst(c: Config, dead: Db, e: Event, o: Output) returns (bound: nat)
    requires e.step == SCRIPT_GENERATION
    ensures var (d, pc) := DbDrive(c, Resume(dead), e, CheckDone, Succeeded(o), bound);
      pc == Returning(false) && d.start == PRODUCT_ANALYSIS
      && d.steps[PRODUCT_ANALYSIS].status == StepStatus.Pending
      && d.steps[SCRIPT_GENERATION].status == StepStatus.Success
  {
    bound := 10;
    HandlerAlone(c, Resume(dead), e, Succeeded(o));
  }

  /** The script fails for good. */
  lemma ScriptFails(c: Config, s: State) returns (actions: seq<Action>, dead: State)
    requires Idle(s) && Ready(s) && Frontmost(s) == SCRIPT_GENERATION && s.db.maxRetry <= 1
    ensures dead == Run(c, s, actions) && forall a | a in actions :: a.Deliver? || a.Act?
    ensures Idle(dead) && dead.db.status == TaskStatus.DeadLetter && dead.nextId == s.nextId + 1
    ensures dead.db.outbox == s.db.outbox
  {
    var last := |s.db.outbox| - 1;
    var r := AgentResult.Failed(false);
    var bound := ScriptDies(c, s.db, s.db.outbox[last]);
    var n := DeliverBeside(c, s, last, r, bound);
    dead := HandledBeside(s, last, DbDrive(c, s.db, s.db.outbox[last], CheckDone, r, bound).0);
    actions := [Deliver(last)] + Acts(s.nextId, r, n);
  }

  lemma ResumesIdle(c: Config, dead: State) returns (s: State)
    requires Idle(dead) && dead.db.status == TaskStatus.DeadLetter
    ensures s == Next(c, dead, ResumeTask) && Idle(s) && s.db == Resume(dead.db) && s.nextId == dead.nextId
    ensures |s.db.outbox| == |dead.db.outbox| + 1 && dead.db.outbox <= s.db.outbox
  {
    s := dead.(db := Resume(dead.db));
  }

  /** On the rows of the resumed task the old script message is delivered again. */
  lemma ScriptAgain(c: Config, s: State, dead: Db, last: nat, o: Output) returns (actions: seq<Action>, t: State)
    requires Idle(s) && s.db == Resume(dead) && last < |s.db.outbox| && s.db.outbox[last].step == SCRIPT_GENERATION
    ensures t == Run(c, s, actions) && forall a | a in actions :: a.Deliver? || a.Act?
    ensures t.db.start == PRODUCT_ANALYSIS && t.db.steps[PRODUCT_ANALYSIS].status == StepStatus.Pending
    ensures t.db.steps[SCRIPT_GENERATION].status == StepStatus.Success
  {
    var bound := ScriptFirst(c, dead, s.db.outbox[last], o);
    var m := DeliverBeside(c, s, last, Succeeded(o), bound);
    t := HandledBeside(s, last, DbDrive(c, s.db, s.db.outbox[last], CheckDone, Succeeded(o), bound).0);
    actions := [Deliver(last)] + Acts(s.nextId, Succeeded(o), m);
  }

  /** The script fails for good, the task is resumed, and the old script message is delivered again. */
  lemma ScriptBeforeAnalysis(c: Config, s: State, o: Output) returns (actions: seq<Action>, t: State)
    requires Idle(s) && Ready(s) && Frontmost(s) == SCRIPT_GENERATION && s.db.maxRetry <= 1
    ensures t == Run(c, s, actions) && forall a | a in actions :: a.Deliver? || a.Act? || a.ResumeTask?
    ensures t.db.start == PRODUCT_ANALYSIS && t.db.steps[PRODUCT_ANALYSIS].status == StepStatus.Pending
    ensures t.db.steps[SCRIPT_GENERATION].status == StepStatus.Success
  {
    var first, dead := ScriptFails(c, s);
    var second: seq<Action>;
    var resumed := ResumesIdle(c, dead);
    second, t := ScriptAgain(c, resumed, dead.db, |s.db.outbox| - 1, o);
    RunThen(c, dead, ResumeTask, second);
    RunAppend(c, s, first, [ResumeTask] + second);
    actions := first + ([ResumeTask] + second);
  }

  /**
   The analysis succeeds, the script fails for good, the task is resumed from dead letter, and the old
   script message is delivered again. Leases are respected, yet the script is finished while the analysis
   before it is not.
   */
  lemma StaleDuplicateRunsEarly(c: Config, o: Output, maxRetry: int) returns (actions: seq<Action>)
    requires maxRetry <= 1
    ensures var init := Initial(maxRetry, PRODUCT_ANALYSIS, map[]);
      && Leased(c, init, actions) && !UpToDate(c, init, actions)
      && var db := Run(c, init, actions).db;
         db.start == PRODUCT_ANALYSIS
         && db.steps[PRODUCT_ANALYSIS].status == StepStatus.Pending
         && db.steps[SCRIPT_GENERATION].status == StepStatus.Success
  {
    var init := Initial(maxRetry, PRODUCT_ANALYSIS, map[]);
    var first, s := AnalysisDone(c, maxRetry, o);
    var second, t := ScriptBeforeAnalysis(c, s, o);
    RunAppend(c, init, first, second);
    actions := first + second;
    LeasedWithoutTime(c, init, actions);
    if UpToDate(c, init, actions) {
      assert HistoryBefore(map[], PRODUCT_ANALYSIS);
      var k := FrontierAndHistory(c, init, actions);
      NoGapInFrontier(t.db, k);
    }
  }

  lemma NoGapInFrontier(db: Db, k: nat)
    requires Frontier(db, k) && db.start == PRODUCT_ANALYSIS && db.steps[SCRIPT_GENERATION].status == StepStatus.Success
    ensures db.steps[PRODUCT_ANALYSIS].status == StepStatus.Success
  {
    assert FrontierRow(db, k, PRODUCT_ANALYSIS) && FrontierRow(db, k, SCRIPT_GENERATION);
  }
}

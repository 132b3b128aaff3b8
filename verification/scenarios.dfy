/**
 Building concrete runs of the concurrent system from larger pieces: a delivery handled from beginning
 to end beside other workers, a delivery stopped in the middle of its handler, and a worker going on.
 */
module Scenarios {
  import opened Options
  import opened StateMachine
  import opened Workflow
  import opened Interleaving
  import opened Uninterrupted
  import opened Safety
  import opened Tokens
  import EL = ExecutionLease
  import SR = SequentialRuns

  function Acts(id: nat, r: AgentResult, n: nat): seq<Action> {
    seq(n, _ => Act(id, r))
  }

  /** The message can be delivered to a new worker that will find its lease free. */
  predicate FreeFor(s: State, index: nat) {
    && index < |s.db.outbox| && s.nextId !in s.workers && !EL.Live(s.leases, s.db.outbox[index].step, s.now)
  }

  lemma RunThen(c: Config, s: State, a: Action, rest: seq<Action>)
    ensures Run(c, s, [a] + rest) == Run(c, Next(c, s, a), rest)
  {
    RunOne(c, s, a);
    RunAppend(c, s, [a], rest);
  }

  lemma RunPieces(c: Config, s: State, a: seq<Action>, b: seq<Action>, d: seq<Action>, e: seq<Action>)
    ensures Run(c, s, a + b + d + e) == Run(c, Run(c, Run(c, Run(c, s, a), b), d), e)
  {
    RunAppend(c, s, a, b);
    RunAppend(c, s, a + b, d);
    RunAppend(c, s, a + b + d, e);
  }

  /** A run with one more action, which is not a redelivered message entering its step. */
  lemma OneMore(c: Config, init: State, actions: seq<Action>, a: Action)
    requires !HasReentered(c, init, actions) && !Reenters(Run(c, init, actions), a)
    ensures Run(c, init, actions + [a]) == Next(c, Run(c, init, actions), a) && !HasReentered(c, init, actions + [a])
  {
    assert (actions + [a])[..|actions + [a]| - 1] == actions;
  }

  lemma {:induction false} NothingRedelivered(c: Config, init: State, actions: seq<Action>)
    requires init.redelivered == {} && forall a | a in actions :: !a.Redeliver?
    ensures Run(c, init, actions).redelivered == {} && !HasReentered(c, init, actions)
    decreases |actions|
  {
    if actions != [] {
      var before, a := actions[..|actions| - 1], actions[|actions| - 1];
      assert a in actions && forall b | b in before :: b in actions;
      NothingRedelivered(c, init, before);
    }
  }

  /** A delivery handled alone within `bound` transactions, other workers standing still. */
  lemma DeliverBeside(c: Config, s: State, index: nat, r: AgentResult, bound: nat) returns (n: nat)
    requires FreeFor(s, index) && s.db.outbox[index].step !in s.leases
    requires DbDrive(c, s.db, s.db.outbox[index], CheckDone, r, bound).1 == Returning(false)
    ensures Run(c, s, [Deliver(index)] + Acts(s.nextId, r, n)) ==
      HandledBeside(s, index, DbDrive(c, s.db, s.db.outbox[index], CheckDone, r, bound).0)
  {
    var d := Next(c, s, Deliver(index));
    n := RunsAndReturns(c, d, s.nextId, r, bound);
    RunThen(c, s, Deliver(index), Acts(s.nextId, r, n));
    assert d.workers - {s.nextId} == s.workers;
    assert d.leases - {s.db.outbox[index].step} == s.leases;
  }

  /** The state after a delivery was handled alone, the rows now at `d`. */
  function HandledBeside(s: State, index: nat, d: Db): State {
    s.(db := d, nextId := s.nextId + 1, taken := s.taken + [index])
  }

  /** The state with a new worker for the message, past its lease, at `pc`, the rows at `db`. */
  function Parked(c: Config, s: State, index: nat, pc: Pc, db: Db): State
    requires index < |s.db.outbox|
  {
    var e := s.db.outbox[index];
    s.(db := db, workers := s.workers[s.nextId := Worker(e, pc)], nextId := s.nextId + 1, taken := s.taken + [index],
       leases := s.leases[e.step := EL.Lease(s.nextId, s.now + c.ttl)])
  }

  /** A delivery stopped after its lease and `n` transactions. */
  lemma DeliverAndPark(c: Config, s: State, index: nat, r: AgentResult, n: nat)
    requires FreeFor(s, index) && Busy(c, s.db, s.db.outbox[index], CheckDone, r, n)
    ensures var (db, pc) := DbDrive(c, s.db, s.db.outbox[index], CheckDone, r, n);
      Run(c, s, [Deliver(index)] + Acts(s.nextId, r, n + 1)) == Parked(c, s, index, pc, db)
  {
    var d := Next(c, s, Deliver(index));
    RunThen(c, s, Deliver(index), Acts(s.nextId, r, n + 1));
    DriveIsRun(c, d, s.nextId, r, n + 1);
    RunsBusy(c, d, s.nextId, r, n);
    ReachedIsParked(c, s, index, r, n);
  }

  lemma ReachedIsParked(c: Config, s: State, index: nat, r: AgentResult, n: nat)
    requires FreeFor(s, index)
    ensures var (db, pc) := DbDrive(c, s.db, s.db.outbox[index], CheckDone, r, n);
      Reached(c, Next(c, s, Deliver(index)), s.nextId, r, n) == Parked(c, s, index, pc, db)
  {
    var e := s.db.outbox[index];
    var pc := DbDrive(c, s.db, e, CheckDone, r, n).1;
    assert s.workers[s.nextId := Worker(e, AcquireLease)][s.nextId := Worker(e, pc)] ==
      s.workers[s.nextId := Worker(e, pc)];
  }

  // ---------------------------------------------------------------- a message delivered again

  /** `s` with its one returned message delivered again to a worker now at `pc` that holds its lease. */
  function Again(c: Config, s: State, e: Event, pc: Pc, db: Db): State {
    s.(db := db, workers := map[s.nextId := Worker(e, pc)], leases := map[e.step := EL.Lease(s.nextId, s.now + c.ttl)],
       nextId := s.nextId + 1, requeued := multiset{}, redelivered := s.redelivered + {s.nextId})
  }

  /** The message comes and its worker takes the lease. */
  lemma ComesAgain(c: Config, init: State, before: seq<Action>, s: State, e: Event, r: AgentResult)
    requires s == Run(c, init, before) && !HasReentered(c, init, before)
    requires s.workers == map[] && s.leases == map[] && s.requeued == multiset{e}
    ensures var actions := before + [Redeliver(e)] + [Act(s.nextId, r)];
      Run(c, init, actions) == Again(c, s, e, CheckDone, s.db) && !HasReentered(c, init, actions)
  {
    OneMore(c, init, before, Redeliver(e));
    TakesLeaseAgain(c, init, before + [Redeliver(e)], s, e, r);
  }

  lemma TakesLeaseAgain(c: Config, init: State, actions: seq<Action>, s: State, e: Event, r: AgentResult)
    requires Run(c, init, actions) == Again(c, s, e, AcquireLease, s.db).(leases := map[])
    requires !HasReentered(c, init, actions)
    ensures var all := actions + [Act(s.nextId, r)];
      Run(c, init, all) == Again(c, s, e, CheckDone, s.db) && !HasReentered(c, init, all)
  {
    var t := Again(c, s, e, AcquireLease, s.db).(leases := map[]);
    OneMore(c, init, actions, Act(s.nextId, r));
    Takes(c, t, s.nextId, e, r);
  }

  lemma Takes(c: Config, s: State, id: nat, e: Event, r: AgentResult)
    requires s.workers == map[id := Worker(e, AcquireLease)] && s.leases == map[]
    ensures Next(c, s, Act(id, r)) ==
      s.(workers := map[id := Worker(e, CheckDone)], leases := map[e.step := EL.Lease(id, s.now + c.ttl)])
  {
  }

  /** Its next transaction, which is not the entry of the step. */
  lemma AgainActs(c: Config, init: State, actions: seq<Action>, s: State, e: Event, pc: Pc, db: Db, r: AgentResult)
    requires Run(c, init, actions) == Again(c, s, e, pc, db) && !HasReentered(c, init, actions)
    requires pc.CheckDone? || pc.EnterTask?
    ensures var (d, p) := DbStep(c, db, Worker(e, pc), r);
      && Run(c, init, actions + [Act(s.nextId, r)]) == Again(c, s, e, p, d)
      && !HasReentered(c, init, actions + [Act(s.nextId, r)])
  {
    var (d, p) := DbStep(c, db, Worker(e, pc), r);
    OneMore(c, init, actions, Act(s.nextId, r));
    assert map[s.nextId := Worker(e, pc)][s.nextId := Worker(e, p)] == map[s.nextId := Worker(e, p)];
  }

  /** It returns. */
  lemma GoesAgain(c: Config, init: State, actions: seq<Action>, s: State, e: Event, r: AgentResult) returns (t: State)
    requires Run(c, init, actions) == Again(c, s, e, Returning(false), s.db) && !HasReentered(c, init, actions)
    requires s.workers == map[] && s.leases == map[]
    ensures t == Run(c, init, actions + [Act(s.nextId, r)]) && !HasReentered(c, init, actions + [Act(s.nextId, r)])
    ensures t == s.(requeued := multiset{}, nextId := s.nextId + 1, redelivered := s.redelivered + {s.nextId})
  {
    OneMore(c, init, actions, Act(s.nextId, r));
    t := s.(requeued := multiset{}, nextId := s.nextId + 1, redelivered := s.redelivered + {s.nextId});
    assert map[s.nextId := Worker(e, Returning(false))] - {s.nextId} == s.workers;
    assert map[e.step := EL.Lease(s.nextId, s.now + c.ttl)] - {e.step} == s.leases;
  }

  // ---------------------------------------------------------------- the handler up to the commit

  /** The four transactions up to the agent, for a message that is due. */
  lemma ToAgent(c: Config, db: Db, e: Event, r: AgentResult)
    requires SR.Waiting(db.steps[e.step])
    requires db.status == TaskStatus.Running || CanTransitionTask(db.status, TaskStatus.Running)
    ensures DbDrive(c, db, e, CheckDone, r, 4) == (SR.Entered(db, e.step), Pc.Agent)
    ensures Busy(c, db, e, CheckDone, r, 4)
  {
  }

  /** Up to the commit of a success. */
  lemma ToCommit(c: Config, db: Db, e: Event, o: Output)
    requires SR.Waiting(db.steps[e.step])
    requires db.status == TaskStatus.Running || CanTransitionTask(db.status, TaskStatus.Running)
    ensures DbDrive(c, db, e, CheckDone, Succeeded(o), 6) ==
      (StepSuccess(SR.Entered(db, e.step), e.step, o, e.payload),
       if e.step == REPAIR then WritingBack(o) else if e.step == QUALITY_EVALUATION then Recording(o) else Leaving)
    ensures Busy(c, db, e, CheckDone, Succeeded(o), 6)
  {
    ToAgent(c, db, e, Succeeded(o));
    DriveSplit(c, db, e, CheckDone, Succeeded(o), 4, 1);
    DriveSplit(c, db, e, CheckDone, Succeeded(o), 4, 2);
  }

  // ---------------------------------------------------------------- a pass without failures

  /** The last message is the one due, for a workflow step; at most the side step is held. */
  ghost predicate Ready(s: State) {
    && |s.db.outbox| > 0
    && SR.Token(s.db, s.db.outbox[|s.db.outbox| - 1]) && s.db.outbox[|s.db.outbox| - 1].step < REPAIR
    && (forall id | id in s.workers :: id < s.nextId)
    && (forall x | x in s.leases :: x == REPAIR)
  }

  function Frontmost(s: State): StepId
    requires |s.db.outbox| > 0
  {
    s.db.outbox[|s.db.outbox| - 1].step
  }

  /** What handling the last message does to the rows. */
  ghost predicate WorkDone(db: Db, e: Event, d: Db) {
    && |d.outbox| == |db.outbox| + 1 && db.outbox <= d.outbox
    && SR.Token(d, d.outbox[|db.outbox|]) && d.outbox[|db.outbox|].step == e.step + 1
    && d.status == TaskStatus.Running && d.maxRetry == db.maxRetry && d.retryCount == db.retryCount
    && d.steps[REPAIR] == db.steps[REPAIR] && d.start == db.start
  }

  lemma WorkEffect(c: Config, db: Db, e: Event, o: Output) returns (bound: nat)
    requires SR.Token(db, e) && e.step < QUALITY_EVALUATION
    ensures var (d, pc) := DbDrive(c, db, e, CheckDone, Succeeded(o), bound);
      WorkDone(db, e, d) && pc == Returning(false)
  {
    bound := 10;
    HandlerAlone(c, db, e, Succeeded(o));
    SR.TokenEnters(db, c.delays, e, Succeeded(o));
    SR.DeliveryHandsOn(db, c.delays, e, Succeeded(o));
  }

  lemma ReadyAfter(s: State, d: Db)
    requires Ready(s) && Frontmost(s) < QUALITY_EVALUATION && WorkDone(s.db, s.db.outbox[|s.db.outbox| - 1], d)
    ensures var t := HandledBeside(s, |s.db.outbox| - 1, d);
      Ready(t) && Frontmost(t) == Frontmost(s) + 1 && Onward(s, t)
  {
  }

  lemma LastWorkRuns(c: Config, s: State, o: Output) returns (n: nat, d: Db)
    requires Ready(s) && Frontmost(s) < QUALITY_EVALUATION
    ensures Run(c, s, [Deliver(|s.db.outbox| - 1)] + Acts(s.nextId, Succeeded(o), n)) ==
      HandledBeside(s, |s.db.outbox| - 1, d)
    ensures WorkDone(s.db, s.db.outbox[|s.db.outbox| - 1], d)
  {
    var last := |s.db.outbox| - 1;
    var bound := WorkEffect(c, s.db, s.db.outbox[last], o);
    n := DeliverBeside(c, s, last, Succeeded(o), bound);
    d := DbDrive(c, s.db, s.db.outbox[last], CheckDone, Succeeded(o), bound).0;
  }

  /** One step of the workflow done alone. */
  lemma WorkBeside(c: Config, s: State, o: Output) returns (n: nat, t: State)
    requires Ready(s) && Frontmost(s) < QUALITY_EVALUATION
    ensures t == Run(c, s, [Deliver(|s.db.outbox| - 1)] + Acts(s.nextId, Succeeded(o), n))
    ensures Ready(t) && Frontmost(t) == Frontmost(s) + 1 && Onward(s, t)
  {
    var d: Db;
    n, d := LastWorkRuns(c, s, o);
    t := HandledBeside(s, |s.db.outbox| - 1, d);
    ReadyAfter(s, d);
  }

  /** All messages but the last have been delivered, each once and in order. */
  predicate LastLeft(s: State) {
    && |s.db.outbox| == |s.taken| + 1 && s.crashes == 0
    && forall i | 0 <= i < |s.taken| :: s.taken[i] == i
  }

  /** What a pass without failures leaves alone. */
  predicate Onward(s: State, t: State) {
    && t.workers == s.workers && t.leases == s.leases && t.now == s.now && s.nextId <= t.nextId
    && t.requeued == s.requeued && t.redelivered == s.redelivered
    && t.db.maxRetry == s.db.maxRetry && t.db.retryCount == s.db.retryCount
    && t.db.steps[REPAIR] == s.db.steps[REPAIR] && s.db.outbox <= t.db.outbox && t.db.start == s.db.start
    && (t.db.status == TaskStatus.Running || t == s)
    && (LastLeft(s) ==> LastLeft(t))
  }

  /** The workflow done alone up to a step. */
  lemma {:induction false} WorkUpTo(c: Config, s: State, o: Output, k: StepId) returns (actions: seq<Action>, t: State)
    requires Ready(s) && Frontmost(s) <= k <= QUALITY_EVALUATION
    ensures t == Run(c, s, actions) && Ready(t) && Frontmost(t) == k && Onward(s, t)
    ensures forall a | a in actions :: a.Deliver? || a.Act?
    decreases k - Frontmost(s)
  {
    actions, t := [], s;
    if Frontmost(s) < k {
      var n, next := WorkBeside(c, s, o);
      var first := [Deliver(|s.db.outbox| - 1)] + Acts(s.nextId, Succeeded(o), n);
      actions, t := WorkUpTo(c, next, o, k);
      RunAppend(c, s, first, actions);
      actions := first + actions;
    }
  }

  /** Composition done up to the moment before the task is put back to running. */
  lemma CompositionEffect(c: Config, db: Db, e: Event, o: Output) returns (n: nat)
    requires SR.Token(db, e) && e.step == COMPOSITION && |db.outbox| > 0
    ensures var (d, pc) := DbDrive(c, db, e, CheckDone, Succeeded(o), n);
      && Busy(c, db, e, CheckDone, Succeeded(o), n) && pc == Leaving && d.status == TaskStatus.Running
      && |d.outbox| == |db.outbox| + 1 && d.outbox[|db.outbox|].step == QUALITY_EVALUATION
      && d.steps[QUALITY_EVALUATION].status == StepStatus.Pending && d.maxRetry == db.maxRetry
      && d.retryCount == db.retryCount && d.start == db.start
  {
    n := 6;
    ToCommit(c, db, e, o);
    assert FrontierRow(db, COMPOSITION, QUALITY_EVALUATION);
  }

  /** The judge's handler up to the moment its verdict is recorded and the task evaluating. */
  lemma DecidingEffect(c: Config, db: Db, e: Event, v: Output) returns (n: nat, d: Db)
    requires e.step == QUALITY_EVALUATION && db.steps[QUALITY_EVALUATION].status == StepStatus.Pending
    requires db.status == TaskStatus.Running
    ensures DbDrive(c, db, e, CheckDone, Succeeded(v), n) == (d, Deciding(v))
    ensures Busy(c, db, e, CheckDone, Succeeded(v), n)
    ensures d.status == TaskStatus.Evaluating && d.maxRetry == db.maxRetry && d.retryCount == db.retryCount
    ensures d.outbox == db.outbox && d.steps[QUALITY_EVALUATION].status == StepStatus.Success && d.start == db.start
  {
    n := 8;
    d := DbDrive(c, db, e, CheckDone, Succeeded(v), 8).0;
    ToCommit(c, db, e, v);
    DriveSplit(c, db, e, CheckDone, Succeeded(v), 6, 1);
    DriveSplit(c, db, e, CheckDone, Succeeded(v), 6, 2);
  }

  lemma NewTaskIsReady(c: Config, maxRetry: int)
    ensures var init := Initial(maxRetry, PRODUCT_ANALYSIS, map[]);
      NewTask(init) && Ready(init) && Frontmost(init) == PRODUCT_ANALYSIS && LastLeft(init)
  {
    assert HistoryBefore(map[], PRODUCT_ANALYSIS);
    SR.CreatedIsGood(maxRetry, PRODUCT_ANALYSIS, map[]);
    var init := Initial(maxRetry, PRODUCT_ANALYSIS, map[]);
    assert SR.Undelivered(SR.Initial(maxRetry, PRODUCT_ANALYSIS, map[])) == init.db.outbox;
  }
}

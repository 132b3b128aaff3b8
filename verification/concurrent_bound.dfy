/**
 How many executions a task can take when handlers overlap, messages are duplicated and redelivered and
 workers die: the bound of module ExecutionBound, one more for every worker that dies, and once more the
 bound for every resume. The potential is what the one active worker may still cause, or else what the
 frontier may.
 */
module ConcurrentBound {
  import opened Options
  import opened StateMachine
  import opened Workflow
  import opened Interleaving
  import opened Safety
  import opened ExecutionBound
  import Retry
  import Tokens

  // ---------------------------------------------------------------- the potential

  /** What entering step `s` may cause, its own execution included, when step `k` is the frontier. */
  function Entry(cap: Cap, budget: nat, k: nat, s: StepId): int {
    if s == REPAIR then WorstRepair(cap, budget, k) else WorstFrom(cap, budget, k)
  }

  /** What an active worker may still cause. */
  function Busy(cap: Cap, db: Db, k: nat, w: Worker): int {
    var b := Budget(db);
    match w.pc
    case Start => Entry(cap, b, k, w.Step())
    case Scheduling(repairable, _) =>
      if repairable && w.Step() < QUALITY_EVALUATION then WorstRepair(cap, b, k)
      else if b > 0 then Entry(cap, b, k, w.Step())
      else 0
    case Burying(_) => 0
    case WritingBack(_) => WorstFrom(cap, b, k + 1)
    case Recording(_) => Again(cap, b)
    case EnteringEvaluation(_) => Again(cap, b)
    case Deciding(_) => Again(cap, b)
    case Rejecting(_, _) => Again(cap, b + 1)
    case _ => Entry(cap, b, k, w.Step()) - 1
  }

  /** What a rejection may cause that has still to be counted. */
  function Again(cap: Cap, budget: nat): int {
    if budget > 1 then WorstFrom(cap, budget - 1, SCRIPT_GENERATION) else 0
  }

  ghost predicate RepairDue(db: Db) {
    Enterable(db.steps[REPAIR].status) && exists e | e in db.outbox :: PendingRepair(db, e)
  }

  /** What the frontier may cause while nobody is active. */
  ghost function Idle(cap: Cap, db: Db, k: nat): int {
    if k >= 8 then 0
    else if Enterable(db.steps[k].status) then WorstFrom(cap, Budget(db), k)
    else if RepairDue(db) then WorstRepair(cap, Budget(db), k)
    else 0
  }

  /** Repairs are asked for below the cap. */
  predicate AsksBelow(cap: Cap, w: Worker) {
    w.Step() < QUALITY_EVALUATION && ((w.pc.Failing? && w.pc.repairable) || (w.pc.Marking? && w.pc.repairable)
                                      || (w.pc.Scheduling? && w.pc.repairable)) ==>
      w.Step() < cap
  }

  // ---------------------------------------------------------------- one transaction

  /** The finished steps determine the frontier. */
  lemma SamePlace(db: Db, d: Db, k: nat, next: nat)
    requires Frontier(db, k) && Frontier(d, next) && d.start == db.start
    requires forall i: StepId | i < REPAIR ::
      d.steps[i].status == StepStatus.Success <==> db.steps[i].status == StepStatus.Success
    ensures next == k
  {
    var lower: StepId := if next < k then next else if k < next then k else 0;
    assert FrontierRow(db, k, lower) && FrontierRow(d, next, lower);
  }

  /** What is left after a transaction: of the worker if it is still active, else of the frontier. */
  ghost function Left(cap: Cap, d: Db, k: nat, w: Worker): int {
    if Active(w.pc) then Busy(cap, d, k, w) else Idle(cap, d, k)
  }

  /** A transaction of the active worker costs at least what it executes. */
  ghost predicate Pays(cap: Cap, db: Db, k: nat, w: Worker, d: Db, next: nat, pc: Pc) {
    d.executions + Left(cap, d, next, w.(pc := pc)) <= db.executions + Busy(cap, db, k, w)
  }

  lemma CommitPays(c: Config, cap: Cap, db: Db, k: nat, w: Worker, r: AgentResult, next: nat)
    requires Good(db, k, w) && w.pc.Succeeding? && w.Step() < REPAIR
    requires Frontier(DbStep(c, db, w, r).0, next)
    ensures var (d, pc) := DbStep(c, db, w, r); Pays(cap, db, k, w, d, next, pc)
  {
    var (d, pc) := DbStep(c, db, w, r);
    OutputOnFrontier(db, k, d.steps[k], d);
    SamePlace(d, d, k + 1, next);
    if k < QUALITY_EVALUATION {
      assert FrontierRow(db, k, k + 1);
    }
  }

  lemma RepairPays(c: Config, cap: Cap, db: Db, k: nat, w: Worker, r: AgentResult, next: nat)
    requires Good(db, k, w) && w.pc.Succeeding? && w.Step() == REPAIR
    requires Frontier(DbStep(c, db, w, r).0, next)
    ensures var (d, pc) := DbStep(c, db, w, r); Pays(cap, db, k, w, d, next, pc)
  {
    SamePlace(db, DbStep(c, db, w, r).0, k, next);
  }

  lemma WriteBackPays(c: Config, cap: Cap, db: Db, k: nat, w: Worker, r: AgentResult, next: nat)
    requires Good(db, k, w) && w.pc.WritingBack?
    requires Frontier(DbStep(c, db, w, r).0, next)
    ensures var (d, pc) := DbStep(c, db, w, r); Pays(cap, db, k, w, d, next, pc)
  {
    RepairWrittenBack(db, k, w, w.pc.output);
    SamePlace(DbStep(c, db, w, r).0, DbStep(c, db, w, r).0, k + 1, next);
  }

  lemma RejectingPays(c: Config, cap: Cap, db: Db, k: nat, w: Worker, r: AgentResult, next: nat)
    requires Good(db, k, w) && w.pc.Rejecting?
    requires Frontier(DbStep(c, db, w, r).0, next)
    ensures var (d, pc) := DbStep(c, db, w, r); Pays(cap, db, k, w, d, next, pc)
  {
    RejectingStep(c, db, k, w, r);
    var here := if Retry.ShouldRetry(w.pc.retryCount, db.maxRetry) then SCRIPT_GENERATION else k;
    SamePlace(DbStep(c, db, w, r).0, DbStep(c, db, w, r).0, here, next);
  }

  lemma FailurePays(c: Config, cap: Cap, db: Db, k: nat, w: Worker, r: AgentResult, next: nat)
    requires Good(db, k, w) && (w.pc.Failing? || w.pc.Marking?) && AsksBelow(cap, w)
    requires Frontier(DbStep(c, db, w, r).0, next)
    ensures var (d, pc) := DbStep(c, db, w, r); Pays(cap, db, k, w, d, next, pc)
  {
    SamePlace(db, DbStep(c, db, w, r).0, k, next);
  }

  lemma SchedulingPays(c: Config, cap: Cap, db: Db, k: nat, w: Worker, r: AgentResult, next: nat)
    requires Good(db, k, w) && w.pc.Scheduling?
    requires Frontier(DbStep(c, db, w, r).0, next)
    ensures var (d, pc) := DbStep(c, db, w, r); Pays(cap, db, k, w, d, next, pc)
  {
    SamePlace(db, DbStep(c, db, w, r).0, k, next);
  }

  lemma BurialPays(c: Config, cap: Cap, db: Db, k: nat, w: Worker, r: AgentResult, next: nat)
    requires Good(db, k, w) && w.pc.Burying?
    requires Frontier(DbStep(c, db, w, r).0, next)
    ensures var (d, pc) := DbStep(c, db, w, r); Pays(cap, db, k, w, d, next, pc)
  {
    SamePlace(db, DbStep(c, db, w, r).0, k, next);
    NoRepairLeft(db, DbStep(c, db, w, r).0, w);
  }

  /** A failed step has no repair due beside its own worker, and a failed repair is not due. */
  lemma NoRepairLeft(db: Db, d: Db, w: Worker)
    requires d.steps == db.steps && d.outbox == db.outbox && NoRepairBeside(db, w)
    requires w.Step() == REPAIR ==> !Enterable(db.steps[REPAIR].status)
    ensures !RepairDue(d)
  {
    forall e | e in d.outbox
      ensures PendingRepair(d, e) == PendingRepair(db, e)
    {
    }
  }

  lemma StatusPays(c: Config, cap: Cap, db: Db, k: nat, w: Worker, r: AgentResult, next: nat)
    requires Good(db, k, w)
    requires w.pc.Start? || w.pc.Agent? || w.pc.Recording? || w.pc.EnteringEvaluation? || w.pc.Deciding?
    requires Frontier(DbStep(c, db, w, r).0, next)
    ensures var (d, pc) := DbStep(c, db, w, r); Pays(cap, db, k, w, d, next, pc)
  {
    SamePlace(db, DbStep(c, db, w, r).0, k, next);
  }

  lemma ActivePays(c: Config, cap: Cap, db: Db, k: nat, w: Worker, r: AgentResult, next: nat)
    requires Good(db, k, w) && AsksBelow(cap, w)
    requires Frontier(DbStep(c, db, w, r).0, next)
    ensures var (d, pc) := DbStep(c, db, w, r); Pays(cap, db, k, w, d, next, pc)
  {
    match w.pc {
      case Succeeding(_) =>
        if w.Step() == REPAIR {
          RepairPays(c, cap, db, k, w, r, next);
        } else {
          CommitPays(c, cap, db, k, w, r, next);
        }
      case Failing(_) => FailurePays(c, cap, db, k, w, r, next);
      case Marking(_) => FailurePays(c, cap, db, k, w, r, next);
      case Scheduling(_, _) => SchedulingPays(c, cap, db, k, w, r, next);
      case Burying(_) => BurialPays(c, cap, db, k, w, r, next);
      case WritingBack(_) => WriteBackPays(c, cap, db, k, w, r, next);
      case Rejecting(_, _) => RejectingPays(c, cap, db, k, w, r, next);
      case _ => StatusPays(c, cap, db, k, w, r, next);
    }
  }

  /** A worker that dies leaves at most one execution to be done again. */
  lemma DeathCostsOne(cap: Cap, db: Db, k: nat, w: Worker)
    requires Good(db, k, w)
    ensures Idle(cap, db, k) <= Busy(cap, db, k, w) + 1
  {
    if w.pc.Marking? || w.pc.Scheduling? || w.pc.Burying? {
      NoRepairLeft(db, db, w);
    }
  }

  // ---------------------------------------------------------------- one action

  /** An answer that asks for a repair comes from a step below the cap. */
  predicate AnswersBelow(cap: Cap, s: State, a: Action) {
    a.Act? && a.id in s.workers && s.workers[a.id].pc.Agent? ==> Allowed(cap, s.workers[a.id].event, a.result)
  }

  predicate AllAnswersBelow(cap: Cap, c: Config, init: State, actions: seq<Action>)
    decreases |actions|
  {
    actions == [] ||
    (var before := actions[..|actions| - 1];
     AllAnswersBelow(cap, c, init, before) && AnswersBelow(cap, Run(c, init, before), actions[|actions| - 1]))
  }

  ghost predicate WorkersAskBelow(cap: Cap, s: State) {
    forall id | id in s.workers :: AsksBelow(cap, s.workers[id])
  }

  lemma AskingStaysBelow(c: Config, cap: Cap, s: State, a: Action)
    requires WorkersAskBelow(cap, s) && AnswersBelow(cap, s, a)
    ensures WorkersAskBelow(cap, Next(c, s, a))
  {
    if a.Act? && a.id in s.workers {
      AskingCarriedOn(c, cap, s.db, s.workers[a.id], a.result);
    }
  }

  lemma AskingCarriedOn(c: Config, cap: Cap, db: Db, w: Worker, r: AgentResult)
    requires AsksBelow(cap, w) && (w.pc.Agent? ==> Allowed(cap, w.event, r))
    ensures AsksBelow(cap, w.(pc := DbStep(c, db, w, r).1))
  {
  }

  /** What has been executed and what may still be are within `total`. */
  ghost predicate Within(cap: Cap, s: State, k: nat, total: int) {
    && ((forall id | id in s.workers :: !Active(s.workers[id].pc)) ==> s.db.executions + Idle(cap, s.db, k) <= total)
    && (forall id | id in s.workers && Active(s.workers[id].pc) ::
          s.db.executions + Busy(cap, s.db, k, s.workers[id]) <= total)
  }

  lemma NextFrontier(s: State, k: nat, t: State, next: nat)
    requires Safety.Inv(s, k) && Safety.Inv(t, next) && t.db.steps == s.db.steps && t.db.start == s.db.start
    ensures next == k
  {
    SamePlace(s.db, t.db, k, next);
  }

  lemma ActiveWithin(c: Config, cap: Cap, s: State, k: nat, id: nat, r: AgentResult, next: nat, total: int)
    requires id in s.workers && Active(s.workers[id].pc) && AsksBelow(cap, s.workers[id])
    requires Safety.Inv(s, k) && Safety.Inv(ActOf(c, s, id, r), next) && Within(cap, s, k, total)
    ensures Within(cap, ActOf(c, s, id, r), next, total)
  {
    var w := s.workers[id];
    assert WorkerOk(s.db, k, w);
    ActivePays(c, cap, s.db, k, w, r, next);
    OnlyMover(s, ActOf(c, s, id, r), id);
  }

  lemma OnlyMover(s: State, t: State, id: nat)
    requires forall a, b | a in s.workers && b in s.workers && Active(s.workers[a].pc) && Active(s.workers[b].pc) ::
      a == b
    requires id in s.workers && Active(s.workers[id].pc) && id in t.workers
    requires t.workers == s.workers[id := t.workers[id]]
    ensures forall o | o in t.workers && Active(t.workers[o].pc) :: o == id
  {
    assert forall o | o in t.workers && o != id :: t.workers[o] == s.workers[o] && !Active(s.workers[o].pc);
  }

  /** Entering the step is paid for by the frontier. */
  lemma EntryWithin(c: Config, cap: Cap, s: State, k: nat, id: nat, r: AgentResult, total: int)
    requires Safety.Inv(s, k) && Within(cap, s, k, total) && id in s.workers && Poised(s.db, s.workers[id])
    ensures Within(cap, ActOf(c, s, id, r), k, total)
  {
    var w := s.workers[id];
    assert WorkerOk(s.db, k, w);
    assert EventOk(s.db, k, w.event);
    NobodyElseActive(s, k, id);
    EntryIsIdle(cap, s.db, k, w);
    EntryPaid(cap, s, ActOf(c, s, id, r), k, id, total);
  }

  lemma EntryPaid(cap: Cap, s: State, t: State, k: nat, id: nat, total: int)
    requires id in s.workers && forall o | o in s.workers :: !Active(s.workers[o].pc)
    requires t.workers == s.workers[id := s.workers[id].(pc := Start)] && t.db == s.db.(steps := t.db.steps)
    requires s.db.executions + Entry(cap, Budget(s.db), k, s.workers[id].Step()) <= total
    ensures Within(cap, t, k, total)
  {
    assert id in t.workers && Active(t.workers[id].pc);
    forall o | o in t.workers && Active(t.workers[o].pc)
      ensures t.db.executions + Busy(cap, t.db, k, t.workers[o]) <= total
    {
      assert o == id;
      assert Budget(t.db) == Budget(s.db);
    }
  }

  lemma EntryIsIdle(cap: Cap, db: Db, k: nat, w: Worker)
    requires Frontier(db, k) && EventOk(db, k, w.event) && w.event in db.outbox && Poised(db, w)
    ensures Entry(cap, Budget(db), k, w.Step()) == Idle(cap, db, k)
  {
    if w.Step() == REPAIR {
      assert PendingRepair(db, w.event);
    } else {
      assert FrontierRow(db, k, w.Step());
    }
  }

  /** Nothing but the task's status and workers that are not active has changed. */
  ghost predicate OnlyOthers(s: State, t: State) {
    && t.db.(status := s.db.status) == s.db
    && (forall id | id in t.workers && Active(t.workers[id].pc) :: id in s.workers && t.workers[id] == s.workers[id])
    && (forall id | id in s.workers && Active(s.workers[id].pc) :: id in t.workers && t.workers[id] == s.workers[id])
  }

  /** Workers that are not active come, move and go at no cost. */
  lemma OthersWithin(cap: Cap, s: State, k: nat, t: State, total: int)
    requires Within(cap, s, k, total) && OnlyOthers(s, t)
    ensures Within(cap, t, k, total)
  {
    forall id | id in t.workers && Active(t.workers[id].pc)
      ensures t.db.executions + Busy(cap, t.db, k, t.workers[id]) <= total
    {
      BusyAsBefore(cap, s.db, t.db, k, s.workers[id]);
    }
  }

  lemma BusyAsBefore(cap: Cap, db: Db, d: Db, k: nat, w: Worker)
    requires d.(status := db.status) == db
    ensures Busy(cap, d, k, w) == Busy(cap, db, k, w)
  {
  }

  lemma OtherActs(c: Config, s: State, id: nat, r: AgentResult)
    requires id in s.workers && !Active(s.workers[id].pc) && !Enters(s.db, s.workers[id])
    ensures OnlyOthers(s, ActOf(c, s, id, r))
  {
    OtherDbStep(c, s.db, s.workers[id], r);
  }

  lemma OtherActions(c: Config, s: State, a: Action)
    requires !a.Act? && !a.Crash? && !a.ResumeTask? && s.nextId !in s.workers
    ensures OnlyOthers(s, Next(c, s, a))
  {
  }

  lemma ActsWithin(c: Config, cap: Cap, s: State, k: nat, id: nat, r: AgentResult, next: nat, total: int)
    requires id in s.workers && NotStale(s, Act(id, r)) && AsksBelow(cap, s.workers[id])
    requires Safety.Inv(s, k) && Safety.Inv(ActOf(c, s, id, r), next) && Within(cap, s, k, total)
    ensures Within(cap, ActOf(c, s, id, r), next, total)
  {
    var t := ActOf(c, s, id, r);
    if Active(s.workers[id].pc) {
      ActiveWithin(c, cap, s, k, id, r, next, total);
    } else if Poised(s.db, s.workers[id]) {
      StepEntered(c, s, k, id, r);
      SamePlace(t.db, t.db, k, next);
      EntryWithin(c, cap, s, k, id, r, total);
    } else {
      OtherActs(c, s, id, r);
      NextFrontier(s, k, t, next);
      OthersWithin(cap, s, k, t, total);
    }
  }

  lemma CrashWithin(c: Config, cap: Cap, s: State, k: nat, id: nat, total: int)
    requires Safety.Inv(s, k) && Within(cap, s, k, total) && id in s.workers
    ensures Within(cap, Next(c, s, Crash(id)), k, total + 1)
  {
    var t := Next(c, s, Crash(id));
    if Active(s.workers[id].pc) {
      assert WorkerOk(s.db, k, s.workers[id]);
      DeathCostsOne(cap, s.db, k, s.workers[id]);
      assert forall o | o in t.workers ::
        o in s.workers && o != id && t.workers[o] == s.workers[o] && !Active(s.workers[o].pc);
    } else {
      OthersWithin(cap, s, k, t, total);
    }
  }

  /** A dead task is idle; its resume pays for a pass from the first step. */
  lemma ResumeWithin(cap: Cap, s: State, k: nat, total: int)
    requires Safety.Inv(s, k) && Within(cap, s, k, total) && CanResume(s.db)
    ensures Within(cap, s.(db := Resume(s.db)), 0, total + Bound(cap, s.db.maxRetry))
  {
    forall id | id in s.workers
      ensures !Active(s.workers[id].pc)
    {
      assert WorkerOk(s.db, k, s.workers[id]);
    }
  }

  /** What an action adds to the bound. */
  function Extra(cap: Cap, s: State, a: Action): nat {
    match a
    case Crash(id) => if id in s.workers then 1 else 0
    case ResumeTask => if CanResume(s.db) then Bound(cap, s.db.maxRetry) else 0
    case _ => 0
  }

  lemma SurroundingsWithin(c: Config, cap: Cap, s: State, k: nat, a: Action, next: nat, total: int)
    requires Safety.Inv(s, k) && Safety.Inv(Next(c, s, a), next) && Within(cap, s, k, total)
    requires !a.Act? && !a.Crash? && !a.ResumeTask?
    ensures Within(cap, Next(c, s, a), next, total)
  {
    OtherActions(c, s, a);
    NextFrontier(s, k, Next(c, s, a), next);
    OthersWithin(cap, s, k, Next(c, s, a), total);
  }

  lemma StepWithin(c: Config, cap: Cap, s: State, k: nat, a: Action, next: nat, total: int)
    requires Safety.Inv(s, k) && Safety.Inv(Next(c, s, a), next) && Within(cap, s, k, total)
    requires NotStale(s, a) && WorkersAskBelow(cap, s)
    ensures Within(cap, Next(c, s, a), next, total + Extra(cap, s, a))
  {
    match a {
      case Act(id, r) =>
        if id in s.workers {
          ActsWithin(c, cap, s, k, id, r, next, total);
        } else {
          NextFrontier(s, k, s, next);
        }
      case Crash(id) =>
        NextFrontier(s, k, Next(c, s, a), next);
        if id in s.workers {
          CrashWithin(c, cap, s, k, id, total);
        }
      case ResumeTask =>
        if CanResume(s.db) {
          Resumed(s, k);
          SamePlace(Resume(s.db), Resume(s.db), 0, next);
          ResumeWithin(cap, s, k, total);
        } else {
          NextFrontier(s, k, s, next);
        }
      case _ => SurroundingsWithin(c, cap, s, k, a, next, total);
    }
  }

  // ---------------------------------------------------------------- all runs

  function Extras(c: Config, cap: Cap, init: State, actions: seq<Action>): nat
    decreases |actions|
  {
    if actions == [] then 0
    else
      var before := actions[..|actions| - 1];
      Extras(c, cap, init, before) + Extra(cap, Run(c, init, before), actions[|actions| - 1])
  }

  lemma {:induction false} RunWithin(c: Config, cap: Cap, init: State, actions: seq<Action>) returns (k: nat)
    requires ProperRun(c, init, actions) && AllAnswersBelow(cap, c, init, actions)
    ensures var s := Run(c, init, actions);
      && Safety.Inv(s, k) && WorkersAskBelow(cap, s)
      && Within(cap, s, k, WorstFrom(cap, Budget(init.db), init.db.start) + Extras(c, cap, init, actions))
    decreases |actions|
  {
    if actions == [] {
      k := Safety.InvHolds(c, init, actions);
      SamePlace(init.db, init.db, init.db.start, k);
    } else {
      var before, a := actions[..|actions| - 1], actions[|actions| - 1];
      var s := Run(c, init, before);
      var was := RunWithin(c, cap, init, before);
      k := AnyStep(c, s, was, a);
      var total := WorstFrom(cap, Budget(init.db), init.db.start) + Extras(c, cap, init, before);
      StepWithin(c, cap, s, was, a, k, total);
      AskingStaysBelow(c, cap, s, a);
    }
  }

  /** The resumes that took place. */
  function Resumes(c: Config, init: State, actions: seq<Action>): nat
    decreases |actions|
  {
    if actions == [] then 0
    else
      var before := actions[..|actions| - 1];
      Resumes(c, init, before) +
      (if actions[|actions| - 1].ResumeTask? && CanResume(Run(c, init, before).db) then 1 else 0)
  }

  lemma {:induction false} ExtrasAdd(c: Config, cap: Cap, init: State, actions: seq<Action>)
    requires init.crashes == 0
    ensures var s := Run(c, init, actions);
      && s.db.maxRetry == init.db.maxRetry
      && Extras(c, cap, init, actions) == s.crashes + Resumes(c, init, actions) * Bound(cap, init.db.maxRetry)
    decreases |actions|
  {
    if actions != [] {
      var before, a := actions[..|actions| - 1], actions[|actions| - 1];
      ExtrasAdd(c, cap, init, before);
      ExtraAdds(c, cap, Run(c, init, before), a, Resumes(c, init, before));
    }
  }

  lemma ExtraAdds(c: Config, cap: Cap, s: State, a: Action, resumes: nat)
    ensures var after := resumes + (if a.ResumeTask? && CanResume(s.db) then 1 else 0);
      && Next(c, s, a).db.maxRetry == s.db.maxRetry
      && s.crashes + resumes * Bound(cap, s.db.maxRetry) + Extra(cap, s, a) ==
           Next(c, s, a).crashes + after * Bound(cap, s.db.maxRetry)
  {
  }

  /**
   In every run inside leases in which no message crosses a reset, with any duplicates: the executions are
   at most the worst case of the first step, one more for every worker that died, and the bound again for
   every resume.
   */
  lemma {:induction false} ExecutionsAreBounded(c: Config, cap: Cap, init: State, actions: seq<Action>)
    requires ProperRun(c, init, actions) && AllAnswersBelow(cap, c, init, actions)
    ensures var s := Run(c, init, actions);
      s.db.executions <= WorstFrom(cap, Budget(init.db), init.db.start) + s.crashes
                         + Resumes(c, init, actions) * Bound(cap, init.db.maxRetry)
  {
    var k := RunWithin(c, cap, init, actions);
    ExtrasAdd(c, cap, init, actions);
    var total := WorstFrom(cap, Budget(init.db), init.db.start) + Extras(c, cap, init, actions);
    NothingOwed(cap, Run(c, init, actions), k, total);
  }

  lemma NothingOwed(cap: Cap, s: State, k: nat, total: int)
    requires Safety.Inv(s, k) && Within(cap, s, k, total)
    ensures s.db.executions <= total
  {
    if id :| id in s.workers && Active(s.workers[id].pc) {
      assert WorkerOk(s.db, k, s.workers[id]);
      BusyBounds(cap, s.db, k, s.workers[id]);
    }
  }

  lemma BusyBounds(cap: Cap, db: Db, k: nat, w: Worker)
    requires k <= 8 && Active(w.pc) && ActiveOk(db, k, w)
    ensures 0 <= Busy(cap, db, k, w)
  {
  }

  lemma {:induction false} AnyAnswersBelow(c: Config, init: State, actions: seq<Action>)
    ensures AllAnswersBelow(QUALITY_EVALUATION, c, init, actions)
    decreases |actions|
  {
    if actions != [] {
      AnyAnswersBelow(c, init, actions[..|actions| - 1]);
    }
  }

  /** The bound of a new task with arbitrary agents, max(15, 7 * max_retry + 7), once more for each resume. */
  function Limit(maxRetry: int, resumes: nat): nat {
    (if maxRetry <= 1 then 15 else 7 * maxRetry + 7) * (1 + resumes)
  }

  /** Whatever the agents answer: max(15, 7 * max_retry + 7), once for the task and for each resume, and the deaths. */
  lemma {:induction false} AnyAgentsAreBounded(c: Config, init: State, actions: seq<Action>)
    requires ProperRun(c, init, actions)
    ensures var s := Run(c, init, actions);
      s.db.executions <= Limit(init.db.maxRetry, Resumes(c, init, actions)) + s.crashes
  {
    AnyAnswersBelow(c, init, actions);
    ExecutionsAreBounded(c, QUALITY_EVALUATION, init, actions);
    FirstStepIsWorst(init, Resumes(c, init, actions));
  }

  lemma FirstStepIsWorst(init: State, resumes: nat)
    requires NewTask(init)
    ensures var m := init.db.maxRetry;
      WorstFrom(QUALITY_EVALUATION, Budget(init.db), init.db.start) + resumes * Bound(QUALITY_EVALUATION, m) <=
      Limit(m, resumes)
  {
    var m := init.db.maxRetry;
    var bound := if m <= 1 then 15 else 7 * m + 7;
    assert Bound(QUALITY_EVALUATION, m) == bound && init.db.start <= SCRIPT_GENERATION;
    assert bound * (1 + resumes) == bound + resumes * bound;
  }

  /**
   Every task ends: in a run without crashes that the broker delivers once, when every message has been
   delivered and every worker is gone, the task is over after at most the bound, unless its token was lost.
   */
  lemma {:induction false} EveryTaskEndsUnlessLost(c: Config, init: State, actions: seq<Action>)
    requires ProperRun(c, init, actions) && Tokens.DeliveredOnce(Run(c, init, actions))
    requires Tokens.Undelivered(Run(c, init, actions)) == {} && Run(c, init, actions).workers == map[]
    ensures var db := Run(c, init, actions).db;
      && (Tokens.Over(db) <==> !Tokens.HasLost(c, init, actions))
      && db.executions <= Limit(init.db.maxRetry, Resumes(c, init, actions))
  {
    Tokens.UpToDateIff(c, init, actions);
    Tokens.OverWhenQuiet(c, init, actions);
    AnyAgentsAreBounded(c, init, actions);
  }
}

/**
 Token conservation with overlapping handlers: nobody crashes and the broker delivers every committed
 message at most once, but deliveries, transactions, lease operations, resumes and the passing of time
 mix in any order, and the message of a handler that raised is delivered again. Neither the lease
 discipline nor freshness of messages is assumed: one token and freshness hold up to two losses and one
 way for a redelivered message to get past the checks, and no further.
 */
module Tokens {
  import opened Options
  import opened StateMachine
  import opened Workflow
  import opened Interleaving
  import opened Safety
  import EL = ExecutionLease
  import Retry
  import SequentialRuns

  predicate Over(db: Db) {
    SequentialRuns.Over(db)
  }

  /** The worker has not handed its work on yet. */
  predicate Carrying(pc: Pc) {
    !pc.Leaving? && !pc.Returning?
  }

  /** A worker with a redelivered message counts from the moment it has entered its step. */
  predicate Counts(s: State, id: nat)
    requires id in s.workers
  {
    Carrying(s.workers[id].pc) && (id in s.redelivered ==> Active(s.workers[id].pc))
  }

  function Carriers(s: State): set<nat> {
    set id | id in s.workers && Counts(s, id)
  }

  function Undelivered(s: State): set<nat> {
    set i | 0 <= i < |s.db.outbox| && i !in s.taken
  }

  /** Undelivered messages, and workers that have not handed on. */
  function TokenCount(s: State): nat {
    |Undelivered(s)| + |Carriers(s)|
  }

  predicate Distinct(taken: seq<nat>) {
    forall i, j | 0 <= i < j < |taken| :: taken[i] != taken[j]
  }

  /** So far nobody has crashed and the broker has delivered no message twice of its own accord. */
  predicate DeliveredOnce(s: State) {
    s.crashes == 0 && Distinct(s.taken)
  }

  /**
   The two ways to lose a token: a message meets a running lease, or a rejection without budget finds
   the task put back to running, from where it may not go to manual review.
   */
  predicate Loses(s: State, a: Action) {
    a.Act? && a.id in s.workers &&
    var w := s.workers[a.id];
    || (w.pc.AcquireLease? && a.id !in s.redelivered && EL.Live(s.leases, w.Step(), s.now))
    || (w.pc.Rejecting? && !Retry.ShouldRetry(w.pc.retryCount, s.db.maxRetry) && s.db.status == TaskStatus.Running)
  }

  predicate HasLost(c: Config, init: State, actions: seq<Action>)
    decreases |actions|
  {
    actions != [] &&
    (var before := actions[..|actions| - 1];
     HasLost(c, init, before) || Loses(Run(c, init, before), actions[|actions| - 1]))
  }

  /** A worker with a redelivered message gets past all checks and enters its step. */
  predicate Reenters(s: State, a: Action) {
    a.Act? && a.id in s.workers && a.id in s.redelivered && Enters(s.db, s.workers[a.id])
  }

  predicate HasReentered(c: Config, init: State, actions: seq<Action>)
    decreases |actions|
  {
    actions != [] &&
    (var before := actions[..|actions| - 1];
     HasReentered(c, init, before) || Reenters(Run(c, init, before), actions[|actions| - 1]))
  }

  // ---------------------------------------------------------------- the invariant

  /** A message whose delivery will be executed. */
  predicate Due(db: Db, e: Event) {
    && e in db.outbox && Fresh(db, e) && SequentialRuns.Waiting(db.steps[e.step])
    && db.status in {TaskStatus.Created, TaskStatus.Queued, TaskStatus.Running, TaskStatus.Retrying}
  }

  ghost predicate CarrierOk(db: Db, k: nat, w: Worker) {
    if Active(w.pc) then Good(db, k, w)
    else Due(db, w.event) && (w.pc.EnterStep? ==> db.status == TaskStatus.Running)
  }

  datatype Holder = Nobody | Message(index: nat) | Carrier(id: nat)

  /** Where the one token is. */
  ghost predicate Holds(s: State, k: nat, h: Holder) {
    match h
    case Nobody => Undelivered(s) == {} && Carriers(s) == {}
    case Message(i) => Undelivered(s) == {i} && Carriers(s) == {} && Due(s.db, s.db.outbox[i])
    case Carrier(id) =>
      Undelivered(s) == {} && Carriers(s) == {id} && id !in s.redelivered && CarrierOk(s.db, k, s.workers[id])
  }

  /** A message that was handed on: its step is finished, or was reset since. */
  predicate Spent(db: Db, e: Event) {
    e in db.outbox && (!Fresh(db, e) || db.steps[e.step].status == StepStatus.Success)
  }

  /** A worker that does not count: on its way out, or on its way in with a spent message. */
  predicate Aside(db: Db, w: Worker) {
    match w.pc
    case AcquireLease => Spent(db, w.event)
    case CheckDone => Spent(db, w.event)
    case EnterTask => w.event in db.outbox && !Fresh(db, w.event)
    case EnterStep => w.event in db.outbox && !Fresh(db, w.event)
    case Leaving => Spent(db, w.event)
    case Returning(raised) => raised ==> Spent(db, w.event)
    case _ => false
  }

  ghost predicate RestOk(s: State) {
    && (forall id | id in s.workers :: id < s.nextId) && (forall id | id in s.redelivered :: id < s.nextId)
    && (forall e | e in s.requeued :: Spent(s.db, e))
    && (forall id | id in s.workers && !Counts(s, id) :: Aside(s.db, s.workers[id]))
  }

  ghost predicate Inv(s: State, lost: bool, k: nat, h: Holder) {
    && RestOk(s) && (forall i | i in s.taken :: i < |s.db.outbox|)
    && Frontier(s.db, k) && EventsOk(s.db, k) && Holds(s, k, h)
    && (lost ==> !Over(s.db)) && (h.Nobody? <==> lost || Over(s.db))
  }

  // ---------------------------------------------------------------- one transaction

  /** What a transaction of a carrier leaves: the work in its own hands, one new message, the end, or nothing. */
  ghost predicate Passed(db: Db, d: Db, pc: Pc, lost: bool) {
    if Carrying(pc) then d.outbox == db.outbox && !Over(d) && !lost
    else if Over(d) || lost then d.outbox == db.outbox && (lost ==> !Over(d))
    else |d.outbox| == |db.outbox| + 1 && d.outbox[..|db.outbox|] == db.outbox && Due(d, d.outbox[|db.outbox|])
  }

  predicate OutOfBudget(db: Db, w: Worker) {
    w.pc.Rejecting? && !Retry.ShouldRetry(w.pc.retryCount, db.maxRetry) && db.status == TaskStatus.Running
  }

  /** An active worker that leaves to come back, or raises, has finished its step; it raises only out of budget. */
  predicate LeavesDone(d: Db, w: Worker, pc: Pc, lost: bool) {
    && (pc.Leaving? || pc == Returning(true) ==> d.steps[w.Step()].status == StepStatus.Success)
    && (pc == Returning(true) ==> lost && w.Step() == QUALITY_EVALUATION)
  }

  lemma ActivePasses(c: Config, db: Db, k: nat, w: Worker, r: AgentResult) returns (next: nat)
    requires Good(db, k, w)
    ensures var (d, pc) := DbStep(c, db, w, r);
      && GoodAfter(db, d, next, w, pc) && Passed(db, d, pc, OutOfBudget(db, w)) && (Carrying(pc) ==> Active(pc))
      && LeavesDone(d, w, pc, OutOfBudget(db, w))
  {
    next := ActiveStep(c, db, k, w, r);
    assert EventOk(db, k, w.event);
    HandedOn(c, db, k, w, r);
    OutWhenDone(c, db, k, w, r);
  }

  lemma OutWhenDone(c: Config, db: Db, k: nat, w: Worker, r: AgentResult)
    requires Good(db, k, w)
    ensures var (d, pc) := DbStep(c, db, w, r); LeavesDone(d, w, pc, OutOfBudget(db, w))
  {
    if k == 8 {
      assert FrontierRow(db, k, QUALITY_EVALUATION);
    }
  }

  lemma HandedOn(c: Config, db: Db, k: nat, w: Worker, r: AgentResult)
    requires Good(db, k, w)
    ensures var (d, pc) := DbStep(c, db, w, r); Passed(db, d, pc, OutOfBudget(db, w))
  {
    match w.pc {
      case Succeeding(o) => SuccessHandedOn(c, db, k, w, o, r);
      case WritingBack(o) => WriteBackHandedOn(c, db, k, w, o, r);
      case Scheduling(_, _) => SchedulingHandedOn(c, db, k, w, r);
      case Deciding(_) => JudgeHandedOn(c, db, k, w, r);
      case Rejecting(_, _) => JudgeHandedOn(c, db, k, w, r);
      case _ =>
    }
  }

  lemma WriteBackHandedOn(c: Config, db: Db, k: nat, w: Worker, o: Output, r: AgentResult)
    requires Good(db, k, w) && w.pc == WritingBack(o)
    ensures var (d, pc) := DbStep(c, db, w, r); Passed(db, d, pc, false)
  {
  }

  lemma JudgeHandedOn(c: Config, db: Db, k: nat, w: Worker, r: AgentResult)
    requires Good(db, k, w) && (w.pc.Deciding? || w.pc.Rejecting?)
    ensures var (d, pc) := DbStep(c, db, w, r); Passed(db, d, pc, OutOfBudget(db, w))
  {
  }

  lemma SuccessHandedOn(c: Config, db: Db, k: nat, w: Worker, o: Output, r: AgentResult)
    requires Good(db, k, w) && w.pc == Succeeding(o)
    ensures var (d, pc) := DbStep(c, db, w, r); Passed(db, d, pc, false)
  {
    if w.Step() < QUALITY_EVALUATION {
      assert FrontierRow(db, k, k + 1);
    }
  }

  lemma SchedulingHandedOn(c: Config, db: Db, k: nat, w: Worker, r: AgentResult)
    requires Good(db, k, w) && w.pc.Scheduling?
    ensures var (d, pc) := DbStep(c, db, w, r); Passed(db, d, pc, false)
  {
  }

  /** A carrier that has not entered its step yet. */
  lemma EntryPasses(c: Config, db: Db, k: nat, w: Worker, r: AgentResult)
    requires Frontier(db, k) && EventsOk(db, k) && Carrying(w.pc) && !Active(w.pc) && CarrierOk(db, k, w)
    ensures var (d, pc) := DbStep(c, db, w, r);
      && Frontier(d, k) && EventsOk(d, k) && Carrying(pc) && CarrierOk(d, k, w.(pc := pc))
      && d.outbox == db.outbox && !Over(d) && Edges(db, d)
  {
    var (d, pc) := DbStep(c, db, w, r);
    assert EventOk(db, k, w.event);
    if w.pc.EnterStep? {
      EnterRow(db, k, w);
    } else {
      SameRows(db, d, k);
    }
  }

  /** Another worker's checked return of the task to running does not disturb the carrier. */
  lemma StatusBack(db: Db, k: nat, w: Worker)
    requires Frontier(db, k) && EventsOk(db, k) && CarrierOk(db, k, w)
    requires CanTransitionTask(db.status, TaskStatus.Running)
    ensures CarrierOk(db.(status := TaskStatus.Running), k, w)
  {
    SameRows(db, db.(status := TaskStatus.Running), k);
  }

  // ---------------------------------------------------------------- one action

  lemma SameCarriers(s: State, t: State)
    requires forall id | id in t.workers && Counts(t, id) :: id in s.workers && Counts(s, id)
    requires forall id | id in s.workers && Counts(s, id) :: id in t.workers && Counts(t, id)
    ensures Carriers(t) == Carriers(s)
  {
  }

  /** Finished steps stay finished until they are reset, and a reset makes a message older for good. */
  lemma SpentKept(db: Db, d: Db, k: nat, e: Event)
    requires EventsOk(db, k) && Edges(db, d) && db.outbox <= d.outbox && e in db.outbox
    ensures !Fresh(db, e) ==> !Fresh(d, e)
    ensures Spent(db, e) ==> Spent(d, e)
  {
    assert EventOk(db, k, e);
    assert StepEdge(db.steps[e.step], d.steps[e.step]);
  }

  lemma AsideKept(db: Db, d: Db, k: nat, w: Worker)
    requires EventsOk(db, k) && Edges(db, d) && db.outbox <= d.outbox && Aside(db, w)
    ensures Aside(d, w)
  {
    if w.event in db.outbox {
      SpentKept(db, d, k, w.event);
    }
  }

  /** At most worker `id` moved, and the messages put back are spent. */
  lemma RestAfter(s: State, t: State, k: nat, id: nat)
    requires RestOk(s) && EventsOk(s.db, k) && Edges(s.db, t.db) && s.db.outbox <= t.db.outbox
    requires t.redelivered == s.redelivered && t.nextId == s.nextId
    requires forall o | o in t.workers && o != id :: o in s.workers && t.workers[o] == s.workers[o]
    requires id in t.workers ==> id < t.nextId && (Counts(t, id) || Aside(t.db, t.workers[id]))
    requires forall e | e in t.requeued :: e in s.requeued || Spent(t.db, e)
    ensures RestOk(t)
  {
    forall e | e in t.requeued
      ensures Spent(t.db, e)
    {
      if e in s.requeued {
        SpentKept(s.db, t.db, k, e);
      }
    }
    forall o | o in t.workers && !Counts(t, o)
      ensures Aside(t.db, t.workers[o])
    {
      if o != id {
        assert !Counts(s, o);
        AsideKept(s.db, t.db, k, s.workers[o]);
      }
    }
  }

  /** A transaction of a worker that does not count: at most the task goes back to running. */
  lemma AsideStep(c: Config, db: Db, w: Worker, r: AgentResult)
    requires Aside(db, w) && !Enters(db, w)
    ensures var (d, pc) := DbStep(c, db, w, r);
      && (d == db || (d == db.(status := TaskStatus.Running) && CanTransitionTask(db.status, TaskStatus.Running)))
      && !Active(pc) && (!Carrying(w.pc) ==> !Carrying(pc)) && Aside(d, w.(pc := pc))
  {
  }

  /** What the acts of such a worker leave alone. */
  ghost predicate StepsAside(s: State, t: State, id: nat) {
    && (t.db == s.db
        || (t.db == s.db.(status := TaskStatus.Running) && CanTransitionTask(s.db.status, TaskStatus.Running)))
    && t.redelivered == s.redelivered && t.nextId == s.nextId && t.taken == s.taken
    && (forall o | o in s.workers && o != id :: o in t.workers && t.workers[o] == s.workers[o])
    && (forall o | o in t.workers && o != id :: o in s.workers)
    && (id in t.workers ==> !Counts(t, id) && Aside(t.db, t.workers[id]))
    && (forall e | e in t.requeued :: e in s.requeued || Spent(t.db, e))
  }

  lemma ActsAside(c: Config, s: State, id: nat, r: AgentResult)
    requires id in s.workers && !Counts(s, id) && Aside(s.db, s.workers[id]) && !Reenters(s, Act(id, r))
    ensures StepsAside(s, ActOf(c, s, id, r), id)
  {
    AsideStep(c, s.db, s.workers[id], r);
  }

  lemma SameCount(s: State, t: State, id: nat)
    requires id in s.workers && !Counts(s, id) && StepsAside(s, t, id)
    ensures Carriers(t) == Carriers(s) && Undelivered(t) == Undelivered(s)
  {
    assert forall o | o in s.workers && o != id :: Counts(t, o) == Counts(s, o);
    SameCarriers(s, t);
  }

  lemma AsideKeepsToken(s: State, t: State, lost: bool, k: nat, h: Holder, id: nat)
    requires Inv(s, lost, k, h) && id in s.workers && !Counts(s, id) && StepsAside(s, t, id)
    ensures Inv(t, lost, k, h)
  {
    SameRows(s.db, t.db, k);
    SameCount(s, t, id);
    RestAfter(s, t, k, id);
    if h.Carrier? {
      assert h.id in Carriers(s);
      CarrierBeside(s, t, k, h.id, id);
    }
  }

  lemma CarrierBeside(s: State, t: State, k: nat, id: nat, other: nat)
    requires Frontier(s.db, k) && EventsOk(s.db, k) && id in s.workers && id != other && StepsAside(s, t, other)
    requires CarrierOk(s.db, k, s.workers[id])
    ensures t.workers[id] == s.workers[id] && CarrierOk(t.db, k, t.workers[id])
  {
    if t.db != s.db {
      StatusBack(s.db, k, s.workers[id]);
    }
  }

  lemma AsideActs(c: Config, s: State, lost: bool, k: nat, h: Holder, id: nat, r: AgentResult)
    requires Inv(s, lost, k, h) && id in s.workers && !Counts(s, id) && !Reenters(s, Act(id, r))
    ensures Inv(ActOf(c, s, id, r), lost, k, h) && !Loses(s, Act(id, r))
  {
    assert Aside(s.db, s.workers[id]);
    ActsAside(c, s, id, r);
    AsideKeepsToken(s, ActOf(c, s, id, r), lost, k, h, id);
  }

  /** The only carrier moved on from `w` to `pc`. */
  lemma CarriersAfter(s: State, t: State, id: nat, pc: Pc)
    requires Carriers(s) == {id} && t.workers == s.workers[id := s.workers[id].(pc := pc)]
    requires t.redelivered == s.redelivered
    requires Active(pc) || (id !in s.redelivered && Carrying(pc)) || !Carrying(pc)
    ensures Carriers(t) == if Carrying(pc) then {id} else {}
  {
    forall o | o in Carriers(t) && o != id
      ensures o in Carriers(s)
    {
      assert Counts(s, o);
    }
    assert Carrying(pc) ==> Counts(t, id);
  }

  lemma ActiveActs(c: Config, s: State, k: nat, id: nat, r: AgentResult)
    returns (next: nat, h: Holder)
    requires Inv(s, false, k, Carrier(id)) && Active(s.workers[id].pc)
    ensures Inv(ActOf(c, s, id, r), Loses(s, Act(id, r)), next, h)
  {
    var w := s.workers[id];
    next := ActivePasses(c, s.db, k, w, r);
    var (d, pc) := DbStep(c, s.db, w, r);
    h := ActiveMoved(s, s.(db := d, workers := s.workers[id := w.(pc := pc)]), k, id, pc, next, Loses(s, Act(id, r)));
  }

  /** The token after a transaction of the worker that holds it, the rows now at `t.db`. */
  lemma ActiveMoved(s: State, t: State, k: nat, id: nat, pc: Pc, next: nat, lost: bool) returns (h: Holder)
    requires Inv(s, false, k, Carrier(id)) && Active(s.workers[id].pc)
    requires t == s.(db := t.db, workers := s.workers[id := s.workers[id].(pc := pc)])
    requires GoodAfter(s.db, t.db, next, s.workers[id], pc) && Passed(s.db, t.db, pc, lost)
    requires Carrying(pc) ==> Active(pc)
    requires LeavesDone(t.db, s.workers[id], pc, lost)
    ensures Inv(t, lost, next, h)
  {
    CarriersAfter(s, t, id, pc);
    ActiveRest(s, t, k, id, pc, next, lost);
    if Carrying(pc) {
      h := Carrier(id);
      assert Undelivered(t) == Undelivered(s);
    } else if Over(t.db) || lost {
      h := Nobody;
      assert Undelivered(t) == Undelivered(s);
    } else {
      h := Message(|s.db.outbox|);
      NewMessage(s, t);
    }
  }

  lemma ActiveRest(s: State, t: State, k: nat, id: nat, pc: Pc, next: nat, lost: bool)
    requires RestOk(s) && EventsOk(s.db, k) && id in s.workers && s.workers[id].event in s.db.outbox
    requires t == s.(db := t.db, workers := s.workers[id := s.workers[id].(pc := pc)])
    requires GoodAfter(s.db, t.db, next, s.workers[id], pc) && LeavesDone(t.db, s.workers[id], pc, lost)
    ensures RestOk(t)
  {
    var w := s.workers[id].(pc := pc);
    assert t.workers[id] == w && (Active(pc) || Aside(t.db, w));
    RestAfter(s, t, k, id);
  }

  lemma NewMessage(s: State, t: State)
    requires Undelivered(s) == {} && |t.db.outbox| == |s.db.outbox| + 1
    requires t.taken == s.taken && forall i | i in s.taken :: i < |s.db.outbox|
    ensures Undelivered(t) == {|s.db.outbox|}
  {
    assert forall i | i in Undelivered(t) && i != |s.db.outbox| :: i in Undelivered(s);
  }

  /** From the delivery to the entry of the step; a running lease ends it. */
  lemma EntryActs(c: Config, s: State, k: nat, id: nat, r: AgentResult) returns (h: Holder)
    requires Inv(s, false, k, Carrier(id)) && !Active(s.workers[id].pc)
    ensures Inv(ActOf(c, s, id, r), Loses(s, Act(id, r)), k, h)
  {
    var w := s.workers[id];
    var t := ActOf(c, s, id, r);
    assert id in Carriers(s);
    EntryPasses(c, s.db, k, w, r);
    if Loses(s, Act(id, r)) {
      h := Nobody;
      EntryDropped(s, t, k, id);
    } else {
      h := Carrier(id);
      EntryMoved(s, t, k, id, t.workers[id].pc);
    }
  }

  lemma EntryDropped(s: State, t: State, k: nat, id: nat)
    requires Inv(s, false, k, Carrier(id)) && id in s.workers && t == s.(workers := s.workers - {id})
    ensures Inv(t, true, k, Nobody)
  {
    assert id in Carriers(s);
    assert Undelivered(t) == Undelivered(s);
    RestAfter(s, t, k, id);
    assert forall o | o in Carriers(t) :: o in Carriers(s);
  }

  lemma EntryMoved(s: State, t: State, k: nat, id: nat, pc: Pc)
    requires Inv(s, false, k, Carrier(id)) && id in s.workers
    requires t == s.(db := t.db, leases := t.leases, workers := s.workers[id := s.workers[id].(pc := pc)])
    requires Frontier(t.db, k) && EventsOk(t.db, k) && Edges(s.db, t.db) && t.db.outbox == s.db.outbox && !Over(t.db)
    requires Carrying(pc) && CarrierOk(t.db, k, t.workers[id])
    ensures Inv(t, false, k, Carrier(id))
  {
    assert id in Carriers(s);
    assert Undelivered(t) == Undelivered(s);
    RestAfter(s, t, k, id);
    CarriersAfter(s, t, id, pc);
  }

  lemma CarrierActs(c: Config, s: State, k: nat, id: nat, r: AgentResult)
    returns (next: nat, h: Holder)
    requires Inv(s, false, k, Carrier(id))
    ensures Inv(ActOf(c, s, id, r), Loses(s, Act(id, r)), next, h)
  {
    if Active(s.workers[id].pc) {
      next, h := ActiveActs(c, s, k, id, r);
    } else {
      next := k;
      h := EntryActs(c, s, k, id, r);
    }
  }

  lemma MessageArrives(c: Config, s: State, lost: bool, k: nat, h: Holder, index: nat)
    requires Inv(s, lost, k, h) && index in Undelivered(s)
    ensures Inv(Next(c, s, Deliver(index)), lost, k, Carrier(s.nextId))
  {
    var t := Next(c, s, Deliver(index));
    assert h == Message(index);
    assert forall o | o in t.workers && o != s.nextId :: o in s.workers && Counts(t, o) == Counts(s, o);
    assert forall o | o in Carriers(t) && o != s.nextId :: o in Carriers(s);
    assert Counts(t, s.nextId) && s.nextId in Carriers(t);
    assert forall i | i in Undelivered(t) :: i in Undelivered(s) && i != index;
  }

  /** A message comes back: it is spent, and its worker does not count. */
  lemma MessageReturns(c: Config, s: State, lost: bool, k: nat, h: Holder, e: Event)
    requires Inv(s, lost, k, h)
    ensures Inv(Next(c, s, Redeliver(e)), lost, k, h)
  {
    if e in s.requeued {
      ComesBack(s, Next(c, s, Redeliver(e)), lost, k, h, e);
    }
  }

  lemma ComesBack(s: State, t: State, lost: bool, k: nat, h: Holder, e: Event)
    requires Inv(s, lost, k, h) && e in s.requeued
    requires t == s.(workers := s.workers[s.nextId := Worker(e, AcquireLease)], nextId := s.nextId + 1,
                     requeued := s.requeued - multiset{e}, redelivered := s.redelivered + {s.nextId})
    ensures Inv(t, lost, k, h)
  {
    assert forall o | o in s.workers :: o in t.workers && t.workers[o] == s.workers[o] && Counts(t, o) == Counts(s, o);
    SameCarriers(s, t);
    assert Undelivered(t) == Undelivered(s);
  }

  lemma TaskResumed(s: State, k: nat)
    requires Inv(s, false, k, Nobody) && CanResume(s.db)
    ensures Inv(s.(db := Resume(s.db)), false, 0, Message(|s.db.outbox|))
  {
    var t := s.(db := Resume(s.db));
    ResumedRows(s.db, k);
    assert forall o | o in s.workers :: Counts(t, o) == Counts(s, o);
    SameCarriers(s, t);
    RestAfter(s, t, k, s.nextId);
    NewMessage(s, t);
  }

  /** Time and owner-less releases move nothing. */
  lemma NothingMoves(s: State, lost: bool, k: nat, h: Holder, t: State)
    requires Inv(s, lost, k, h) && t.db == s.db && t.workers == s.workers && t.nextId == s.nextId && t.taken == s.taken
    requires t.requeued == s.requeued && t.redelivered == s.redelivered
    ensures Inv(t, lost, k, h)
  {
    assert forall o | o in s.workers :: Counts(t, o) == Counts(s, o);
    SameCarriers(s, t);
    assert Undelivered(t) == Undelivered(s);
  }

  /** A run that delivers once has done so at every earlier point. */
  lemma OnceBefore(c: Config, s: State, a: Action)
    requires DeliveredOnce(Next(c, s, a))
    ensures DeliveredOnce(s)
    ensures a.Deliver? && a.index < |s.db.outbox| ==> a.index in Undelivered(s)
    ensures a.Crash? ==> Next(c, s, a) == s
  {
    var t := Next(c, s, a);
    if a.Deliver? && a.index < |s.db.outbox| {
      assert t.taken[|s.taken|] == a.index && forall i | 0 <= i < |s.taken| :: t.taken[i] == s.taken[i];
    }
  }

  lemma WorkerActs(c: Config, s: State, lost: bool, k: nat, h: Holder, id: nat, r: AgentResult)
    returns (next: nat, h': Holder)
    requires Inv(s, lost, k, h) && id in s.workers && !Reenters(s, Act(id, r))
    ensures Inv(ActOf(c, s, id, r), lost || Loses(s, Act(id, r)), next, h')
  {
    if Counts(s, id) {
      assert id in Carriers(s);
      next, h' := CarrierActs(c, s, k, id, r);
    } else {
      next, h' := k, h;
      AsideActs(c, s, lost, k, h, id, r);
    }
  }

  lemma StepKeepsToken(c: Config, s: State, lost: bool, k: nat, h: Holder, a: Action)
    returns (next: nat, h': Holder)
    requires Inv(s, lost, k, h) && DeliveredOnce(Next(c, s, a)) && !Reenters(s, a)
    ensures Inv(Next(c, s, a), lost || Loses(s, a), next, h')
  {
    next, h' := k, h;
    OnceBefore(c, s, a);
    match a {
      case Deliver(index) =>
        if index < |s.db.outbox| {
          MessageArrives(c, s, lost, k, h, index);
          h' := Carrier(s.nextId);
        }
      case Redeliver(e) => MessageReturns(c, s, lost, k, h, e);
      case Act(id, r) =>
        if id in s.workers {
          next, h' := WorkerActs(c, s, lost, k, h, id, r);
        }
      case ResumeTask =>
        if CanResume(s.db) {
          TaskResumed(s, k);
          next, h' := 0, Message(|s.db.outbox|);
        }
      case _ => NothingMoves(s, lost, k, h, Next(c, s, a));
    }
  }

  // ---------------------------------------------------------------- all runs

  lemma NewTaskHasToken(init: State)
    requires NewTask(init)
    ensures Inv(init, false, init.db.start, Message(0))
  {
    assert Undelivered(init) == {0};
    assert Carriers(init) == {};
  }

  lemma {:induction false} InvHolds(c: Config, init: State, actions: seq<Action>) returns (k: nat, h: Holder)
    requires NewTask(init) && DeliveredOnce(Run(c, init, actions)) && !HasReentered(c, init, actions)
    ensures Inv(Run(c, init, actions), HasLost(c, init, actions), k, h)
    decreases |actions|
  {
    if actions == [] {
      NewTaskHasToken(init);
      k, h := init.db.start, Message(0);
    } else {
      var before, a := actions[..|actions| - 1], actions[|actions| - 1];
      OnceBefore(c, Run(c, init, before), a);
      k, h := InvHolds(c, init, before);
      k, h := StepKeepsToken(c, Run(c, init, before), HasLost(c, init, before), k, h, a);
    }
  }

  predicate OneToken(s: State) {
    TokenCount(s) == if Over(s.db) then 0 else 1
  }

  /**
   Token conservation: at every point of a crash-free run that the broker delivers once and in which no
   redelivered message has entered its step, an open task has exactly one token, an undelivered message or
   a worker that has not handed on, and a task that is over has none, if and only if no token has been lost
   in one of the two ways. After a loss the task is open for ever and has none.
   */
  lemma {:induction false} OneTokenUnlessLost(c: Config, init: State, actions: seq<Action>)
    requires NewTask(init) && DeliveredOnce(Run(c, init, actions)) && !HasReentered(c, init, actions)
    ensures var s := Run(c, init, actions);
      && (OneToken(s) <==> !HasLost(c, init, actions))
      && (HasLost(c, init, actions) ==> TokenCount(s) == 0 && !Over(s.db))
  {
    var k, h := InvHolds(c, init, actions);
  }

  /** When nothing is undelivered and no worker is left, the task is over unless its token was lost. */
  lemma {:induction false} OverWhenQuiet(c: Config, init: State, actions: seq<Action>)
    requires NewTask(init) && DeliveredOnce(Run(c, init, actions)) && !HasReentered(c, init, actions)
    requires Undelivered(Run(c, init, actions)) == {} && Run(c, init, actions).workers == map[]
    ensures Over(Run(c, init, actions).db) <==> !HasLost(c, init, actions)
  {
    OneTokenUnlessLost(c, init, actions);
    assert Carriers(Run(c, init, actions)) == {};
  }

  /**
   Until one gets in, the messages put back are no tokens: the step of each is finished, or was reset after
   the message was committed, and no worker of such a message is active.
   */
  lemma {:induction false} ReturnedMessagesAreSpent(c: Config, init: State, actions: seq<Action>)
    requires NewTask(init) && DeliveredOnce(Run(c, init, actions)) && !HasReentered(c, init, actions)
    ensures var s := Run(c, init, actions);
      && (forall e | e in s.requeued :: Spent(s.db, e))
      && (forall id | id in s.workers && id in s.redelivered ::
            !Active(s.workers[id].pc) && (s.workers[id].pc.Returning? || Spent(s.db, s.workers[id].event)))
  {
    var k, h := InvHolds(c, init, actions);
    ReturnedAreAside(Run(c, init, actions), HasLost(c, init, actions), k, h);
  }

  lemma ReturnedAreAside(s: State, lost: bool, k: nat, h: Holder)
    requires Inv(s, lost, k, h)
    ensures forall id | id in s.workers && id in s.redelivered ::
      !Active(s.workers[id].pc) && (s.workers[id].pc.Returning? || Spent(s.db, s.workers[id].event))
  {
    forall id | id in s.workers && id in s.redelivered
      ensures !Active(s.workers[id].pc) && (s.workers[id].pc.Returning? || Spent(s.db, s.workers[id].event))
    {
      assert Counts(s, id) ==> id in Carriers(s);
      assert Aside(s.db, s.workers[id]);
    }
  }

  // ---------------------------------------------------------------- the second token

  predicate AlwaysOneToken(c: Config, init: State, actions: seq<Action>)
    decreases |actions|
  {
    OneToken(Run(c, init, actions)) && (actions == [] || AlwaysOneToken(c, init, actions[..|actions| - 1]))
  }

  lemma EntryMoves(c: Config, s: State, a: Action)
    requires Reenters(s, a)
    ensures var t, w := Next(c, s, a), s.workers[a.id];
      && t == s.(db := t.db, workers := s.workers[a.id := w.(pc := Start)])
      && t.db == s.db.(steps := t.db.steps)
  {
  }

  /** A redelivered message that gets in is a token more, and it is stale. */
  lemma ReentryAddsToken(c: Config, s: State, lost: bool, k: nat, h: Holder, a: Action)
    requires Inv(s, lost, k, h) && Reenters(s, a)
    ensures var t := Next(c, s, a); TokenCount(t) == TokenCount(s) + 1 && Over(t.db) == Over(s.db)
    ensures !Fresh(s.db, s.workers[a.id].event)
  {
    var t := Next(c, s, a);
    assert !Counts(s, a.id) && Aside(s.db, s.workers[a.id]);
    EntryMoves(c, s, a);
    OneMoreCarrier(s, t, a.id);
  }

  lemma OneMoreCarrier(s: State, t: State, id: nat)
    requires id in s.workers && !Counts(s, id) && t.db.outbox == s.db.outbox
    requires t == s.(db := t.db, workers := s.workers[id := s.workers[id].(pc := Start)])
    ensures TokenCount(t) == TokenCount(s) + 1
  {
    assert Undelivered(t) == Undelivered(s);
    assert forall o | o in s.workers && o != id :: t.workers[o] == s.workers[o] && Counts(t, o) == Counts(s, o);
    assert Counts(t, id);
    assert Carriers(t) == Carriers(s) + {id};
  }

  /**
   One token at every point of the run, if and only if no token has been lost and no redelivered message
   has entered its step: the two losses and this are the only ways for a crash-free run that the broker
   delivers once to have none or two.
   */
  lemma {:induction false} OneTokenThroughout(c: Config, init: State, actions: seq<Action>)
    requires NewTask(init) && DeliveredOnce(Run(c, init, actions))
    ensures AlwaysOneToken(c, init, actions) <==> !HasLost(c, init, actions) && !HasReentered(c, init, actions)
    decreases |actions|
  {
    if actions == [] {
      NewTaskHasToken(init);
    } else {
      var before, a := actions[..|actions| - 1], actions[|actions| - 1];
      var s := Run(c, init, before);
      OnceBefore(c, s, a);
      OneTokenThroughout(c, init, before);
      if !HasLost(c, init, before) && !HasReentered(c, init, before) {
        var k, h := InvHolds(c, init, before);
        if Reenters(s, a) {
          ReentryAddsToken(c, s, false, k, h, a);
        } else {
          OneTokenUnlessLost(c, init, actions);
        }
      }
    }
  }

  lemma EntersFresh(s: State, lost: bool, k: nat, h: Holder, a: Action)
    requires Inv(s, lost, k, h)
    ensures NotStale(s, a) <==> !Reenters(s, a)
  {
    if a.Act? && a.id in s.workers && Enters(s.db, s.workers[a.id]) {
      if Counts(s, a.id) {
        assert a.id in Carriers(s);
      } else {
        assert Aside(s.db, s.workers[a.id]);
      }
    }
  }

  /**
   Every step is entered on a message newer than its last reset, if and only if no redelivered message has
   entered its step.
   */
  lemma {:induction false} UpToDateIff(c: Config, init: State, actions: seq<Action>)
    requires NewTask(init) && DeliveredOnce(Run(c, init, actions))
    ensures UpToDate(c, init, actions) <==> !HasReentered(c, init, actions)
    decreases |actions|
  {
    if actions != [] {
      var before, a := actions[..|actions| - 1], actions[|actions| - 1];
      OnceBefore(c, Run(c, init, before), a);
      UpToDateIff(c, init, before);
      if !HasReentered(c, init, before) {
        var k, h := InvHolds(c, init, before);
        EntersFresh(Run(c, init, before), HasLost(c, init, before), k, h, a);
      }
    }
  }

  // ---------------------------------------------------------------- where such a message comes from

  /** The events whose workers found, on their way out, a task that may not go back to running. */
  function ReturnRaised(s: State, a: Action): set<Event> {
    if a.Act? && a.id in s.workers && s.workers[a.id].pc.Leaving? && TransitionTask(s.db, TaskStatus.Running).Raised?
    then {s.workers[a.id].event}
    else {}
  }

  function PutBack(c: Config, init: State, actions: seq<Action>): set<Event>
    decreases |actions|
  {
    if actions == [] then {}
    else
      var before := actions[..|actions| - 1];
      PutBack(c, init, before) + ReturnRaised(Run(c, init, before), actions[|actions| - 1])
  }

  /** Put back by a failed return to running, or by the second loss, after which the evaluation stays finished. */
  predicate Known(s: State, lost: bool, back: set<Event>, e: Event) {
    e in back || (lost && e.step == QUALITY_EVALUATION && s.db.steps[QUALITY_EVALUATION].status == StepStatus.Success)
  }

  ghost predicate OriginsKnown(s: State, lost: bool, back: set<Event>) {
    && (forall e | e in s.requeued :: Known(s, lost, back, e))
    && (forall id | id in s.workers && (id in s.redelivered || s.workers[id].pc == Returning(true)) ::
          Known(s, lost, back, s.workers[id].event))
  }

  /** After a loss the rows stand still. */
  lemma RowsStandStill(c: Config, s: State, k: nat, h: Holder, a: Action)
    requires Inv(s, true, k, h) && DeliveredOnce(Next(c, s, a)) && !Reenters(s, a)
    ensures Next(c, s, a).db.steps == s.db.steps
  {
    if a.Act? && a.id in s.workers {
      assert a.id !in Carriers(s);
      AsideStep(c, s.db, s.workers[a.id], a.result);
    }
  }

  /** Only the two ways lead to a raised exception. */
  lemma RaisesOnlyThen(c: Config, s: State, lost: bool, k: nat, h: Holder, id: nat, r: AgentResult)
    requires Inv(s, lost, k, h) && id in s.workers && id !in s.redelivered && s.workers[id].pc != Returning(true)
    ensures var t := ActOf(c, s, id, r);
      id in t.workers && t.workers[id].pc == Returning(true) ==>
        s.workers[id].event in ReturnRaised(s, Act(id, r)) || Known(t, Loses(s, Act(id, r)), {}, s.workers[id].event)
  {
    if Counts(s, id) {
      assert id in Carriers(s);
      if Active(s.workers[id].pc) {
        OutWhenDone(c, s.db, k, s.workers[id], r);
      } else {
        EntryPasses(c, s.db, k, s.workers[id], r);
      }
    }
  }

  lemma OriginsStayKnown(c: Config, s: State, lost: bool, back: set<Event>, k: nat, h: Holder, a: Action)
    requires Inv(s, lost, k, h) && OriginsKnown(s, lost, back) && DeliveredOnce(Next(c, s, a)) && !Reenters(s, a)
    ensures OriginsKnown(Next(c, s, a), lost || Loses(s, a), back + ReturnRaised(s, a))
  {
    OnceBefore(c, s, a);
    if lost {
      RowsStandStill(c, s, k, h, a);
    }
    if a.Act? && a.id in s.workers {
      OriginsOfActor(c, s, lost, back, k, h, a.id, a.result);
    } else {
      OriginsCarriedOn(c, s, lost, back, a);
    }
  }

  lemma OriginsOfActor(
    c: Config, s: State, lost: bool, back: set<Event>, k: nat, h: Holder, id: nat, r: AgentResult)
    requires Inv(s, lost, k, h) && OriginsKnown(s, lost, back) && id in s.workers
    requires lost ==> ActOf(c, s, id, r).db.steps == s.db.steps
    ensures var a := Act(id, r); OriginsKnown(ActOf(c, s, id, r), lost || Loses(s, a), back + ReturnRaised(s, a))
  {
    var a, t := Act(id, r), ActOf(c, s, id, r);
    if id !in s.redelivered && s.workers[id].pc != Returning(true) {
      RaisesOnlyThen(c, s, lost, k, h, id, r);
    }
    OnlyOneActs(c, s, id, r);
    OriginsOfOthers(s, t, lost, lost || Loses(s, a), back, back + ReturnRaised(s, a), id);
  }

  /** What an act can do to messages and to other workers. */
  lemma OnlyOneActs(c: Config, s: State, id: nat, r: AgentResult)
    requires id in s.workers
    ensures var t := ActOf(c, s, id, r);
      && t.redelivered == s.redelivered
      && (forall o | o in t.workers && o != id :: o in s.workers && t.workers[o] == s.workers[o])
      && (id in t.workers ==> t.workers[id].event == s.workers[id].event)
      && (forall e | e in t.requeued ::
            e in s.requeued || (e == s.workers[id].event && s.workers[id].pc == Returning(true)))
  {
  }

  lemma OriginsOfOthers(s: State, t: State, lost: bool, lost': bool, back: set<Event>, back': set<Event>, id: nat)
    requires OriginsKnown(s, lost, back) && (lost ==> lost' && t.db.steps == s.db.steps) && back <= back'
    requires id in s.workers && t.redelivered == s.redelivered
    requires forall o | o in t.workers && o != id :: o in s.workers && t.workers[o] == s.workers[o]
    requires id in t.workers ==> t.workers[id].event == s.workers[id].event
    requires forall e | e in t.requeued ::
      e in s.requeued || (e == s.workers[id].event && s.workers[id].pc == Returning(true))
    requires
      && id !in s.redelivered && s.workers[id].pc != Returning(true)
      && id in t.workers && t.workers[id].pc == Returning(true) ==>
      Known(t, lost', back', s.workers[id].event)
    ensures OriginsKnown(t, lost', back')
  {
    assert forall e | Known(s, lost, back, e) :: Known(t, lost', back', e);
  }

  lemma OriginsCarriedOn(c: Config, s: State, lost: bool, back: set<Event>, a: Action)
    requires OriginsKnown(s, lost, back) && !(a.Act? && a.id in s.workers)
    requires forall id | id in s.redelivered :: id < s.nextId
    requires (lost ==> Next(c, s, a).db.steps == s.db.steps) && (a.Crash? ==> Next(c, s, a) == s)
    ensures OriginsKnown(Next(c, s, a), lost, back)
  {
  }

  lemma {:induction false} OriginsAreKnown(c: Config, init: State, actions: seq<Action>)
    requires NewTask(init) && DeliveredOnce(Run(c, init, actions)) && !HasReentered(c, init, actions)
    ensures OriginsKnown(Run(c, init, actions), HasLost(c, init, actions), PutBack(c, init, actions))
    decreases |actions|
  {
    if actions != [] {
      var before, a := actions[..|actions| - 1], actions[|actions| - 1];
      OnceBefore(c, Run(c, init, before), a);
      OriginsAreKnown(c, init, before);
      var k, h := InvHolds(c, init, before);
      OriginsStayKnown(c, Run(c, init, before), HasLost(c, init, before), PutBack(c, init, before), k, h, a);
    }
  }

  /**
   The first redelivered message to enter its step is that of a worker that could not put the task back to
   running on its way out, and its step has been reset since it was committed.
   */
  lemma {:induction false} ReentryIsAReturnPutBack(c: Config, init: State, actions: seq<Action>, a: Action)
    requires NewTask(init) && DeliveredOnce(Run(c, init, actions)) && !HasReentered(c, init, actions)
    requires Reenters(Run(c, init, actions), a)
    ensures var s := Run(c, init, actions);
      var e := s.workers[a.id].event;
      e in PutBack(c, init, actions) && e.generation < s.db.steps[e.step].resets
  {
    var s := Run(c, init, actions);
    var k, h := InvHolds(c, init, actions);
    OriginsAreKnown(c, init, actions);
    ReentryAddsToken(c, s, HasLost(c, init, actions), k, h, a);
    assert EventOk(s.db, k, s.workers[a.id].event);
  }
}

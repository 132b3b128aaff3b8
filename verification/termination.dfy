/**
 Runs go quiet. Every delivery is worked off in a bounded number of actions, a message is put back at most
 once and for a worker that died, and messages are earned by executions, of which there are boundedly many
 (module ConcurrentBound). So only boundedly many deliveries and transactions fit into a run; when none is
 left to do the task is over, unless its token was lost.
 */
module Termination {
  import opened Options
  import opened StateMachine
  import opened Workflow
  import opened Interleaving
  import opened Safety
  import opened Tokens
  import opened ConcurrentBound
  import ExactlyOnce

  // ---------------------------------------------------------------- the actions of a worker

  /** The actions a worker has still to do, at most. */
  function Steps(pc: Pc): nat {
    match pc
    case AcquireLease => 12
    case CheckDone => 11
    case EnterTask => 10
    case EnterStep => 9
    case Start => 8
    case Agent => 7
    case Succeeding(_) => 6
    case Failing(_) => 5
    case Recording(_) => 5
    case Marking(_) => 4
    case EnteringEvaluation(_) => 4
    case Scheduling(_, _) => 3
    case WritingBack(_) => 3
    case Deciding(_) => 3
    case Burying(_) => 2
    case Rejecting(_, _) => 2
    case Leaving => 2
    case Returning(_) => 1
  }

  function StepsOf(workers: map<nat, Worker>, id: nat): nat {
    if id in workers then Steps(workers[id].pc) else 0
  }

  /** The same for all workers with numbers below `n`. */
  function StepsLeft(workers: map<nat, Worker>, n: nat): nat {
    if n == 0 then 0 else StepsLeft(workers, n - 1) + StepsOf(workers, n - 1)
  }

  lemma {:induction false} OneMoves(before: map<nat, Worker>, after: map<nat, Worker>, n: nat, id: nat)
    requires forall o | o != id :: StepsOf(after, o) == StepsOf(before, o)
    ensures StepsLeft(after, n) + (if id < n then StepsOf(before, id) else 0) ==
            StepsLeft(before, n) + (if id < n then StepsOf(after, id) else 0)
  {
    if n > 0 {
      OneMoves(before, after, n - 1, id);
    }
  }

  lemma TransactionShortens(c: Config, db: Db, w: Worker, r: AgentResult)
    requires !w.pc.Returning?
    ensures Steps(DbStep(c, db, w, r).1) < Steps(w.pc)
  {
  }

  lemma ActShortens(c: Config, s: State, id: nat, r: AgentResult)
    requires id in s.workers
    ensures var t := ActOf(c, s, id, r);
      && StepsOf(t.workers, id) < StepsOf(s.workers, id) && t.nextId == s.nextId
      && forall o | o != id :: StepsOf(t.workers, o) == StepsOf(s.workers, o)
  {
    if !s.workers[id].pc.Returning? {
      TransactionShortens(c, s.db, s.workers[id], r);
    }
  }

  /** The transactions and lease operations done by workers. */
  function ActsDone(c: Config, init: State, actions: seq<Action>): nat
    decreases |actions|
  {
    if actions == [] then 0
    else
      var before, a := actions[..|actions| - 1], actions[|actions| - 1];
      ActsDone(c, init, before) + (if a.Act? && a.id in Run(c, init, before).workers then 1 else 0)
  }

  predicate Numbered(s: State) {
    (forall id | id in s.workers :: id < s.nextId) && (forall id | id in s.redelivered :: id < s.nextId)
  }

  lemma ActionCosts(c: Config, s: State, a: Action)
    requires Numbered(s)
    ensures var t := Next(c, s, a);
      && Numbered(t) && s.nextId <= t.nextId
      && StepsLeft(t.workers, t.nextId) + (if a.Act? && a.id in s.workers then 1 else 0) <=
           StepsLeft(s.workers, s.nextId) + 12 * (t.nextId - s.nextId)
  {
    if a.Act? {
      if a.id in s.workers {
        ActShortens(c, s, a.id, a.result);
        OneMoves(s.workers, Next(c, s, a).workers, s.nextId, a.id);
      }
    } else {
      SurroundingsCost(c, s, a);
    }
  }

  lemma SurroundingsCost(c: Config, s: State, a: Action)
    requires Numbered(s) && !a.Act?
    ensures var t := Next(c, s, a);
      && Numbered(t) && s.nextId <= t.nextId
      && StepsLeft(t.workers, t.nextId) <= StepsLeft(s.workers, s.nextId) + 12 * (t.nextId - s.nextId)
  {
    var t := Next(c, s, a);
    if a.Crash? {
      OneMoves(s.workers, t.workers, s.nextId, a.id);
    } else if t.nextId > s.nextId {
      OneMoves(s.workers, t.workers, s.nextId, s.nextId);
    }
  }

  /** In every run: at most twelve actions for a delivery. */
  lemma {:induction false} ActsAreBounded(c: Config, init: State, actions: seq<Action>)
    requires Numbered(init) && init.workers == map[] && init.nextId == 0
    ensures var s := Run(c, init, actions);
      Numbered(s) && ActsDone(c, init, actions) + StepsLeft(s.workers, s.nextId) <= 12 * s.nextId
    decreases |actions|
  {
    if actions != [] {
      var before := actions[..|actions| - 1];
      ActsAreBounded(c, init, before);
      ActionCosts(c, Run(c, init, before), actions[|actions| - 1]);
    }
  }

  // ---------------------------------------------------------------- how often a message is delivered

  /** Workers whose message does not carry the mark. */
  function Firsts(workers: map<nat, Worker>, redelivered: set<nat>): set<nat> {
    workers.Keys - redelivered
  }

  /** Every message put back, or delivered again, accounts for a first delivery or a death. */
  predicate Delivered(s: State) {
    && Numbered(s) && s.nextId == |s.taken| + |s.redelivered|
    && |s.redelivered| + |s.requeued| + |Firsts(s.workers, s.redelivered)| <= |s.taken| + s.crashes
  }

  lemma Removed<T>(s: set<T>, x: T)
    ensures |s - {x}| == |s| - (if x in s then 1 else 0)
  {
    assert s == (s - {x}) + (if x in s then {x} else {});
  }

  lemma CountsAgain(workers: map<nat, Worker>, redelivered: set<nat>, requeued: multiset<Event>, e: Event, id: nat)
    requires e in requeued && id !in workers && id !in redelivered
    ensures |redelivered + {id}| == |redelivered| + 1 && |requeued - multiset{e}| == |requeued| - 1
    ensures Firsts(workers[id := Worker(e, AcquireLease)], redelivered + {id}) == Firsts(workers, redelivered)
  {
  }

  lemma CountsFirst(workers: map<nat, Worker>, redelivered: set<nat>, e: Event, id: nat)
    requires id !in workers && id !in redelivered
    ensures |Firsts(workers[id := Worker(e, AcquireLease)], redelivered)| == |Firsts(workers, redelivered)| + 1
  {
    assert Firsts(workers[id := Worker(e, AcquireLease)], redelivered) == Firsts(workers, redelivered) + {id};
  }

  lemma DeliveredAgain(c: Config, s: State, e: Event)
    requires Delivered(s)
    ensures Delivered(Next(c, s, Redeliver(e)))
  {
    if e in s.requeued {
      CountsAgain(s.workers, s.redelivered, s.requeued, e, s.nextId);
    }
  }

  lemma DeliveredFirst(c: Config, s: State, index: nat)
    requires Delivered(s)
    ensures Delivered(Next(c, s, Deliver(index)))
  {
    if index < |s.db.outbox| {
      CountsFirst(s.workers, s.redelivered, s.db.outbox[index], s.nextId);
    }
  }

  /** A worker that acts stays, or goes and puts back at most its own first delivery. */
  lemma ActReturns(c: Config, s: State, id: nat, r: AgentResult)
    requires id in s.workers
    ensures var t := ActOf(c, s, id, r);
      && t.redelivered == s.redelivered && t.taken == s.taken && t.nextId == s.nextId && t.crashes == s.crashes
      && ((t.workers.Keys == s.workers.Keys && t.requeued == s.requeued)
          || (t.workers.Keys == s.workers.Keys - {id}
              && |t.requeued| <= |s.requeued| + (if id in s.redelivered then 0 else 1)))
  {
  }

  lemma DeliveredActs(c: Config, s: State, id: nat, r: AgentResult)
    requires Delivered(s) && id in s.workers
    ensures Delivered(ActOf(c, s, id, r))
  {
    var t := ActOf(c, s, id, r);
    ActReturns(c, s, id, r);
    Removed(Firsts(s.workers, s.redelivered), id);
    if t.workers.Keys != s.workers.Keys {
      assert Firsts(t.workers, t.redelivered) == Firsts(s.workers, s.redelivered) - {id};
    }
  }

  lemma CountsGone(workers: map<nat, Worker>, redelivered: set<nat>, requeued: multiset<Event>, e: Event, id: nat)
    requires id in workers
    ensures |requeued + multiset{e}| == |requeued| + 1
    ensures |Firsts(workers - {id}, redelivered)| ==
      |Firsts(workers, redelivered)| - (if id in redelivered then 0 else 1)
  {
    Removed(Firsts(workers, redelivered), id);
    assert Firsts(workers - {id}, redelivered) == Firsts(workers, redelivered) - {id};
  }

  lemma DeliveredDies(c: Config, s: State, id: nat)
    requires Delivered(s) && id in s.workers
    ensures Delivered(Next(c, s, Crash(id)))
  {
    CountsGone(s.workers, s.redelivered, s.requeued, s.workers[id].event, id);
  }

  lemma ActionDelivers(c: Config, s: State, a: Action)
    requires Delivered(s)
    ensures Delivered(Next(c, s, a))
  {
    match a {
      case Deliver(index) => DeliveredFirst(c, s, index);
      case Redeliver(e) => DeliveredAgain(c, s, e);
      case Act(id, r) =>
        if id in s.workers {
          DeliveredActs(c, s, id, r);
        }
      case Crash(id) =>
        if id in s.workers {
          DeliveredDies(c, s, id);
        }
      case _ =>
    }
  }

  /** In every run: first deliveries, as many again at most, and one for each death. */
  lemma {:induction false} DeliveriesAreBounded(c: Config, init: State, actions: seq<Action>)
    requires Delivered(init)
    ensures Delivered(Run(c, init, actions))
    decreases |actions|
  {
    if actions != [] {
      var before, a := actions[..|actions| - 1], actions[|actions| - 1];
      DeliveriesAreBounded(c, init, before);
      ActionDelivers(c, Run(c, init, before), a);
    }
  }

  // ---------------------------------------------------------------- messages are earned

  /** A worker whose execution is counted and has sent nothing on yet. */
  predicate Earning(pc: Pc) {
    Active(pc) && !pc.Start?
  }

  function Earners(workers: map<nat, Worker>): set<nat> {
    set id | id in workers && Earning(workers[id].pc)
  }

  function One(b: bool): nat {
    if b then 1 else 0
  }

  lemma TransactionEarns(c: Config, db: Db, w: Worker, r: AgentResult)
    ensures var (d, pc) := DbStep(c, db, w, r);
      |d.outbox| + One(Earning(pc)) + db.executions <= |db.outbox| + One(Earning(w.pc)) + d.executions
  {
    if w.pc.Succeeding? || w.pc.WritingBack? || w.pc.Scheduling? || w.pc.Rejecting? {
      SenderEarns(c, db, w, r);
    } else {
      OthersEarn(c, db, w, r);
    }
  }

  lemma SenderEarns(c: Config, db: Db, w: Worker, r: AgentResult)
    requires w.pc.Succeeding? || w.pc.WritingBack? || w.pc.Scheduling? || w.pc.Rejecting?
    ensures var (d, pc) := DbStep(c, db, w, r);
      d.executions == db.executions && |d.outbox| + One(Earning(pc)) <= |db.outbox| + 1
  {
  }

  lemma OthersEarn(c: Config, db: Db, w: Worker, r: AgentResult)
    requires !w.pc.Succeeding? && !w.pc.WritingBack? && !w.pc.Scheduling? && !w.pc.Rejecting?
    ensures var (d, pc) := DbStep(c, db, w, r);
      && d.outbox == db.outbox && db.executions <= d.executions
      && One(Earning(pc)) + db.executions <= One(Earning(w.pc)) + d.executions
  {
  }

  lemma EarnersOfOne(before: map<nat, Worker>, after: map<nat, Worker>, id: nat)
    requires before - {id} == after - {id}
    ensures |Earners(after)| + One(id in Earners(before)) == |Earners(before)| + One(id in Earners(after))
  {
    assert Earners(after) - {id} == Earners(before) - {id} by {
      assert forall o | o != id :: o in before - {id} <==> o in before;
      assert forall o | o != id :: o in after - {id} <==> o in after;
      assert forall o | o != id && o in before :: before[o] == (before - {id})[o];
      assert forall o | o != id && o in after :: after[o] == (after - {id})[o];
    }
    Removed(Earners(before), id);
    Removed(Earners(after), id);
  }

  predicate Earned(s: State, resumes: nat) {
    |s.db.outbox| + |Earners(s.workers)| <= 1 + s.db.executions + resumes
  }

  lemma ActEarns(c: Config, s: State, id: nat, r: AgentResult, resumes: nat)
    requires id in s.workers && Earned(s, resumes)
    ensures Earned(ActOf(c, s, id, r), resumes)
  {
    var t := ActOf(c, s, id, r);
    EarnersOfOne(s.workers, t.workers, id);
    TransactionEarns(c, s.db, s.workers[id], r);
  }

  /** A new worker earns nothing yet, one that has gone earns nothing any more. */
  lemma EarnersComeAndGo(workers: map<nat, Worker>, id: nat, e: Event)
    ensures |Earners(workers - {id})| <= |Earners(workers)|
    ensures id !in workers ==> Earners(workers[id := Worker(e, AcquireLease)]) == Earners(workers)
  {
    assert Earners(workers - {id}) == Earners(workers) - {id};
    Removed(Earners(workers), id);
  }

  lemma SurroundingsEarn(c: Config, s: State, a: Action, resumes: nat)
    requires !a.Act? && Numbered(s) && Earned(s, resumes)
    ensures Earned(Next(c, s, a), resumes + One(a.ResumeTask? && CanResume(s.db)))
  {
    match a {
      case Deliver(index) =>
        if index < |s.db.outbox| {
          EarnersComeAndGo(s.workers, s.nextId, s.db.outbox[index]);
        }
      case Redeliver(e) => EarnersComeAndGo(s.workers, s.nextId, e);
      case Crash(id) =>
        if id in s.workers {
          EarnersComeAndGo(s.workers, id, s.workers[id].event);
        }
      case _ =>
    }
  }

  lemma ActionEarns(c: Config, s: State, a: Action, resumes: nat)
    requires Numbered(s) && Earned(s, resumes)
    ensures Earned(Next(c, s, a), resumes + One(a.ResumeTask? && CanResume(s.db)))
  {
    if !a.Act? {
      SurroundingsEarn(c, s, a, resumes);
    } else if a.id in s.workers {
      ActEarns(c, s, a.id, a.result, resumes);
    }
  }

  /** In every run: one message to begin with, one for each resume, and one for each execution at most. */
  lemma {:induction false} MessagesAreEarned(c: Config, init: State, actions: seq<Action>)
    requires Numbered(init) && Earned(init, 0)
    ensures Numbered(Run(c, init, actions)) && Earned(Run(c, init, actions), Resumes(c, init, actions))
    decreases |actions|
  {
    if actions != [] {
      var before, a := actions[..|actions| - 1], actions[|actions| - 1];
      MessagesAreEarned(c, init, before);
      ActionEarns(c, Run(c, init, before), a, Resumes(c, init, before));
      ActionCosts(c, Run(c, init, before), a);
    }
  }

  // ---------------------------------------------------------------- runs go quiet

  predicate TakenCommitted(s: State) {
    forall i | i in s.taken :: i < |s.db.outbox|
  }

  lemma {:induction false} TakenAreCommitted(c: Config, init: State, actions: seq<Action>)
    requires init.taken == []
    ensures TakenCommitted(Run(c, init, actions))
    decreases |actions|
  {
    if actions != [] {
      var before, a := actions[..|actions| - 1], actions[|actions| - 1];
      TakenAreCommitted(c, init, before);
      OutboxGrows(c, Run(c, init, before), a);
    }
  }

  lemma OutboxGrows(c: Config, s: State, a: Action)
    requires TakenCommitted(s)
    ensures TakenCommitted(Next(c, s, a))
  {
    if a.Act? && a.id in s.workers {
      ExactlyOnce.CommitSends(c, s.db, s.workers[a.id], a.result, REPAIR);
      ActReturns(c, s, a.id, a.result);
    }
  }

  /** Different numbers below `n` are at most `n`. */
  lemma {:induction false} DistinctBelow(taken: seq<nat>, n: nat)
    requires Distinct(taken) && forall i | i in taken :: i < n
    ensures |taken| <= n
    decreases n
  {
    assert taken == [] || taken[0] in taken;
    if n > 0 {
      var rest := Without(taken, n - 1);
      DistinctBelow(rest, n - 1);
    }
  }

  /** The numbers other than `x`, of which there is at most one fewer. */
  lemma Without(taken: seq<nat>, x: nat) returns (rest: seq<nat>)
    requires Distinct(taken)
    ensures Distinct(rest) && |taken| <= |rest| + 1 && forall i | i in rest :: i in taken && i != x
  {
    rest := taken;
    if x in taken {
      var k :| 0 <= k < |taken| && taken[k] == x;
      rest := taken[..k] + taken[k + 1..];
      assert forall j | 0 <= j < |rest| :: rest[j] == taken[if j < k then j else j + 1];
    }
  }

  lemma {:induction false} AllBounds(c: Config, init: State, actions: seq<Action>) returns (s: State)
    requires NewTask(init) && Distinct(Run(c, init, actions).taken)
    ensures s == Run(c, init, actions) && ActsDone(c, init, actions) <= 12 * s.nextId && |s.taken| <= |s.db.outbox|
    ensures Delivered(s) && Earned(s, Resumes(c, init, actions))
  {
    s := Run(c, init, actions);
    ActsAreBounded(c, init, actions);
    DeliveriesAreBounded(c, init, actions);
    MessagesAreEarned(c, init, actions);
    TakenAreCommitted(c, init, actions);
    DistinctBelow(s.taken, |s.db.outbox|);
  }

  /**
   A run that the broker delivers once of its own accord contains only so many deliveries and worker
   actions, whatever the agents answer and however they are mixed, and a few more for every worker that dies.
   */
  lemma {:induction false} RunsGoQuiet(c: Config, init: State, actions: seq<Action>)
    requires ProperRun(c, init, actions) && Distinct(Run(c, init, actions).taken)
    ensures var s, resumes := Run(c, init, actions), Resumes(c, init, actions);
      s.nextId + ActsDone(c, init, actions) <= 26 * (1 + Limit(init.db.maxRetry, resumes) + resumes) + 39 * s.crashes
  {
    var s := AllBounds(c, init, actions);
    AnyAgentsAreBounded(c, init, actions);
    var resumes := Resumes(c, init, actions);
  }

  /** As long as the run is not quiet there is such an action to take. */
  lemma NotQuietMoves(c: Config, s: State, r: AgentResult) returns (a: Action)
    requires DeliveredOnce(s) && Numbered(s)
    requires Undelivered(s) != {} || s.requeued != multiset{} || s.workers != map[]
    ensures InsideLease(s, a) && DeliveredOnce(Next(c, s, a))
    ensures (a.Act? && a.id in s.workers) || Next(c, s, a).nextId == s.nextId + 1
  {
    if i :| i in Undelivered(s) {
      a := Deliver(i);
    } else if e :| e in s.requeued {
      a := Redeliver(e);
    } else {
      var id :| id in s.workers;
      a := Act(id, r);
    }
  }
}

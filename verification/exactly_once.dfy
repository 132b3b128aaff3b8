/**
 Exactly-once effect over at-least-once delivery. No assumption is made on which events are
 delivered, how often, in which order, or where workers die; only the lease discipline is.
 */
module ExactlyOnce {
  import opened Options
  import opened StateMachine
  import opened Workflow
  import opened Interleaving
  import EL = ExecutionLease

  /** Between the read that found the step unfinished and the write of its result. */
  predicate Critical(w: Worker) {
    w.pc.EnterTask? || w.pc.EnterStep? || w.pc.Start? || w.pc.Agent? || w.pc.Succeeding? || w.pc.Failing?
  }

  predicate Counted(row: StepRow) {
    row.commits <= row.resets + (if row.status == StepStatus.Success then 1 else 0)
  }

  predicate Due(row: StepRow) {
    row.commits <= row.resets
  }

  ghost predicate Inv(s: State) {
    && LeaseInv(s)
    && (forall x: StepId :: Counted(s.db.steps[x]))
    && (forall id | id in s.workers && Critical(s.workers[id]) :: Due(s.db.steps[s.workers[id].Step()]))
  }

  /** A row as a transaction of some worker may leave it, unless that worker commits this very row. */
  predicate Kept(before: StepRow, after: StepRow) {
    && (Counted(before) ==> Counted(after))
    && (Due(before) ==> Due(after))
  }

  /** What one transaction of a worker does to every row other than a row it writes the result of. */
  lemma RowsKept(c: Config, db: Db, w: Worker, r: AgentResult, x: StepId)
    requires !((w.pc.Succeeding? || w.pc.Failing?) && w.Step() == x)
    requires Counted(db.steps[x]) && (Critical(w) && w.Step() == x ==> Due(db.steps[x]))
    ensures Kept(db.steps[x], DbStep(c, db, w, r).0.steps[x])
  {
  }

  lemma ActKeepsInv(c: Config, s: State, id: nat, r: AgentResult)
    requires Inv(s) && id in s.workers
    ensures Inv(ActOf(c, s, id, r))
  {
    var t := ActOf(c, s, id, r);
    LeaseStep(c, s, Act(id, r));
    forall x: StepId
      ensures Counted(t.db.steps[x])
      ensures forall o | o in t.workers && Critical(t.workers[o]) && t.workers[o].Step() == x :: Due(t.db.steps[x])
    {
      RowAfterAct(c, s, id, r, x);
    }
  }

  lemma RowAfterAct(c: Config, s: State, id: nat, r: AgentResult, x: StepId)
    requires Inv(s) && id in s.workers
    ensures var t := ActOf(c, s, id, r);
      && Counted(t.db.steps[x])
      && forall o | o in t.workers && Critical(t.workers[o]) && t.workers[o].Step() == x :: Due(t.db.steps[x])
  {
    var t, w := ActOf(c, s, id, r), s.workers[id];
    if (w.pc.Succeeding? || w.pc.Failing?) && w.Step() == x {
      forall o | o in t.workers && Critical(t.workers[o]) && t.workers[o].Step() == x
        ensures false
      {
        OneHolderPerStep(s, id, o);
      }
    } else {
      RowsKept(c, s.db, w, r, x);
    }
  }

  lemma StepKeepsInv(c: Config, s: State, a: Action)
    requires Inv(s) && InsideLease(s, a)
    ensures Inv(Next(c, s, a))
  {
    LeaseStep(c, s, a);
    if a.Act? && a.id in s.workers {
      ActKeepsInv(c, s, a.id, a.result);
    }
  }

  lemma {:induction false} InvHolds(c: Config, init: State, actions: seq<Action>)
    requires Inv(init) && Leased(c, init, actions)
    ensures Inv(Run(c, init, actions))
  {
    if actions == [] {
    } else {
      InvHolds(c, init, actions[..|actions| - 1]);
      StepKeepsInv(c, Run(c, init, actions[..|actions| - 1]), actions[|actions| - 1]);
    }
  }

  /**
   Whatever is delivered, duplicated, reordered or lost: a step's own executions commit success at
   most once more often than the step was reset.
   */
  lemma {:induction false} CommitsAtMostOncePerReset(
    c: Config, maxRetry: int, start: StepId, history: map<StepId, Output>, actions: seq<Action>, x: StepId)
    requires Leased(c, Initial(maxRetry, start, history), actions)
    ensures var row := Run(c, Initial(maxRetry, start, history), actions).db.steps[x];
      row.commits <= row.resets + 1
  {
    InvHolds(c, Initial(maxRetry, start, history), actions);
  }

  // ---------------------------------------------------------------- the messages a step's executions send on

  /** The events an action commits as the success of an execution of step `x`. */
  function SentBy(c: Config, s: State, a: Action, x: StepId): seq<Event> {
    if a.Act? && a.id in s.workers && s.workers[a.id].pc.Succeeding? && s.workers[a.id].Step() == x
       && |s.db.outbox| <= |Next(c, s, a).db.outbox|
    then Next(c, s, a).db.outbox[|s.db.outbox|..]
    else []
  }

  /** All of them along a run. */
  function SentOn(c: Config, init: State, actions: seq<Action>, x: StepId): seq<Event>
    decreases |actions|
  {
    if actions == [] then []
    else
      var before := actions[..|actions| - 1];
      SentOn(c, init, before, x) + SentBy(c, Run(c, init, before), actions[|actions| - 1], x)
  }

  lemma SendsOnce(c: Config, s: State, a: Action, x: StepId)
    ensures var sent := SentBy(c, s, a, x);
      var before, after := s.db.steps[x].commits, Next(c, s, a).db.steps[x].commits;
      && (x < QUALITY_EVALUATION ==> after == before + |sent|) && (x >= QUALITY_EVALUATION ==> sent == [])
      && forall e | e in sent :: e.step == x + 1
  {
    if a.Act? && a.id in s.workers {
      CommitSends(c, s.db, s.workers[a.id], a.result, x);
    }
  }

  lemma CommitSends(c: Config, db: Db, w: Worker, r: AgentResult, x: StepId)
    ensures var d := DbStep(c, db, w, r).0;
      && |db.outbox| <= |d.outbox|
      && (w.pc.Succeeding? && w.Step() == x ==>
            var sent := d.outbox[|db.outbox|..];
            && d.steps[x].commits == db.steps[x].commits + 1
            && |sent| == (if x < QUALITY_EVALUATION then 1 else 0) && forall e | e in sent :: e.step == x + 1)
      && (!(w.pc.Succeeding? && w.Step() == x) ==> d.steps[x].commits == db.steps[x].commits)
  {
    if w.pc.Succeeding? {
      SuccessSends(c, db, w, r, x);
    } else {
      OthersCommitNothing(c, db, w, r, x);
    }
  }

  lemma SuccessSends(c: Config, db: Db, w: Worker, r: AgentResult, x: StepId)
    requires w.pc.Succeeding?
    ensures var d := DbStep(c, db, w, r).0;
      var sent := if |db.outbox| <= |d.outbox| then d.outbox[|db.outbox|..] else [];
      && |db.outbox| <= |d.outbox|
      && d.steps[x].commits == db.steps[x].commits + (if w.Step() == x then 1 else 0)
      && (w.Step() == x ==>
            |sent| == (if x < QUALITY_EVALUATION then 1 else 0) && forall e | e in sent :: e.step == x + 1)
  {
  }

  lemma OthersCommitNothing(c: Config, db: Db, w: Worker, r: AgentResult, x: StepId)
    requires !w.pc.Succeeding?
    ensures var d := DbStep(c, db, w, r).0; |db.outbox| <= |d.outbox| && d.steps[x].commits == db.steps[x].commits
  {
  }

  lemma {:induction false} SentIsCommitted(c: Config, init: State, actions: seq<Action>, x: StepId)
    requires init.db.steps[x].commits == 0
    ensures var sent := SentOn(c, init, actions, x);
      && (x < QUALITY_EVALUATION ==> |sent| == Run(c, init, actions).db.steps[x].commits)
      && (x >= QUALITY_EVALUATION ==> sent == []) && forall e | e in sent :: e.step == x + 1
    decreases |actions|
  {
    if actions != [] {
      var before := actions[..|actions| - 1];
      SentIsCommitted(c, init, before, x);
      SendsOnce(c, Run(c, init, before), actions[|actions| - 1], x);
    }
  }

  /**
   Likewise the messages: the executions of a step send on at most one message for the next step more
   than the step was reset, whatever is delivered.
   */
  lemma {:induction false} SendsOnAtMostOncePerReset(
    c: Config, maxRetry: int, start: StepId, history: map<StepId, Output>, actions: seq<Action>, x: StepId)
    requires Leased(c, Initial(maxRetry, start, history), actions)
    ensures var sent := SentOn(c, Initial(maxRetry, start, history), actions, x);
      && |sent| <= Run(c, Initial(maxRetry, start, history), actions).db.steps[x].resets + 1
      && forall e | e in sent :: e.step == x + 1
  {
    CommitsAtMostOncePerReset(c, maxRetry, start, history, actions, x);
    SentIsCommitted(c, Initial(maxRetry, start, history), actions, x);
  }

  /** Within the lease discipline two workers never hold one step, whatever is delivered. */
  lemma {:induction false} OneHolderAtATime(
    c: Config, maxRetry: int, start: StepId, history: map<StepId, Output>, actions: seq<Action>, a: nat, b: nat)
    requires Leased(c, Initial(maxRetry, start, history), actions)
    requires var s := Run(c, Initial(maxRetry, start, history), actions);
      && a in s.workers && b in s.workers && a != b
      && Holding(s.workers[a]) && Holding(s.workers[b])
    ensures var s := Run(c, Initial(maxRetry, start, history), actions);
      s.workers[a].Step() != s.workers[b].Step()
  {
    InvHolds(c, Initial(maxRetry, start, history), actions);
    var s := Run(c, Initial(maxRetry, start, history), actions);
    if s.workers[a].Step() == s.workers[b].Step() {
      OneHolderPerStep(s, a, b);
    }
  }
}

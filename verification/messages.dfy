/** What every message says at the moment it is committed, in all runs with overlapping handlers. */
module Messages {
  import opened Options
  import opened StateMachine
  import opened Workflow
  import opened Interleaving
  import opened Safety
  import opened Tokens
  import ExactlyOnce
  import SR = SequentialRuns

  /**
   The message is for the frontier step, which is to be done, or for the repair of the frontier step, which
   has failed; it carries the stored outputs, the number of the attempt and the delay of the attempt.
   */
  ghost predicate OnTarget(c: Config, db: Db, k: nat, e: Event) {
    && Frontier(db, k) && k < 8 && Fresh(db, e) && HistoryAgrees(e.payload.history, db)
    && (if e.step == REPAIR then
          e.payload.target == Some(k) && k < QUALITY_EVALUATION && db.steps[k].status == StepStatus.Failed
        else
          e.step == k && e.payload.target.None?)
    && SR.Waiting(db.steps[e.step])
    && RightAttempt(c, db, e)
  }

  /** A retry carries the number of failures plus one and the delay listed for it, anything else is a first attempt. */
  predicate RightAttempt(c: Config, db: Db, e: Event) {
    if db.steps[e.step].status == StepStatus.Retrying then
      e.payload.attempt == db.retryCount + 1 >= 2 && e.delay == Listed(c.delays, e.payload.attempt - 2)
    else e.payload.attempt == 1 && e.delay == 0
  }

  /** The entry of the configured list, of 0, 5 and 15 without one; the last one beyond its end; never negative. */
  function Listed(configured: seq<int>, n: nat): int {
    if configured == [] then (if n == 0 then 0 else if n == 1 then 5 else 15)
    else
      var entry := if n < |configured| then configured[n] else configured[|configured| - 1];
      if entry < 0 then 0 else entry
  }

  lemma DueIsOnTarget(c: Config, db: Db, k: nat, e: Event)
    requires Frontier(db, k) && EventsOk(db, k) && Tokens.Due(db, e) && RightAttempt(c, db, e)
    ensures OnTarget(c, db, k, e)
  {
    assert EventOk(db, k, e);
    assert e.step < REPAIR ==> FrontierRow(db, k, e.step);
  }

  /** The last of the new messages, if there is one. */
  predicate NewAttempt(c: Config, db: Db, d: Db) {
    |d.outbox| > |db.outbox| ==> RightAttempt(c, d, d.outbox[|d.outbox| - 1])
  }

  lemma AttemptCounts(c: Config, db: Db, k: nat, w: Worker, r: AgentResult)
    requires Good(db, k, w)
    ensures NewAttempt(c, db, DbStep(c, db, w, r).0)
  {
    if w.pc.Succeeding? && w.Step() < QUALITY_EVALUATION {
      assert FrontierRow(db, k, k + 1);
    }
    if w.pc.Scheduling? {
      RetryIsDelayed(c, db, k, w, r);
    }
  }

  lemma RetryIsDelayed(c: Config, db: Db, k: nat, w: Worker, r: AgentResult)
    requires Good(db, k, w) && w.pc.Scheduling?
    ensures NewAttempt(c, db, DbStep(c, db, w, r).0)
  {
  }

  /** The messages of `t` that `s` does not have, at most one, are on target. */
  ghost predicate NewOnTarget(c: Config, s: Db, t: Db, k: nat) {
    && s.outbox <= t.outbox && |t.outbox| <= |s.outbox| + 1
    && forall i | |s.outbox| <= i < |t.outbox| :: OnTarget(c, t, k, t.outbox[i])
  }

  lemma ActiveOnTarget(c: Config, db: Db, k: nat, w: Worker, r: AgentResult) returns (next: nat)
    requires Good(db, k, w)
    ensures var d := DbStep(c, db, w, r).0; Frontier(d, next) && NewOnTarget(c, db, d, next)
  {
    var (d, pc) := DbStep(c, db, w, r);
    next := PassesWithAttempt(c, db, k, w, r, d, pc);
    PassedOnTarget(c, db, d, pc, OutOfBudget(db, w), next);
  }

  lemma PassesWithAttempt(c: Config, db: Db, k: nat, w: Worker, r: AgentResult, d: Db, pc: Pc) returns (next: nat)
    requires Good(db, k, w) && (d, pc) == DbStep(c, db, w, r)
    ensures Passed(db, d, pc, OutOfBudget(db, w)) && Frontier(d, next) && EventsOk(d, next) && NewAttempt(c, db, d)
  {
    next := ActivePasses(c, db, k, w, r);
    AttemptCounts(c, db, k, w, r);
  }

  lemma PassedOnTarget(c: Config, db: Db, d: Db, pc: Pc, lost: bool, next: nat)
    requires Passed(db, d, pc, lost) && Frontier(d, next) && EventsOk(d, next)
    requires NewAttempt(c, db, d)
    ensures NewOnTarget(c, db, d, next)
  {
    if |d.outbox| > |db.outbox| {
      DueIsOnTarget(c, d, next, d.outbox[|db.outbox|]);
    }
  }

  lemma ResumedOnTarget(c: Config, db: Db, k: nat)
    requires EventsOk(db, k) && CanResume(db)
    ensures Frontier(Resume(db), 0) && NewOnTarget(c, db, Resume(db), 0)
  {
    ResumedRows(db, k);
    DueIsOnTarget(c, Resume(db), 0, Resume(db).outbox[|db.outbox|]);
  }

  lemma ActOnTarget(c: Config, s: State, k: nat, id: nat, r: AgentResult) returns (next: nat)
    requires Safety.Inv(s, k) && id in s.workers && NotStale(s, Act(id, r))
    ensures var d := ActOf(c, s, id, r).db; Frontier(d, next) && NewOnTarget(c, s.db, d, next)
  {
    next := k;
    assert WorkerOk(s.db, k, s.workers[id]);
    if Active(s.workers[id].pc) {
      next := ActiveOnTarget(c, s.db, k, s.workers[id], r);
    } else if Poised(s.db, s.workers[id]) {
      EnterRow(s.db, k, s.workers[id]);
    } else {
      OtherAddsNothing(c, s, k, id, r);
    }
  }

  lemma OtherAddsNothing(c: Config, s: State, k: nat, id: nat, r: AgentResult)
    requires Frontier(s.db, k) && EventsOk(s.db, k)
    requires id in s.workers && !Active(s.workers[id].pc) && !Enters(s.db, s.workers[id])
    ensures var d := ActOf(c, s, id, r).db; Frontier(d, k) && d.outbox == s.db.outbox
  {
    OtherDbStep(c, s.db, s.workers[id], r);
    SameRows(s.db, ActOf(c, s, id, r).db, k);
  }

  /**
   Every message any action of a run commits is, when it is committed, for the first unfinished step or for
   the repair of that step, and carries exactly the stored outputs of the pass; a retry is delayed as listed;
   no action commits two.
   */
  lemma {:induction false} EveryMessageOnTarget(c: Config, init: State, actions: seq<Action>) returns (k: nat)
    requires ProperRun(c, init, actions) && actions != []
    ensures var s, t := Run(c, init, actions[..|actions| - 1]), Run(c, init, actions);
      Frontier(t.db, k) && NewOnTarget(c, s.db, t.db, k)
  {
    var before, a := actions[..|actions| - 1], actions[|actions| - 1];
    var s := Run(c, init, before);
    k := Safety.InvHolds(c, init, before);
    if a.Act? {
      if a.id in s.workers {
        k := ActOnTarget(c, s, k, a.id, a.result);
      }
    } else if a.ResumeTask? {
      if CanResume(s.db) {
        ResumedOnTarget(c, s.db, k);
        k := 0;
      }
    } else {
      SurroundingsStep(c, s, k, a);
    }
  }

  /** So is the message a task is created with. */
  lemma FirstMessageOnTarget(c: Config, init: State)
    requires NewTask(init)
    ensures |init.db.outbox| == 1 && OnTarget(c, init.db, init.db.start, init.db.outbox[0])
  {
    NewTaskHasToken(init);
    DueIsOnTarget(c, init.db, init.db.start, init.db.outbox[0]);
  }

  /**
   In every state whatsoever, stale messages included: the message a worker commits is delayed if and as far as
   the list says when it is a retry of the worker's own step, and not at all otherwise.
   */
  lemma DelayOfAnyMessage(c: Config, db: Db, w: Worker, r: AgentResult)
    ensures var d := DbStep(c, db, w, r).0;
      |db.outbox| <= |d.outbox| <= |db.outbox| + 1 &&
      (|d.outbox| > |db.outbox| ==>
         var e := d.outbox[|db.outbox|];
         if w.pc.Scheduling? && e.step == w.Step() then
           e.delay == Listed(c.delays, w.pc.retryCount - 1) && e.payload.attempt == w.pc.retryCount + 1
         else e.delay == 0 && e.payload.attempt == 1)
  {
    match w.pc {
      case Scheduling(_, _) => DelayOfRetry(c, db, w, r);
      case WritingBack(_) =>
      case Succeeding(_) =>
      case Rejecting(_, _) =>
      case _ => ExactlyOnce.CommitSends(c, db, w, r, REPAIR);
    }
  }

  lemma DelayOfRetry(c: Config, db: Db, w: Worker, r: AgentResult)
    requires w.pc.Scheduling?
    ensures var d := DbStep(c, db, w, r).0;
      |db.outbox| <= |d.outbox| <= |db.outbox| + 1 &&
      (|d.outbox| > |db.outbox| ==>
         var e := d.outbox[|db.outbox|];
         if e.step == w.Step() then
           e.delay == Listed(c.delays, w.pc.retryCount - 1) && e.payload.attempt == w.pc.retryCount + 1
         else e.delay == 0 && e.payload.attempt == 1)
  {
  }
}

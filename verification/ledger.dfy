/**
 What the counters of a task count when handlers overlap, messages are duplicated and workers die. A
 worker is answering from its agent's failure (or the judge's request for a rerun) until the task has
 counted it; a worker that dies in between takes the count with it, and nothing else does.
 */
module Ledger {
  import opened Options
  import opened StateMachine
  import opened Workflow
  import opened Interleaving
  import opened Safety

  /** Since the last resume: failures, requests for a rerun, answers and counts lost with workers; the resumes. */
  datatype Book = Book(failures: nat, rejections: nat, lostAnswers: nat, lostCounts: nat, resumes: nat)

  const NOTHING := Book(0, 0, 0, 0, 0)

  /** A verdict that neither passes nor goes to manual review by itself. */
  predicate AsksForRerun(v: Output) {
    !PassedOf(v) && !HighRiskOf(v) && ScoreOf(v) >= 40
  }

  function StepFailures(rows: StepRows): nat {
    rows[0].retryCount + rows[1].retryCount + rows[2].retryCount + rows[3].retryCount + rows[4].retryCount
    + rows[5].retryCount + rows[6].retryCount + rows[7].retryCount + rows[8].retryCount
  }

  predicate RerunAsked(pc: Pc) {
    || (pc.Succeeding? && AsksForRerun(pc.output))
    || (pc.Recording? && AsksForRerun(pc.verdict))
    || (pc.EnteringEvaluation? && AsksForRerun(pc.verdict))
    || (pc.Deciding? && AsksForRerun(pc.verdict))
  }

  /** Answered, and not counted by the task yet. */
  predicate Answering(w: Worker) {
    w.pc.Failing? || w.pc.Marking? || (w.Step() == QUALITY_EVALUATION && RerunAsked(w.pc))
  }

  function Uncounted(s: State): set<nat> {
    set id | id in s.workers && Answering(s.workers[id])
  }

  /** Failed, and not even its step's row says so. */
  function Unwritten(s: State): set<nat> {
    set id | id in s.workers && s.workers[id].pc.Failing?
  }

  function Noted(s: State, a: Action, t: Book): Book {
    match a
    case Act(id, r) =>
      if id !in s.workers || !s.workers[id].pc.Agent? then t
      else if r.Failed? then t.(failures := t.failures + 1)
      else if s.workers[id].Step() == QUALITY_EVALUATION && AsksForRerun(r.output) then
        t.(rejections := t.rejections + 1)
      else t
    case Crash(id) =>
      if id !in s.workers || !Answering(s.workers[id]) then t
      else if s.workers[id].pc.Failing? then t.(lostAnswers := t.lostAnswers + 1)
      else t.(lostCounts := t.lostCounts + 1)
    case ResumeTask => if CanResume(s.db) then NOTHING.(resumes := t.resumes + 1) else t
    case _ => t
  }

  function BookOf(c: Config, init: State, actions: seq<Action>): Book
    decreases |actions|
  {
    if actions == [] then NOTHING
    else
      var before := actions[..|actions| - 1];
      Noted(Run(c, init, before), actions[|actions| - 1], BookOf(c, init, before))
  }

  predicate InBalance(s: State, t: Book) {
    && s.db.retryCount + |Uncounted(s)| + t.lostAnswers + t.lostCounts == t.failures + t.rejections
    && StepFailures(s.db.steps) + |Unwritten(s)| + t.lostAnswers == t.failures
    && |s.db.deadLetters| == t.resumes + (if s.db.status == TaskStatus.DeadLetter then 1 else 0)
  }

  // ---------------------------------------------------------------- one transaction

  function One(b: bool): nat {
    if b then 1 else 0
  }

  /** What a transaction of the active worker must do to the counters. */
  predicate Counted(db: Db, d: Db, w: Worker, pc: Pc, r: AgentResult) {
    && d.retryCount + One(Answering(w.(pc := pc))) == db.retryCount + One(Answering(w))
         + One(w.pc.Agent? && (r.Failed? || (w.Step() == QUALITY_EVALUATION && AsksForRerun(r.output))))
    && StepFailures(d.steps) + One(pc.Failing?) ==
         StepFailures(db.steps) + One(w.pc.Failing?) + One(w.pc.Agent? && r.Failed?)
    && |d.deadLetters| == |db.deadLetters| + One(d.status == TaskStatus.DeadLetter)
  }

  /** What the counters need to know of an active worker. */
  predicate Underway(db: Db, w: Worker) {
    && db.status != TaskStatus.DeadLetter
    && (w.pc.EnteringEvaluation? ==> db.status == TaskStatus.Running)
    && (w.pc.Deciding? ==> db.status == TaskStatus.Evaluating)
    && (w.pc.Recording? || w.pc.EnteringEvaluation? || w.pc.Deciding? ==> w.Step() == QUALITY_EVALUATION)
  }

  lemma ActiveCounts(c: Config, db: Db, w: Worker, r: AgentResult)
    requires Active(w.pc) && Underway(db, w)
    ensures var (d, pc) := DbStep(c, db, w, r); Counted(db, d, w, pc, r)
  {
    match w.pc {
      case Succeeding(_) => ResultCounts(c, db, w, r);
      case Failing(_) => ResultCounts(c, db, w, r);
      case WritingBack(_) => WriteBackCounts(c, db, w, r);
      case Rejecting(_, _) => RerunCounts(c, db, w, r);
      case Scheduling(_, _) => SchedulingCounts(c, db, w, r);
      case Burying(_) => StatusCounts(c, db, w, r);
      case _ => StatusCounts(c, db, w, r);
    }
  }

  lemma ResultCounts(c: Config, db: Db, w: Worker, r: AgentResult)
    requires (w.pc.Succeeding? || w.pc.Failing?) && Underway(db, w)
    ensures var (d, pc) := DbStep(c, db, w, r); Counted(db, d, w, pc, r)
  {
  }

  lemma WriteBackCounts(c: Config, db: Db, w: Worker, r: AgentResult)
    requires w.pc.WritingBack? && Underway(db, w)
    ensures var (d, pc) := DbStep(c, db, w, r); Counted(db, d, w, pc, r)
  {
  }

  lemma RerunCounts(c: Config, db: Db, w: Worker, r: AgentResult)
    requires w.pc.Rejecting? && Underway(db, w)
    ensures var (d, pc) := DbStep(c, db, w, r); Counted(db, d, w, pc, r)
  {
  }

  lemma SchedulingCounts(c: Config, db: Db, w: Worker, r: AgentResult)
    requires w.pc.Scheduling? && Underway(db, w)
    ensures var (d, pc) := DbStep(c, db, w, r); Counted(db, d, w, pc, r)
  {
  }

  lemma StatusCounts(c: Config, db: Db, w: Worker, r: AgentResult)
    requires w.pc.Start? || w.pc.Agent? || w.pc.Marking? || w.pc.Burying? || w.pc.Recording? || w.pc.EnteringEvaluation?
      || w.pc.Deciding?
    requires Underway(db, w)
    ensures var (d, pc) := DbStep(c, db, w, r); Counted(db, d, w, pc, r)
  {
  }

  /** A transaction of a worker that is not active changes no counter. */
  lemma OthersCountNothing(c: Config, db: Db, w: Worker, r: AgentResult)
    requires !Active(w.pc)
    ensures var (d, pc) := DbStep(c, db, w, r);
      && d.retryCount == db.retryCount && d.deadLetters == db.deadLetters
      && StepFailures(d.steps) == StepFailures(db.steps)
      && (d.status == TaskStatus.DeadLetter <==> db.status == TaskStatus.DeadLetter)
      && !Answering(w.(pc := pc))
  {
  }

  // ---------------------------------------------------------------- one action

  lemma SameUncounted(s: State, t: State)
    requires forall id | id in t.workers && Answering(t.workers[id]) ::
      id in s.workers && t.workers[id] == s.workers[id]
    requires forall id | id in s.workers && Answering(s.workers[id]) ::
      id in t.workers && t.workers[id] == s.workers[id]
    ensures Uncounted(t) == Uncounted(s) && Unwritten(t) == Unwritten(s)
  {
  }

  /** At most one worker is active, so the sets hold it or nobody. */
  lemma AtMostOne(s: State, id: nat)
    requires forall a, b | a in s.workers && b in s.workers && Active(s.workers[a].pc) && Active(s.workers[b].pc) ::
      a == b
    requires id in s.workers && Active(s.workers[id].pc)
    ensures Uncounted(s) == (if Answering(s.workers[id]) then {id} else {})
    ensures Unwritten(s) == (if s.workers[id].pc.Failing? then {id} else {})
  {
    assert forall o | o in Uncounted(s) || o in Unwritten(s) :: o == id;
  }

  /** The same after the active worker moved, no matter where to. */
  lemma OnlyOneMoved(s: State, t: State, id: nat, pc: Pc)
    requires forall a, b | a in s.workers && b in s.workers && Active(s.workers[a].pc) && Active(s.workers[b].pc) ::
      a == b
    requires id in s.workers && Active(s.workers[id].pc) && t.workers == s.workers[id := s.workers[id].(pc := pc)]
    ensures Uncounted(t) == (if Answering(t.workers[id]) then {id} else {})
    ensures Unwritten(t) == (if pc.Failing? then {id} else {})
  {
    assert forall o | o in t.workers && o != id ::
      o in s.workers && t.workers[o] == s.workers[o] && !Active(s.workers[o].pc);
  }

  lemma ActiveBalances(c: Config, s: State, k: nat, id: nat, r: AgentResult, t: Book)
    requires Safety.Inv(s, k) && id in s.workers && Active(s.workers[id].pc) && InBalance(s, t)
    ensures InBalance(ActOf(c, s, id, r), Noted(s, Act(id, r), t))
  {
    UnderwayBalances(c, s, id, r, t);
  }

  lemma UnderwayBalances(c: Config, s: State, id: nat, r: AgentResult, t: Book)
    requires forall a, b | a in s.workers && b in s.workers && Active(s.workers[a].pc) && Active(s.workers[b].pc) ::
      a == b
    requires id in s.workers && Active(s.workers[id].pc) && Underway(s.db, s.workers[id]) && InBalance(s, t)
    ensures InBalance(ActOf(c, s, id, r), Noted(s, Act(id, r), t))
  {
    ActiveCounts(c, s.db, s.workers[id], r);
    AtMostOne(s, id);
    OnlyOneMoved(s, ActOf(c, s, id, r), id, DbStep(c, s.db, s.workers[id], r).1);
  }

  lemma OtherBalances(c: Config, s: State, id: nat, r: AgentResult, t: Book)
    requires id in s.workers && !Active(s.workers[id].pc) && InBalance(s, t)
    ensures InBalance(ActOf(c, s, id, r), Noted(s, Act(id, r), t))
  {
    OthersCountNothing(c, s.db, s.workers[id], r);
    SameUncounted(s, ActOf(c, s, id, r));
  }

  lemma CrashBalances(c: Config, s: State, id: nat, t: Book)
    requires id in s.workers && InBalance(s, t)
    ensures InBalance(Next(c, s, Crash(id)), Noted(s, Crash(id), t))
  {
    var u := Next(c, s, Crash(id));
    assert Uncounted(u) == Uncounted(s) - {id} && Unwritten(u) == Unwritten(s) - {id};
  }

  lemma ResumeBalances(s: State, k: nat, t: Book)
    requires Safety.Inv(s, k) && CanResume(s.db) && InBalance(s, t)
    ensures InBalance(s.(db := Resume(s.db)), NOTHING.(resumes := t.resumes + 1))
  {
    forall id | id in s.workers
      ensures !Active(s.workers[id].pc)
    {
      assert WorkerOk(s.db, k, s.workers[id]);
    }
    var u := s.(db := Resume(s.db));
    assert Uncounted(u) == {} && Unwritten(u) == {};
  }

  lemma StepBalances(c: Config, s: State, k: nat, a: Action, t: Book)
    requires Safety.Inv(s, k) && InBalance(s, t)
    ensures InBalance(Next(c, s, a), Noted(s, a, t))
  {
    match a {
      case Act(id, r) =>
        if id in s.workers {
          if Active(s.workers[id].pc) {
            ActiveBalances(c, s, k, id, r, t);
          } else {
            OtherBalances(c, s, id, r, t);
          }
        }
      case Crash(id) =>
        if id in s.workers {
          CrashBalances(c, s, id, t);
        }
      case ResumeTask =>
        if CanResume(s.db) {
          ResumeBalances(s, k, t);
        }
      case _ => SurroundingsBalance(c, s, a, t);
    }
  }

  lemma SurroundingsBalance(c: Config, s: State, a: Action, t: Book)
    requires (forall id | id in s.workers :: id < s.nextId) && InBalance(s, t)
    requires a.Deliver? || a.Redeliver? || a.Wait? || a.Forget?
    ensures InBalance(Next(c, s, a), Noted(s, a, t))
  {
    SameUncounted(s, Next(c, s, a));
  }

  // ---------------------------------------------------------------- all runs

  /**
   At every point of every run inside leases in which no message crosses a reset, whatever crashes:
   retry_count is the failures and requests for a rerun since the last resume, less the one being
   answered and those whose worker died before counting; the steps' own counters add up to the failures
   in the same way; dead-letter rows are the resumes, plus one while the task is dead.
   */
  lemma {:induction false} CountersAlwaysAccount(c: Config, init: State, actions: seq<Action>)
    requires ProperRun(c, init, actions)
    ensures InBalance(Run(c, init, actions), BookOf(c, init, actions))
    decreases |actions|
  {
    if actions == [] {
      assert Uncounted(init) == {} && Unwritten(init) == {};
    } else {
      var before := actions[..|actions| - 1];
      CountersAlwaysAccount(c, init, before);
      var k := Safety.InvHolds(c, init, before);
      StepBalances(c, Run(c, init, before), k, actions[|actions| - 1], BookOf(c, init, before));
    }
  }

  /** Without crashes the counters fall short by at most the one answer under way. */
  lemma {:induction false} CountersWithoutCrash(c: Config, init: State, actions: seq<Action>)
    requires ProperRun(c, init, actions) && Run(c, init, actions).crashes == 0
    ensures var s, t := Run(c, init, actions), BookOf(c, init, actions);
      && t.failures + t.rejections - 1 <= s.db.retryCount <= t.failures + t.rejections
      && t.failures - 1 <= StepFailures(s.db.steps) <= t.failures
      && (Uncounted(s) == {} ==> s.db.retryCount == t.failures + t.rejections && StepFailures(s.db.steps) == t.failures)
  {
    CountersAlwaysAccount(c, init, actions);
    NothingLostWithoutCrash(c, init, actions);
    var k := Safety.InvHolds(c, init, actions);
    var s := Run(c, init, actions);
    if id :| id in Uncounted(s) {
      AtMostOne(s, id);
    }
    UnwrittenIsUncounted(s);
  }

  lemma UnwrittenIsUncounted(s: State)
    ensures Unwritten(s) <= Uncounted(s) && |Unwritten(s)| <= |Uncounted(s)|
  {
    assert Unwritten(s) <= Uncounted(s);
    var rest := Uncounted(s) - Unwritten(s);
    assert Uncounted(s) == Unwritten(s) + rest;
  }

  lemma {:induction false} NothingLostWithoutCrash(c: Config, init: State, actions: seq<Action>)
    requires init.crashes == 0 && Run(c, init, actions).crashes == 0
    ensures BookOf(c, init, actions).lostAnswers == BookOf(c, init, actions).lostCounts == 0
    decreases |actions|
  {
    if actions != [] {
      var before := actions[..|actions| - 1];
      CrashesCount(c, Run(c, init, before), actions[|actions| - 1], BookOf(c, init, before));
      NothingLostWithoutCrash(c, init, before);
    }
  }

  lemma CrashesCount(c: Config, s: State, a: Action, t: Book)
    ensures s.crashes <= Next(c, s, a).crashes
    ensures Next(c, s, a).crashes == 0 && t.lostAnswers == t.lostCounts == 0 ==>
      Noted(s, a, t).lostAnswers == Noted(s, a, t).lostCounts == 0
  {
  }
}

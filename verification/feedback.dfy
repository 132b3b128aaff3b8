/**
 A task created with feedback on another one starts at the script and inherits the earlier product analysis in
 its first message. What becomes of it: every message passes it on until a repair, a rerun or a resume builds the
 history anew from the rows of this task, which do not have it.
 */
module Feedback {
  import opened Options
  import opened StateMachine
  import opened Workflow
  import opened Interleaving
  import opened Safety

  // ---------------------------------------------------------------- inherited entries are passed on

  /** The message is for a step of the pass and its entries from before the pass are those given at creation. */
  predicate Inherits(e: Event, start: StepId, history: map<StepId, Output>) {
    start <= e.step && forall i: StepId | i < start :: Entry(e.payload.history, i) == Entry(history, i)
  }

  function Entry(h: map<StepId, Output>, i: StepId): Option<Output> {
    if i in h then Some(h[i]) else None
  }

  /** The transaction of a repair that can be written back, or of a rejection with budget left. */
  predicate BuildsAnew(db: Db, w: Worker) {
    || (w.pc.WritingBack? && w.event.payload.target.Some? && w.event.payload.target.value < QUALITY_EVALUATION)
    || (w.pc.Rejecting? && w.pc.retryCount < db.maxRetry)
  }

  predicate Rebuilds(s: State, a: Action) {
    || (a.Act? && a.id in s.workers && BuildsAnew(s.db, s.workers[a.id]))
    || (a.ResumeTask? && s.db.status == TaskStatus.DeadLetter)
  }

  predicate HasRebuilt(c: Config, init: State, actions: seq<Action>)
    decreases |actions|
  {
    actions != [] &&
    (var before := actions[..|actions| - 1];
     HasRebuilt(c, init, before) || Rebuilds(Run(c, init, before), actions[|actions| - 1]))
  }

  ghost predicate AllInherit(s: State, start: StepId, history: map<StepId, Output>) {
    && (forall e | e in s.db.outbox :: Inherits(e, start, history))
    && (forall e | e in s.requeued :: Inherits(e, start, history))
    && (forall id | id in s.workers :: Inherits(s.workers[id].event, start, history))
  }

  lemma TransactionPassesOn(c: Config, db: Db, w: Worker, r: AgentResult, start: StepId, history: map<StepId, Output>)
    requires Inherits(w.event, start, history) && !BuildsAnew(db, w)
    requires forall e | e in db.outbox :: Inherits(e, start, history)
    ensures forall e | e in DbStep(c, db, w, r).0.outbox :: Inherits(e, start, history)
  {
    if w.pc.Succeeding? {
      SuccessPassesOn(c, db, w, r, start, history);
    }
  }

  lemma SuccessPassesOn(c: Config, db: Db, w: Worker, r: AgentResult, start: StepId, history: map<StepId, Output>)
    requires Inherits(w.event, start, history) && w.pc.Succeeding?
    requires forall e | e in db.outbox :: Inherits(e, start, history)
    ensures forall e | e in DbStep(c, db, w, r).0.outbox :: Inherits(e, start, history)
  {
    var s := w.Step();
    var h := w.event.payload.history[s := w.pc.output];
    assert forall i: StepId | i < start :: Entry(h, i) == Entry(w.event.payload.history, i);
  }

  lemma StepPassesOn(c: Config, s: State, a: Action, start: StepId, history: map<StepId, Output>)
    requires AllInherit(s, start, history) && !Rebuilds(s, a)
    ensures AllInherit(Next(c, s, a), start, history)
  {
    if a.Act? {
      if a.id in s.workers {
        TransactionPassesOn(c, s.db, s.workers[a.id], a.result, start, history);
        ActPassesOn(c, s, a.id, a.result, start, history);
      }
    } else {
      SurroundingsPassOn(c, s, a, start, history);
    }
  }

  lemma ActPassesOn(c: Config, s: State, id: nat, r: AgentResult, start: StepId, history: map<StepId, Output>)
    requires AllInherit(s, start, history) && id in s.workers
    requires forall e | e in DbStep(c, s.db, s.workers[id], r).0.outbox :: Inherits(e, start, history)
    ensures AllInherit(ActOf(c, s, id, r), start, history)
  {
  }

  lemma SurroundingsPassOn(c: Config, s: State, a: Action, start: StepId, history: map<StepId, Output>)
    requires AllInherit(s, start, history) && !a.Act? && !Rebuilds(s, a)
    ensures AllInherit(Next(c, s, a), start, history)
  {
  }

  /**
   In every run of a new task, duplicates, crashes and stale messages included, in which nothing has built the
   history anew: every message ever committed is for a step of the pass and carries the entries given at creation.
   */
  lemma {:induction false} InheritedUntilRebuilt(
    c: Config, maxRetry: int, start: StepId, history: map<StepId, Output>, actions: seq<Action>)
    requires start <= SCRIPT_GENERATION && !HasRebuilt(c, Initial(maxRetry, start, history), actions)
    ensures AllInherit(Run(c, Initial(maxRetry, start, history), actions), start, history)
    decreases |actions|
  {
    if actions != [] {
      var before := actions[..|actions| - 1];
      InheritedUntilRebuilt(c, maxRetry, start, history, before);
      StepPassesOn(c, Run(c, Initial(maxRetry, start, history), before), actions[|actions| - 1], start, history);
    }
  }

  // ---------------------------------------------------------------- and then lost

  /** The history holds the non-empty outputs of all nine rows, the side step's too, and nothing else. */
  predicate FromRows(h: map<StepId, Output>, db: Db) {
    forall i: StepId ::
      Entry(h, i) == if db.steps[i].output.Some? && db.steps[i].output.value.Doc? then db.steps[i].output else None
  }

  /** In every state: such a transaction commits one message, with a history read from the rows it leaves. */
  lemma RebuiltFromRows(c: Config, db: Db, w: Worker, r: AgentResult)
    requires BuildsAnew(db, w)
    ensures var d := DbStep(c, db, w, r).0;
      && |d.outbox| == |db.outbox| + 1 && db.outbox <= d.outbox
      && FromRows(d.outbox[|db.outbox|].payload.history, d)
  {
    if w.pc.WritingBack? {
      WriteBackFromRows(c, db, w, r);
    }
  }

  lemma WriteBackFromRows(c: Config, db: Db, w: Worker, r: AgentResult)
    requires BuildsAnew(db, w) && w.pc.WritingBack?
    ensures var d := DbStep(c, db, w, r).0;
      && |d.outbox| == |db.outbox| + 1 && db.outbox <= d.outbox
      && FromRows(d.outbox[|db.outbox|].payload.history, d)
  {
  }

  /**
   The inherited analysis does not survive: the message a repair or a rerun commits carries nothing from before
   the start of the pass, so the script is redone without it.
   */
  lemma {:induction false} RebuildDropsInherited(c: Config, init: State, actions: seq<Action>, a: Action)
    requires ProperRun(c, init, actions)
    requires var s := Run(c, init, actions); a.Act? && a.id in s.workers && BuildsAnew(s.db, s.workers[a.id])
    ensures var s, t := Run(c, init, actions), Next(c, Run(c, init, actions), a);
      && |t.db.outbox| == |s.db.outbox| + 1
      && forall i: StepId | i < s.db.start :: i !in t.db.outbox[|s.db.outbox|].payload.history
  {
    var s := Run(c, init, actions);
    var w := s.workers[a.id];
    var k := Safety.InvHolds(c, init, actions);
    assert WorkerOk(s.db, k, w);
    RebuiltFromRows(c, s.db, w, a.result);
    NothingBeforeThePass(c, s.db, k, w, a.result);
  }

  lemma NothingBeforeThePass(c: Config, db: Db, k: nat, w: Worker, r: AgentResult)
    requires Good(db, k, w) && BuildsAnew(db, w)
    ensures forall i: StepId | i < db.start :: DbStep(c, db, w, r).0.steps[i].output == None
  {
    var next := ActiveStep(c, db, k, w, r);
    forall i: StepId | i < db.start
      ensures DbStep(c, db, w, r).0.steps[i].output == None
    {
      StartKept(c, db, w, r);
      assert FrontierRow(DbStep(c, db, w, r).0, next, i);
    }
  }
}

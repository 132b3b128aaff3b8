/**
 What every interleaving keeps, with duplicated deliveries, crashes and any number of workers, as
 long as executions stay inside their lease and no message crosses a reset: the finished steps form
 one interval, at most one execution is under way, carried history is the stored history, and every
 status change is an edge of the tables (with the two named exceptions for steps).
 */
module Safety {
  import opened Options
  import opened StateMachine
  import opened Workflow
  import opened Interleaving
  import Retry

  // ---------------------------------------------------------------- the rows

  /** Steps start .. k-1 are done, step k is not, nothing after k has been touched since the last reset. */
  ghost predicate Frontier(db: Db, k: nat) {
    && db.start <= SCRIPT_GENERATION && db.start <= k <= 8
    && forall i: StepId | i < REPAIR :: FrontierRow(db, k, i)
  }

  predicate FrontierRow(db: Db, k: nat, i: StepId) {
    var row := db.steps[i];
    if i < db.start || k < i then row.status == StepStatus.Pending && row.output.None?
    else if i < k then row.status == StepStatus.Success && row.output.Some?
    else row.status != StepStatus.Success && row.output.None?
  }

  function Carried(h: map<StepId, Output>, i: StepId): Option<Output> {
    if i in h && h[i].Doc? then Some(h[i]) else None
  }

  function Stored(row: StepRow): Option<Output> {
    if row.output.Some? && row.output.value.Doc? then row.output else None
  }

  /** On the steps of the current pass, the history carried in a payload is what the rows hold. */
  ghost predicate HistoryAgrees(h: map<StepId, Output>, db: Db) {
    forall i: StepId | db.start <= i < REPAIR :: Carried(h, i) == Stored(db.steps[i])
  }

  /** A fresh workflow event never points beyond the frontier; a fresh repair event with work to do points at it. */
  ghost predicate EventOk(db: Db, k: nat, e: Event) {
    && e.generation <= db.steps[e.step].resets
    && (Fresh(db, e) && e.step < REPAIR ==>
          db.start <= e.step <= k && e.payload.target.None? && (e.step == k ==> HistoryAgrees(e.payload.history, db)))
    && (PendingRepair(db, e) ==>
          k < QUALITY_EVALUATION && e.payload.target == Some(k)
          && db.steps[k].status == StepStatus.Failed && HistoryAgrees(e.payload.history, db))
  }

  predicate PendingRepair(db: Db, e: Event) {
    e.step == REPAIR && Fresh(db, e) && db.steps[REPAIR].status != StepStatus.Success
  }

  ghost predicate EventsOk(db: Db, k: nat) {
    forall e | e in db.outbox :: EventOk(db, k, e)
  }

  // ---------------------------------------------------------------- the workers

  /** From the moment the step is running until the transaction that hands the work on or ends the task. */
  predicate Active(pc: Pc) {
    pc.Start? || pc.Agent? || pc.Succeeding? || pc.Failing? || pc.Marking? || pc.Scheduling? || pc.Burying?
    || pc.WritingBack? || pc.Recording? || pc.EnteringEvaluation? || pc.Deciding? || pc.Rejecting?
  }

  /** About to enter a step it will be allowed to enter. */
  predicate Poised(db: Db, w: Worker) {
    Enters(db, w) && Fresh(db, w.event)
  }

  predicate OnFrontier(db: Db, k: nat, w: Worker, own: StepStatus) {
    var s := w.Step();
    && k < 8
    && db.steps[s].status == own
    && (s < REPAIR ==> s == k)
    && (s == REPAIR ==>
          k < QUALITY_EVALUATION && w.event.payload.target == Some(k) && db.steps[k].status == StepStatus.Failed)
  }

  function LatestVerdict(db: Db): Option<Output> {
    if db.evaluations == [] then None else Some(db.evaluations[|db.evaluations| - 1])
  }

  /** The output payload is the stored outputs without the side step, with the score of the latest verdict. */
  predicate Delivered(db: Db, v: Output) {
    db.finalOutput == Some(FinalOutput(CollectHistory(db.steps) - {REPAIR}, Some(ScoreOf(v))))
  }

  /** What the final statuses mean. */
  predicate Settled(db: Db, k: nat) {
    match db.status
    case Success =>
      k == 8 && LatestVerdict(db).Some? && var v := LatestVerdict(db).value; Judge(v) == Accept && Delivered(db, v)
    case ManualReview =>
      k == 8 && LatestVerdict(db).Some? && var v := LatestVerdict(db).value;
      (Judge(v) == Review || (Judge(v) == Reject && db.retryCount >= db.maxRetry)) && Delivered(db, v)
    case DeadLetter => db.retryCount >= db.maxRetry
    case _ => true
  }

  predicate ActiveOk(db: Db, k: nat, w: Worker) {
    && Fresh(db, w.event)
    && match w.pc {
      case Start => OnFrontier(db, k, w, StepStatus.Running) && db.status == TaskStatus.Running
      case Agent => OnFrontier(db, k, w, StepStatus.Running) && db.status == TaskStatus.Running
      case Succeeding(_) => OnFrontier(db, k, w, StepStatus.Running) && db.status == TaskStatus.Running
      case Failing(_) => OnFrontier(db, k, w, StepStatus.Running) && db.status == TaskStatus.Running
      case Marking(_) => OnFrontier(db, k, w, StepStatus.Failed) && db.status == TaskStatus.Running
      case Scheduling(_, _) =>
        OnFrontier(db, k, w, StepStatus.Failed) && db.status in {TaskStatus.Retrying, TaskStatus.Running}
        && w.pc.retryCount == db.retryCount
      case Burying(_) =>
        OnFrontier(db, k, w, StepStatus.Failed) && db.status in {TaskStatus.Retrying, TaskStatus.Running}
        && db.retryCount >= db.maxRetry && w.pc.count == db.retryCount
      case WritingBack(_) =>
        w.Step() == REPAIR && OnFrontier(db, k, w, StepStatus.Success) && db.status == TaskStatus.Running
      case Recording(_) => w.Step() == QUALITY_EVALUATION && k == 8 && db.status == TaskStatus.Running
      case EnteringEvaluation(v) =>
        w.Step() == QUALITY_EVALUATION && k == 8 && db.status == TaskStatus.Running && LatestVerdict(db) == Some(v)
      case Deciding(v) =>
        w.Step() == QUALITY_EVALUATION && k == 8 && db.status == TaskStatus.Evaluating && LatestVerdict(db) == Some(v)
      case Rejecting(v, rc) =>
        w.Step() == QUALITY_EVALUATION && k == 8 && db.status in {TaskStatus.Retrying, TaskStatus.Running}
        && LatestVerdict(db) == Some(v) && Judge(v) == Reject && rc == db.retryCount
      case _ => true
    }
  }

  /** While a workflow step is executing no repair is pending. */
  ghost predicate NoRepairBeside(db: Db, w: Worker) {
    w.Step() < REPAIR ==> forall e | e in db.outbox :: !PendingRepair(db, e)
  }

  ghost predicate WorkerOk(db: Db, k: nat, w: Worker) {
    && w.event in db.outbox
    && (Active(w.pc) ==> ActiveOk(db, k, w) && NoRepairBeside(db, w))
    && (Poised(db, w) ==> db.status == TaskStatus.Running)
  }

  ghost predicate Inv(s: State, k: nat) {
    && LeaseInv(s)
    && Frontier(s.db, k)
    && EventsOk(s.db, k)
    && Settled(s.db, k)
    && (forall id | id in s.workers :: WorkerOk(s.db, k, s.workers[id]))
    && (forall e | e in s.requeued :: e in s.db.outbox)
    && (forall a, b | a in s.workers && b in s.workers && Active(s.workers[a].pc) && Active(s.workers[b].pc) :: a == b)
  }

  // ---------------------------------------------------------------- status edges

  predicate TaskEdge(before: TaskStatus, after: TaskStatus) {
    before == after || CanTransitionTask(before, after)
  }

  /** A table edge, a reset to pending, or the write-back of a repair over a failed step. */
  predicate StepEdge(before: StepRow, after: StepRow) {
    || (after.resets == before.resets &&
        (before.status == after.status || CanTransitionStep(before.status, after.status)))
    || (after.resets == before.resets + 1 && after.status == StepStatus.Pending)
    || (after.resets == before.resets && after.commits == before.commits &&
        before.status == StepStatus.Failed && after.status == StepStatus.Success)
  }

  ghost predicate Edges(before: Db, after: Db) {
    TaskEdge(before.status, after.status) && forall i: StepId :: StepEdge(before.steps[i], after.steps[i])
  }

  // ---------------------------------------------------------------- one transaction of the active worker

  /** What an active worker's transaction must guarantee about the rows so that the others are not disturbed. */
  ghost predicate Undisturbing(before: Db, after: Db, own: StepId) {
    && before.outbox <= after.outbox
    && forall i: StepId ::
         && before.steps[i].resets <= after.steps[i].resets
         && (i != own ==> || before.steps[i] == after.steps[i]
                          || before.steps[i].resets < after.steps[i].resets
                          || after.steps[i].status == StepStatus.Success)
  }

  ghost predicate Good(db: Db, k: nat, w: Worker) {
    && Frontier(db, k) && EventsOk(db, k)
    && w.event in db.outbox && Active(w.pc) && ActiveOk(db, k, w) && NoRepairBeside(db, w)
  }

  /** What holds after the worker moved on: the rows again, and the worker again if it is still active. */
  ghost predicate GoodAfter(before: Db, db: Db, k: nat, w: Worker, pc: Pc) {
    && Frontier(db, k) && EventsOk(db, k) && Settled(db, k) && Undisturbing(before, db, w.Step()) && Edges(before, db)
    && (Active(pc) || pc.Leaving? || pc.Returning?)
    && (Active(pc) ==> ActiveOk(db, k, w.(pc := pc)) && NoRepairBeside(db, w))
  }

  /** Rows and events decide everything but the task status. */
  lemma SameRows(db: Db, d: Db, k: nat)
    requires d.steps == db.steps && d.outbox == db.outbox && d.start == db.start
    requires Frontier(db, k) && EventsOk(db, k)
    ensures Frontier(d, k) && EventsOk(d, k)
    ensures forall w | NoRepairBeside(db, w) :: NoRepairBeside(d, w)
  {
    forall i: StepId | i < REPAIR
      ensures FrontierRow(d, k, i)
    {
      assert FrontierRow(db, k, i);
    }
    forall e | e in d.outbox
      ensures EventOk(d, k, e) && PendingRepair(d, e) == PendingRepair(db, e)
    {
      assert EventOk(db, k, e);
      if HistoryAgrees(e.payload.history, db) {
        assert HistoryAgrees(e.payload.history, d);
      }
    }
  }

  /** Transactions that touch neither rows nor events. */
  lemma StatusOnlyStep(c: Config, db: Db, k: nat, w: Worker, r: AgentResult)
    requires Good(db, k, w)
    requires w.pc.Start? || w.pc.Agent? || w.pc.Marking? || w.pc.Recording? || w.pc.EnteringEvaluation?
      || w.pc.Deciding?
    ensures var (d, pc) := DbStep(c, db, w, r); GoodAfter(db, d, k, w, pc)
  {
    var (d, pc) := DbStep(c, db, w, r);
    SameRows(db, d, k);
    if w.pc.Deciding? {
      DecidedStep(c, db, k, w, r);
    }
  }

  lemma DecidedStep(c: Config, db: Db, k: nat, w: Worker, r: AgentResult)
    requires Good(db, k, w) && w.pc.Deciding?
    ensures var (d, pc) := DbStep(c, db, w, r);
      && Settled(d, k) && Edges(db, d) && Undisturbing(db, d, w.Step()) && (pc.Rejecting? || pc.Returning?)
      && (pc.Rejecting? ==> ActiveOk(d, k, w.(pc := pc)))
  {
  }

  // ---- commits of a step's own result

  /** The row of the frontier step gets its output; the frontier moves on by one. */
  lemma OutputOnFrontier(db: Db, k: nat, row: StepRow, d: Db)
    requires Frontier(db, k) && k < 8
    requires row.status == StepStatus.Success && row.output.Some?
    requires d.start == db.start && d.steps == db.steps[k := row]
    ensures Frontier(d, k + 1)
  {
    var next := k + 1;
    forall i: StepId | i < REPAIR
      ensures FrontierRow(d, next, i)
    {
      assert FrontierRow(db, k, i);
    }
  }

  lemma WorkCommit(db: Db, k: nat, w: Worker, o: Output)
    requires Good(db, k, w) && w.pc == Succeeding(o) && w.Step() < QUALITY_EVALUATION
    ensures GoodAfter(db, StepSuccess(db, w.Step(), o, w.event.payload), k + 1, w, Leaving)
  {
    var d := StepSuccess(db, w.Step(), o, w.event.payload);
    OutputOnFrontier(db, k, d.steps[k], d);
    forall e | e in d.outbox
      ensures EventOk(d, k + 1, e)
    {
      if e in db.outbox {
        assert EventOk(db, k, e);
      }
    }
  }

  lemma EvaluationCommit(db: Db, k: nat, w: Worker, o: Output)
    requires Good(db, k, w) && w.pc == Succeeding(o) && w.Step() == QUALITY_EVALUATION
    ensures GoodAfter(db, StepSuccess(db, w.Step(), o, w.event.payload), k + 1, w, Recording(o))
  {
    var d := StepSuccess(db, w.Step(), o, w.event.payload);
    OutputOnFrontier(db, k, d.steps[k], d);
    forall e | e in d.outbox
      ensures EventOk(d, k + 1, e) && !PendingRepair(d, e)
    {
      assert EventOk(db, k, e);
    }
  }

  /** Only the side step's row changes; the workflow rows, hence the frontier, stay. */
  lemma SideRowOnly(db: Db, k: nat, d: Db)
    requires Frontier(db, k) && d.start == db.start
    requires forall i: StepId | i < REPAIR :: d.steps[i] == db.steps[i]
    ensures Frontier(d, k)
    ensures forall h | HistoryAgrees(h, db) :: HistoryAgrees(h, d)
  {
    forall i: StepId | i < REPAIR
      ensures FrontierRow(d, k, i)
    {
      assert FrontierRow(db, k, i);
    }
  }

  lemma RepairCommit(db: Db, k: nat, w: Worker, o: Output)
    requires Good(db, k, w) && w.pc == Succeeding(o) && w.Step() == REPAIR
    ensures GoodAfter(db, StepSuccess(db, w.Step(), o, w.event.payload), k, w, WritingBack(o))
  {
    var d := StepSuccess(db, w.Step(), o, w.event.payload);
    SideRowOnly(db, k, d);
    forall e | e in d.outbox
      ensures EventOk(d, k, e)
    {
      assert EventOk(db, k, e);
    }
  }

  // ---- failure of a step's own execution

  /** The row of the active worker changes status only: between unfinished statuses, or on the side step. */
  lemma OwnRowUnfinished(db: Db, k: nat, w: Worker, d: Db)
    requires Good(db, k, w) && (w.pc.Failing? || w.pc.Scheduling?)
    requires d.start == db.start && d.outbox == db.outbox
    requires var s := w.Step();
      && d.steps[s].output == db.steps[s].output && d.steps[s].resets == db.steps[s].resets
      && d.steps[s].status != StepStatus.Success
      && forall i: StepId | i != s :: d.steps[i] == db.steps[i]
    ensures Frontier(d, k) && EventsOk(d, k)
    ensures w.Step() < REPAIR ==> NoRepairBeside(d, w)
  {
    forall i: StepId | i < REPAIR
      ensures FrontierRow(d, k, i)
    {
      assert FrontierRow(db, k, i);
    }
    forall e | e in d.outbox
      ensures EventOk(d, k, e)
      ensures w.Step() < REPAIR ==> !PendingRepair(d, e)
    {
      assert EventOk(db, k, e);
      if HistoryAgrees(e.payload.history, db) {
        assert HistoryAgrees(e.payload.history, d);
      }
    }
  }

  lemma FailureWritten(db: Db, k: nat, w: Worker, repairable: bool)
    requires Good(db, k, w) && w.pc == Failing(repairable)
    ensures GoodAfter(db, StepFailure(db, w.Step()), k, w, Marking(repairable))
  {
    OwnRowUnfinished(db, k, w, StepFailure(db, w.Step()));
  }

  lemma RetryScheduled(c: Config, db: Db, k: nat, w: Worker, rc: Pos)
    requires Good(db, k, w) && w.pc.Scheduling?
    ensures var tx := ScheduleRetry(db, c.delays, w.Step(), w.event.payload, rc);
      tx.Done? && GoodAfter(db, tx.db, k, w, Returning(false))
  {
    var s := w.Step();
    var d := SetStatus(db, s, StepStatus.Retrying);
    OwnRowUnfinished(db, k, w, d);
    var t := ScheduleRetry(db, c.delays, s, w.event.payload, rc).db;
    assert EventOk(db, k, w.event);
    forall e | e in t.outbox
      ensures EventOk(t, k, e)
    {
      if e in d.outbox {
        assert EventOk(d, k, e);
      } else {
        HistoryFrame(w.event.payload.history, db, t);
      }
    }
    RowsFrame(d, t, k);
  }

  /** The frontier and an event's standing depend only on the rows and the start. */
  lemma RowsFrame(db: Db, d: Db, k: nat)
    requires Frontier(db, k) && d.steps == db.steps && d.start == db.start
    ensures Frontier(d, k)
  {
    forall i: StepId | i < REPAIR
      ensures FrontierRow(d, k, i)
    {
      assert FrontierRow(db, k, i);
    }
  }

  lemma HistoryFrame(h: map<StepId, Output>, db: Db, d: Db)
    requires HistoryAgrees(h, db) && d.start == db.start
    requires forall i: StepId | i < REPAIR :: d.steps[i].output == db.steps[i].output
    ensures HistoryAgrees(h, d)
  {
  }

  lemma RepairScheduled(db: Db, k: nat, w: Worker)
    requires Good(db, k, w) && w.pc.Scheduling? && w.Step() < QUALITY_EVALUATION
    ensures GoodAfter(db, ScheduleRepair(db, w.Step(), w.event.payload), k, w, Returning(false))
  {
    var d := ScheduleRepair(db, w.Step(), w.event.payload);
    SideRowOnly(db, k, d);
    assert EventOk(db, k, w.event);
    forall e | e in d.outbox
      ensures EventOk(d, k, e)
    {
      if e in db.outbox {
        assert EventOk(db, k, e);
      }
    }
  }

  lemma SchedulingStep(c: Config, db: Db, k: nat, w: Worker, r: AgentResult)
    requires Good(db, k, w) && w.pc.Scheduling?
    ensures var (d, pc) := DbStep(c, db, w, r); GoodAfter(db, d, k, w, pc)
  {
    if w.pc.repairable && w.Step() < QUALITY_EVALUATION {
      RepairScheduled(db, k, w);
    } else if Retry.ShouldRetry(w.pc.retryCount, db.maxRetry) {
      RetryScheduled(c, db, k, w, w.pc.retryCount);
    } else {
      SameRows(db, db, k);
    }
  }

  lemma Buried(db: Db, k: nat, w: Worker)
    requires Good(db, k, w) && w.pc.Burying?
    ensures GoodAfter(db, SendToDeadLetter(db, w.Step(), w.pc.count), k, w, Returning(false))
  {
    SameRows(db, SendToDeadLetter(db, w.Step(), w.pc.count), k);
  }

  // ---- moves of the frontier by other rows

  /** Every event either was there before and its row has been reset since, or points at a row that was not touched. */
  lemma CollectedHistory(rows: StepRows, d: Db)
    requires d.steps == rows
    ensures HistoryAgrees(CollectHistory(rows), d)
  {
  }

  lemma RepairWrittenBack(db: Db, k: nat, w: Worker, o: Output)
    requires Good(db, k, w) && w.pc == WritingBack(o)
    ensures var tx := WriteBack(db, o, w.event.payload);
      tx.Done? && GoodAfter(db, tx.db, k + 1, w, Leaving)
  {
    WrittenRows(db, k, w, o);
  }

  lemma WrittenRows(db: Db, k: nat, w: Worker, o: Output)
    requires Good(db, k, w) && w.pc == WritingBack(o)
    ensures var d := WriteBack(db, o, w.event.payload).db; Frontier(d, k + 1)
  {
    var d := WriteBack(db, o, w.event.payload).db;
    var next := k + 1;
    forall i: StepId | i < REPAIR
      ensures FrontierRow(d, next, i)
    {
      assert FrontierRow(db, k, i);
    }
  }

  lemma Rerun(db: Db, k: nat, w: Worker)
    requires Good(db, k, w) && w.pc.Rejecting?
    ensures GoodAfter(db, RerunFromScript(db), SCRIPT_GENERATION, w, Returning(false))
  {
    var d := RerunFromScript(db);
    CollectedHistory(d.steps, d);
    forall i: StepId | i < REPAIR
      ensures FrontierRow(d, SCRIPT_GENERATION, i)
    {
      assert FrontierRow(db, k, i);
    }
    forall e | e in d.outbox
      ensures EventOk(d, SCRIPT_GENERATION, e)
    {
      if e in db.outbox {
        assert EventOk(db, k, e);
      }
    }
  }

  lemma RejectingStep(c: Config, db: Db, k: nat, w: Worker, r: AgentResult)
    requires Good(db, k, w) && w.pc.Rejecting?
    ensures var (d, pc) := DbStep(c, db, w, r);
      GoodAfter(db, d, if Retry.ShouldRetry(w.pc.retryCount, db.maxRetry) then SCRIPT_GENERATION else k, w, pc)
  {
    if Retry.ShouldRetry(w.pc.retryCount, db.maxRetry) {
      Rerun(db, k, w);
    } else {
      SameRows(db, DbStep(c, db, w, r).0, k);
    }
  }

  /** Every transaction of the active worker, with the frontier it leaves behind. */
  lemma ActiveStep(c: Config, db: Db, k: nat, w: Worker, r: AgentResult) returns (next: nat)
    requires Good(db, k, w)
    ensures var (d, pc) := DbStep(c, db, w, r); GoodAfter(db, d, next, w, pc)
  {
    next := k;
    match w.pc
    case Succeeding(o) =>
      if w.Step() == REPAIR {
        RepairCommit(db, k, w, o);
      } else if w.Step() == QUALITY_EVALUATION {
        EvaluationCommit(db, k, w, o);
        next := k + 1;
      } else {
        WorkCommit(db, k, w, o);
        next := k + 1;
      }
    case Failing(repairable) => FailureWritten(db, k, w, repairable);
    case Scheduling(_, _) => SchedulingStep(c, db, k, w, r);
    case Burying(_) => Buried(db, k, w);
    case WritingBack(o) =>
      RepairWrittenBack(db, k, w, o);
      next := k + 1;
    case Rejecting(_, rc) =>
      RejectingStep(c, db, k, w, r);
      next := if Retry.ShouldRetry(rc, db.maxRetry) then SCRIPT_GENERATION else k;
    case _ => StatusOnlyStep(c, db, k, w, r);
  }

  // ---------------------------------------------------------------- all workers together

  /** Nobody is about to enter a step while another worker is active. */
  lemma NobodyPoisedBesideActive(s: State, k: nat, a: nat, b: nat)
    requires Inv(s, k) && a in s.workers && b in s.workers && a != b
    requires Active(s.workers[a].pc)
    ensures !Poised(s.db, s.workers[b])
  {
    var wa, wb := s.workers[a], s.workers[b];
    assert WorkerOk(s.db, k, wa) && WorkerOk(s.db, k, wb);
    assert wb.Step() < REPAIR ==> FrontierRow(s.db, k, wb.Step());
    assert EventOk(s.db, k, wa.event) && EventOk(s.db, k, wb.event);
    if wa.Step() == wb.Step() && Holding(wb) {
      OneHolderPerStep(s, a, b);
    }
  }

  /** After a transaction of the active worker nobody else is poised, and every event is still in the outbox. */
  lemma OthersUndisturbed(s: State, k: nat, id: nat, d: Db)
    requires Inv(s, k) && id in s.workers && Active(s.workers[id].pc)
    requires Undisturbing(s.db, d, s.workers[id].Step())
    ensures (forall e | e in s.requeued :: e in d.outbox) && forall o | o in s.workers :: s.workers[o].event in d.outbox
    ensures forall o | o in s.workers && o != id :: !Poised(d, s.workers[o]) && !Active(s.workers[o].pc)
  {
    forall o | o in s.workers && o != id
      ensures !Poised(d, s.workers[o])
    {
      NobodyPoisedBesideActive(s, k, id, o);
      assert WorkerOk(s.db, k, s.workers[o]) && EventOk(s.db, k, s.workers[o].event);
      if Holding(s.workers[o]) && s.workers[o].Step() == s.workers[id].Step() {
        OneHolderPerStep(s, id, o);
      }
    }
  }

  /** Good rows, one worker in order and all others neither active nor poised make a good state. */
  lemma Assembled(t: State, id: nat, k: nat)
    requires LeaseInv(t) && Frontier(t.db, k) && EventsOk(t.db, k) && Settled(t.db, k)
    requires id in t.workers && WorkerOk(t.db, k, t.workers[id])
    requires forall o | o in t.workers && o != id ::
      t.workers[o].event in t.db.outbox && !Poised(t.db, t.workers[o]) && !Active(t.workers[o].pc)
    requires forall e | e in t.requeued :: e in t.db.outbox
    ensures Inv(t, k)
  {
  }

  /** A worker in order after its transaction, whether it is still active or on its way out. */
  lemma WorkerAfter(before: Db, d: Db, next: nat, w: Worker, pc: Pc)
    requires GoodAfter(before, d, next, w, pc) && w.event in before.outbox
    ensures WorkerOk(d, next, w.(pc := pc))
  {
  }

  lemma ActiveActs(c: Config, s: State, k: nat, id: nat, r: AgentResult) returns (next: nat)
    requires Inv(s, k) && id in s.workers && Active(s.workers[id].pc)
    ensures Inv(ActOf(c, s, id, r), next) && Edges(s.db, ActOf(c, s, id, r).db)
  {
    var w := s.workers[id];
    assert WorkerOk(s.db, k, w);
    next := ActiveStep(c, s.db, k, w, r);
    LeaseStep(c, s, Act(id, r));
    var (d, pc) := DbStep(c, s.db, w, r);
    WorkerAfter(s.db, d, next, w, pc);
    OthersUndisturbed(s, k, id, d);
    AfterActive(c, s, id, r, next, d, pc);
  }

  lemma AfterActive(c: Config, s: State, id: nat, r: AgentResult, next: nat, d: Db, pc: Pc)
    requires id in s.workers && Active(s.workers[id].pc) && (d, pc) == DbStep(c, s.db, s.workers[id], r)
    requires LeaseInv(ActOf(c, s, id, r)) && GoodAfter(s.db, d, next, s.workers[id], pc)
    requires WorkerOk(d, next, s.workers[id].(pc := pc))
    requires forall e | e in s.requeued :: e in d.outbox
    requires forall o | o in s.workers :: s.workers[o].event in d.outbox
    requires forall o | o in s.workers && o != id :: !Poised(d, s.workers[o]) && !Active(s.workers[o].pc)
    ensures Inv(ActOf(c, s, id, r), next)
  {
    Assembled(ActOf(c, s, id, r), id, next);
  }

  /** A transaction of a worker that is not active: nothing, or a checked return of the task to running. */
  lemma OtherDbStep(c: Config, db: Db, w: Worker, r: AgentResult)
    requires !Active(w.pc) && !Enters(db, w)
    ensures var (d, pc) := DbStep(c, db, w, r);
      && (d == db || (d == db.(status := TaskStatus.Running) && CanTransitionTask(db.status, TaskStatus.Running)))
      && !Active(pc) && (pc.EnterStep? ==> d.status == TaskStatus.Running)
  {
  }

  /** What such a worker's act leaves: rows, other workers, and messages that were committed. */
  ghost predicate Untouched(s: State, t: State, id: nat) {
    && (t.db == s.db
        || (t.db == s.db.(status := TaskStatus.Running) && CanTransitionTask(s.db.status, TaskStatus.Running)))
    && (forall o | o in t.workers && o != id :: o in s.workers && t.workers[o] == s.workers[o])
    && (id in t.workers ==>
          var w := t.workers[id];
          w.event in t.db.outbox && !Active(w.pc) && (w.pc.EnterStep? ==> t.db.status == TaskStatus.Running))
    && (forall e | e in t.requeued :: e in t.db.outbox)
  }

  /** Rows unchanged, the task's status unchanged or put back to running, one worker moved without becoming active. */
  lemma RowsUntouched(s: State, k: nat, t: State, id: nat)
    requires Inv(s, k) && LeaseInv(t) && Untouched(s, t, id)
    ensures Inv(t, k)
  {
    SameRows(s.db, t.db, k);
    WorkersUntouched(s, k, t, id);
  }

  lemma WorkersUntouched(s: State, k: nat, t: State, id: nat)
    requires Inv(s, k) && Untouched(s, t, id)
    ensures forall o | o in t.workers :: WorkerOk(t.db, k, t.workers[o])
  {
    SameRows(s.db, t.db, k);
    forall o | o in t.workers
      ensures WorkerOk(t.db, k, t.workers[o])
    {
      if o != id {
        assert WorkerOk(s.db, k, s.workers[o]);
      }
    }
  }

  lemma OtherMoves(c: Config, s: State, id: nat, r: AgentResult)
    requires id in s.workers && !Active(s.workers[id].pc) && !Enters(s.db, s.workers[id])
    requires s.workers[id].event in s.db.outbox && forall e | e in s.requeued :: e in s.db.outbox
    ensures Untouched(s, ActOf(c, s, id, r), id)
  {
    OtherDbStep(c, s.db, s.workers[id], r);
  }

  lemma OthersAct(c: Config, s: State, k: nat, id: nat, r: AgentResult)
    requires Inv(s, k) && id in s.workers && !Active(s.workers[id].pc)
    requires !Enters(s.db, s.workers[id])
    ensures Inv(ActOf(c, s, id, r), k) && Edges(s.db, ActOf(c, s, id, r).db)
  {
    assert WorkerOk(s.db, k, s.workers[id]);
    LeaseStep(c, s, Act(id, r));
    OtherMoves(c, s, id, r);
    RowsUntouched(s, k, ActOf(c, s, id, r), id);
  }

  lemma MessageDelivered(c: Config, s: State, k: nat, a: Action)
    requires Inv(s, k) && (a.Deliver? || a.Redeliver?)
    ensures Inv(Next(c, s, a), k)
  {
    LeaseStep(c, s, a);
    if Next(c, s, a) != s {
      RowsUntouched(s, k, Next(c, s, a), s.nextId);
    }
  }

  /** Crashes, time and the removal of unused leases take workers away or leave them as they are. */
  lemma WorkersOnlyLeave(s: State, k: nat, t: State)
    requires Inv(s, k) && LeaseInv(t) && t.db == s.db
    requires forall o | o in t.workers :: o in s.workers && t.workers[o] == s.workers[o]
    requires forall e | e in t.requeued :: e in t.db.outbox
    ensures Inv(t, k)
  {
    forall o | o in t.workers
      ensures WorkerOk(t.db, k, t.workers[o])
    {
      assert WorkerOk(s.db, k, s.workers[o]);
    }
  }

  lemma SurroundingsStep(c: Config, s: State, k: nat, a: Action)
    requires Inv(s, k) && InsideLease(s, a) && !a.Act? && !a.ResumeTask?
    ensures Inv(Next(c, s, a), k) && Next(c, s, a).db == s.db
  {
    if a.Deliver? || a.Redeliver? {
      MessageDelivered(c, s, k, a);
    } else {
      QuietStep(c, s, k, a);
    }
  }

  lemma QuietStep(c: Config, s: State, k: nat, a: Action)
    requires Inv(s, k) && InsideLease(s, a) && (a.Crash? || a.Wait? || a.Forget?)
    ensures Inv(Next(c, s, a), k) && Next(c, s, a).db == s.db
  {
    LeaseStep(c, s, a);
    OnlyLeaving(c, s, a);
    if a.Crash? && a.id in s.workers {
      assert WorkerOk(s.db, k, s.workers[a.id]);
    }
    WorkersOnlyLeave(s, k, Next(c, s, a));
  }

  lemma OnlyLeaving(c: Config, s: State, a: Action)
    requires a.Crash? || a.Wait? || a.Forget?
    ensures var t := Next(c, s, a);
      t.db == s.db && forall o | o in t.workers :: o in s.workers && t.workers[o] == s.workers[o]
  {
  }

  /** The step becomes running: the worker is now the active one. */
  lemma StepEntered(c: Config, s: State, k: nat, id: nat, r: AgentResult)
    requires Inv(s, k) && id in s.workers && Poised(s.db, s.workers[id])
    ensures Inv(ActOf(c, s, id, r), k) && Edges(s.db, ActOf(c, s, id, r).db)
  {
    var w := s.workers[id];
    var t := ActOf(c, s, id, r);
    LeaseStep(c, s, Act(id, r));
    assert WorkerOk(s.db, k, w);
    EnterRow(s.db, k, w);
    NobodyElseActive(s, k, id);
    forall o | o in t.workers
      ensures WorkerOk(t.db, k, t.workers[o])
    {
      assert WorkerOk(s.db, k, s.workers[o]);
    }
  }

  lemma NobodyElseActive(s: State, k: nat, id: nat)
    requires Inv(s, k) && id in s.workers && Poised(s.db, s.workers[id])
    ensures forall o | o in s.workers :: !Active(s.workers[o].pc)
  {
    forall o | o in s.workers && o != id
      ensures !Active(s.workers[o].pc)
    {
      if Active(s.workers[o].pc) {
        NobodyPoisedBesideActive(s, k, o, id);
      }
    }
  }

  lemma EnterRow(db: Db, k: nat, w: Worker)
    requires Frontier(db, k) && EventsOk(db, k) && w.event in db.outbox && Poised(db, w)
    requires db.status == TaskStatus.Running
    ensures var tx := TransitionStep(db, w.Step(), StepStatus.Running);
      tx.Done? && Good(tx.db, k, w.(pc := Start)) && Edges(db, tx.db)
  {
    var s := w.Step();
    var d := TransitionStep(db, s, StepStatus.Running).db;
    assert EventOk(db, k, w.event);
    assert s < REPAIR ==> FrontierRow(db, k, s);
    forall i: StepId | i < REPAIR
      ensures FrontierRow(d, k, i)
    {
      assert FrontierRow(db, k, i);
    }
    forall e | e in d.outbox
      ensures EventOk(d, k, e)
      ensures s < REPAIR ==> !PendingRepair(d, e)
    {
      assert EventOk(db, k, e);
      if HistoryAgrees(e.payload.history, db) {
        HistoryFrame(e.payload.history, db, d);
      }
    }
  }

  /** Every message is stale after a resume, but the new one. */
  lemma ResumedRows(db: Db, k: nat)
    requires EventsOk(db, k) && CanResume(db)
    ensures var d := Resume(db);
      Frontier(d, 0) && EventsOk(d, 0) && Settled(d, 0) && Edges(db, d)
      && forall e | e in db.outbox :: e in d.outbox && !Fresh(d, e)
  {
    var d := Resume(db);
    forall e | e in d.outbox
      ensures EventOk(d, 0, e)
    {
      if e in db.outbox {
        assert EventOk(db, k, e);
      }
    }
    forall e | e in db.outbox ensures !Fresh(d, e) {
      assert EventOk(db, k, e);
    }
  }

  lemma Resumed(s: State, k: nat)
    requires Inv(s, k) && CanResume(s.db)
    ensures Inv(s.(db := Resume(s.db)), 0) && Edges(s.db, Resume(s.db))
  {
    ResumedRows(s.db, k);
    forall o | o in s.workers
      ensures !Active(s.workers[o].pc) && WorkerOk(Resume(s.db), 0, s.workers[o])
    {
      assert WorkerOk(s.db, k, s.workers[o]);
    }
  }

  lemma WorkerActs(c: Config, s: State, k: nat, id: nat, r: AgentResult) returns (next: nat)
    requires Inv(s, k) && id in s.workers && NotStale(s, Act(id, r))
    ensures Inv(ActOf(c, s, id, r), next) && Edges(s.db, ActOf(c, s, id, r).db)
  {
    next := k;
    if Active(s.workers[id].pc) {
      next := ActiveActs(c, s, k, id, r);
    } else if Poised(s.db, s.workers[id]) {
      StepEntered(c, s, k, id, r);
    } else {
      OthersAct(c, s, k, id, r);
    }
  }

  lemma AnyStep(c: Config, s: State, k: nat, a: Action) returns (next: nat)
    requires Inv(s, k) && InsideLease(s, a) && NotStale(s, a)
    ensures Inv(Next(c, s, a), next) && Edges(s.db, Next(c, s, a).db)
  {
    next := k;
    if a.Act? {
      if a.id in s.workers {
        next := WorkerActs(c, s, k, a.id, a.result);
      }
    } else if a.ResumeTask? {
      if CanResume(s.db) {
        Resumed(s, k);
        next := 0;
      }
    } else {
      SurroundingsStep(c, s, k, a);
    }
  }

  // ---------------------------------------------------------------- all runs

  /** What create_task puts into the first payload: outputs of steps before the first one only. */
  predicate HistoryBefore(history: map<StepId, Output>, start: StepId) {
    forall i | i in history :: i < start
  }

  /** A newly created task. */
  ghost predicate NewTask(init: State) {
    exists maxRetry: int, start: StepId, history: map<StepId, Output> ::
      start <= SCRIPT_GENERATION && HistoryBefore(history, start) && init == Initial(maxRetry, start, history)
  }

  /** A run of a new task that respects leases and in which no message crosses a reset. */
  ghost predicate ProperRun(c: Config, init: State, actions: seq<Action>) {
    NewTask(init) && Leased(c, init, actions) && UpToDate(c, init, actions)
  }

  lemma {:induction false} InvHolds(c: Config, init: State, actions: seq<Action>) returns (k: nat)
    requires ProperRun(c, init, actions)
    ensures Inv(Run(c, init, actions), k)
  {
    if actions == [] {
      k := init.db.start;
    } else {
      k := InvHolds(c, init, actions[..|actions| - 1]);
      k := AnyStep(c, Run(c, init, actions[..|actions| - 1]), k, actions[|actions| - 1]);
    }
  }

  /**
   Frontier: the finished steps form one interval beginning at the start of the pass and nothing
   beyond the first unfinished step has run. Events: a fresh message of the frontier step, or of the
   repair of that step, carries exactly the stored outputs as history.
   */
  lemma {:induction false} FrontierAndHistory(c: Config, init: State, actions: seq<Action>) returns (k: nat)
    requires ProperRun(c, init, actions)
    ensures var db := Run(c, init, actions).db; Frontier(db, k) && EventsOk(db, k)
  {
    k := InvHolds(c, init, actions);
  }

  /** At most one execution is under way on the whole task, and the history it works from is the stored one. */
  lemma {:induction false} OneExecutionAtATime(c: Config, init: State, actions: seq<Action>, a: nat, b: nat)
    requires ProperRun(c, init, actions)
    requires var s := Run(c, init, actions);
      a in s.workers && b in s.workers && Active(s.workers[a].pc) && Active(s.workers[b].pc)
    ensures a == b
    ensures var s := Run(c, init, actions);
      s.workers[a].pc.Agent? ==> HistoryAgrees(s.workers[a].event.payload.history, s.db)
  {
    var k := InvHolds(c, init, actions);
    var s := Run(c, init, actions);
    assert WorkerOk(s.db, k, s.workers[a]) && EventOk(s.db, k, s.workers[a].event);
  }

  /** Every action changes the task's status along a table edge, and a step's along an edge, a reset or a write-back. */
  lemma {:induction false} EveryChangeIsAnEdge(c: Config, init: State, actions: seq<Action>)
    requires ProperRun(c, init, actions) && actions != []
    ensures Edges(Run(c, init, actions[..|actions| - 1]).db, Run(c, init, actions).db)
  {
    var k := InvHolds(c, init, actions[..|actions| - 1]);
    var _ := AnyStep(c, Run(c, init, actions[..|actions| - 1]), k, actions[|actions| - 1]);
  }

  /** A task that has once succeeded stays so, whatever is still delivered. */
  lemma {:induction false} SuccessIsFinal(c: Config, init: State, actions: seq<Action>, n: nat)
    requires ProperRun(c, init, actions) && n <= |actions|
    requires Run(c, init, actions[..n]).db.status == TaskStatus.Success
    ensures Run(c, init, actions).db.status == TaskStatus.Success
  {
    if n == |actions| {
      assert actions[..n] == actions;
    } else {
      var before := actions[..|actions| - 1];
      assert before[..n] == actions[..n];
      SuccessIsFinal(c, init, before, n);
      EveryChangeIsAnEdge(c, init, actions);
    }
  }

  /** What the three final statuses say about rows, verdicts and the retry budget. */
  lemma {:induction false} MeaningOfTheEnd(c: Config, init: State, actions: seq<Action>)
    requires ProperRun(c, init, actions)
    ensures var db := Run(c, init, actions).db;
      && (db.status == TaskStatus.Success ==>
            Finished(db) && var v := LatestVerdict(db).value; PassedOf(v) && !HighRiskOf(v))
      && (db.status == TaskStatus.ManualReview ==>
            Finished(db) && var v := LatestVerdict(db).value;
            !(PassedOf(v) && !HighRiskOf(v)) && (ScoreOf(v) < 40 || HighRiskOf(v) || db.retryCount >= db.maxRetry))
      && (db.status == TaskStatus.DeadLetter ==> db.retryCount >= db.maxRetry)
  {
    var k := InvHolds(c, init, actions);
    var db := Run(c, init, actions).db;
    if db.status == TaskStatus.Success || db.status == TaskStatus.ManualReview {
      FinishedAtTheEnd(db);
    }
  }

  lemma FinishedAtTheEnd(db: Db)
    requires Frontier(db, 8) && LatestVerdict(db).Some? && Delivered(db, LatestVerdict(db).value)
    ensures Finished(db)
  {
    forall i: StepId | db.start <= i < REPAIR
      ensures db.steps[i].status == StepStatus.Success && db.steps[i].output.Some?
    {
      assert FrontierRow(db, 8, i);
    }
  }

  /** All steps of the pass are done and the output payload is their non-empty outputs plus the latest score. */
  ghost predicate Finished(db: Db) {
    && (forall i: StepId | db.start <= i < REPAIR ::
          db.steps[i].status == StepStatus.Success && db.steps[i].output.Some?)
    && LatestVerdict(db).Some? && db.finalOutput.Some?
    && db.finalOutput.value.qualityScore == Some(ScoreOf(LatestVerdict(db).value))
    && (forall i: StepId :: i in db.finalOutput.value.outputs <==> i < REPAIR && Stored(db.steps[i]).Some?)
    && (forall i: StepId | i in db.finalOutput.value.outputs ::
          Stored(db.steps[i]) == Some(db.finalOutput.value.outputs[i]))
  }

  /** The pass starts where the task was created to start, or at the first step after a resume. */
  lemma {:induction false} StartOfPass(c: Config, init: State, actions: seq<Action>)
    ensures Run(c, init, actions).db.start in {init.db.start, PRODUCT_ANALYSIS}
  {
    if actions != [] {
      var s := Run(c, init, actions[..|actions| - 1]);
      var a := actions[|actions| - 1];
      StartOfPass(c, init, actions[..|actions| - 1]);
      if a.Act? && a.id in s.workers {
        StartKept(c, s.db, s.workers[a.id], a.result);
      }
    }
  }

  lemma StartKept(c: Config, db: Db, w: Worker, r: AgentResult)
    ensures DbStep(c, db, w, r).0.start == db.start
  {
  }
}

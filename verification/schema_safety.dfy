/**
 What is stored satisfies its schema. Every prompt agent answers through the governed executor; the
 media agents answer anything. No assumption is made on deliveries, duplicates, crashes or leases.
 */
module SchemaSafety {
  import opened Options
  import opened StateMachine
  import opened Workflow
  import opened Interleaving
  import opened Validator
  import opened Executor
  import Json
  import Retry

  /** The engine's view of a validated dump. */
  type Reader = Json.Json -> Output

  /** `o` is the dump of a valid instance of the schema of step `s`. */
  ghost predicate Conforms(schemas: Schemas, read: Reader, s: StepId, o: Output) {
    exists v :: schemas(s, v).Conforming? && o == read(schemas(s, v).dump)
  }

  /** The schema an agent validates against; the repair agent accepts four targets and raises on others. */
  function SchemaOf(e: Event): Option<StepId> {
    if e.step != REPAIR then Some(e.step)
    else if e.payload.target.Some? && e.payload.target.value <= MATERIAL_SUGGESTION then e.payload.target
    else None
  }

  predicate IsMedia(s: StepId) {
    MATERIAL_SUGGESTION < s < QUALITY_EVALUATION
  }

  /** The executor's result as the orchestrator reads it. */
  function Seen(schemas: Schemas, read: Reader, a: Agent, first: Reply, second: Reply): Workflow.AgentResult {
    match Produced(schemas, a, first, second)
    case Some(dump) => Succeeded(read(dump))
    case None => Workflow.AgentResult.Failed(NeedsRepairAgent(schemas, a, first, second) && a.enableSchemaRepair)
  }

  /** One execution, and the answer as the engine takes it: a repair is asked for by the flag and a payload together. */
  method AskAgent(executor: AgentExecutor, read: Reader, a: Agent, replies: seq<Reply>)
    returns (r: Workflow.AgentResult)
    requires executor.calls == 0 && |replies| >= 2
    modifies executor
    ensures r == Seen(executor.schemas, read, a, replies[0], replies[1])
  {
    var result := executor.Execute(a, replies);
    if result.success {
      return Succeeded(read(result.output.value));
    }
    r := Workflow.AgentResult.Failed(result.needsRepairAgent && result.repairPayload.Some?);
  }

  /** `r` is what the executor makes of some replies of the model to this message. */
  ghost predicate FromExecutor(schemas: Schemas, read: Reader, e: Event, r: Workflow.AgentResult) {
    exists a: Agent, first: Reply, second: Reply | a.schema == SchemaOf(e) :: r == Seen(schemas, read, a, first, second)
  }

  ghost predicate AnswersAreGoverned(schemas: Schemas, read: Reader, s: State, a: Action) {
    a.Act? && a.id in s.workers && s.workers[a.id].pc.Agent? && !IsMedia(s.workers[a.id].Step()) ==>
      FromExecutor(schemas, read, s.workers[a.id].event, a.result)
  }

  ghost predicate Governed(c: Config, schemas: Schemas, read: Reader, init: State, actions: seq<Action>)
    decreases |actions|
  {
    actions == [] ||
    (var before := actions[..|actions| - 1];
     && Governed(c, schemas, read, init, before)
     && AnswersAreGoverned(schemas, read, Run(c, init, before), actions[|actions| - 1]))
  }

  /** An output that an execution for this event may store. */
  ghost predicate Fits(schemas: Schemas, read: Reader, e: Event, o: Output) {
    || IsMedia(e.step)
    || (SchemaOf(e).Some? && Registered(SchemaOf(e).value) && Conforms(schemas, read, SchemaOf(e).value, o))
  }

  lemma AnswerFits(schemas: Schemas, read: Reader, e: Event, r: Workflow.AgentResult)
    requires FromExecutor(schemas, read, e, r) && r.Succeeded?
    ensures Fits(schemas, read, e, r.output)
  {
    var a: Agent, first: Reply, second: Reply :| a.schema == SchemaOf(e) && r == Seen(schemas, read, a, first, second);
    var v :| schemas(a.schema.value, v) == Conforming(Produced(schemas, a, first, second).value);
    assert r.output == read(schemas(a.schema.value, v).dump);
  }

  /** A repair can succeed, for some schemas and some answer of the model, just for the first four steps. */
  lemma RepairCanSucceedIff(read: Reader, e: Event)
    requires e.step == REPAIR && e.payload.target.Some?
    ensures (exists schemas: Schemas, r: Workflow.AgentResult :: FromExecutor(schemas, read, e, r) && r.Succeeded?) <==>
      e.payload.target.value in {PRODUCT_ANALYSIS, SCRIPT_GENERATION, STORYBOARD_PLANNING, MATERIAL_SUGGESTION}
  {
    if e.payload.target.value <= MATERIAL_SUGGESTION {
      var schemas: Schemas := (s, v) => Conforming(v);
      var a := Executor.Agent.Agent(e.payload.target, true, "", "");
      var reply := Answer("null", 0, 0, "", "");
      NullLoads();
      assert FromExecutor(schemas, read, e, Seen(schemas, read, a, reply, reply));
    }
    forall schemas: Schemas, r: Workflow.AgentResult | FromExecutor(schemas, read, e, r) && r.Succeeded?
      ensures e.payload.target.value <= MATERIAL_SUGGESTION
    {
      AnswerFits(schemas, read, e, r);
    }
  }

  lemma NullLoads()
    ensures Json.Parse("null") == Some(Json.Lit("null"))
  {
    assert "null"[..4] == "null" && "null"[4..] == "";
  }

  // ---------------------------------------------------------------- the invariant

  ghost predicate RowFits(schemas: Schemas, read: Reader, x: StepId, o: Option<Output>) {
    Registered(x) && o.Some? ==> Conforms(schemas, read, x, o.value)
  }

  ghost predicate WorkerFits(schemas: Schemas, read: Reader, w: Worker) {
    match w.pc
    case Succeeding(o) => Fits(schemas, read, w.event, o)
    case WritingBack(o) => w.Step() == REPAIR && Fits(schemas, read, w.event, o)
    case Recording(o) => Conforms(schemas, read, QUALITY_EVALUATION, o)
    case _ => true
  }

  ghost predicate DbFits(schemas: Schemas, read: Reader, db: Db) {
    && (forall x: StepId :: RowFits(schemas, read, x, db.steps[x].output))
    && (forall o | o in db.evaluations :: Conforms(schemas, read, QUALITY_EVALUATION, o))
    && (db.finalOutput.Some? ==>
          forall x | x in db.finalOutput.value.outputs ::
            RowFits(schemas, read, x, Some(db.finalOutput.value.outputs[x])))
  }

  ghost predicate Safe(schemas: Schemas, read: Reader, s: State) {
    && DbFits(schemas, read, s.db)
    && (forall id | id in s.workers :: WorkerFits(schemas, read, s.workers[id]))
  }

  lemma WriteBackFits(schemas: Schemas, read: Reader, db: Db, e: Event, o: Output)
    requires DbFits(schemas, read, db) && e.step == REPAIR && Fits(schemas, read, e, o)
    ensures DbFits(schemas, read, WriteBack(db, o, e.payload).db)
  {
    var d := WriteBack(db, o, e.payload).db;
    forall x: StepId ensures RowFits(schemas, read, x, d.steps[x].output) {
      assert RowFits(schemas, read, x, db.steps[x].output);
    }
  }

  lemma ClearingFits(schemas: Schemas, read: Reader, db: Db, d: Db)
    requires DbFits(schemas, read, db) && d.evaluations == db.evaluations && d.finalOutput == db.finalOutput
    requires forall x: StepId :: d.steps[x].output == None || d.steps[x].output == db.steps[x].output
    ensures DbFits(schemas, read, d)
  {
    forall x: StepId ensures RowFits(schemas, read, x, d.steps[x].output) {
      assert RowFits(schemas, read, x, db.steps[x].output);
    }
  }

  lemma SuccessFits(schemas: Schemas, read: Reader, db: Db, e: Event, o: Output)
    requires DbFits(schemas, read, db) && Fits(schemas, read, e, o)
    ensures DbFits(schemas, read, StepSuccess(db, e.step, o, e.payload))
  {
    var d := StepSuccess(db, e.step, o, e.payload);
    forall x: StepId ensures RowFits(schemas, read, x, d.steps[x].output) {
      assert RowFits(schemas, read, x, db.steps[x].output);
    }
  }

  /** One transaction of a worker keeps every stored and every carried output valid. */
  lemma TransactionFits(c: Config, schemas: Schemas, read: Reader, db: Db, w: Worker, r: Workflow.AgentResult)
    requires DbFits(schemas, read, db) && WorkerFits(schemas, read, w)
    requires w.pc.Agent? && !IsMedia(w.Step()) ==> FromExecutor(schemas, read, w.event, r)
    ensures var (d, pc) := DbStep(c, db, w, r);
      DbFits(schemas, read, d) && WorkerFits(schemas, read, w.(pc := pc))
  {
    var (d, pc) := DbStep(c, db, w, r);
    match w.pc {
      case Succeeding(o) => SuccessFits(schemas, read, db, w.event, o);
      case WritingBack(o) => WriteBackFits(schemas, read, db, w.event, o);
      case Deciding(v) => DecisionFits(c, schemas, read, db, w, r);
      case Rejecting(v, rc) => RejectionFits(c, schemas, read, db, w, r);
      case Recording(_) =>
      case Agent => AnswerCarried(c, schemas, read, db, w, r);
      case _ => ClearingFits(schemas, read, db, d);
    }
  }

  lemma DecisionFits(c: Config, schemas: Schemas, read: Reader, db: Db, w: Worker, r: Workflow.AgentResult)
    requires DbFits(schemas, read, db) && w.pc.Deciding?
    ensures var (d, pc) := DbStep(c, db, w, r); DbFits(schemas, read, d) && WorkerFits(schemas, read, w.(pc := pc))
  {
  }

  lemma RejectionFits(c: Config, schemas: Schemas, read: Reader, db: Db, w: Worker, r: Workflow.AgentResult)
    requires DbFits(schemas, read, db) && w.pc.Rejecting?
    ensures var (d, pc) := DbStep(c, db, w, r); DbFits(schemas, read, d) && WorkerFits(schemas, read, w.(pc := pc))
  {
    if Retry.ShouldRetry(w.pc.retryCount, db.maxRetry) {
      ClearingFits(schemas, read, db, RerunFromScript(db));
    }
  }

  lemma AnswerCarried(c: Config, schemas: Schemas, read: Reader, db: Db, w: Worker, r: Workflow.AgentResult)
    requires w.pc.Agent? && (!IsMedia(w.Step()) ==> FromExecutor(schemas, read, w.event, r))
    ensures var (d, pc) := DbStep(c, db, w, r); d == db && WorkerFits(schemas, read, w.(pc := pc))
  {
    if r.Succeeded? && !IsMedia(w.Step()) {
      AnswerFits(schemas, read, w.event, r);
    }
  }

  lemma StepIsSafe(c: Config, schemas: Schemas, read: Reader, s: State, a: Action)
    requires Safe(schemas, read, s) && AnswersAreGoverned(schemas, read, s, a)
    ensures Safe(schemas, read, Next(c, s, a))
  {
    if a.Act? && a.id in s.workers {
      TransactionFits(c, schemas, read, s.db, s.workers[a.id], a.result);
    } else if a.ResumeTask? && CanResume(s.db) {
      ClearingFits(schemas, read, s.db, Resume(s.db));
    }
  }

  lemma {:induction false} RunIsSafe(c: Config, schemas: Schemas, read: Reader, init: State, actions: seq<Action>)
    requires Safe(schemas, read, init) && Governed(c, schemas, read, init, actions)
    ensures Safe(schemas, read, Run(c, init, actions))
  {
    if actions != [] {
      var before := actions[..|actions| - 1];
      RunIsSafe(c, schemas, read, init, before);
      StepIsSafe(c, schemas, read, Run(c, init, before), actions[|actions| - 1]);
    }
  }

  /**
   In every run, with any duplicates, crashes and resumes, what is stored for a step with a schema is
   the dump of a valid instance of that schema: the step rows, whether written by the step itself or
   by the repair agent, the recorded evaluations, and the final output of the task.
   */
  lemma {:induction false} StoredOutputsConform(
    c: Config, schemas: Schemas, read: Reader, maxRetry: int, start: StepId, history: map<StepId, Output>,
    actions: seq<Action>, x: StepId)
    requires Governed(c, schemas, read, Initial(maxRetry, start, history), actions)
    requires Registered(x)
    ensures var db := Run(c, Initial(maxRetry, start, history), actions).db;
      && (db.steps[x].output.Some? ==> Conforms(schemas, read, x, db.steps[x].output.value))
      && (db.finalOutput.Some? && x in db.finalOutput.value.outputs ==>
            Conforms(schemas, read, x, db.finalOutput.value.outputs[x]))
      && (forall v | v in db.evaluations :: Conforms(schemas, read, QUALITY_EVALUATION, v))
  {
    RunIsSafe(c, schemas, read, Initial(maxRetry, start, history), actions);
    var db := Run(c, Initial(maxRetry, start, history), actions).db;
    assert RowFits(schemas, read, x, db.steps[x].output);
  }

  /**
   A repair of a step without a schema never succeeds: in no governed run does a worker come to write a
   repair back to a target after the material suggestion, whoever asked for it.
   */
  lemma {:induction false} RepairsOnlyWithSchema(
    c: Config, schemas: Schemas, read: Reader, maxRetry: int, start: StepId, history: map<StepId, Output>,
    actions: seq<Action>)
    requires Governed(c, schemas, read, Initial(maxRetry, start, history), actions)
    ensures var s := Run(c, Initial(maxRetry, start, history), actions);
      forall id | id in s.workers && s.workers[id].pc.WritingBack? ::
        var e := s.workers[id].event;
        e.step == REPAIR && e.payload.target.Some? && e.payload.target.value <= MATERIAL_SUGGESTION
  {
    RunIsSafe(c, schemas, read, Initial(maxRetry, start, history), actions);
    var s := Run(c, Initial(maxRetry, start, history), actions);
    forall id | id in s.workers && s.workers[id].pc.WritingBack?
      ensures var e := s.workers[id].event;
        e.step == REPAIR && e.payload.target.Some? && e.payload.target.value <= MATERIAL_SUGGESTION
    {
      assert WorkerFits(schemas, read, s.workers[id]);
    }
  }

  // ---------------------------------------------------------------- what is handed to the repair agent

  /** The media agents fail without asking for a repair. */
  predicate MediaNeverAsk(s: State, a: Action) {
    a.Act? && a.id in s.workers && s.workers[a.id].pc.Agent? && IsMedia(s.workers[a.id].Step()) && a.result.Failed? ==>
      !a.result.repairable
  }

  predicate MediaGoverned(c: Config, init: State, actions: seq<Action>)
    decreases |actions|
  {
    actions == [] ||
    (var before := actions[..|actions| - 1];
     MediaGoverned(c, init, before) && MediaNeverAsk(Run(c, init, before), actions[|actions| - 1]))
  }

  /** A repair that can succeed. */
  predicate Hopeful(e: Event) {
    e.step == REPAIR ==> e.payload.target.Some? && e.payload.target.value <= MATERIAL_SUGGESTION
  }

  /** A failure that asks for a repair came from a step with a schema. */
  predicate AskedWithSchema(w: Worker) {
    && Hopeful(w.event)
    && (IsMedia(w.Step()) ==>
          && (w.pc.Failing? ==> !w.pc.repairable)
          && (w.pc.Marking? ==> !w.pc.repairable)
          && (w.pc.Scheduling? ==> !w.pc.repairable))
  }

  ghost predicate AllHopeful(s: State) {
    && (forall e | e in s.db.outbox :: Hopeful(e))
    && (forall e | e in s.requeued :: Hopeful(e))
    && (forall id | id in s.workers :: AskedWithSchema(s.workers[id]))
  }

  lemma HopefulTransaction(c: Config, db: Db, w: Worker, r: Workflow.AgentResult)
    requires (forall e | e in db.outbox :: Hopeful(e)) && AskedWithSchema(w)
    requires w.pc.Agent? && IsMedia(w.Step()) && r.Failed? ==> !r.repairable
    ensures var (d, pc) := DbStep(c, db, w, r);
      (forall e | e in d.outbox :: Hopeful(e)) && AskedWithSchema(w.(pc := pc))
  {
  }

  lemma {:induction false} HopefulAlong(c: Config, init: State, actions: seq<Action>)
    requires AllHopeful(init) && MediaGoverned(c, init, actions)
    ensures AllHopeful(Run(c, init, actions))
    decreases |actions|
  {
    if actions != [] {
      var before, a := actions[..|actions| - 1], actions[|actions| - 1];
      HopefulAlong(c, init, before);
      HopefulStep(c, Run(c, init, before), a);
    }
  }

  lemma HopefulStep(c: Config, s: State, a: Action)
    requires AllHopeful(s) && MediaNeverAsk(s, a)
    ensures AllHopeful(Next(c, s, a))
  {
    if a.Act? {
      if a.id in s.workers {
        HopefulTransaction(c, s.db, s.workers[a.id], a.result);
      }
    } else {
      HopefulSurroundings(c, s, a);
    }
  }

  lemma HopefulSurroundings(c: Config, s: State, a: Action)
    requires AllHopeful(s) && !a.Act?
    ensures AllHopeful(Next(c, s, a))
  {
    if !a.ResumeTask? {
      HopefulMessages(c, s, a);
    }
  }

  /** Messages that come and go were committed, or put back by workers that had them. */
  lemma HopefulMessages(c: Config, s: State, a: Action)
    requires AllHopeful(s) && !a.Act? && !a.ResumeTask?
    ensures AllHopeful(Next(c, s, a))
  {
  }

  /**
   With media agents that never ask for a repair every repair message ever committed is for a step with a
   schema, so that no repair is doomed from the start.
   */
  lemma {:induction false} RepairsAreHopeful(
    c: Config, maxRetry: int, start: StepId, history: map<StepId, Output>, actions: seq<Action>)
    requires start <= SCRIPT_GENERATION
    ensures MediaGoverned(c, Initial(maxRetry, start, history), actions) ==>
      forall e | e in Run(c, Initial(maxRetry, start, history), actions).db.outbox && e.step == REPAIR ::
        e.payload.target.Some? && Registered(e.payload.target.value)
  {
    if MediaGoverned(c, Initial(maxRetry, start, history), actions) {
      HopefulAlong(c, Initial(maxRetry, start, history), actions);
    }
  }
}

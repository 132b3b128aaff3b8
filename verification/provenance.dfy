/**
 Nothing is made up: whatever is stored, recorded, delivered or carried as history was answered by an agent to a
 message for that step, or for the repair of that step, or was given when the task was created. No assumption is
 made on deliveries, duplicates, crashes or leases.
 */
module Provenance {
  import opened Options
  import opened StateMachine
  import opened Workflow
  import opened Interleaving

  /** An agent asked about a message succeeded with an output. */
  datatype Answer = Answer(event: Event, output: Output)

  function Given(s: State, a: Action): set<Answer> {
    if a.Act? && a.id in s.workers && s.workers[a.id].pc.Agent? && a.result.Succeeded?
    then {Answer(s.workers[a.id].event, a.result.output)}
    else {}
  }

  function Answers(c: Config, init: State, actions: seq<Action>): set<Answer>
    decreases |actions|
  {
    if actions == [] then {}
    else
      var before := actions[..|actions| - 1];
      Answers(c, init, before) + Given(Run(c, init, before), actions[|actions| - 1])
  }

  // ---------------------------------------------------------------- what comes from an answer

  /** The answer is for the step itself or for its repair. */
  predicate About(e: Event, x: StepId) {
    e.step == x || (e.step == REPAIR && e.payload.target == Some(x))
  }

  ghost predicate Answered(all: set<Answer>, x: StepId, o: Output) {
    exists b | b in all :: b.output == o && About(b.event, x)
  }

  /** The judge itself said so. */
  ghost predicate Judged(all: set<Answer>, v: Output) {
    exists b | b in all :: b.output == v && b.event.step == QUALITY_EVALUATION
  }

  ghost predicate EventTraced(all: set<Answer>, given: map<StepId, Output>, e: Event) {
    forall x | x in e.payload.history ::
      Answered(all, x, e.payload.history[x]) || (x in given && given[x] == e.payload.history[x])
  }

  ghost predicate RowsTraced(all: set<Answer>, db: Db) {
    forall x: StepId :: db.steps[x].output.Some? ==> Answered(all, x, db.steps[x].output.value)
  }

  ghost predicate ResultsTraced(all: set<Answer>, db: Db) {
    && (forall v | v in db.evaluations :: Judged(all, v))
    && (db.finalOutput.Some? ==>
          forall x | x in db.finalOutput.value.outputs :: Answered(all, x, db.finalOutput.value.outputs[x]))
  }

  /** What a worker carries between its transactions. */
  predicate WorkerTraced(all: set<Answer>, w: Worker) {
    match w.pc
    case Succeeding(o) => Answer(w.event, o) in all
    case WritingBack(o) => Answer(w.event, o) in all && w.Step() == REPAIR
    case Recording(v) => Answer(w.event, v) in all && w.Step() == QUALITY_EVALUATION
    case EnteringEvaluation(v) => Answer(w.event, v) in all && w.Step() == QUALITY_EVALUATION
    case Deciding(v) => Answer(w.event, v) in all && w.Step() == QUALITY_EVALUATION
    case Rejecting(v, _) => Answer(w.event, v) in all && w.Step() == QUALITY_EVALUATION
    case _ => true
  }

  ghost predicate Traced(all: set<Answer>, given: map<StepId, Output>, s: State) {
    && RowsTraced(all, s.db) && ResultsTraced(all, s.db)
    && (forall e | e in s.db.outbox :: EventTraced(all, given, e))
    && (forall e | e in s.requeued :: EventTraced(all, given, e))
    && (forall id | id in s.workers :: EventTraced(all, given, s.workers[id].event) && WorkerTraced(all, s.workers[id]))
  }

  // ---------------------------------------------------------------- one transaction

  lemma OwnAnswer(all: set<Answer>, e: Event, o: Output, x: StepId)
    requires Answer(e, o) in all && About(e, x)
    ensures Answered(all, x, o)
  {
    assert Answer(e, o).output == o && About(Answer(e, o).event, x);
  }

  lemma RowsKeepTrace(c: Config, all: set<Answer>, db: Db, w: Worker, r: AgentResult)
    requires RowsTraced(all, db) && WorkerTraced(all, w)
    ensures RowsTraced(all, DbStep(c, db, w, r).0)
  {
    var d := DbStep(c, db, w, r).0;
    forall x: StepId | d.steps[x].output.Some?
      ensures Answered(all, x, d.steps[x].output.value)
    {
      if w.pc.Succeeding? && d.steps[x].output != db.steps[x].output {
        OwnAnswer(all, w.event, w.pc.output, x);
      } else if w.pc.WritingBack? && d.steps[x].output != db.steps[x].output {
        WrittenOutput(c, db, w, r, x);
        OwnAnswer(all, w.event, w.pc.output, x);
      }
    }
  }

  lemma WrittenOutput(c: Config, db: Db, w: Worker, r: AgentResult, x: StepId)
    requires w.pc.WritingBack?
    ensures var after := DbStep(c, db, w, r).0.steps[x].output;
      after != db.steps[x].output && after.Some? ==> w.event.payload.target == Some(x) && after.value == w.pc.output
  {
  }

  lemma ResultsKeepTrace(c: Config, all: set<Answer>, db: Db, w: Worker, r: AgentResult)
    requires RowsTraced(all, db) && ResultsTraced(all, db) && WorkerTraced(all, w)
    ensures ResultsTraced(all, DbStep(c, db, w, r).0)
  {
    if w.pc.Recording? {
      var b := Answer(w.event, w.pc.verdict);
      assert b in all && b.output == w.pc.verdict && b.event.step == QUALITY_EVALUATION;
    } else if w.pc.Deciding? || w.pc.Rejecting? {
      FinalKeepsTrace(c, all, db, w, r);
    }
  }

  lemma FinalKeepsTrace(c: Config, all: set<Answer>, db: Db, w: Worker, r: AgentResult)
    requires RowsTraced(all, db) && ResultsTraced(all, db) && (w.pc.Deciding? || w.pc.Rejecting?)
    ensures ResultsTraced(all, DbStep(c, db, w, r).0)
  {
  }

  lemma EventsKeepTrace(
    c: Config, all: set<Answer>, given: map<StepId, Output>, db: Db, w: Worker, r: AgentResult)
    requires RowsTraced(all, db) && WorkerTraced(all, w) && EventTraced(all, given, w.event)
    requires forall e | e in db.outbox :: EventTraced(all, given, e)
    ensures forall e | e in DbStep(c, db, w, r).0.outbox :: EventTraced(all, given, e)
  {
    RowsKeepTrace(c, all, db, w, r);
    var d := DbStep(c, db, w, r).0;
    if w.pc.WritingBack? || w.pc.Rejecting? {
      RebuiltKeepsTrace(c, all, given, db, w, r);
    } else if w.pc.Succeeding? {
      OwnAnswer(all, w.event, w.pc.output, w.Step());
    }
  }

  lemma RebuiltKeepsTrace(
    c: Config, all: set<Answer>, given: map<StepId, Output>, db: Db, w: Worker, r: AgentResult)
    requires RowsTraced(all, DbStep(c, db, w, r).0) && (w.pc.WritingBack? || w.pc.Rejecting?)
    requires forall e | e in db.outbox :: EventTraced(all, given, e)
    ensures forall e | e in DbStep(c, db, w, r).0.outbox :: EventTraced(all, given, e)
  {
  }

  lemma CarriedKeepsTrace(c: Config, all: set<Answer>, db: Db, w: Worker, r: AgentResult)
    requires WorkerTraced(all, w)
    requires w.pc.Agent? && r.Succeeded? ==> Answer(w.event, r.output) in all
    ensures WorkerTraced(all, w.(pc := DbStep(c, db, w, r).1))
  {
  }

  // ---------------------------------------------------------------- all runs

  lemma MoreAnswers(all: set<Answer>, more: set<Answer>, given: map<StepId, Output>, s: State)
    requires Traced(all, given, s) && all <= more
    ensures Traced(more, given, s)
  {
    forall x: StepId, o | Answered(all, x, o)
      ensures Answered(more, x, o)
    {
    }
    forall v | Judged(all, v)
      ensures Judged(more, v)
    {
    }
  }

  lemma ActKeepsTrace(c: Config, all: set<Answer>, given: map<StepId, Output>, s: State, id: nat, r: AgentResult)
    requires Traced(all, given, s) && id in s.workers
    requires s.workers[id].pc.Agent? && r.Succeeded? ==> Answer(s.workers[id].event, r.output) in all
    ensures Traced(all, given, ActOf(c, s, id, r))
  {
    var w := s.workers[id];
    RowsKeepTrace(c, all, s.db, w, r);
    ResultsKeepTrace(c, all, s.db, w, r);
    EventsKeepTrace(c, all, given, s.db, w, r);
    CarriedKeepsTrace(c, all, s.db, w, r);
    ActAssembled(c, all, given, s, id, r);
  }

  lemma ActAssembled(c: Config, all: set<Answer>, given: map<StepId, Output>, s: State, id: nat, r: AgentResult)
    requires Traced(all, given, s) && id in s.workers
    requires var (d, pc) := DbStep(c, s.db, s.workers[id], r);
      && RowsTraced(all, d) && ResultsTraced(all, d) && (forall e | e in d.outbox :: EventTraced(all, given, e))
      && WorkerTraced(all, s.workers[id].(pc := pc))
    ensures Traced(all, given, ActOf(c, s, id, r))
  {
  }

  lemma SurroundingsKeepTrace(c: Config, all: set<Answer>, given: map<StepId, Output>, s: State, a: Action)
    requires Traced(all, given, s) && !a.Act?
    ensures Traced(all, given, Next(c, s, a))
  {
    if a.ResumeTask? {
      ResumeKeepsTrace(all, given, s);
    } else if a.Deliver? || a.Redeliver? {
      DeliveryKeepsTrace(c, all, given, s, a);
    } else {
      QuietKeepsTrace(c, all, given, s, a);
    }
  }

  lemma ResumeKeepsTrace(all: set<Answer>, given: map<StepId, Output>, s: State)
    requires Traced(all, given, s)
    ensures Traced(all, given, s.(db := ResumeDeadLetter(s.db)))
  {
  }

  lemma DeliveryKeepsTrace(c: Config, all: set<Answer>, given: map<StepId, Output>, s: State, a: Action)
    requires Traced(all, given, s) && (a.Deliver? || a.Redeliver?)
    ensures Traced(all, given, Next(c, s, a))
  {
  }

  lemma QuietKeepsTrace(c: Config, all: set<Answer>, given: map<StepId, Output>, s: State, a: Action)
    requires Traced(all, given, s) && (a.Crash? || a.Wait? || a.Forget?)
    ensures Traced(all, given, Next(c, s, a))
  {
  }

  /**
   In every run: stored outputs, recorded verdicts, the final output and the histories of all messages were
   answered by agents, each for the step it stands for, or were given at creation.
   */
  lemma {:induction false} NothingIsMadeUp(
    c: Config, maxRetry: int, start: StepId, history: map<StepId, Output>, actions: seq<Action>)
    ensures var init := Initial(maxRetry, start, history);
      Traced(Answers(c, init, actions), history, Run(c, init, actions))
    decreases |actions|
  {
    if actions != [] {
      var init := Initial(maxRetry, start, history);
      var before, a := actions[..|actions| - 1], actions[|actions| - 1];
      var s := Run(c, init, before);
      NothingIsMadeUp(c, maxRetry, start, history, before);
      MoreAnswers(Answers(c, init, before), Answers(c, init, actions), history, s);
      if a.Act? {
        if a.id in s.workers {
          ActKeepsTrace(c, Answers(c, init, actions), history, s, a.id, a.result);
        }
      } else {
        SurroundingsKeepTrace(c, Answers(c, init, actions), history, s, a);
      }
    }
  }
}

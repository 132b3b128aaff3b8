/**
 The orchestrator as the source writes it: an object holding the rows of one task, whose methods
 update them in place. Every method is tied to the function of module Workflow that the run-level
 theorems are about.
 */
module Orchestrator {
  import opened Options
  import opened StateMachine
  import opened Workflow
  import EL = ExecutionLease
  import Retry

  /** `Raise`: a StateMachineError or ValueError left the method. */
  datatype Outcome = Pass | Raise {
    predicate IsFailure() { Raise? }
    function PropagateFailure(): Outcome { this }
  }

  class WorkflowOrchestrator {
    const delays: seq<int>
    const leases: EL.LeaseStore<StepId>
    const ttl: Pos
    var status: TaskStatus
    var retryCount: nat
    var maxRetry: int
    var finalOutput: Option<FinalOutput>
    var steps: StepRows
    var outbox: seq<Event>
    var evaluations: seq<Output>
    var deadLetters: seq<DeadLetterRow>
    var executions: nat
    var start: StepId

    ghost function Rows(): Db
      reads this
    {
      Db(status, retryCount, maxRetry, finalOutput, steps, outbox, evaluations, deadLetters, executions, start)
    }

    /** What a handler leaves behind, as a Tx. */
    ghost function After(r: Outcome): Tx
      reads this
    {
      if r.Raise? then Raised(Rows()) else Done(Rows())
    }

    /** `feedback`: the request names an earlier task; `analysis`: the product analysis stored for it, if any. */
    constructor (
      delays: seq<int>, leases: EL.LeaseStore<StepId>, ttl: Pos, maxRetry: int, feedback: bool,
      analysis: Option<Output>)
      ensures this.delays == delays && this.leases == leases && this.ttl == ttl
      ensures Rows() == CreateTask(
        maxRetry, if feedback then SCRIPT_GENERATION else PRODUCT_ANALYSIS,
        if feedback && analysis.Some? && analysis.value.Doc? then map[PRODUCT_ANALYSIS := analysis.value] else map[])
      ensures |outbox| == 1 && outbox[0].step == (if feedback then SCRIPT_GENERATION else PRODUCT_ANALYSIS)
      ensures outbox[0].payload.history ==
        (if feedback && analysis.Some? && analysis.value.Doc? then map[PRODUCT_ANALYSIS := analysis.value] else map[])
      ensures outbox[0].payload.attempt == 1 && outbox[0].payload.target == None && outbox[0].delay == 0
      ensures status == TaskStatus.Created && retryCount == 0 && this.maxRetry == maxRetry && finalOutput == None
      ensures forall s: StepId :: steps[s] == StepRow(StepStatus.Pending, None, 0, 0, 0)
      ensures evaluations == [] && deadLetters == [] && executions == 0
    {
      var history: map<StepId, Output> := map[];
      var startStep: StepId := WORKFLOW_STEPS[0];
      if feedback {
        if analysis.Some? && analysis.value.Doc? {
          history := history[PRODUCT_ANALYSIS := analysis.value];
        }
        startStep := SCRIPT_GENERATION;
      }
      var rows: seq<StepRow> := [];
      for s := 0 to |WORKFLOW_STEPS| + 1
        invariant |rows| == s && forall i | 0 <= i < s :: rows[i] == FRESH_ROW
      {
        rows := rows + [FRESH_ROW];
      }
      this.delays, this.leases, this.ttl, this.maxRetry, this.start := delays, leases, ttl, maxRetry, startStep;
      status, retryCount, finalOutput := TaskStatus.Created, 0, None;
      steps, evaluations, deadLetters, executions := rows, [], [], 0;
      outbox := [Event(startStep, Payload(history, 1, None), 0, 0)];
    }

    /** The rows in one transaction; then every lease of the task is deleted, whoever owns it. */
    method ResumeDeadLetter() returns (resumed: bool)
      modifies this, leases
      ensures resumed == CanResume(old(Rows()))
      ensures Rows() == Workflow.ResumeDeadLetter(old(Rows()))
      ensures leases.store == if resumed then map[] else old(leases.store)
    {
      if status != TaskStatus.DeadLetter {
        return false;
      }
      status := TaskStatus.Queued;
      retryCount := 0;
      for s := 0 to 9
        modifies `steps
        invariant forall i | 0 <= i < s :: steps[i] == Cleared(old(steps)[i]).(retryCount := 0)
        invariant forall i | s <= i < 9 :: steps[i] == old(steps)[i]
      {
        steps := steps[s := Cleared(steps[s]).(retryCount := 0)];
      }
      start := PRODUCT_ANALYSIS;
      EnqueueStepEvent(WORKFLOW_STEPS[0], Payload(map[], 1, None), 0);
      assert steps == Resume(old(Rows())).steps;
      ForgetLeases();
      return true;
    }

    /** Every lease of the task deleted, whoever owns it. */
    method ForgetLeases()
      modifies leases
      ensures leases.store == map[] && leases.now == old(leases.now)
    {
      for s := 0 to |WORKFLOW_STEPS| + 1
        modifies leases
        invariant leases.now == old(leases.now) && forall x | x in leases.store :: x >= s
      {
        var _ := leases.ReleaseIdempotent(s, None);
      }
    }

    /** A delivery: dropped when the step's lease is held, otherwise run and the lease given back, exception or not. */
    method ExecuteStep(s: StepId, payload: Payload, r: AgentResult) returns (o: Outcome)
      modifies this, leases
      ensures EL.Live(old(leases.store), s, old(leases.now)) ==>
        o == Pass && Rows() == old(Rows()) && leases.store == old(leases.store)
      ensures !EL.Live(old(leases.store), s, old(leases.now)) ==>
        After(o) == Workflow.ExecuteStep(old(Rows()), delays, s, payload, r) && leases.store == old(leases.store) - {s}
    {
      var lockOwner := leases.AcquireIdempotent(s, ttl, ttl);
      if lockOwner == None {
        return Pass;
      }
      o := RunStep(s, payload, r);
      var _ := leases.ReleaseIdempotent(s, lockOwner);
    }

    /** What is done under the lease; `r` is the agent's answer. */
    method RunStep(s: StepId, payload: Payload, r: AgentResult) returns (o: Outcome)
      modifies this
      ensures After(o) == Workflow.ExecuteStep(old(Rows()), delays, s, payload, r)
    {
      if steps[s].status == StepStatus.Success {
        return Pass;
      }
      :- TransitionTask(TaskStatus.Running);
      :- TransitionStep(s, StepStatus.Running);
      StartExecution();
      o := HandleAgentResult(s, r, payload);
    }

    method StartExecution()
      modifies `executions
      ensures Rows() == Workflow.StartExecution(old(Rows()))
    {
      executions := executions + 1;
    }

    method HandleAgentResult(s: StepId, r: AgentResult, payload: Payload) returns (o: Outcome)
      modifies this
      ensures After(o) == Workflow.HandleAgentResult(old(Rows()), delays, s, r, payload)
    {
      match r {
        case Succeeded(output) => o := OnStepSuccess(s, output, payload);
        case Failed(repairable) => o := OnStepFailure(s, repairable, payload);
      }
    }

    method OnStepSuccess(s: StepId, output: Output, payload: Payload) returns (o: Outcome)
      modifies this
      ensures After(o) == Workflow.OnStepSuccess(old(Rows()), s, output, payload)
    {
      CommitSuccess(s, output, payload);
      if s == REPAIR {
        o := HandleRepairSuccess(output, payload);
      } else if s == QUALITY_EVALUATION {
        o := HandleEvaluation(output);
      } else {
        o := TransitionTask(TaskStatus.Running);
      }
    }

    /** The success row and the next step's event, in one transaction. */
    method CommitSuccess(s: StepId, output: Output, payload: Payload)
      modifies this
      ensures Rows() == StepSuccess(old(Rows()), s, output, payload)
    {
      var next := if s == REPAIR || s == QUALITY_EVALUATION then None else NextStepOrDone(s);
      var row := steps[s];
      steps := steps[s := row.(status := StepStatus.Success, output := Some(output), commits := row.commits + 1)];
      if next.Some? {
        EnqueueStepEvent(next.value, payload.(history := payload.history[s := output], attempt := 1), 0);
      }
    }

    method OnStepFailure(s: StepId, repairable: bool, payload: Payload) returns (o: Outcome)
      modifies this
      ensures After(o) == Workflow.OnStepFailure(old(Rows()), delays, s, repairable, payload)
    {
      steps := steps[s := steps[s].(status := StepStatus.Failed, retryCount := steps[s].retryCount + 1)];
      var newRetryCount := MarkTaskRetrying();
      BeforeEvaluation(s);
      if repairable && s in WORKFLOW_STEPS[..|WORKFLOW_STEPS| - 1] {
        ScheduleRepair(s, payload);
        return Pass;
      }
      if Retry.ShouldRetry(newRetryCount, maxRetry) {
        o := ScheduleRetry(s, payload, newRetryCount);
        return;
      }
      deadLetters := deadLetters + [DeadLetterRow(s, retryCount)];
      status := TaskStatus.DeadLetter;
      return Pass;
    }

    method ScheduleRetry(s: StepId, payload: Payload, newRetryCount: Pos) returns (o: Outcome)
      modifies this
      ensures After(o) == Workflow.ScheduleRetry(old(Rows()), delays, s, payload, newRetryCount)
    {
      var delay := Retry.ComputeRetryDelay(delays, newRetryCount - 1);
      if !CanTransitionStep(steps[s].status, StepStatus.Retrying) {
        return Raise;
      }
      steps := steps[s := steps[s].(status := StepStatus.Retrying)];
      EnqueueStepEvent(s, payload.(attempt := newRetryCount + 1), delay);
      return Pass;
    }

    method ScheduleRepair(s: StepId, payload: Payload)
      modifies this
      ensures Rows() == Workflow.ScheduleRepair(old(Rows()), s, payload)
    {
      steps := steps[REPAIR := Cleared(steps[REPAIR])];
      EnqueueStepEvent(REPAIR, payload.(target := Some(s), attempt := 1), 0);
    }

    method HandleRepairSuccess(repaired: Output, payload: Payload) returns (o: Outcome)
      modifies this
      ensures After(o) == Workflow.HandleRepairSuccess(old(Rows()), repaired, payload)
    {
      if payload.target.Some? {
        BeforeEvaluation(payload.target.value);
      }
      if payload.target.None? || payload.target.value !in WORKFLOW_STEPS[..|WORKFLOW_STEPS| - 1] {
        return Raise;
      }
      var t := payload.target.value;
      steps := steps[t := steps[t].(status := StepStatus.Success, output := Some(repaired))];
      ClearForRerun(t + 1);
      var history := CollectHistory();
      EnqueueStepEvent(t + 1, payload.(target := None, history := history, attempt := 1), 0);
      o := TransitionTask(TaskStatus.Running);
    }

    method HandleEvaluation(verdict: Output) returns (o: Outcome)
      modifies this
      ensures After(o) == Workflow.HandleEvaluation(old(Rows()), verdict)
    {
      var score := ScoreOf(verdict);
      evaluations := evaluations + [verdict];
      :- TransitionTask(TaskStatus.Evaluating);
      if PassedOf(verdict) && !HighRiskOf(verdict) {
        o := FinalizeTask(TaskStatus.Success, Some(score));
        return;
      }
      if score < 40 || HighRiskOf(verdict) {
        o := FinalizeTask(TaskStatus.ManualReview, Some(score));
        return;
      }
      var newRetryCount := MarkTaskRetrying();
      if !Retry.ShouldRetry(newRetryCount, maxRetry) {
        o := FinalizeTask(TaskStatus.ManualReview, Some(score));
        return;
      }
      ClearForRerun(SCRIPT_GENERATION);
      var history := CollectHistory();
      EnqueueStepEvent(SCRIPT_GENERATION, Payload(history, 1, None), 0);
      return Pass;
    }

    method FinalizeTask(to: TaskStatus, score: Option<int>) returns (o: Outcome)
      modifies this
      ensures After(o) == Workflow.FinalizeTask(old(Rows()), to, score)
    {
      if status != to && !CanTransitionTask(status, to) {
        return Raise;
      }
      status := to;
      var outputs := CollectHistory();
      finalOutput := Some(FinalOutput(outputs - {REPAIR}, score));
      return Pass;
    }

    // ------------------------------------------------------------ helpers

    method MarkTaskRetrying() returns (newRetryCount: Pos)
      modifies `retryCount, `status
      ensures Rows() == Workflow.MarkTaskRetrying(old(Rows())) && newRetryCount == retryCount
    {
      retryCount := retryCount + 1;
      status := TaskStatus.Retrying;
      return retryCount;
    }

    method TransitionTask(to: TaskStatus) returns (o: Outcome)
      modifies `status
      ensures After(o) == Workflow.TransitionTask(old(Rows()), to)
    {
      if status == to {
        return Pass;
      }
      if !CanTransitionTask(status, to) {
        return Raise;
      }
      status := to;
      return Pass;
    }

    method TransitionStep(s: StepId, to: StepStatus) returns (o: Outcome)
      modifies `steps
      ensures After(o) == Workflow.TransitionStep(old(Rows()), s, to)
    {
      if steps[s].status == to {
        return Pass;
      }
      if !CanTransitionStep(steps[s].status, to) {
        return Raise;
      }
      steps := steps[s := steps[s].(status := to)];
      return Pass;
    }

    method EnqueueStepEvent(s: StepId, payload: Payload, delay: int)
      modifies `outbox
      ensures Rows() == Enqueue(old(Rows()), s, payload, delay)
    {
      outbox := outbox + [Event(s, payload, if delay > 0 then delay else 0, steps[s].resets)];
    }

    /** Clears every workflow step from `from` on. */
    method ClearForRerun(from: nat)
      modifies `steps
      ensures steps == ClearedBetween(old(steps), from, |WORKFLOW_STEPS|)
    {
      for s := 0 to |WORKFLOW_STEPS|
        modifies `steps
        invariant forall i | 0 <= i < 9 ::
          steps[i] == if from <= i < s then Cleared(old(steps)[i]) else old(steps)[i]
      {
        if from <= s {
          steps := steps[s := Cleared(steps[s])];
        }
      }
    }

    method CollectHistory() returns (history: map<StepId, Output>)
      ensures history == Workflow.CollectHistory(steps)
    {
      history := map[];
      for s := 0 to 9
        invariant forall k: StepId :: k in history <==> k < s && steps[k].output.Some? && steps[k].output.value.Doc?
        invariant forall k: StepId :: k in history ==> steps[k].output == Some(history[k])
      {
        if steps[s].output.Some? && steps[s].output.value.Doc? {
          history := history[s := steps[s].output.value];
        }
      }
    }
  }
}

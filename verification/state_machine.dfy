/** The two transition tables and the fixed chain of steps (app/core/state_machine.py). */
module StateMachine {
  import opened Options

  datatype TaskStatus =
    Created | Queued | Running | Evaluating | Retrying | Success | Failed | DeadLetter | ManualReview

  datatype StepStatus = Pending | Running | Success | Failed | Retrying | Skipped

  /** A step is its position: the eight workflow steps in order, then the side step `repair`. */
  type StepId = n: nat | n < 9

  const PRODUCT_ANALYSIS: StepId := 0
  const SCRIPT_GENERATION: StepId := 1
  const STORYBOARD_PLANNING: StepId := 2
  const MATERIAL_SUGGESTION: StepId := 3
  const IMAGE_GENERATION: StepId := 4
  const VIDEO_GENERATION: StepId := 5
  const COMPOSITION: StepId := 6
  const QUALITY_EVALUATION: StepId := 7
  const REPAIR: StepId := 8

  const WORKFLOW_STEPS: seq<StepId> := [
    PRODUCT_ANALYSIS, SCRIPT_GENERATION, STORYBOARD_PLANNING, MATERIAL_SUGGESTION,
    IMAGE_GENERATION, VIDEO_GENERATION, COMPOSITION, QUALITY_EVALUATION
  ]

  function TaskTransitions(from: TaskStatus): set<TaskStatus> {
    match from
    case Created => {TaskStatus.Queued, TaskStatus.Running, TaskStatus.Failed}
    case Queued => {TaskStatus.Running, TaskStatus.Failed, TaskStatus.DeadLetter}
    case Running => {TaskStatus.Evaluating, TaskStatus.Success, TaskStatus.Failed,
                     TaskStatus.Retrying, TaskStatus.DeadLetter, TaskStatus.Queued}
    case Evaluating => {TaskStatus.Success, TaskStatus.Retrying, TaskStatus.Failed,
                        TaskStatus.ManualReview, TaskStatus.DeadLetter, TaskStatus.Queued}
    case Retrying => {TaskStatus.Queued, TaskStatus.Running, TaskStatus.DeadLetter,
                      TaskStatus.Failed, TaskStatus.ManualReview}
    case ManualReview => {TaskStatus.Queued, TaskStatus.Success, TaskStatus.Failed, TaskStatus.DeadLetter}
    case Success => {}
    case Failed => {TaskStatus.Retrying, TaskStatus.DeadLetter, TaskStatus.ManualReview}
    case DeadLetter => {TaskStatus.Queued, TaskStatus.ManualReview, TaskStatus.Success}
  }

  function StepTransitions(from: StepStatus): set<StepStatus> {
    match from
    case Pending => {StepStatus.Running, StepStatus.Skipped}
    case Running => {StepStatus.Success, StepStatus.Failed, StepStatus.Retrying}
    case Success => {}
    case Failed => {StepStatus.Retrying, StepStatus.Skipped}
    case Retrying => {StepStatus.Running, StepStatus.Skipped}
    case Skipped => {}
  }

  predicate CanTransitionTask(from: TaskStatus, to: TaskStatus) {
    to in TaskTransitions(from)
  }

  predicate CanTransitionStep(from: StepStatus, to: StepStatus) {
    to in StepTransitions(from)
  }

  /** The position in WORKFLOW_STEPS is the step's own number; `repair` is not in the list. */
  function NextStepOrDone(current: StepId): Option<StepId> {
    if current + 1 < |WORKFLOW_STEPS| then Some(WORKFLOW_STEPS[current + 1]) else None
  }

  /** The statuses from which a status may be entered. */
  function TaskSources(to: TaskStatus): set<TaskStatus> {
    match to
    case Created => {}
    case Queued => {TaskStatus.Created, TaskStatus.Running, TaskStatus.Evaluating, TaskStatus.Retrying,
                    TaskStatus.ManualReview, TaskStatus.DeadLetter}
    case Running => {TaskStatus.Created, TaskStatus.Queued, TaskStatus.Retrying}
    case Evaluating => {TaskStatus.Running}
    case Retrying => {TaskStatus.Running, TaskStatus.Evaluating, TaskStatus.Failed}
    case Success => {TaskStatus.Running, TaskStatus.Evaluating, TaskStatus.ManualReview, TaskStatus.DeadLetter}
    case Failed => {TaskStatus.Created, TaskStatus.Queued, TaskStatus.Running, TaskStatus.Evaluating,
                    TaskStatus.Retrying, TaskStatus.ManualReview}
    case DeadLetter => {TaskStatus.Queued, TaskStatus.Running, TaskStatus.Evaluating, TaskStatus.Retrying,
                        TaskStatus.ManualReview, TaskStatus.Failed}
    case ManualReview => {TaskStatus.Evaluating, TaskStatus.Retrying, TaskStatus.Failed, TaskStatus.DeadLetter}
  }

  function StepSources(to: StepStatus): set<StepStatus> {
    match to
    case Pending => {}
    case Running => {StepStatus.Pending, StepStatus.Retrying}
    case Success => {StepStatus.Running}
    case Failed => {StepStatus.Running}
    case Retrying => {StepStatus.Running, StepStatus.Failed}
    case Skipped => {StepStatus.Pending, StepStatus.Failed, StepStatus.Retrying}
  }

  /** The tables read by target: no status is its own neighbour, and a step cannot become pending along an edge. */
  lemma TablesByTarget(a: TaskStatus, b: TaskStatus, x: StepStatus, y: StepStatus)
    ensures CanTransitionTask(a, b) <==> a in TaskSources(b)
    ensures CanTransitionStep(x, y) <==> x in StepSources(y)
    ensures !CanTransitionTask(a, a) && !CanTransitionStep(x, x) && !CanTransitionStep(x, StepStatus.Pending)
  {
  }

  predicate Path(p: seq<TaskStatus>) {
    forall i | 0 <= i < |p| - 1 :: CanTransitionTask(p[i], p[i + 1])
  }

  /** Success is where every task can still get, along at most two edges, and the only status without a way out. */
  lemma OnlySuccessIsFinal(a: TaskStatus) returns (p: seq<TaskStatus>)
    ensures Path(p) && 1 <= |p| <= 3 && p[0] == a && p[|p| - 1] == TaskStatus.Success
    ensures (forall b :: !CanTransitionTask(a, b)) <==> a == TaskStatus.Success
  {
    p := match a
         case Success => [a]
         case Running => [a, TaskStatus.Success]
         case Evaluating => [a, TaskStatus.Success]
         case ManualReview => [a, TaskStatus.Success]
         case DeadLetter => [a, TaskStatus.Success]
         case Failed => [a, TaskStatus.ManualReview, TaskStatus.Success]
         case _ => [a, TaskStatus.Running, TaskStatus.Success];
    assert a != TaskStatus.Success ==> CanTransitionTask(a, p[1]);
  }

  /** The chain: each workflow step leads to the next, the last and the side step to none. */
  lemma Chain(s: StepId)
    ensures NextStepOrDone(s) == if s < QUALITY_EVALUATION then Some(s + 1) else None
  {
  }

  /** Membership in the list without its last entry, as a bound on the step. */
  lemma BeforeEvaluation(s: StepId)
    ensures s in WORKFLOW_STEPS[..|WORKFLOW_STEPS| - 1] <==> s < QUALITY_EVALUATION
  {
    var front := WORKFLOW_STEPS[..|WORKFLOW_STEPS| - 1];
    assert forall i | 0 <= i < |front| :: front[i] == i;
    if s < QUALITY_EVALUATION {
      assert front[s] == s;
    }
  }
}

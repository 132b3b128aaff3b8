/**
 How long a task can take. A delivery sequence without resume ends the task after a number of
 executions that depends on the remaining retry budget and the frontier; the bound is met by some
 sequence of answers, although repairs are scheduled without asking the budget.

 `cap` says which steps may ask for a repair: those numbered below it. Arbitrary agents are
 `cap == QUALITY_EVALUATION`; the shipped media agents never ask, which is `cap == IMAGE_GENERATION`.
 */
module ExecutionBound {
  import opened Options
  import opened StateMachine
  import opened Workflow
  import opened Safety
  import opened SequentialRuns

  type Cap = n: nat | 0 < n <= QUALITY_EVALUATION witness 1

  function Budget(db: Db): nat {
    if db.maxRetry > db.retryCount then db.maxRetry - db.retryCount else 0
  }

  /** The largest number of executions still to come when step `k` is due. */
  function WorstFrom(cap: Cap, budget: nat, k: nat): int {
    if budget <= 1 then 8 - k + (if k < cap then cap - k else 0) else 7 * budget + cap - k
  }

  /** When the repair of step `k` is due: as from the next step, and one more. */
  function WorstRepair(cap: Cap, budget: nat, k: nat): int {
    WorstFrom(cap, budget, k + 1) + 1
  }

  function Worst(cap: Cap, db: Db, e: Event): int {
    if e.step == REPAIR then WorstRepair(cap, Budget(db), About(e)) else WorstFrom(cap, Budget(db), e.step)
  }

  /** The worst case of a whole state: nothing when the task is over. */
  function Remaining(cap: Cap, s: Sys): int {
    if Over(s.db) || Undelivered(s) == [] then 0 else Worst(cap, s.db, Undelivered(s)[0])
  }

  /** An answer to this message that asks for a repair only below the cap. */
  predicate Allowed(cap: Cap, e: Event, r: AgentResult) {
    r.Failed? && r.repairable && e.step < QUALITY_EVALUATION ==> e.step < cap
  }

  predicate AllowedAlong(cap: Cap, delays: seq<int>, s: Sys, rs: seq<AgentResult>)
    decreases |rs|
  {
    rs == [] || Undelivered(s) == []
    || (Allowed(cap, Undelivered(s)[0], rs[0]) && AllowedAlong(cap, delays, Step(delays, s, Deliver(rs[0])), rs[1..]))
  }

  /** Repairs in flight are for steps below the cap. */
  predicate Capped(cap: Cap, s: Sys) {
    Undelivered(s) != [] && Undelivered(s)[0].step == REPAIR ==> About(Undelivered(s)[0]) < cap
  }

  // ---------------------------------------------------------------- the bound holds

  /** What a handler leaves, the end or a last event, is closer to the end by at least one execution. */
  predicate Shortened(cap: Cap, before: int, t: Db) {
    !Over(t) ==>
      && |t.outbox| > 0
      && var e := t.outbox[|t.outbox| - 1];
         Worst(cap, t, e) < before && (e.step == REPAIR ==> About(e) < cap)
  }

  lemma FailureShortens(cap: Cap, d: Db, delays: seq<int>, e: Event, repairable: bool)
    requires d.steps[e.step].status == StepStatus.Running && Allowed(cap, e, AgentResult.Failed(repairable))
    requires e.step == REPAIR ==> e.payload.target.Some? && e.payload.target.value < cap
    ensures Shortened(cap, Worst(cap, d, e), OnStepFailure(d, delays, e.step, repairable, e.payload).db)
  {
  }

  lemma SuccessShortens(cap: Cap, d: Db, e: Event, o: Output)
    requires d.status == TaskStatus.Running
    requires e.step == REPAIR ==> e.payload.target.Some? && e.payload.target.value < cap
    requires e.step < REPAIR ==> e.payload.target.None?
    ensures Shortened(cap, Worst(cap, d, e), OnStepSuccess(d, e.step, o, e.payload).db)
  {
  }

  lemma HandlerShortens(cap: Cap, db: Db, delays: seq<int>, e: Event, r: AgentResult)
    requires Token(db, e) && Allowed(cap, e, r) && (e.step == REPAIR ==> About(e) < cap)
    ensures Worst(cap, db, e) >= 1
    ensures Shortened(cap, Worst(cap, db, e), ExecuteStep(db, delays, e.step, e.payload, r).db)
  {
    TokenEnters(db, delays, e, r);
    var d := Entered(db, e.step);
    match r
    case Failed(repairable) => FailureShortens(cap, d, delays, e, repairable);
    case Succeeded(o) => SuccessShortens(cap, d, e, o);
  }

  function Answers(rs: seq<AgentResult>): seq<Input> {
    seq(|rs|, i requires 0 <= i < |rs| => Deliver(rs[i]))
  }

  lemma DeliveryShortens(cap: Cap, delays: seq<int>, s: Sys, r: AgentResult)
    requires SequentialRuns.Inv(s) && !Over(s.db) && Capped(cap, s) && Allowed(cap, Undelivered(s)[0], r)
    ensures var t := Step(delays, s, Deliver(r));
      SequentialRuns.Inv(t) && Capped(cap, t) && 0 <= Remaining(cap, t) < Remaining(cap, s)
  {
    HandlerShortens(cap, s.db, delays, Undelivered(s)[0], r);
    SequentialRuns.InvStep(delays, s, Deliver(r));
    var t := Step(delays, s, Deliver(r));
    if !Over(t.db) {
      HandlerShortens(cap, t.db, delays, Undelivered(t)[0], Succeeded(Empty));
    }
  }

  /** Whatever the agents answer, `Remaining` deliveries end the task. */
  lemma {:induction false} EndsInTime(cap: Cap, delays: seq<int>, s: Sys, rs: seq<AgentResult>)
    requires SequentialRuns.Inv(s) && Capped(cap, s) && AllowedAlong(cap, delays, s, rs)
    requires |rs| >= Remaining(cap, s)
    ensures var t := Run(delays, s, Answers(rs)); Over(t.db) && t.db.executions <= s.db.executions + Remaining(cap, s)
    decreases |rs|
  {
    if Over(s.db) {
      OverStays(delays, s, rs);
    } else {
      HandlerShortens(cap, s.db, delays, Undelivered(s)[0], Succeeded(Empty));
      DeliveryShortens(cap, delays, s, rs[0]);
      EndsInTime(cap, delays, Step(delays, s, Deliver(rs[0])), rs[1..]);
      assert Answers(rs)[1..] == Answers(rs[1..]);
    }
  }

  lemma {:induction false} OverStays(delays: seq<int>, s: Sys, rs: seq<AgentResult>)
    requires SequentialRuns.Inv(s) && Over(s.db)
    ensures Run(delays, s, Answers(rs)) == s
    decreases |rs|
  {
    if rs != [] {
      OverStays(delays, s, rs[1..]);
      assert Answers(rs)[1..] == Answers(rs[1..]);
    }
  }

  // ---------------------------------------------------------------- the bound is met

  /** An answer that wastes as much as possible: repairable failures without budget, a late rejection with budget. */
  function WorstAnswer(cap: Cap, db: Db, e: Event): AgentResult {
    if e.step == QUALITY_EVALUATION then Succeeded(Doc(40, false, false, ""))
    else if e.step < cap && Budget(db) <= 1 then AgentResult.Failed(true)
    else Succeeded(Empty)
  }

  /** What an answer leaves is exactly one execution closer to the end. */
  predicate WastesOne(cap: Cap, before: int, t: Db) {
    if Over(t) then before == 1 else |t.outbox| > 0 && Worst(cap, t, t.outbox[|t.outbox| - 1]) == before - 1
  }

  lemma FailureWastes(cap: Cap, d: Db, delays: seq<int>, e: Event)
    requires d.steps[e.step].status == StepStatus.Running && e.step < cap && Budget(d) <= 1
    ensures WastesOne(cap, Worst(cap, d, e), OnStepFailure(d, delays, e.step, true, e.payload).db)
  {
  }

  lemma SuccessWastes(cap: Cap, d: Db, e: Event, o: Output)
    requires d.status == TaskStatus.Running && (e.step < cap ==> Budget(d) > 1)
    requires e.step == REPAIR ==> e.payload.target.Some? && e.payload.target.value < cap
    requires e.step < REPAIR ==> e.payload.target.None?
    requires e.step == QUALITY_EVALUATION ==> Judge(o) == Reject
    ensures WastesOne(cap, Worst(cap, d, e), OnStepSuccess(d, e.step, o, e.payload).db)
  {
  }

  lemma WorstAnswerWastes(cap: Cap, db: Db, delays: seq<int>, e: Event)
    requires Token(db, e) && (e.step == REPAIR ==> About(e) < cap)
    ensures Allowed(cap, e, WorstAnswer(cap, db, e))
    ensures WastesOne(cap, Worst(cap, db, e), ExecuteStep(db, delays, e.step, e.payload, WorstAnswer(cap, db, e)).db)
  {
    var r := WorstAnswer(cap, db, e);
    TokenEnters(db, delays, e, r);
    var d := Entered(db, e.step);
    if r.Failed? {
      FailureWastes(cap, d, delays, e);
    } else {
      SuccessWastes(cap, d, e, r.output);
    }
  }

  lemma LastIsUndelivered(s: Sys)
    requires SequentialRuns.Inv(s)
    ensures !Over(s.db) ==> |s.db.outbox| > 0 && Undelivered(s) == [s.db.outbox[|s.db.outbox| - 1]]
    ensures Over(s.db) ==> Undelivered(s) == []
  {
  }

  lemma WorstStep(cap: Cap, delays: seq<int>, s: Sys)
    requires SequentialRuns.Inv(s) && !Over(s.db) && Capped(cap, s)
    ensures var r := WorstAnswer(cap, s.db, Undelivered(s)[0]);
      var t := Step(delays, s, Deliver(r));
      && Allowed(cap, Undelivered(s)[0], r) && SequentialRuns.Inv(t) && Capped(cap, t)
      && Remaining(cap, t) == Remaining(cap, s) - 1
  {
    var e := Undelivered(s)[0];
    var r := WorstAnswer(cap, s.db, e);
    WorstAnswerWastes(cap, s.db, delays, e);
    DeliveryShortens(cap, delays, s, r);
    LastIsUndelivered(Step(delays, s, Deliver(r)));
  }

  /** From every open state some answers use up the bound exactly. */
  lemma {:induction false} BoundIsMet(cap: Cap, delays: seq<int>, s: Sys) returns (rs: seq<AgentResult>)
    requires SequentialRuns.Inv(s) && Capped(cap, s)
    ensures |rs| == Remaining(cap, s) && AllowedAlong(cap, delays, s, rs)
    ensures var t := Run(delays, s, Answers(rs)); Over(t.db) && t.db.executions == s.db.executions + Remaining(cap, s)
    decreases Remaining(cap, s)
  {
    if Over(s.db) {
      rs := [];
    } else {
      var r := WorstAnswer(cap, s.db, Undelivered(s)[0]);
      WorstStep(cap, delays, s);
      var rest := BoundIsMet(cap, delays, Step(delays, s, Deliver(r)));
      rs := [r] + rest;
      FirstAnswer(cap, delays, s, r, rest);
    }
  }

  lemma FirstAnswer(cap: Cap, delays: seq<int>, s: Sys, r: AgentResult, rest: seq<AgentResult>)
    requires Undelivered(s) != []
    ensures Run(delays, s, Answers([r] + rest)) == Run(delays, Step(delays, s, Deliver(r)), Answers(rest))
    ensures AllowedAlong(cap, delays, s, [r] + rest) ==
      (Allowed(cap, Undelivered(s)[0], r) && AllowedAlong(cap, delays, Step(delays, s, Deliver(r)), rest))
  {
    assert Answers([r] + rest)[1..] == Answers(rest) && ([r] + rest)[1..] == rest;
  }

  /** The exact worst case of a new task. */
  function Bound(cap: Cap, maxRetry: int): nat {
    if maxRetry <= 1 then 8 + cap else 7 * maxRetry + cap
  }

  /**
   A new task is over after at most `Bound` executions, and for some answers it takes as many. With
   arbitrary agents this is max(15, 7 * max_retry + 7), with the shipped ones max(12, 7 * max_retry + 4).
   */
  lemma {:induction false} ExecutionsOfATask(cap: Cap, delays: seq<int>, maxRetry: int, rs: seq<AgentResult>)
    returns (worst: seq<AgentResult>)
    requires var s := SequentialRuns.Initial(maxRetry, PRODUCT_ANALYSIS, map[]);
      |rs| >= Bound(cap, maxRetry) && AllowedAlong(cap, delays, s, rs)
    ensures var s := SequentialRuns.Initial(maxRetry, PRODUCT_ANALYSIS, map[]);
      && Over(Run(delays, s, Answers(rs)).db) && Run(delays, s, Answers(rs)).db.executions <= Bound(cap, maxRetry)
      && AllowedAlong(cap, delays, s, worst) && Over(Run(delays, s, Answers(worst)).db)
      && Run(delays, s, Answers(worst)).db.executions == Bound(cap, maxRetry)
  {
    var s := SequentialRuns.Initial(maxRetry, PRODUCT_ANALYSIS, map[]);
    CreatedIsGood(maxRetry, PRODUCT_ANALYSIS, map[]);
    EndsInTime(cap, delays, s, rs);
    worst := BoundIsMet(cap, delays, s);
  }

  lemma {:induction false} AnyAnswersAllowed(delays: seq<int>, s: Sys, rs: seq<AgentResult>)
    ensures AllowedAlong(QUALITY_EVALUATION, delays, s, rs)
    decreases |rs|
  {
    if rs != [] && Undelivered(s) != [] {
      AnyAnswersAllowed(delays, Step(delays, s, Deliver(rs[0])), rs[1..]);
    }
  }

  /** Whatever the agents answer, max(15, 7 * max_retry + 7) executions end a new task. */
  lemma {:induction false} EveryTaskEnds(delays: seq<int>, maxRetry: int, rs: seq<AgentResult>)
    requires |rs| >= 15 && |rs| >= 7 * maxRetry + 7
    ensures var db := Run(delays, SequentialRuns.Initial(maxRetry, PRODUCT_ANALYSIS, map[]), Answers(rs)).db;
      Over(db) && (db.executions <= 15 || db.executions <= 7 * maxRetry + 7)
  {
    AnyAnswersAllowed(delays, SequentialRuns.Initial(maxRetry, PRODUCT_ANALYSIS, map[]), rs);
    var _ := ExecutionsOfATask(QUALITY_EVALUATION, delays, maxRetry, rs);
  }
}

/**
 The two ways to lose a token, each as a concrete run without crash and without duplicate, inside every
 lease, after which the task is open and nothing is left that could move it.
 */
module LostTokens {
  import opened Options
  import opened StateMachine
  import opened Workflow
  import opened Interleaving
  import opened Uninterrupted
  import opened Safety
  import opened Tokens
  import opened Scenarios
  import EL = ExecutionLease
  import SR = SequentialRuns

  /** Every message is delivered once, none waits in a queue, all workers are gone, and a token was lost. */
  ghost predicate Stuck(c: Config, init: State, actions: seq<Action>) {
    var s := Run(c, init, actions);
    && NewTask(init) && Leased(c, init, actions) && UpToDate(c, init, actions) && DeliveredOnce(s)
    && s.workers == map[] && Undelivered(s) == {} && s.requeued == multiset{}
    && !Over(s.db) && HasLost(c, init, actions)
  }

  /** Every message has been delivered once and in order. */
  predicate AllTaken(s: State) {
    |s.taken| == |s.db.outbox| && s.crashes == 0 && forall i | 0 <= i < |s.taken| :: s.taken[i] == i
  }

  lemma NoneUndelivered(s: State)
    requires AllTaken(s)
    ensures Undelivered(s) == {} && DeliveredOnce(s)
  {
    forall i | 0 <= i < |s.db.outbox|
      ensures i in s.taken
    {
      assert s.taken[i] == i;
    }
  }

  lemma NothingLeft(c: Config, init: State, actions: seq<Action>)
    requires NewTask(init) && AllTaken(Run(c, init, actions)) && !HasReentered(c, init, actions)
    requires var s := Run(c, init, actions); s.workers == map[] && s.requeued == multiset{} && !Over(s.db)
    requires forall a | a in actions :: a.Deliver? || a.Redeliver? || a.Act?
    ensures Stuck(c, init, actions)
  {
    var s := Run(c, init, actions);
    NoneUndelivered(s);
    assert Carriers(s) == {};
    UpToDateIff(c, init, actions);
    LeasedWithoutTime(c, init, actions);
    OneTokenUnlessLost(c, init, actions);
  }

  /** No message has ever been put back. */
  predicate Unreturned(s: State) {
    s.requeued == multiset{} && s.redelivered == {}
  }

  // ---------------------------------------------------------------- a retry that meets the lease of its sender

  /** The first execution has failed, its retry is committed, its lease not yet given back. */
  predicate RetrySent(c: Config, s: State) {
    && |s.db.outbox| == 2 && s.db.outbox[0].step == s.db.outbox[1].step == PRODUCT_ANALYSIS
    && s.db.status == TaskStatus.Retrying && s.taken == [0] && s.crashes == 0 && s.nextId == 1
    && s.workers == map[0 := Worker(s.db.outbox[0], Returning(false))]
    && s.leases == map[PRODUCT_ANALYSIS := EL.Lease(0, s.now + c.ttl)]
    && Unreturned(s)
  }

  lemma FirstFails(c: Config, db: Db, e: Event) returns (n: nat)
    requires db.maxRetry >= 2 && db.outbox == [e] && e.step == PRODUCT_ANALYSIS && db.retryCount == 0
    requires db.status == TaskStatus.Created && db.steps[PRODUCT_ANALYSIS] == FRESH_ROW
    ensures var r := AgentResult.Failed(false);
      var (d, pc) := DbDrive(c, db, e, CheckDone, r, n);
      && Busy(c, db, e, CheckDone, r, n) && pc == Returning(false)
      && |d.outbox| == 2 && d.outbox[0] == e && d.outbox[1].step == PRODUCT_ANALYSIS && d.status == TaskStatus.Retrying
  {
    HandlerAlone(c, db, e, AgentResult.Failed(false));
    n := FirstReturn(c, db, e, CheckDone, AgentResult.Failed(false), 10);
  }

  lemma SendRetry(c: Config, maxRetry: int) returns (actions: seq<Action>, s: State)
    requires maxRetry >= 2
    ensures s == Run(c, Initial(maxRetry, PRODUCT_ANALYSIS, map[]), actions) && RetrySent(c, s)
    ensures forall a | a in actions :: a.Deliver? || a.Act?
  {
    var init := Initial(maxRetry, PRODUCT_ANALYSIS, map[]);
    var r := AgentResult.Failed(false);
    var n := FirstFails(c, init.db, init.db.outbox[0]);
    DeliverAndPark(c, init, 0, r, n);
    actions := [Deliver(0)] + Acts(0, r, n + 1);
    var (db, pc) := DbDrive(c, init.db, init.db.outbox[0], CheckDone, r, n);
    s := Parked(c, init, 0, pc, db);
  }

  lemma DropsRetry(c: Config, s: State, r: AgentResult)
    requires RetrySent(c, s)
    ensures Run(c, s, [Deliver(1), Act(1, r), Act(0, r)]) ==
      s.(workers := map[], leases := map[], nextId := 2, taken := [0, 1])
  {
    var t := Next(c, Next(c, s, Deliver(1)), Act(1, r));
    assert s.workers[1 := Worker(s.db.outbox[1], AcquireLease)] - {1} == s.workers;
    assert t == s.(nextId := 2, taken := [0, 1]);
    assert s.workers - {0} == map[];
    assert s.leases - {PRODUCT_ANALYSIS} == map[];
    RunTwo(c, s, Deliver(1), Act(1, r));
    RunThen(c, s, Deliver(1), [Act(1, r), Act(0, r)]);
    RunTwo(c, Next(c, s, Deliver(1)), Act(1, r), Act(0, r));
    assert [Deliver(1)] + [Act(1, r), Act(0, r)] == [Deliver(1), Act(1, r), Act(0, r)];
  }

  /**
   A retry can be lost: the first execution fails, its retry message is committed, delivered and dropped
   because the failing worker has not yet given back the lease of that very step. The task waits for
   ever for a retry that was already delivered.
   */
  lemma RetryDroppedWhileLeaseHeld(c: Config, maxRetry: int) returns (actions: seq<Action>)
    requires maxRetry >= 2
    ensures var init := Initial(maxRetry, PRODUCT_ANALYSIS, map[]);
      Stuck(c, init, actions) && Run(c, init, actions).db.status == TaskStatus.Retrying
  {
    var init := Initial(maxRetry, PRODUCT_ANALYSIS, map[]);
    var r := AgentResult.Failed(false);
    var first, s := SendRetry(c, maxRetry);
    var rest := [Deliver(1), Act(1, r), Act(0, r)];
    DropsRetry(c, s, r);
    RunAppend(c, init, first, rest);
    actions := first + rest;
    NewTaskIsReady(c, maxRetry);
    NothingRedelivered(c, init, actions);
    NothingLeft(c, init, actions);
  }

  // ---------------------------------------------------------------- a rejection that finds the task running

  lemma ReachesComposition(c: Config, maxRetry: int, o: Output) returns (actions: seq<Action>, s: State)
    ensures s == Run(c, Initial(maxRetry, PRODUCT_ANALYSIS, map[]), actions)
    ensures Ready(s) && Frontmost(s) == COMPOSITION && LastLeft(s) && s.workers == map[] && s.leases == map[]
    ensures Unreturned(s)
    ensures s.db.maxRetry == maxRetry && s.db.retryCount == 0 && s.db.start == PRODUCT_ANALYSIS
    ensures forall a | a in actions :: a.Deliver? || a.Act?
  {
    NewTaskIsReady(c, maxRetry);
    actions, s := WorkUpTo(c, Initial(maxRetry, PRODUCT_ANALYSIS, map[]), o, COMPOSITION);
  }

  /** Worker `c6` has handed composition on and is about to put the task back to running. */
  predicate CompositionLeaving(c: Config, s: State, c6: nat, e6: Event) {
    && e6.step == COMPOSITION && s.nextId == c6 + 1
    && s.workers == map[c6 := Worker(e6, Leaving)] && s.leases == map[COMPOSITION := EL.Lease(c6, s.now + c.ttl)]
    && s.db.status == TaskStatus.Running && s.db.retryCount == 0 && s.db.start == PRODUCT_ANALYSIS
    && |s.db.outbox| > 0 && s.db.outbox[|s.db.outbox| - 1].step == QUALITY_EVALUATION
    && s.db.steps[QUALITY_EVALUATION].status == StepStatus.Pending && LastLeft(s) && Unreturned(s)
  }

  lemma LeavingState(c: Config, s: State, e: Event, d: Db)
    requires |s.db.outbox| > 0 && e == s.db.outbox[|s.db.outbox| - 1] && e.step == COMPOSITION
    requires LastLeft(s) && s.workers == map[] && s.leases == map[] && Unreturned(s)
    requires d.status == TaskStatus.Running && d.retryCount == 0 && d.start == PRODUCT_ANALYSIS
    requires |d.outbox| == |s.db.outbox| + 1 && d.outbox[|s.db.outbox|].step == QUALITY_EVALUATION
    requires d.steps[QUALITY_EVALUATION].status == StepStatus.Pending
    ensures CompositionLeaving(c, Parked(c, s, |s.db.outbox| - 1, Leaving, d), s.nextId, e)
  {
    var t := Parked(c, s, |s.db.outbox| - 1, Leaving, d);
    assert t.workers == map[s.nextId := Worker(e, Leaving)];
  }

  lemma ParksComposition(c: Config, s: State, o: Output) returns (actions: seq<Action>, t: State, e: Event)
    requires Ready(s) && Frontmost(s) == COMPOSITION && LastLeft(s) && s.workers == map[] && s.leases == map[]
    requires Unreturned(s)
    requires s.db.retryCount == 0 && s.db.start == PRODUCT_ANALYSIS
    ensures t == Run(c, s, actions) && CompositionLeaving(c, t, s.nextId, e) && t.db.maxRetry == s.db.maxRetry
    ensures forall a | a in actions :: a.Deliver? || a.Act?
  {
    var last := |s.db.outbox| - 1;
    e := s.db.outbox[last];
    var n := CompositionEffect(c, s.db, e, o);
    DeliverAndPark(c, s, last, Succeeded(o), n);
    actions := [Deliver(last)] + Acts(s.nextId, Succeeded(o), n + 1);
    var d := DbDrive(c, s.db, e, CheckDone, Succeeded(o), n).0;
    t := Parked(c, s, last, Leaving, d);
    LeavingState(c, s, e, d);
  }

  const REJECTED := Doc(40, false, false, "")

  /** Besides, the judge's worker `c6 + 1` is about to decide on a verdict that asks for a rerun. */
  predicate BothWaiting(c: Config, s: State, c6: nat, e6: Event, e7: Event) {
    && e6.step == COMPOSITION && e7.step == QUALITY_EVALUATION && s.nextId == c6 + 2 && AllTaken(s)
    && s.workers == map[c6 := Worker(e6, Leaving), c6 + 1 := Worker(e7, Deciding(REJECTED))]
    && s.leases ==
         map[COMPOSITION := EL.Lease(c6, s.now + c.ttl), QUALITY_EVALUATION := EL.Lease(c6 + 1, s.now + c.ttl)]
    && s.db.status == TaskStatus.Evaluating && s.db.retryCount == 0 && s.db.start == PRODUCT_ANALYSIS
    && s.db.steps[QUALITY_EVALUATION].status == StepStatus.Success && Unreturned(s)
  }

  lemma DecidingState(c: Config, s: State, c6: nat, e6: Event, d: Db)
    requires CompositionLeaving(c, s, c6, e6)
    requires d.status == TaskStatus.Evaluating && d.outbox == s.db.outbox && d.retryCount == 0
    requires d.start == PRODUCT_ANALYSIS
    requires d.steps[QUALITY_EVALUATION].status == StepStatus.Success
    ensures var last := |s.db.outbox| - 1;
      BothWaiting(c, Parked(c, s, last, Deciding(REJECTED), d), c6, e6, s.db.outbox[last])
  {
  }

  lemma ParksJudge(c: Config, s: State, c6: nat, e6: Event) returns (actions: seq<Action>, t: State, e7: Event)
    requires CompositionLeaving(c, s, c6, e6)
    ensures t == Run(c, s, actions) && BothWaiting(c, t, c6, e6, e7) && t.db.maxRetry == s.db.maxRetry
    ensures forall a | a in actions :: a.Deliver? || a.Act?
  {
    var last := |s.db.outbox| - 1;
    e7 := s.db.outbox[last];
    var n, d := DecidingEffect(c, s.db, e7, REJECTED);
    DeliverAndPark(c, s, last, Succeeded(REJECTED), n);
    actions := [Deliver(last)] + Acts(s.nextId, Succeeded(REJECTED), n + 1);
    t := Parked(c, s, last, Deciding(REJECTED), d);
    DecidingState(c, s, c6, e6, d);
  }

  /** A new task brought to that point. */
  lemma BothWait(c: Config, maxRetry: int, o: Output)
    returns (actions: seq<Action>, s: State, c6: nat, e6: Event, e7: Event)
    ensures s == Run(c, Initial(maxRetry, PRODUCT_ANALYSIS, map[]), actions)
    ensures BothWaiting(c, s, c6, e6, e7) && s.db.maxRetry == maxRetry
    ensures forall a | a in actions :: a.Deliver? || a.Act?
  {
    var init := Initial(maxRetry, PRODUCT_ANALYSIS, map[]);
    var a1, s1 := ReachesComposition(c, maxRetry, o);
    var a2: seq<Action>, s2: State;
    a2, s2, e6 := ParksComposition(c, s1, o);
    c6 := s1.nextId;
    var a3: seq<Action>;
    a3, s, e7 := ParksJudge(c, s2, c6, e6);
    RunAppend(c, init, a1, a2);
    RunAppend(c, init, a1 + a2, a3);
    actions := a1 + a2 + a3;
  }

  /** The judge counts its rejection. */
  lemma JudgeCounts(c: Config, s: State, c6: nat, e6: Event, e7: Event, r: AgentResult)
    requires BothWaiting(c, s, c6, e6, e7)
    ensures Next(c, s, Act(c6 + 1, r)) ==
      s.(db := s.db.(retryCount := 1, status := TaskStatus.Retrying),
         workers := map[c6 := Worker(e6, Leaving), c6 + 1 := Worker(e7, Rejecting(REJECTED, 1))])
  {
  }

  lemma BackToRunning(c: Config, s: State, id: nat, r: AgentResult)
    requires id in s.workers && s.workers[id].pc == Leaving && s.db.status == TaskStatus.Retrying
    ensures Next(c, s, Act(id, r)) ==
      s.(db := s.db.(status := TaskStatus.Running), workers := s.workers[id := s.workers[id].(pc := Returning(false))])
  {
  }

  lemma NoEdgeToReview(c: Config, s: State, id: nat, r: AgentResult)
    requires id in s.workers && s.workers[id].pc.Rejecting? && s.workers[id].pc.retryCount >= s.db.maxRetry
    requires s.db.status == TaskStatus.Running
    ensures Next(c, s, Act(id, r)) == s.(workers := s.workers[id := s.workers[id].(pc := Returning(true))])
  {
  }

  /** The judge counts, composition's worker puts the task back to running, the judge may not finish it. */
  lemma MayNotFinish(c: Config, s: State, c6: nat, e6: Event, e7: Event, r: AgentResult)
    returns (actions: seq<Action>, t: State)
    requires BothWaiting(c, s, c6, e6, e7) && s.db.maxRetry <= 1
    ensures t == Run(c, s, actions) && forall a | a in actions :: a.Act?
    ensures t.workers == map[c6 := Worker(e6, Returning(false)), c6 + 1 := Worker(e7, Returning(true))]
    ensures t.leases == s.leases && t.now == s.now && Unreturned(t) && AllTaken(t)
    ensures t.db.status == TaskStatus.Running && t.db.steps == s.db.steps
  {
    JudgeCounts(c, s, c6, e6, e7, r);
    var s1 := s.(db := s.db.(retryCount := 1, status := TaskStatus.Retrying),
                 workers := map[c6 := Worker(e6, Leaving), c6 + 1 := Worker(e7, Rejecting(REJECTED, 1))]);
    t := ReturnComesBetween(c, s1, c6, e6, e7, r);
    RunThen(c, s, Act(c6 + 1, r), [Act(c6, r), Act(c6 + 1, r)]);
    actions := [Act(c6 + 1, r)] + [Act(c6, r), Act(c6 + 1, r)];
  }

  lemma ReturnComesBetween(c: Config, s: State, c6: nat, e6: Event, e7: Event, r: AgentResult) returns (t: State)
    requires s.workers == map[c6 := Worker(e6, Leaving), c6 + 1 := Worker(e7, Rejecting(REJECTED, 1))]
    requires s.db.status == TaskStatus.Retrying && s.db.maxRetry <= 1
    ensures t == Run(c, s, [Act(c6, r), Act(c6 + 1, r)])
    ensures t == s.(db := s.db.(status := TaskStatus.Running),
                    workers := map[c6 := Worker(e6, Returning(false)), c6 + 1 := Worker(e7, Returning(true))])
  {
    BackToRunning(c, s, c6, r);
    var u := s.(db := s.db.(status := TaskStatus.Running), workers := s.workers[c6 := Worker(e6, Returning(false))]);
    NoEdgeToReview(c, u, c6 + 1, r);
    t := u.(workers := u.workers[c6 + 1 := Worker(e7, Returning(true))]);
    RunTwo(c, s, Act(c6, r), Act(c6 + 1, r));
  }

  /** Both are gone; the judge's message is back in its queue. */
  lemma BothGo(c: Config, s: State, c6: nat, e6: Event, e7: Event, r: AgentResult)
    returns (actions: seq<Action>, t: State)
    requires e6.step == COMPOSITION && e7.step == QUALITY_EVALUATION
    requires s.workers == map[c6 := Worker(e6, Returning(false)), c6 + 1 := Worker(e7, Returning(true))]
    requires s.leases ==
      map[COMPOSITION := EL.Lease(c6, s.now + c.ttl), QUALITY_EVALUATION := EL.Lease(c6 + 1, s.now + c.ttl)]
    requires Unreturned(s)
    ensures t == Run(c, s, actions) && forall a | a in actions :: a.Act?
    ensures t == s.(workers := map[], leases := map[], requeued := multiset{e7})
  {
    var u := s.(workers := map[c6 + 1 := Worker(e7, Returning(true))],
                leases := map[QUALITY_EVALUATION := EL.Lease(c6 + 1, s.now + c.ttl)]);
    assert Next(c, s, Act(c6, r)) == u by {
      assert s.workers - {c6} == u.workers;
      assert s.leases - {COMPOSITION} == u.leases;
    }
    t := s.(workers := map[], leases := map[], requeued := multiset{e7});
    assert Next(c, u, Act(c6 + 1, r)) == t by {
      assert u.workers - {c6 + 1} == map[];
      assert u.leases - {QUALITY_EVALUATION} == map[];
    }
    actions := [Act(c6, r), Act(c6 + 1, r)];
    RunTwo(c, s, Act(c6, r), Act(c6 + 1, r));
  }

  /** The judge's message comes back, finds the evaluation finished and is acknowledged. */
  lemma FindsItDone(c: Config, init: State, before: seq<Action>, s: State, e: Event, r: AgentResult)
    returns (actions: seq<Action>, t: State)
    requires s == Run(c, init, before) && !HasReentered(c, init, before)
    requires s.workers == map[] && s.leases == map[] && s.requeued == multiset{e}
    requires s.db.steps[e.step].status == StepStatus.Success
    ensures t == Run(c, init, actions) && !HasReentered(c, init, actions)
    ensures t == s.(requeued := multiset{}, nextId := s.nextId + 1, redelivered := s.redelivered + {s.nextId})
    ensures forall a | a in actions :: a in before || a.Redeliver? || a.Act?
  {
    ComesAgain(c, init, before, s, e, r);
    var there := before + [Redeliver(e)] + [Act(s.nextId, r)];
    AgainActs(c, init, there, s, e, CheckDone, s.db, r);
    var done := there + [Act(s.nextId, r)];
    t := GoesAgain(c, init, done, s, e, r);
    actions := done + [Act(s.nextId, r)];
  }

  /** From there both workers go, the judge's message waiting to be delivered again. */
  lemma RejectionRaises(c: Config, s: State, c6: nat, e6: Event, e7: Event, r: AgentResult)
    returns (actions: seq<Action>, t: State)
    requires BothWaiting(c, s, c6, e6, e7) && s.db.maxRetry <= 1
    ensures t == Run(c, s, actions) && forall a | a in actions :: a.Act?
    ensures AllTaken(t) && t.workers == map[] && t.leases == map[] && t.requeued == multiset{e7} && t.redelivered == {}
    ensures t.db.status == TaskStatus.Running && t.db.steps[e7.step].status == StepStatus.Success
  {
    var first, u := MayNotFinish(c, s, c6, e6, e7, r);
    var second: seq<Action>;
    second, t := BothGo(c, u, c6, e6, e7, r);
    RunAppend(c, s, first, second);
    actions := first + second;
  }

  /**
   A rejection can be lost: composition's worker has committed the evaluation's message but not yet put
   the task back to running when the judge's worker, out of budget, has counted its rejection. The
   return to running comes in between, the step to manual review raises, the judge's message goes back to
   its queue and is delivered again, finds the evaluation finished, and the task stays running.
   */
  lemma RejectionLostToReturn(c: Config, maxRetry: int, o: Output) returns (actions: seq<Action>)
    requires maxRetry <= 1
    ensures var init := Initial(maxRetry, PRODUCT_ANALYSIS, map[]);
      Stuck(c, init, actions) && Run(c, init, actions).db.status == TaskStatus.Running
  {
    var init := Initial(maxRetry, PRODUCT_ANALYSIS, map[]);
    var first, s, c6, e6, e7 := BothWait(c, maxRetry, o);
    var second, u := RejectionRaises(c, s, c6, e6, e7, Succeeded(o));
    var before := first + second;
    RunAppend(c, init, first, second);
    NothingRedelivered(c, init, before);
    var t: State;
    actions, t := FindsItDone(c, init, before, u, e7, Succeeded(o));
    NewTaskIsReady(c, maxRetry);
    NothingLeft(c, init, actions);
  }
}

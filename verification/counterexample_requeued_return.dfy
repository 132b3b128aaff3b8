/**
 A second token without crash, without duplicate and inside every lease: composition's worker cannot put
 the task back to running because the judge's worker has set it to evaluating, its message goes back to
 its queue, the judge asks for a rerun, and the message comes again to a composition that is to be redone.
 */
module RequeuedReturn {
  import opened Options
  import opened StateMachine
  import opened Workflow
  import opened Interleaving
  import opened Safety
  import opened Tokens
  import opened Scenarios
  import opened LostTokens
  import EL = ExecutionLease

  /** Composition's return to running raises, and its message goes back. */
  lemma GoesBack(c: Config, s: State, c6: nat, e6: Event, e7: Event, r: AgentResult)
    returns (actions: seq<Action>, t: State)
    requires BothWaiting(c, s, c6, e6, e7)
    ensures t == Run(c, s, actions) && forall a | a in actions :: a.Act?
    ensures t == s.(workers := map[c6 + 1 := Worker(e7, Deciding(REJECTED))],
                    leases := map[QUALITY_EVALUATION := EL.Lease(c6 + 1, s.now + c.ttl)], requeued := multiset{e6})
  {
    MayNotReturn(c, s, c6, r);
    var u := s.(workers := s.workers[c6 := Worker(e6, Returning(true))]);
    t := MessagePutBack(c, u, c6, e6, e7, r);
    RunTwo(c, s, Act(c6, r), Act(c6, r));
    actions := [Act(c6, r), Act(c6, r)];
  }

  lemma MessagePutBack(c: Config, s: State, c6: nat, e6: Event, e7: Event, r: AgentResult) returns (t: State)
    requires s.workers == map[c6 := Worker(e6, Returning(true)), c6 + 1 := Worker(e7, Deciding(REJECTED))]
    requires Unreturned(s)
    requires e6.step == COMPOSITION
    requires s.leases ==
      map[COMPOSITION := EL.Lease(c6, s.now + c.ttl), QUALITY_EVALUATION := EL.Lease(c6 + 1, s.now + c.ttl)]
    ensures t == Next(c, s, Act(c6, r))
    ensures t == s.(workers := map[c6 + 1 := Worker(e7, Deciding(REJECTED))],
                    leases := map[QUALITY_EVALUATION := EL.Lease(c6 + 1, s.now + c.ttl)], requeued := multiset{e6})
  {
    t := Next(c, s, Act(c6, r));
    assert s.workers - {c6} == map[c6 + 1 := Worker(e7, Deciding(REJECTED))];
    assert s.leases - {COMPOSITION} == map[QUALITY_EVALUATION := EL.Lease(c6 + 1, s.now + c.ttl)];
  }

  lemma MayNotReturn(c: Config, s: State, id: nat, r: AgentResult)
    requires id in s.workers && s.workers[id].pc == Leaving && s.db.status == TaskStatus.Evaluating
    ensures Next(c, s, Act(id, r)) == s.(workers := s.workers[id := s.workers[id].(pc := Returning(true))])
    ensures ReturnRaised(s, Act(id, r)) == {s.workers[id].event}
  {
  }

  /** The rows after the judge's request for a rerun. */
  function Rerun(db: Db): Db {
    RerunFromScript(db.(status := TaskStatus.Retrying, retryCount := db.retryCount + 1))
  }

  lemma JudgeDecides(c: Config, s: State, j: nat, e7: Event, r: AgentResult) returns (t: State)
    requires s.workers == map[j := Worker(e7, Deciding(REJECTED))] && s.db.maxRetry > s.db.retryCount + 1
    ensures t == Run(c, s, [Act(j, r), Act(j, r)])
    ensures t == s.(workers := map[j := Worker(e7, Returning(false))], db := Rerun(s.db))
  {
    var u := s.(workers := map[j := Worker(e7, Rejecting(REJECTED, s.db.retryCount + 1))],
                db := s.db.(status := TaskStatus.Retrying, retryCount := s.db.retryCount + 1));
    assert Next(c, s, Act(j, r)) == u;
    t := s.(workers := map[j := Worker(e7, Returning(false))], db := Rerun(s.db));
    Reruns(c, u, j, e7, r);
    RunTwo(c, s, Act(j, r), Act(j, r));
  }

  lemma Reruns(c: Config, s: State, j: nat, e7: Event, r: AgentResult)
    requires s.db.maxRetry > s.db.retryCount > 0
    requires s.workers == map[j := Worker(e7, Rejecting(REJECTED, s.db.retryCount))]
    ensures Next(c, s, Act(j, r)) == s.(workers := map[j := Worker(e7, Returning(false))], db := RerunFromScript(s.db))
  {
  }

  /** The judge asks for a rerun and is gone. */
  lemma JudgeReruns(c: Config, s: State, j: nat, e7: Event, r: AgentResult) returns (actions: seq<Action>, t: State)
    requires s.workers == map[j := Worker(e7, Deciding(REJECTED))] && e7.step == QUALITY_EVALUATION
    requires s.leases == map[QUALITY_EVALUATION := EL.Lease(j, s.now + c.ttl)] && s.db.maxRetry > s.db.retryCount + 1
    ensures t == Run(c, s, actions) && forall a | a in actions :: a.Act?
    ensures t == s.(workers := map[], leases := map[], db := Rerun(s.db))
  {
    actions := [Act(j, r), Act(j, r)] + [Act(j, r)];
    var u := JudgeDecides(c, s, j, e7, r);
    RunAppend(c, s, [Act(j, r), Act(j, r)], [Act(j, r)]);
    RunOne(c, u, Act(j, r));
    t := u.(workers := map[], leases := map[]);
    assert u.workers - {j} == map[];
    assert u.leases - {QUALITY_EVALUATION} == map[];
  }

  /** Both are gone: the script is to be redone, and composition's message waits to be delivered again. */
  predicate ToBeRedone(s: State, e6: Event) {
    && s.workers == map[] && s.leases == map[] && s.requeued == multiset{e6} && s.redelivered == {}
    && e6.step == COMPOSITION && s.crashes == 0 && |s.db.outbox| == |s.taken| + 1
    && (forall i | 0 <= i < |s.taken| :: s.taken[i] == i)
    && s.db.status == TaskStatus.Retrying && s.db.start == PRODUCT_ANALYSIS
    && s.db.steps[SCRIPT_GENERATION].status == StepStatus.Pending
    && s.db.steps[COMPOSITION].status == StepStatus.Pending
  }

  lemma RerunState(s: State, t: State, e6: Event)
    requires AllTaken(s) && e6.step == COMPOSITION && s.db.start == PRODUCT_ANALYSIS && s.redelivered == {}
    requires t.workers == map[] && t.leases == map[] && t.requeued == multiset{e6} && t.db == Rerun(s.db)
    requires t.redelivered == s.redelivered && t.taken == s.taken && t.crashes == s.crashes
    ensures ToBeRedone(t, e6)
  {
  }

  lemma RejectionReruns(c: Config, s: State, c6: nat, e6: Event, e7: Event, r: AgentResult)
    returns (actions: seq<Action>, t: State)
    requires BothWaiting(c, s, c6, e6, e7) && s.db.maxRetry >= 2
    ensures t == Run(c, s, actions) && ToBeRedone(t, e6) && forall a | a in actions :: a.Act?
  {
    var first, u := GoesBack(c, s, c6, e6, e7, r);
    var second: seq<Action>;
    second, t := JudgeReruns(c, u, c6 + 1, e7, r);
    RunAppend(c, s, first, second);
    actions := first + second;
    RerunState(s, t, e6);
  }

  lemma NewTaskReruns(c: Config, maxRetry: int, o: Output) returns (actions: seq<Action>, s: State, e6: Event)
    requires maxRetry >= 2
    ensures s == Run(c, Initial(maxRetry, PRODUCT_ANALYSIS, map[]), actions) && ToBeRedone(s, e6)
    ensures forall a | a in actions :: a.Deliver? || a.Act?
  {
    var first, u, c6: nat, e7: Event;
    first, u, c6, e6, e7 := BothWait(c, maxRetry, o);
    var second: seq<Action>;
    second, s := RejectionReruns(c, u, c6, e6, e7, Succeeded(o));
    RunAppend(c, Initial(maxRetry, PRODUCT_ANALYSIS, map[]), first, second);
    actions := first + second;
  }

  /** The state in which the worker of the message delivered again is about to enter the composition. */
  function AboutToEnter(c: Config, s: State, e6: Event): State {
    Again(c, s, e6, EnterStep, s.db.(status := TaskStatus.Running))
  }

  lemma PassesTheChecks(c: Config, db: Db, e: Event, r: AgentResult)
    requires db.steps[e.step].status == StepStatus.Pending && db.status == TaskStatus.Retrying
    ensures DbStep(c, db, Worker(e, CheckDone), r) == (db, EnterTask)
    ensures DbStep(c, db, Worker(e, EnterTask), r) == (db.(status := TaskStatus.Running), EnterStep)
  {
  }

  lemma ComesToEnter(c: Config, init: State, before: seq<Action>, s: State, e6: Event, r: AgentResult)
    returns (actions: seq<Action>)
    requires s == Run(c, init, before) && !HasReentered(c, init, before) && ToBeRedone(s, e6)
    ensures Run(c, init, actions) == AboutToEnter(c, s, e6) && !HasReentered(c, init, actions)
    ensures forall a | a in actions :: a in before || a.Redeliver? || a.Act?
  {
    PassesTheChecks(c, s.db, e6, r);
    ComesAgain(c, init, before, s, e6, r);
    var there := before + [Redeliver(e6)] + [Act(s.nextId, r)];
    AgainActs(c, init, there, s, e6, CheckDone, s.db, r);
    var checked := there + [Act(s.nextId, r)];
    AgainActs(c, init, checked, s, e6, EnterTask, s.db, r);
    actions := checked + [Act(s.nextId, r)];
  }

  lemma OneTokenThere(c: Config, s: State, e6: Event)
    requires ToBeRedone(s, e6)
    ensures var u := AboutToEnter(c, s, e6); OneToken(u) && TokenCount(u) == 1 && !Over(u.db) && DeliveredOnce(u)
  {
    var u := AboutToEnter(c, s, e6);
    forall i | 0 <= i < |s.taken|
      ensures i in u.taken
    {
      assert u.taken[i] == i;
    }
    assert Undelivered(u) == {|s.taken|};
    assert Carriers(u) == {};
  }

  /** Nothing behind an unfinished step has been touched, where the frontier holds. */
  lemma NothingRunsBeyond(db: Db, k: nat)
    requires Frontier(db, k) && db.start == PRODUCT_ANALYSIS && db.steps[SCRIPT_GENERATION].status == StepStatus.Pending
    ensures db.steps[COMPOSITION].status == StepStatus.Pending
  {
    assert FrontierRow(db, k, SCRIPT_GENERATION) && FrontierRow(db, k, COMPOSITION);
  }

  /** A last action that lets a redelivered message in, after a run with one token. */
  lemma SecondToken(c: Config, init: State, actions: seq<Action>, u: State, a: Action)
    requires NewTask(init) && u == Run(c, init, actions) && !HasReentered(c, init, actions)
    requires DeliveredOnce(u) && DeliveredOnce(Next(c, u, a)) && OneToken(u) && TokenCount(u) == 1
    requires Reenters(u, a) && !Loses(u, a)
    ensures var all := actions + [a];
      && Run(c, init, all) == Next(c, u, a) && TokenCount(Next(c, u, a)) == 2
      && !HasLost(c, init, all) && UpToDate(c, init, actions) && !UpToDate(c, init, all)
  {
    var all := actions + [a];
    assert all[..|all| - 1] == actions;
    var k, h := Tokens.InvHolds(c, init, actions);
    ReentryAddsToken(c, u, HasLost(c, init, actions), k, h, a);
    OneTokenUnlessLost(c, init, actions);
    UpToDateIff(c, init, actions);
    UpToDateIff(c, init, all);
  }

  /** Everything the run is an example of. */
  ghost predicate TwoTokens(c: Config, init: State, actions: seq<Action>, a: Action) {
    var s, t := Run(c, init, actions), Run(c, init, actions + [a]);
    && NewTask(init) && Leased(c, init, actions + [a]) && DeliveredOnce(t) && !HasLost(c, init, actions + [a])
    && UpToDate(c, init, actions) && !UpToDate(c, init, actions + [a])
    && OneToken(s) && TokenCount(t) == 2 && !Over(t.db) && forall k: nat :: !Frontier(t.db, k)
  }

  /**
   Two tokens can arise without crash, without duplicate and inside every lease. The last action lets the
   worker of composition's message, delivered again, enter the composition, while the script before it is
   pending with a message of its own.
   */
  lemma RequeuedReturnRunsEarly(c: Config, maxRetry: int, o: Output) returns (actions: seq<Action>, a: Action)
    requires maxRetry >= 2
    ensures var init := Initial(maxRetry, PRODUCT_ANALYSIS, map[]);
      var db := Run(c, init, actions + [a]).db;
      && TwoTokens(c, init, actions, a)
      && db.steps[SCRIPT_GENERATION].status == StepStatus.Pending && db.steps[COMPOSITION].status == StepStatus.Running
  {
    var init, r := Initial(maxRetry, PRODUCT_ANALYSIS, map[]), Succeeded(o);
    NewTaskIsReady(c, maxRetry);
    var before, s, e6 := NewTaskReruns(c, maxRetry, o);
    NothingRedelivered(c, init, before);
    actions := ComesToEnter(c, init, before, s, e6, r);
    a := Act(s.nextId, r);
    LastActionEnters(c, init, actions, s, e6, r);
  }

  lemma LastActionEnters(c: Config, init: State, actions: seq<Action>, s: State, e6: Event, r: AgentResult)
    requires NewTask(init) && ToBeRedone(s, e6) && Run(c, init, actions) == AboutToEnter(c, s, e6)
    requires !HasReentered(c, init, actions) && forall a | a in actions :: a.Deliver? || a.Redeliver? || a.Act?
    ensures var a := Act(s.nextId, r);
      var db := Run(c, init, actions + [a]).db;
      && TwoTokens(c, init, actions, a)
      && db.steps[SCRIPT_GENERATION].status == StepStatus.Pending && db.steps[COMPOSITION].status == StepStatus.Running
  {
    var a := Act(s.nextId, r);
    OneTokenThere(c, s, e6);
    SecondToken(c, init, actions, AboutToEnter(c, s, e6), a);
    LeasedWithoutTime(c, init, actions + [a]);
    var db := Run(c, init, actions + [a]).db;
    forall k: nat | Frontier(db, k)
      ensures false
    {
      NothingRunsBeyond(db, k);
    }
  }
}

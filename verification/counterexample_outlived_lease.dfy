/** An execution that outlives its lease: one message delivered twice, and its step committed twice. */
module OutlivedLease {
  import opened Options
  import opened StateMachine
  import opened Workflow
  import opened Interleaving
  import opened Uninterrupted
  import opened Scenarios
  import EL = ExecutionLease
  import ExactlyOnce

  /** Rows on which the first step is being executed and has committed `commits` times. */
  predicate Executing(db: Db, commits: nat) {
    && |db.outbox| > 0 && db.outbox[0].step == PRODUCT_ANALYSIS && db.status in {TaskStatus.Created, TaskStatus.Running}
    && var row := db.steps[PRODUCT_ANALYSIS];
       row.status in {StepStatus.Pending, StepStatus.Running} && row.commits == commits && row.resets == 0
  }

  /** The five transactions from the lease to the agent's answer. */
  lemma ToAnswer(c: Config, db: Db, o: Output) returns (n: nat, d: Db)
    requires Executing(db, 0)
    ensures DbDrive(c, db, db.outbox[0], CheckDone, Succeeded(o), n) == (d, Succeeding(o))
    ensures Busy(c, db, db.outbox[0], CheckDone, Succeeded(o), n) && Executing(d, 0) && d.outbox == db.outbox
  {
    n := 5;
    d := DbDrive(c, db, db.outbox[0], CheckDone, Succeeded(o), 5).0;
  }

  /** The first message delivered and its worker brought to the answer. */
  lemma Answers(c: Config, s: State, o: Output) returns (actions: seq<Action>, t: State)
    requires FreeFor(s, 0) && Executing(s.db, 0)
    ensures t == Run(c, s, actions) && Executing(t.db, 0) && t.nextId == s.nextId + 1 && t.now == s.now
    ensures t.workers == s.workers[s.nextId := Worker(s.db.outbox[0], Succeeding(o))] && t.db.outbox == s.db.outbox
    ensures t.leases == s.leases[PRODUCT_ANALYSIS := EL.Lease(s.nextId, s.now + c.ttl)]
  {
    var n, d := ToAnswer(c, s.db, o);
    DeliverAndPark(c, s, 0, Succeeded(o), n);
    actions := [Deliver(0)] + Acts(s.nextId, Succeeded(o), n + 1);
    t := Parked(c, s, 0, Succeeding(o), d);
    AnswerParked(c, s, o, d);
  }

  lemma AnswerParked(c: Config, s: State, o: Output, d: Db)
    requires Executing(s.db, 0) && Executing(d, 0) && d.outbox == s.db.outbox
    ensures var t := Parked(c, s, 0, Succeeding(o), d);
      && Executing(t.db, 0) && t.nextId == s.nextId + 1 && t.now == s.now && t.db.outbox == s.db.outbox
      && t.workers == s.workers[s.nextId := Worker(s.db.outbox[0], Succeeding(o))]
      && t.leases == s.leases[PRODUCT_ANALYSIS := EL.Lease(s.nextId, s.now + c.ttl)]
  {
  }

  /** Two workers with an answer for the same step commit it twice. */
  lemma BothCommit(c: Config, s: State, a: nat, b: nat, o: Output)
    requires a in s.workers && b in s.workers && a != b && Executing(s.db, 0)
    requires s.workers[a] == s.workers[b] == Worker(s.db.outbox[0], Succeeding(o))
    ensures var row := Run(c, s, [Act(a, Succeeded(o)), Act(b, Succeeded(o))]).db.steps[PRODUCT_ANALYSIS];
      row.commits == 2 && row.resets == 0
  {
    RunTwo(c, s, Act(a, Succeeded(o)), Act(b, Succeeded(o)));
  }

  lemma OutlivingRun(c: Config, maxRetry: int, o: Output) returns (actions: seq<Action>)
    ensures var row := Run(c, Initial(maxRetry, PRODUCT_ANALYSIS, map[]), actions).db.steps[PRODUCT_ANALYSIS];
      row.commits == 2 && row.resets == 0
  {
    var init := Initial(maxRetry, PRODUCT_ANALYSIS, map[]);
    var a1, s1 := Answers(c, init, o);
    var later := Next(c, s1, Wait(c.ttl));
    var a2, s2 := Answers(c, later, o);
    var a3 := [Act(0, Succeeded(o)), Act(1, Succeeded(o))];
    BothCommit(c, s2, 0, 1, o);
    RunThen(c, s1, Wait(c.ttl), a2);
    var middle := [Wait(c.ttl)] + a2;
    RunAppend(c, init, a1, middle);
    RunAppend(c, init, a1 + middle, a3);
    actions := a1 + middle + a3;
  }

  /**
   Without the lease discipline the exactly-once bound is lost: there is a run in which the lease of a
   slow execution expires, its message is delivered again, and both executions commit, without any reset.
   */
  lemma LeaseDisciplineNeeded(c: Config, maxRetry: int, o: Output) returns (actions: seq<Action>)
    ensures var init := Initial(maxRetry, PRODUCT_ANALYSIS, map[]);
      var row := Run(c, init, actions).db.steps[PRODUCT_ANALYSIS];
      row.commits == 2 && row.resets == 0 && !Leased(c, init, actions)
  {
    actions := OutlivingRun(c, maxRetry, o);
    if Leased(c, Initial(maxRetry, PRODUCT_ANALYSIS, map[]), actions) {
      ExactlyOnce.CommitsAtMostOncePerReset(c, maxRetry, PRODUCT_ANALYSIS, map[], actions, PRODUCT_ANALYSIS);
    }
  }
}

/**
 Every run of the outbox: a direct publisher for each committed event racing with any number of
 claiming workers, any of them dying between two of its steps, and a broker that may accept, refuse,
 or receive a message and still report an error.
 */
module OutboxRuns {
  import opened Options
  import opened Outbox

  /** One publish attempt: the direct one after the commit, or one on behalf of a claim. */
  datatype Stage = ToSend | ToMark(accepted: bool) | Gone
  datatype Job = Job(row: nat, stage: Stage)

  /**
   `claims`, `calls` and `delivered` count, per event, the claims, the broker calls made and the messages that
   reached the broker.
   */
  datatype Sys = Sys(
    rows: seq<Row>, now: int, nextOwner: nat, jobs: seq<Job>, claims: seq<nat>, calls: seq<nat>, delivered: seq<nat>)

  datatype Action =
    | Commit
    | Rollback
    | Claim(limit: nat, busy: set<nat>)
    | Send(job: nat, accepted: bool, reached: bool)
    | Mark(job: nat)
    | Crash(job: nat)
    | Wait(until: int)

  function Initial(): Sys {
    Sys([], 0, 0, [], [], [], [])
  }

  function Next(c: Settings, s: Sys, a: Action): Sys {
    match a
    case Commit =>
      s.(rows := s.rows + [Enqueued(s.now)], claims := s.claims + [0], calls := s.calls + [0],
         delivered := s.delivered + [0],
         jobs := s.jobs + [Job(|s.rows|, ToSend)])
    case Rollback => s
    case Claim(limit, busy) =>
      var ids := Selected(c, s.rows, s.now, busy, limit, 0);
      s.(rows := Claimed(s.rows, ids, s.nextOwner, s.now), nextOwner := s.nextOwner + 1,
         claims := seq(|s.claims|, i requires 0 <= i < |s.claims| => s.claims[i] + (if i in ids then 1 else 0)),
         jobs := s.jobs + seq(|ids|, n requires 0 <= n < |ids| => Job(ids[n], ToSend)))
    case Send(job, accepted, reached) =>
      if job < |s.jobs| && s.jobs[job].stage.ToSend? && s.jobs[job].row < |s.calls| == |s.delivered| then
        var i := s.jobs[job].row;
        s.(jobs := s.jobs[job := Job(i, ToMark(accepted))],
           calls := s.calls[i := s.calls[i] + 1],
           delivered := s.delivered[i := s.delivered[i] + (if accepted || reached then 1 else 0)])
      else s
    case Mark(job) =>
      if job < |s.jobs| && s.jobs[job].stage.ToMark? && s.jobs[job].row < |s.rows| then
        var i := s.jobs[job].row;
        s.(jobs := s.jobs[job := Job(i, Gone)], rows := s.rows[i := Marked(c, s.rows[i], s.jobs[job].stage.accepted)])
      else s
    case Crash(job) =>
      if job < |s.jobs| then s.(jobs := s.jobs[job := Job(s.jobs[job].row, Gone)]) else s
    case Wait(until) => if until > s.now then s.(now := until) else s
  }

  function Run(c: Settings, s: Sys, actions: seq<Action>): Sys
    decreases actions
  {
    if actions == [] then s else Run(c, Next(c, s, actions[0]), actions[1..])
  }

  // ---------------------------------------------------------------- counting publish attempts still to be made

  function Unsent(jobs: seq<Job>, i: nat): nat {
    if jobs == [] then 0
    else Unsent(jobs[..|jobs| - 1], i) + (if jobs[|jobs| - 1] == Job(i, ToSend) then 1 else 0)
  }

  lemma {:induction false} UnsentAppend(a: seq<Job>, b: seq<Job>, i: nat)
    ensures Unsent(a + b, i) == Unsent(a, i) + Unsent(b, i)
  {
    if b == [] {
      assert a + b == a;
    } else {
      assert (a + b)[..|a + b| - 1] == a + b[..|b| - 1];
      UnsentAppend(a, b[..|b| - 1], i);
    }
  }

  lemma {:induction false} UnsentUpdate(jobs: seq<Job>, n: nat, j: Job, i: nat)
    requires n < |jobs|
    ensures Unsent(jobs[n := j], i) ==
      Unsent(jobs, i) - (if jobs[n] == Job(i, ToSend) then 1 else 0) + (if j == Job(i, ToSend) then 1 else 0)
  {
    var last := |jobs| - 1;
    if n == last {
      assert jobs[n := j][..last] == jobs[..last];
    } else {
      assert jobs[n := j][..last] == jobs[..last][n := j];
      UnsentUpdate(jobs[..last], n, j, i);
    }
  }

  /** A claim starts one attempt for every row it took and none for the others. */
  lemma {:induction false} UnsentOfClaim(ids: seq<nat>, i: nat)
    requires Increasing(ids)
    ensures Unsent(seq(|ids|, n requires 0 <= n < |ids| => Job(ids[n], ToSend)), i) == (if i in ids then 1 else 0)
  {
    var jobs := seq(|ids|, n requires 0 <= n < |ids| => Job(ids[n], ToSend));
    if ids != [] {
      var front := ids[..|ids| - 1];
      assert jobs[..|ids| - 1] == seq(|front|, n requires 0 <= n < |front| => Job(front[n], ToSend));
      UnsentOfClaim(front, i);
      assert ids == front + [ids[|ids| - 1]];
    }
  }

  // ---------------------------------------------------------------- the invariant

  predicate RowOk(c: Settings, s: Sys, i: nat)
    requires i < |s.rows| == |s.claims| == |s.calls| == |s.delivered|
  {
    var r := s.rows[i];
    && s.claims[i] == r.attempts <= c.maxAttempts
    && (r.lockOwner.Some? ==> r.lockOwner.value < s.nextOwner)
    && s.calls[i] + Unsent(s.jobs, i) <= 1 + r.attempts
    && s.delivered[i] <= s.calls[i]
    && r.availableAt <= s.now
    && (r.status.Pending? ==> r.attempts == 0)
    && (r.status.Failed? ==> r.attempts < c.maxAttempts)
    && (r.status.Exhausted? ==> r.attempts == c.maxAttempts)
    && (r.status.Published? ==> s.delivered[i] >= 1)
    && (r.lockOwner.Some? <==> r.status.Publishing?)
  }

  ghost predicate Inv(c: Settings, s: Sys) {
    && |s.rows| == |s.claims| == |s.calls| == |s.delivered|
    && (forall i | 0 <= i < |s.rows| :: RowOk(c, s, i))
    && (forall j | 0 <= j < |s.jobs| ::
          s.jobs[j].row < |s.rows| && (s.jobs[j].stage == ToMark(true) ==> s.delivered[s.jobs[j].row] >= 1))
  }

  lemma InvStep(c: Settings, s: Sys, a: Action)
    requires Inv(c, s)
    ensures Inv(c, Next(c, s, a))
  {
    match a
    case Commit => CommitKeeps(c, s);
    case Claim(limit, busy) => ClaimKeeps(c, s, limit, busy);
    case Send(job, accepted, reached) => SendKeeps(c, s, job, accepted, reached);
    case Mark(job) => MarkKeeps(c, s, job);
    case Crash(job) => CrashKeeps(c, s, job);
    case _ => OthersKeep(c, s, a);
  }

  lemma CommitKeeps(c: Settings, s: Sys)
    requires Inv(c, s)
    ensures Inv(c, Next(c, s, Commit))
  {
    var t := Next(c, s, Commit);
    forall i | 0 <= i < |t.rows|
      ensures RowOk(c, t, i)
    {
      UnsentAppend(s.jobs, [Job(|s.rows|, ToSend)], i);
      if i < |s.rows| {
        assert RowOk(c, s, i);
      } else {
        NoJobs(s.jobs, i);
      }
    }
  }

  lemma SendKeeps(c: Settings, s: Sys, job: nat, accepted: bool, reached: bool)
    requires Inv(c, s)
    ensures Inv(c, Next(c, s, Send(job, accepted, reached)))
  {
    var t := Next(c, s, Send(job, accepted, reached));
    forall i | 0 <= i < |t.rows|
      ensures RowOk(c, t, i)
    {
      assert RowOk(c, s, i);
      if job < |s.jobs| {
        UnsentUpdate(s.jobs, job, Job(s.jobs[job].row, ToMark(accepted)), i);
      }
    }
  }

  lemma MarkKeeps(c: Settings, s: Sys, job: nat)
    requires Inv(c, s)
    ensures Inv(c, Next(c, s, Mark(job)))
  {
    var t := Next(c, s, Mark(job));
    forall i | 0 <= i < |t.rows|
      ensures RowOk(c, t, i)
    {
      assert RowOk(c, s, i);
      if job < |s.jobs| {
        UnsentUpdate(s.jobs, job, Job(s.jobs[job].row, Gone), i);
      }
    }
  }

  lemma CrashKeeps(c: Settings, s: Sys, job: nat)
    requires Inv(c, s)
    ensures Inv(c, Next(c, s, Crash(job)))
  {
    var t := Next(c, s, Crash(job));
    forall i | 0 <= i < |t.rows|
      ensures RowOk(c, t, i)
    {
      assert RowOk(c, s, i);
      if job < |s.jobs| {
        UnsentUpdate(s.jobs, job, Job(s.jobs[job].row, Gone), i);
      }
    }
  }

  lemma OthersKeep(c: Settings, s: Sys, a: Action)
    requires Inv(c, s) && (a.Rollback? || a.Wait?)
    ensures Inv(c, Next(c, s, a))
  {
    var t := Next(c, s, a);
    forall i | 0 <= i < |t.rows|
      ensures RowOk(c, t, i)
    {
      assert RowOk(c, s, i);
    }
  }

  lemma {:induction false} NoJobs(jobs: seq<Job>, i: nat)
    requires forall j | 0 <= j < |jobs| :: jobs[j].row != i
    ensures Unsent(jobs, i) == 0
  {
    if jobs != [] {
      NoJobs(jobs[..|jobs| - 1], i);
    }
  }

  lemma ClaimKeeps(c: Settings, s: Sys, limit: nat, busy: set<nat>)
    requires Inv(c, s)
    ensures Inv(c, Next(c, s, Claim(limit, busy)))
  {
    var t := Next(c, s, Claim(limit, busy));
    var ids := Selected(c, s.rows, s.now, busy, limit, 0);
    SelectsLowest(c, s.rows, s.now, busy, limit);
    forall i | 0 <= i < |t.rows|
      ensures RowOk(c, t, i)
    {
      assert RowOk(c, s, i);
      UnsentAppend(s.jobs, seq(|ids|, n requires 0 <= n < |ids| => Job(ids[n], ToSend)), i);
      UnsentOfClaim(ids, i);
    }
    forall j | 0 <= j < |t.jobs|
      ensures t.jobs[j].row < |t.rows| && (t.jobs[j].stage == ToMark(true) ==> t.delivered[t.jobs[j].row] >= 1)
    {
      if j >= |s.jobs| {
        assert t.jobs[j] == Job(ids[j - |s.jobs|], ToSend) && ids[j - |s.jobs|] in ids;
      }
    }
  }

  lemma {:induction false} InvHolds(c: Settings, s: Sys, actions: seq<Action>)
    requires Inv(c, s)
    ensures Inv(c, Run(c, s, actions))
    decreases actions
  {
    if actions != [] {
      InvStep(c, s, actions[0]);
      InvHolds(c, Next(c, s, actions[0]), actions[1..]);
    }
  }

  // ---------------------------------------------------------------- what it means

  /**
   A claim that has no other claim in its way and room enough takes the row at every instant after its
   availability and, when it is locked, after the lock has timed out.
   */
  ghost predicate ClaimableInTime(c: Settings, rows: seq<Row>, i: nat)
    requires i < |rows|
  {
    forall t: int | t >= rows[i].availableAt && (rows[i].status.Publishing? ==> t > rows[i].lockedAt + c.lockTimeout) ::
      i in Selected(c, rows, t, {}, |rows|, 0)
  }

  lemma EligibleInTime(c: Settings, rows: seq<Row>, i: nat)
    requires i < |rows| && rows[i].attempts < c.maxAttempts && !rows[i].status.Published? && !rows[i].status.Exhausted?
    ensures ClaimableInTime(c, rows, i)
  {
    forall t: int
      ensures i in Selected(c, rows, t, {}, |rows|, 0) <==> Eligible(c, rows[i], t)
    {
      UnlimitedTakesAll(c, rows, t, i);
    }
  }

  /**
   Nothing is lost: whatever crashes, each committed event has reached the broker, or is exhausted after all
   its attempts, or can be claimed now or once its lock times out, or is on its last allowed attempt.
   */
  lemma {:induction false} NothingIsLost(c: Settings, actions: seq<Action>, i: nat)
    requires c.maxAttempts > 0
    requires i < |Run(c, Initial(), actions).rows|
    ensures var s := Run(c, Initial(), actions);
      var r := s.rows[i];
      |s.delivered| == |s.rows| &&
      (s.delivered[i] >= 1 || (r.status.Exhausted? && r.attempts == c.maxAttempts) || ClaimableInTime(c, s.rows, i)
       || (r.status.Publishing? && r.attempts == c.maxAttempts))
  {
    InvHolds(c, Initial(), actions);
    var s := Run(c, Initial(), actions);
    assert RowOk(c, s, i);
    var r := s.rows[i];
    if r.attempts < c.maxAttempts && !r.status.Published? && !r.status.Exhausted? {
      EligibleInTime(c, s.rows, i);
    }
  }

  /** An event is given up only when it has been claimed as often as allowed. */
  lemma {:induction false} ExhaustedAfterAllClaims(c: Settings, actions: seq<Action>, i: nat)
    requires i < |Run(c, Initial(), actions).rows|
    ensures var s := Run(c, Initial(), actions);
      && |s.claims| == |s.rows|
      && (s.rows[i].status.Exhausted? ==> s.rows[i].attempts == s.claims[i] == c.maxAttempts)
      && (s.rows[i].lockOwner.Some? <==> s.rows[i].status.Publishing?)
  {
    InvHolds(c, Initial(), actions);
    assert RowOk(c, Run(c, Initial(), actions), i);
  }

  // ---------------------------------------------------------------- what a result leads to

  /** The result of a publish attempt that is about to be recorded for row `i`. */
  predicate ToBeMarked(s: Sys, job: nat, i: nat, accepted: bool) {
    job < |s.jobs| && s.jobs[job] == Job(i, ToMark(accepted))
  }

  /**
   In every run, recording a refusal below the limit leaves an event that is claimed again from its
   availability on; at the limit it leaves one that no claim ever takes; other rows are as they were.
   */
  lemma {:induction false} RefusalIsRetried(c: Settings, actions: seq<Action>, job: nat, i: nat)
    requires ToBeMarked(Run(c, Initial(), actions), job, i, false)
    ensures var s := Run(c, Initial(), actions);
      var t := Next(c, s, Mark(job));
      && i < |s.rows| == |t.rows| && t.rows[i].attempts == s.rows[i].attempts && t.rows[i].lockOwner == None
      && (s.rows[i].attempts < c.maxAttempts ==>
            && t.rows[i].status.Failed?
            && forall now | now >= t.rows[i].availableAt :: i in Selected(c, t.rows, now, {}, |t.rows|, 0))
      && (s.rows[i].attempts >= c.maxAttempts ==>
            t.rows[i].status.Exhausted? && forall now :: i !in Selected(c, t.rows, now, {}, |t.rows|, 0))
      && forall o | 0 <= o < |t.rows| && o != i :: t.rows[o] == s.rows[o]
  {
    var s := Run(c, Initial(), actions);
    InvHolds(c, Initial(), actions);
    assert RowOk(c, s, i);
    var t := Next(c, s, Mark(job));
    forall now: int
      ensures i in Selected(c, t.rows, now, {}, |t.rows|, 0) <==> Eligible(c, t.rows[i], now)
    {
      UnlimitedTakesAll(c, t.rows, now, i);
    }
  }

  /** No refusal is recorded for the row. */
  predicate NoRefusals(c: Settings, s: Sys, actions: seq<Action>, i: nat)
    decreases actions
  {
    actions == [] ||
    (!(actions[0].Mark? && ToBeMarked(s, actions[0].job, i, false))
     && NoRefusals(c, Next(c, s, actions[0]), actions[1..], i))
  }

  /**
   An accepted result publishes the event, and it stays published, so that no later claim takes it, until a
   slower publisher records a refusal.
   */
  lemma AcceptedStaysPublished(
    c: Settings, s: Sys, job: nat, i: nat, later: seq<Action>, now: int, busy: set<nat>, limit: nat)
    requires i < |s.rows| && ToBeMarked(s, job, i, true)
    requires NoRefusals(c, Next(c, s, Mark(job)), later, i)
    ensures var t := Run(c, Next(c, s, Mark(job)), later);
      i < |t.rows| && t.rows[i].status.Published? && i !in Selected(c, t.rows, now, busy, limit, 0)
  {
    StaysPublished(c, Next(c, s, Mark(job)), later, i);
    var t := Run(c, Next(c, s, Mark(job)), later);
    SelectsLowest(c, t.rows, now, busy, limit);
  }

  lemma {:induction false} StaysPublished(c: Settings, s: Sys, actions: seq<Action>, i: nat)
    requires i < |s.rows| && s.rows[i].status.Published? && NoRefusals(c, s, actions, i)
    ensures var t := Run(c, s, actions); i < |t.rows| && t.rows[i].status.Published?
    decreases actions
  {
    if actions != [] {
      var a := actions[0];
      if a.Claim? {
        SelectsLowest(c, s.rows, s.now, a.busy, a.limit);
      }
      StaysPublished(c, Next(c, s, a), actions[1..], i);
    }
  }

  /**
   Bounded duplication: `attempts` counts the claims; at most one broker call more than claims, never more
   claims than allowed.
   */
  lemma {:induction false} DuplicationIsBounded(c: Settings, actions: seq<Action>, i: nat)
    requires i < |Run(c, Initial(), actions).rows|
    ensures var s := Run(c, Initial(), actions);
      var r := s.rows[i];
      && |s.claims| == |s.calls| == |s.delivered| == |s.rows|
      && r.attempts == s.claims[i] <= c.maxAttempts
      && s.delivered[i] <= s.calls[i] <= 1 + s.claims[i]
      && (r.status.Published? ==> s.delivered[i] >= 1)
      && (r.status.Failed? ==> r.attempts < c.maxAttempts)
  {
    InvHolds(c, Initial(), actions);
    assert RowOk(c, Run(c, Initial(), actions), i);
  }

  // ---------------------------------------------------------------- a running claim is not taken over

  predicate MarksRow(s: Sys, a: Action, i: nat) {
    a.Mark? && a.job < |s.jobs| && s.jobs[a.job].row == i
  }

  predicate NoMarks(c: Settings, s: Sys, actions: seq<Action>, i: nat)
    decreases actions
  {
    actions == [] || (!MarksRow(s, actions[0], i) && NoMarks(c, Next(c, s, actions[0]), actions[1..], i))
  }

  /** As long as no result is marked the row stays locked, by this claim or a later one. */
  lemma {:induction false} LockHolds(c: Settings, s: Sys, actions: seq<Action>, i: nat)
    requires i < |s.rows| && s.rows[i].status.Publishing? && s.rows[i].lockedAt <= s.now
    requires NoMarks(c, s, actions, i)
    ensures var t := Run(c, s, actions);
      i < |t.rows| && t.rows[i].status.Publishing? && s.rows[i].lockedAt <= t.rows[i].lockedAt <= t.now
    decreases actions
  {
    if actions != [] {
      LockHolds(c, Next(c, s, actions[0]), actions[1..], i);
    }
  }

  /** Two claims of one row with no result marked in between are more than the lock timeout apart. */
  lemma {:induction false} ClaimsAreFarApart(
    c: Settings, s: Sys, first: Action, between: seq<Action>, second: Action, i: nat)
    requires first.Claim? && second.Claim?
    requires i in Selected(c, s.rows, s.now, first.busy, first.limit, 0)
    requires NoMarks(c, Next(c, s, first), between, i)
    requires var t := Run(c, Next(c, s, first), between);
      i in Selected(c, t.rows, t.now, second.busy, second.limit, 0)
    ensures Run(c, Next(c, s, first), between).now > s.now + c.lockTimeout
  {
    SelectsLowest(c, s.rows, s.now, first.busy, first.limit);
    LockHolds(c, Next(c, s, first), between, i);
    var t := Run(c, Next(c, s, first), between);
    SelectsLowest(c, t.rows, t.now, second.busy, second.limit);
  }
}

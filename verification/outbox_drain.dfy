/**
 Draining the outbox: one worker and no new events, within a window of time in which no row becomes
 eligible by waiting alone. The table may hold anything else besides the rows that are eligible: settled
 rows, rows stranded on their last attempt, rows locked or delayed beyond the window.
 */
module OutboxDrain {
  import opened Options
  import opened Outbox

  /** One call of publish_pending_events; `accepts[n]` is the broker's reaction to the n-th claimed event. */
  datatype Round = Round(now: int, owner: nat, accepts: seq<bool>)

  predicate Settled(r: Row) {
    r.status.Published? || r.status.Exhausted?
  }

  datatype Window = Window(now: int, until: int)

  /** No row becomes eligible within the window by the passing of time alone. */
  ghost predicate Ready(c: Settings, rows: seq<Row>, w: Window) {
    forall i | 0 <= i < |rows| :: Eligible(c, rows[i], w.now) || !Eligible(c, rows[i], w.until)
  }

  ghost predicate Scheduled(rounds: seq<Round>, w: Window, limit: nat) {
    forall k | 0 <= k < |rounds| :: w.now <= rounds[k].now <= w.until && |rounds[k].accepts| >= limit
  }

  predicate AllAre(accepts: seq<bool>, answer: bool) {
    forall n | 0 <= n < |accepts| :: accepts[n] == answer
  }

  function Drained(c: Settings, rows: seq<Row>, limit: nat, rounds: seq<Round>): (r: seq<Row>)
    requires forall k | 0 <= k < |rounds| :: |rounds[k].accepts| >= limit
    ensures |r| == |rows|
    decreases rounds
  {
    if rounds == [] then rows
    else Drained(c, Pass(c, rows, rounds[0].now, {}, limit, rounds[0].owner, rounds[0].accepts), limit, rounds[1..])
  }

  /** Claims made by all the passes. */
  function Claims(c: Settings, rows: seq<Row>, limit: nat, rounds: seq<Round>): nat
    requires forall k | 0 <= k < |rounds| :: |rounds[k].accepts| >= limit
    decreases rounds
  {
    if rounds == [] then 0
    else
      |Selected(c, rows, rounds[0].now, {}, limit, 0)| +
      Claims(c, Pass(c, rows, rounds[0].now, {}, limit, rounds[0].owner, rounds[0].accepts), limit, rounds[1..])
  }

  // ---------------------------------------------------------------- measures

  function Left(c: Settings, r: Row, until: int): nat {
    if Eligible(c, r, until) then c.maxAttempts - r.attempts else 0
  }

  /** The attempts the eligible events may still use. */
  function Budget(c: Settings, rows: seq<Row>, until: int): nat {
    if rows == [] then 0 else Budget(c, rows[..|rows| - 1], until) + Left(c, rows[|rows| - 1], until)
  }

  function Open(c: Settings, rows: seq<Row>, until: int): nat {
    if rows == [] then 0
    else Open(c, rows[..|rows| - 1], until) + (if Eligible(c, rows[|rows| - 1], until) then 1 else 0)
  }

  /** How many of the rows below `n` are among `ids`. */
  function Taken(ids: seq<nat>, n: nat): nat {
    if n == 0 then 0 else Taken(ids, n - 1) + (if n - 1 in ids then 1 else 0)
  }

  lemma {:induction false} TakenPrefix(ids: seq<nat>, last: nat, n: nat)
    requires n <= last
    ensures Taken(ids + [last], n) == Taken(ids, n)
  {
    if n > 0 {
      TakenPrefix(ids, last, n - 1);
    }
  }

  lemma {:induction false} TakenIsLength(ids: seq<nat>, n: nat)
    requires Increasing(ids) && forall m | 0 <= m < |ids| :: ids[m] < n
    ensures Taken(ids, n) == |ids|
    decreases n
  {
    if n > 0 {
      if n - 1 in ids {
        var front, last := ids[..|ids| - 1], ids[|ids| - 1];
        assert ids == front + [last];
        assert last == n - 1;
        TakenIsLength(front, n - 1);
        TakenPrefix(front, last, n - 1);
      } else {
        TakenIsLength(ids, n - 1);
      }
    }
  }

  // ---------------------------------------------------------------- what one pass does to a row

  /** What a pass makes of a row it claimed. */
  predicate Handled(c: Settings, before: Row, after: Row, accepted: bool) {
    && after.attempts == before.attempts + 1
    && after.availableAt == before.availableAt && after.lockOwner == None
    && after.status ==
         if accepted then Published else if after.attempts >= c.maxAttempts then Exhausted else Failed
  }

  lemma {:induction false} PublishedAt(c: Settings, rows: seq<Row>, ids: seq<nat>, accepts: seq<bool>, n: nat, i: nat)
    requires n <= |ids| && n <= |accepts| && i < |rows| && Increasing(ids)
    ensures var r := PublishedUpTo(c, rows, ids, accepts, n)[i];
      && (i !in ids[..n] ==> r == rows[i])
      && (forall m | 0 <= m < n && ids[m] == i :: r == Marked(c, rows[i], accepts[m]))
  {
    if n > 0 {
      PublishedAt(c, rows, ids, accepts, n - 1, i);
      assert ids[..n] == ids[..n - 1] + [ids[n - 1]];
    }
  }

  /** A pass handles the rows it claims by the broker's answer and leaves every other row as it is. */
  lemma PassAt(c: Settings, rows: seq<Row>, now: int, limit: nat, owner: nat, accepts: seq<bool>, i: nat)
    requires |accepts| >= limit && i < |rows|
    ensures var ids := Selected(c, rows, now, {}, limit, 0);
      var after := Pass(c, rows, now, {}, limit, owner, accepts)[i];
      && (i !in ids ==> after == rows[i])
      && (forall m | 0 <= m < |ids| && ids[m] == i :: Handled(c, rows[i], after, accepts[m]))
  {
    var ids := Selected(c, rows, now, {}, limit, 0);
    SelectedSound(c, rows, now, {}, limit, 0);
    PublishedAt(c, Claimed(rows, ids, owner, now), ids, accepts, |ids|, i);
    assert ids[..|ids|] == ids;
  }

  lemma PassKeepsReady(c: Settings, rows: seq<Row>, w: Window, round: Round, limit: nat)
    requires Ready(c, rows, w) && w.now <= round.now <= w.until && |round.accepts| >= limit
    ensures Ready(c, Pass(c, rows, round.now, {}, limit, round.owner, round.accepts), w)
  {
    var after := Pass(c, rows, round.now, {}, limit, round.owner, round.accepts);
    forall i | 0 <= i < |after|
      ensures Eligible(c, after[i], w.now) || !Eligible(c, after[i], w.until)
    {
      PassAt(c, rows, round.now, limit, round.owner, round.accepts, i);
      assert Eligible(c, rows[i], w.now) || !Eligible(c, rows[i], w.until);
      SelectsLowest(c, rows, round.now, {}, limit);
    }
  }

  /** The events the claim query finds at any moment of the window are the eligible ones. */
  lemma {:induction false} OpenAreFree(c: Settings, rows: seq<Row>, w: Window, at: int, from: nat)
    requires Ready(c, rows, w) && w.now <= at <= w.until && from <= |rows|
    ensures Open(c, rows[..from], w.until) + FreeCount(c, rows, at, {}, from) == Open(c, rows, w.until)
    decreases |rows| - from
  {
    if from < |rows| {
      assert rows[..from + 1][..from] == rows[..from];
      OpenAreFree(c, rows, w, at, from + 1);
    } else {
      assert rows[..from] == rows;
    }
  }

  /** Every claim of a pass uses up at least one attempt, and exactly one when the broker refuses everything. */
  lemma {:induction false} PassSpends(
    c: Settings, rows: seq<Row>, until: int, after: seq<Row>, ids: seq<nat>, accepts: seq<bool>)
    requires |after| == |rows| && Increasing(ids) && |ids| <= |accepts|
    requires forall i | 0 <= i < |rows| && i !in ids :: after[i] == rows[i]
    requires forall m | 0 <= m < |ids| && ids[m] < |rows| ::
      Eligible(c, rows[ids[m]], until) && Handled(c, rows[ids[m]], after[ids[m]], accepts[m])
    ensures Budget(c, after, until) + Taken(ids, |rows|) <= Budget(c, rows, until)
    ensures AllAre(accepts, false) ==> Budget(c, after, until) + Taken(ids, |rows|) == Budget(c, rows, until)
    ensures AllAre(accepts, true) ==> Open(c, after, until) + Taken(ids, |rows|) == Open(c, rows, until)
    decreases |rows|
  {
    if rows != [] {
      var last := |rows| - 1;
      PassSpends(c, rows[..last], until, after[..last], ids, accepts);
      assert |rows[..last]| == last;
      if last in ids {
        var m :| 0 <= m < |ids| && ids[m] == last;
        assert Handled(c, rows[last], after[last], accepts[m]);
      }
    }
  }

  lemma PassEffect(c: Settings, rows: seq<Row>, w: Window, round: Round, limit: nat)
    requires Ready(c, rows, w) && w.now <= round.now <= w.until && |round.accepts| >= limit
    ensures var after := Pass(c, rows, round.now, {}, limit, round.owner, round.accepts);
      var claims := |Selected(c, rows, round.now, {}, limit, 0)|;
      var open := Open(c, rows, w.until);
      && claims == (if open < limit then open else limit)
      && Budget(c, after, w.until) + claims <= Budget(c, rows, w.until)
      && (AllAre(round.accepts, false) ==> Budget(c, after, w.until) + claims == Budget(c, rows, w.until))
      && (AllAre(round.accepts, true) ==> Open(c, after, w.until) + claims == open)
  {
    var after := Pass(c, rows, round.now, {}, limit, round.owner, round.accepts);
    var ids := Selected(c, rows, round.now, {}, limit, 0);
    SelectsLowest(c, rows, round.now, {}, limit);
    OpenAreFree(c, rows, w, round.now, 0);
    forall i | 0 <= i < |rows| && i !in ids ensures after[i] == rows[i] {
      PassAt(c, rows, round.now, limit, round.owner, round.accepts, i);
    }
    forall m | 0 <= m < |ids|
      ensures ids[m] < |rows| && Eligible(c, rows[ids[m]], w.until)
      ensures Handled(c, rows[ids[m]], after[ids[m]], round.accepts[m])
    {
      assert ids[m] in ids;
      PassAt(c, rows, round.now, limit, round.owner, round.accepts, ids[m]);
    }
    PassSpends(c, rows, w.until, after, ids, round.accepts);
    TakenIsLength(ids, |rows|);
  }

  /** What a pass may make of a row: an eligible one is handled or left alone, any other is left alone. */
  predicate Progressed(c: Settings, before: Row, after: Row, until: int) {
    after == before || (Eligible(c, before, until) && (Settled(after) || Eligible(c, after, until)))
  }

  lemma PassProgresses(c: Settings, rows: seq<Row>, w: Window, round: Round, limit: nat, i: nat)
    requires w.now <= round.now <= w.until && |round.accepts| >= limit && i < |rows|
    ensures Progressed(c, rows[i], Pass(c, rows, round.now, {}, limit, round.owner, round.accepts)[i], w.until)
  {
    PassAt(c, rows, round.now, limit, round.owner, round.accepts, i);
    SelectedSound(c, rows, round.now, {}, limit, 0);
  }

  /** Rows that are not eligible are as before after any number of passes. */
  lemma {:induction false} AllProgress(c: Settings, rows: seq<Row>, w: Window, limit: nat, rounds: seq<Round>, i: nat)
    requires Scheduled(rounds, w, limit) && i < |rows|
    ensures Progressed(c, rows[i], Drained(c, rows, limit, rounds)[i], w.until)
    decreases rounds
  {
    if rounds != [] {
      PassProgresses(c, rows, w, rounds[0], limit, i);
      var after := Pass(c, rows, rounds[0].now, {}, limit, rounds[0].owner, rounds[0].accepts);
      AllProgress(c, after, w, limit, rounds[1..], i);
    }
  }

  // ---------------------------------------------------------------- the theorems

  /**
   Whatever the broker does, all passes together claim at most the attempts that were left, and exactly
   as many as were used up when it refuses everything.
   */
  lemma {:induction false} ClaimsAreBounded(c: Settings, rows: seq<Row>, w: Window, limit: nat, rounds: seq<Round>)
    requires Ready(c, rows, w) && Scheduled(rounds, w, limit)
    ensures Claims(c, rows, limit, rounds) + Budget(c, Drained(c, rows, limit, rounds), w.until) <=
      Budget(c, rows, w.until)
    ensures (forall k | 0 <= k < |rounds| :: AllAre(rounds[k].accepts, false)) ==>
      Claims(c, rows, limit, rounds) + Budget(c, Drained(c, rows, limit, rounds), w.until) == Budget(c, rows, w.until)
    decreases rounds
  {
    if rounds != [] {
      var after := Pass(c, rows, rounds[0].now, {}, limit, rounds[0].owner, rounds[0].accepts);
      PassKeepsReady(c, rows, w, rounds[0], limit);
      PassEffect(c, rows, w, rounds[0], limit);
      ClaimsAreBounded(c, after, w, limit, rounds[1..]);
    }
  }

  lemma {:induction false} NothingOpen(c: Settings, rows: seq<Row>, until: int)
    ensures Open(c, rows, until) <= Budget(c, rows, until)
    ensures Open(c, rows, until) == 0 <==> forall i | 0 <= i < |rows| :: !Eligible(c, rows[i], until)
    decreases |rows|
  {
    if rows != [] {
      var last := |rows| - 1;
      NothingOpen(c, rows[..last], until);
      assert forall i | 0 <= i < last :: rows[..last][i] == rows[i];
      forall i | Open(c, rows, until) == 0 && 0 <= i < |rows|
        ensures !Eligible(c, rows[i], until)
      {
        assert i < last ==> !Eligible(c, rows[..last][i], until);
      }
    }
  }

  lemma {:induction false} BudgetRunsDown(c: Settings, rows: seq<Row>, w: Window, limit: nat, rounds: seq<Round>)
    requires Ready(c, rows, w) && Scheduled(rounds, w, limit) && limit > 0
    ensures var t := Drained(c, rows, limit, rounds);
      Ready(c, t, w) && (Open(c, t, w.until) == 0 || Budget(c, t, w.until) + |rounds| <= Budget(c, rows, w.until))
    decreases rounds
  {
    if rounds != [] {
      var after := Pass(c, rows, rounds[0].now, {}, limit, rounds[0].owner, rounds[0].accepts);
      PassKeepsReady(c, rows, w, rounds[0], limit);
      PassEffect(c, rows, w, rounds[0], limit);
      BudgetRunsDown(c, after, w, limit, rounds[1..]);
      if Open(c, rows, w.until) == 0 {
        StaysDrained(c, rows, w, limit, rounds);
      }
    }
  }

  lemma {:induction false} StaysDrained(c: Settings, rows: seq<Row>, w: Window, limit: nat, rounds: seq<Round>)
    requires Ready(c, rows, w) && Scheduled(rounds, w, limit) && Open(c, rows, w.until) == 0
    ensures Drained(c, rows, limit, rounds) == rows && Claims(c, rows, limit, rounds) == 0
    decreases rounds
  {
    if rounds != [] {
      var after := Pass(c, rows, rounds[0].now, {}, limit, rounds[0].owner, rounds[0].accepts);
      PassEffect(c, rows, w, rounds[0], limit);
      forall i | 0 <= i < |rows| ensures after[i] == rows[i] {
        PassAt(c, rows, rounds[0].now, limit, rounds[0].owner, rounds[0].accepts, i);
      }
      assert after == rows;
      StaysDrained(c, rows, w, limit, rounds[1..]);
    }
  }

  /**
   Whatever the broker does, after as many passes as the eligible events had attempts left each of them is
   published or exhausted, every other row is as it was, and no later pass claims anything.
   */
  lemma DrainsWhateverTheBrokerDoes(
    c: Settings, rows: seq<Row>, w: Window, limit: nat, rounds: seq<Round>, later: seq<Round>)
    requires Ready(c, rows, w) && Scheduled(rounds, w, limit) && Scheduled(later, w, limit) && limit > 0
    requires |rounds| >= Budget(c, rows, w.until)
    ensures var t := Drained(c, rows, limit, rounds);
      && (forall i | 0 <= i < |rows| :: if Eligible(c, rows[i], w.until) then Settled(t[i]) else t[i] == rows[i])
      && Claims(c, t, limit, later) == 0
      && Drained(c, t, limit, later) == t
  {
    BudgetRunsDown(c, rows, w, limit, rounds);
    var t := Drained(c, rows, limit, rounds);
    NothingOpen(c, t, w.until);
    forall i | 0 <= i < |rows|
      ensures if Eligible(c, rows[i], w.until) then Settled(t[i]) else t[i] == rows[i]
    {
      AllProgress(c, rows, w, limit, rounds, i);
    }
    StaysDrained(c, t, w, limit, later);
  }

  /** How many of `n` events are left after `passes` passes of at most `limit` each. */
  function Rest(n: nat, passes: nat, limit: nat): nat
    decreases passes
  {
    if passes == 0 then n else Rest(if n < limit then 0 else n - limit, passes - 1, limit)
  }

  /** ceil(n / limit) */
  function PassesFor(n: nat, limit: nat): int
    requires limit > 0
  {
    (n + limit - 1) / limit
  }

  lemma PassesForMore(n: nat, limit: nat)
    requires limit > 0
    ensures n == 0 ==> PassesFor(n, limit) == 0
    ensures 0 < n <= limit ==> PassesFor(n, limit) == 1
    ensures n > limit ==> PassesFor(n, limit) == PassesFor(n - limit, limit) + 1
  {
    Quotient(limit - 1, limit, 0);
    if 0 < n <= limit {
      Quotient(n + limit - 1, limit, 1);
    } else if n > limit {
      Quotient(n + limit - 1, limit, PassesFor(n - limit, limit) + 1);
    }
  }

  lemma Quotient(a: nat, b: nat, q: nat)
    requires b > 0 && q * b <= a < q * b + b
    ensures a / b == q
  {
    var d := a / b;
    assert d * b <= a < d * b + b;
    ProductsKeepOrder(d + 1, q, b);
    ProductsKeepOrder(q + 1, d, b);
  }

  lemma ProductsKeepOrder(x: int, y: int, b: nat)
    ensures x <= y ==> x * b <= y * b
  {
  }

  lemma {:induction false} NoneLeft(n: nat, passes: nat, limit: nat)
    requires limit > 0
    ensures Rest(n, passes, limit) == 0 <==> passes >= PassesFor(n, limit)
    decreases passes
  {
    PassesForMore(n, limit);
    if passes > 0 {
      PassesForMore(0, limit);
      NoneLeft(if n < limit then 0 else n - limit, passes - 1, limit);
    }
  }

  lemma HealthyPass(c: Settings, rows: seq<Row>, w: Window, limit: nat, round: Round)
    requires Ready(c, rows, w) && w.now <= round.now <= w.until && |round.accepts| >= limit
    requires AllAre(round.accepts, true)
    ensures var after := Pass(c, rows, round.now, {}, limit, round.owner, round.accepts);
      var open := Open(c, rows, w.until);
      Ready(c, after, w) && Open(c, after, w.until) == if open < limit then 0 else open - limit
  {
    PassKeepsReady(c, rows, w, round, limit);
    PassEffect(c, rows, w, round, limit);
  }

  /** With a healthy broker every pass publishes `limit` events until none is left. */
  lemma {:induction false} HealthyPasses(c: Settings, rows: seq<Row>, w: Window, limit: nat, rounds: seq<Round>)
    requires Ready(c, rows, w) && Scheduled(rounds, w, limit)
    requires forall k | 0 <= k < |rounds| :: AllAre(rounds[k].accepts, true)
    ensures var t := Drained(c, rows, limit, rounds);
      Ready(c, t, w) && Open(c, t, w.until) == Rest(Open(c, rows, w.until), |rounds|, limit)
    decreases rounds
  {
    if rounds != [] {
      var round := rounds[0];
      HealthyPass(c, rows, w, limit, round);
      HealthyPasses(c, Pass(c, rows, round.now, {}, limit, round.owner, round.accepts), w, limit, rounds[1..]);
    }
  }

  lemma {:induction false} HealthyRows(c: Settings, rows: seq<Row>, w: Window, limit: nat, rounds: seq<Round>, i: nat)
    requires Scheduled(rounds, w, limit) && i < |rows|
    requires forall k | 0 <= k < |rounds| :: AllAre(rounds[k].accepts, true)
    ensures var t := Drained(c, rows, limit, rounds);
      |t| == |rows| && PublishedOrSame(c, rows[i], t[i], w.until)
    decreases rounds
  {
    if rounds != [] {
      HealthyRow(c, rows, w, rounds[0], limit, i);
      var after := Pass(c, rows, rounds[0].now, {}, limit, rounds[0].owner, rounds[0].accepts);
      HealthyRows(c, after, w, limit, rounds[1..], i);
    }
  }

  predicate PublishedOrSame(c: Settings, before: Row, after: Row, until: int) {
    after == before || (Eligible(c, before, until) && after.status.Published?)
  }

  lemma HealthyRow(c: Settings, rows: seq<Row>, w: Window, round: Round, limit: nat, i: nat)
    requires i < |rows| && w.now <= round.now <= w.until && |round.accepts| >= limit && AllAre(round.accepts, true)
    ensures PublishedOrSame(c, rows[i], Pass(c, rows, round.now, {}, limit, round.owner, round.accepts)[i], w.until)
  {
    PassAt(c, rows, round.now, limit, round.owner, round.accepts, i);
    SelectedSound(c, rows, round.now, {}, limit, 0);
  }

  /**
   With a healthy broker n eligible events are all published in ceil(n / limit) passes and not one earlier;
   every other row stays as it is.
   */
  lemma HealthyDrain(c: Settings, rows: seq<Row>, w: Window, limit: nat, rounds: seq<Round>)
    requires Ready(c, rows, w) && Scheduled(rounds, w, limit) && limit > 0
    requires forall k | 0 <= k < |rounds| :: AllAre(rounds[k].accepts, true)
    ensures var t := Drained(c, rows, limit, rounds);
      && |t| == |rows|
      && (forall i | 0 <= i < |rows| :: PublishedOrSame(c, rows[i], t[i], w.until))
      && (|rounds| >= PassesFor(Open(c, rows, w.until), limit) <==>
            forall i | 0 <= i < |rows| && Eligible(c, rows[i], w.until) :: t[i].status.Published?)
  {
    HealthyPasses(c, rows, w, limit, rounds);
    var t := Drained(c, rows, limit, rounds);
    forall i | 0 <= i < |rows| ensures PublishedOrSame(c, rows[i], t[i], w.until) {
      HealthyRows(c, rows, w, limit, rounds, i);
    }
    NothingOpen(c, t, w.until);
    NoneLeft(Open(c, rows, w.until), |rounds|, limit);
    if Open(c, t, w.until) > 0 {
      var i :| 0 <= i < |t| && Eligible(c, t[i], w.until);
      assert PublishedOrSame(c, rows[i], t[i], w.until);
    }
  }
}

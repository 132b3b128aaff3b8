/**
 The transactional outbox (app/services/outbox.py): rows in id order, a claim that takes over rows
 whose lock has timed out, and the recording of publish results. The class is the source's shape;
 its methods are proved against the functions the run-level theorems use.
 */
module Outbox {
  import opened Options

  datatype Status = Pending | Publishing | Failed | Published | Exhausted

  datatype Row = Row(status: Status, attempts: nat, lockOwner: Option<nat>, lockedAt: int, availableAt: int)

  datatype Settings = Settings(maxAttempts: nat, lockTimeout: nat)

  /** The row written inside the business transaction. */
  function Enqueued(now: int): Row {
    Row(Pending, 0, None, 0, now)
  }

  predicate Eligible(c: Settings, r: Row, now: int) {
    && r.attempts < c.maxAttempts
    && r.availableAt <= now
    && (r.status.Pending? || r.status.Failed? || (r.status.Publishing? && r.lockedAt < now - c.lockTimeout))
  }

  /** Ids of the rows the claim query returns from `from` on: eligible, not locked by another claim, at most `limit`. */
  function Selected(c: Settings, rows: seq<Row>, now: int, busy: set<nat>, limit: nat, from: nat): (ids: seq<nat>)
    requires from <= |rows|
    ensures |ids| <= limit
    decreases |rows| - from
  {
    if from == |rows| || limit == 0 then []
    else if Eligible(c, rows[from], now) && from !in busy then
      [from] + Selected(c, rows, now, busy, limit - 1, from + 1)
    else Selected(c, rows, now, busy, limit, from + 1)
  }

  function ClaimedRow(r: Row, owner: nat, now: int): Row {
    r.(status := Publishing, lockOwner := Some(owner), lockedAt := now, attempts := r.attempts + 1)
  }

  function Claimed(rows: seq<Row>, ids: seq<nat>, owner: nat, now: int): (r: seq<Row>)
    ensures |r| == |rows|
  {
    seq(|rows|, i requires 0 <= i < |rows| => if i in ids then ClaimedRow(rows[i], owner, now) else rows[i])
  }

  function Marked(c: Settings, r: Row, success: bool): Row {
    r.(lockOwner := None, lockedAt := 0,
       status := if success then Published else if r.attempts >= c.maxAttempts then Exhausted else Failed)
  }

  // ---------------------------------------------------------------- what the claim query returns

  predicate Increasing(ids: seq<nat>) {
    forall i, j | 0 <= i < j < |ids| :: ids[i] < ids[j]
  }

  predicate Free(c: Settings, rows: seq<Row>, now: int, busy: set<nat>, id: nat) {
    id < |rows| && Eligible(c, rows[id], now) && id !in busy
  }

  function FreeCount(c: Settings, rows: seq<Row>, now: int, busy: set<nat>, from: nat): nat
    requires from <= |rows|
    decreases |rows| - from
  {
    if from == |rows| then 0
    else (if Free(c, rows, now, busy, from) then 1 else 0) + FreeCount(c, rows, now, busy, from + 1)
  }

  lemma {:induction false} SelectedSound(c: Settings, rows: seq<Row>, now: int, busy: set<nat>, limit: nat, from: nat)
    requires from <= |rows|
    ensures var ids := Selected(c, rows, now, busy, limit, from);
      Increasing(ids) && forall n | 0 <= n < |ids| :: from <= ids[n] && Free(c, rows, now, busy, ids[n])
    decreases |rows| - from
  {
    if from < |rows| && limit > 0 {
      SelectedSound(c, rows, now, busy, if Free(c, rows, now, busy, from) then limit - 1 else limit, from + 1);
    }
  }

  lemma {:induction false} SelectedCount(c: Settings, rows: seq<Row>, now: int, busy: set<nat>, limit: nat, from: nat)
    requires from <= |rows|
    ensures var n := FreeCount(c, rows, now, busy, from);
      |Selected(c, rows, now, busy, limit, from)| == if n < limit then n else limit
    decreases |rows| - from
  {
    if from < |rows| && limit > 0 {
      SelectedCount(c, rows, now, busy, if Free(c, rows, now, busy, from) then limit - 1 else limit, from + 1);
    }
  }

  /** A free row is left out only when the limit is reached, and its id is higher than those of all rows taken. */
  lemma {:induction false} SelectedLowest(
    c: Settings, rows: seq<Row>, now: int, busy: set<nat>, limit: nat, from: nat, i: nat)
    requires from <= i && Free(c, rows, now, busy, i)
    ensures var ids := Selected(c, rows, now, busy, limit, from);
      i in ids || (|ids| == limit && forall n | 0 <= n < |ids| :: ids[n] < i)
    decreases |rows| - from
  {
    if limit > 0 {
      var free := Free(c, rows, now, busy, from);
      var ids := Selected(c, rows, now, busy, limit, from);
      if from < i {
        var rest := Selected(c, rows, now, busy, if free then limit - 1 else limit, from + 1);
        SelectedLowest(c, rows, now, busy, if free then limit - 1 else limit, from + 1, i);
        assert ids == if free then [from] + rest else rest;
      } else {
        assert ids[0] == i;
      }
    }
  }

  /**
   The claim takes exactly the min(limit, eligible) rows of lowest id: strictly increasing ids of free
   rows, that many of them, and every free row it leaves out lies above all it took.
   */
  lemma SelectsLowest(c: Settings, rows: seq<Row>, now: int, busy: set<nat>, limit: nat)
    ensures var ids := Selected(c, rows, now, busy, limit, 0);
      && Increasing(ids)
      && (forall i | i in ids :: Free(c, rows, now, busy, i))
      && |ids| == (var n := FreeCount(c, rows, now, busy, 0); if n < limit then n else limit)
      && (forall i | Free(c, rows, now, busy, i) && i !in ids :: |ids| == limit && forall j | j in ids :: j < i)
  {
    SelectedSound(c, rows, now, busy, limit, 0);
    SelectedCount(c, rows, now, busy, limit, 0);
    forall i | Free(c, rows, now, busy, i) && i !in Selected(c, rows, now, busy, limit, 0)
      ensures var ids := Selected(c, rows, now, busy, limit, 0); |ids| == limit && forall j | j in ids :: j < i
    {
      SelectedLowest(c, rows, now, busy, limit, 0, i);
    }
  }

  /** Without a limit and without other claims under way every eligible row is taken. */
  lemma UnlimitedTakesAll(c: Settings, rows: seq<Row>, now: int, i: nat)
    requires i < |rows|
    ensures i in Selected(c, rows, now, {}, |rows|, 0) <==> Eligible(c, rows[i], now)
  {
    var ids := Selected(c, rows, now, {}, |rows|, 0);
    SelectsLowest(c, rows, now, {}, |rows|);
    if Eligible(c, rows[i], now) && i !in ids {
      FewerThan(ids, i);
    }
  }

  /** Increasing numbers below `n` are at most `n`. */
  lemma {:induction false} FewerThan(ids: seq<nat>, n: nat)
    requires Increasing(ids) && forall j | j in ids :: j < n
    ensures |ids| <= n
    decreases |ids|
  {
    if ids != [] {
      var last := ids[|ids| - 1];
      assert last in ids;
      FewerThan(ids[..|ids| - 1], last);
    }
  }

  // ---------------------------------------------------------------- the imperative service

  /** `B`: what the business transactions that enqueue events change besides. */
  class OutboxService<B> {
    const settings: Settings
    var business: B
    var rows: seq<Row>
    var now: int
    var nextOwner: nat

    /** Every lock in the rows was taken by an owner drawn before. */
    ghost predicate OwnersKnown()
      reads this
    {
      forall i | 0 <= i < |rows| :: rows[i].lockOwner.Some? ==> rows[i].lockOwner.value < nextOwner
    }

    constructor (settings: Settings, business: B)
      ensures this.settings == settings && this.business == business && rows == [] && now == 0 && nextOwner == 0
      ensures OwnersKnown()
    {
      this.settings, this.business := settings, business;
      rows, now, nextOwner := [], 0, 0;
    }

    /** Inside the caller's transaction. */
    method EnqueueStepEvent() returns (id: nat)
      requires OwnersKnown()
      modifies `rows
      ensures OwnersKnown() && id == |old(rows)| && rows == old(rows) + [Enqueued(now)]
      ensures rows[id] == Row(Pending, 0, None, 0, now)
    {
      id := |rows|;
      rows := rows + [Enqueued(now)];
    }

    /**
     A business transaction: the rows of the task are brought to `update` and `events` events are enqueued;
     `raises`: an exception is raised after that many of them. Both or nothing: what is not committed leaves no event,
     and no committed change misses its events.
     */
    method BusinessTransaction(update: B, events: nat, raises: Option<nat>) returns (committed: bool)
      requires OwnersKnown()
      modifies `rows, `business
      ensures OwnersKnown()
      ensures committed <==> raises == None || raises.value > events
      ensures committed ==> business == update && |rows| == |old(rows)| + events && old(rows) <= rows
      ensures committed ==> forall i | |old(rows)| <= i < |rows| :: rows[i] == Enqueued(now)
      ensures !committed ==> business == old(business) && rows == old(rows)
    {
      var savedBusiness, savedRows := business, rows;
      business := update;
      for n := 0 to events
        modifies `rows, `business
        invariant OwnersKnown() && business == update
        invariant raises.Some? ==> raises.value >= n
        invariant |rows| == |old(rows)| + n && old(rows) <= rows
        invariant forall i | |old(rows)| <= i < |rows| :: rows[i] == Enqueued(now)
      {
        if raises == Some(n) {
          business, rows := savedBusiness, savedRows;
          return false;
        }
        var _ := EnqueueStepEvent();
      }
      committed := raises != Some(events);
      if !committed {
        business, rows := savedBusiness, savedRows;
      }
    }

    method MarkResult(id: nat, success: bool)
      requires OwnersKnown()
      modifies `rows
      ensures OwnersKnown()
      ensures rows == if id < |old(rows)| then old(rows)[id := Marked(settings, old(rows)[id], success)] else old(rows)
      ensures forall i | 0 <= i < |old(rows)| && i != id :: rows[i] == old(rows)[i]
      ensures id < |old(rows)| ==>
        var before, after := old(rows)[id], rows[id];
        && after.attempts == before.attempts && after.availableAt == before.availableAt
        && after.lockOwner == None && after.lockedAt == 0
        && (after.status.Published? <==> success)
        && (after.status.Failed? <==> !success && before.attempts < settings.maxAttempts)
        && (after.status.Exhausted? <==> !success && before.attempts >= settings.maxAttempts)
    {
      if id >= |rows| {
        return;
      }
      var row := rows[id].(lockOwner := None, lockedAt := 0);
      if success {
        row := row.(status := Published);
      } else {
        row := row.(status := if row.attempts >= settings.maxAttempts then Exhausted else Failed);
      }
      rows := rows[id := row];
    }

    /** `accepted`: the broker call returned without raising. */
    method TryPublishEvent(id: nat, accepted: bool) returns (ok: bool)
      requires OwnersKnown()
      modifies `rows
      ensures OwnersKnown()
      ensures ok == accepted
      ensures rows == if id < |old(rows)| then old(rows)[id := Marked(settings, old(rows)[id], accepted)] else old(rows)
    {
      MarkResult(id, accepted);
      ok := accepted;
    }

    /** The claim's query. `busy`: rows another claim transaction has locked, which SKIP LOCKED passes over. */
    method QueryEligible(limit: nat, busy: set<nat>) returns (ids: seq<nat>)
      ensures ids == Selected(settings, rows, now, busy, limit, 0)
    {
      ids := [];
      var id := 0;
      while id < |rows| && |ids| < limit
        invariant id <= |rows|
        invariant |ids| <= limit
        invariant ids + Selected(settings, rows, now, busy, limit - |ids|, id) ==
          Selected(settings, rows, now, busy, limit, 0)
        decreases |rows| - id
      {
        if Eligible(settings, rows[id], now) && id !in busy {
          assert ids + ([id] + Selected(settings, rows, now, busy, limit - |ids| - 1, id + 1))
              == ids + [id] + Selected(settings, rows, now, busy, limit - |ids| - 1, id + 1);
          ids := ids + [id];
        }
        id := id + 1;
      }
      assert Selected(settings, rows, now, busy, limit - |ids|, id) == [];
      assert ids + [] == ids;
    }

    /** The owner is new to every row. */
    method ClaimPendingEvents(limit: nat, busy: set<nat>) returns (ids: seq<nat>, owner: nat)
      requires OwnersKnown()
      modifies `rows, `nextOwner
      ensures OwnersKnown() && forall i | 0 <= i < |old(rows)| :: old(rows)[i].lockOwner != Some(owner)
      ensures owner == old(nextOwner) && nextOwner == owner + 1
      ensures ids == Selected(settings, old(rows), now, busy, limit, 0)
      ensures rows == Claimed(old(rows), ids, owner, now)
      ensures forall i | 0 <= i < |rows| && i in ids ::
        rows[i] == Row(Publishing, old(rows)[i].attempts + 1, Some(owner), now, old(rows)[i].availableAt)
      ensures forall i | 0 <= i < |rows| && i !in ids :: rows[i] == old(rows)[i]
    {
      owner := nextOwner;
      nextOwner := nextOwner + 1;
      ids := QueryEligible(limit, busy);
      SelectedSound(settings, rows, now, busy, limit, 0);
      assert Increasing(ids) && forall m | 0 <= m < |ids| :: ids[m] < |rows|;
      for n := 0 to |ids|
        modifies `rows
        invariant |rows| == |old(rows)|
        invariant forall i | 0 <= i < |rows| ::
          rows[i] == if i in ids[..n] then ClaimedRow(old(rows)[i], owner, now) else old(rows)[i]
      {
        assert ids[n] !in ids[..n] && ids[..n + 1] == ids[..n] + [ids[n]];
        rows := rows[ids[n] := ClaimedRow(rows[ids[n]], owner, now)];
      }
      assert ids[..|ids|] == ids;
    }

    /** One pass of the outbox worker; `accepts[n]` is the broker's reaction to the n-th claimed event. */
    method PublishPendingEvents(limit: nat, busy: set<nat>, accepts: seq<bool>) returns (count: nat)
      requires |accepts| >= limit && OwnersKnown()
      modifies `rows, `nextOwner
      ensures OwnersKnown()
      ensures rows == Pass(settings, old(rows), now, busy, limit, old(nextOwner), accepts)
      ensures count == |set n | 0 <= n < |Selected(settings, old(rows), now, busy, limit, 0)| && accepts[n]|
    {
      var ids, owner := ClaimPendingEvents(limit, busy);
      count := PublishClaimed(ids, accepts);
    }

    method PublishClaimed(ids: seq<nat>, accepts: seq<bool>) returns (count: nat)
      requires |accepts| >= |ids| && OwnersKnown()
      modifies `rows
      ensures OwnersKnown() && rows == PublishedUpTo(settings, old(rows), ids, accepts, |ids|)
      ensures count == |set n | 0 <= n < |ids| && accepts[n]|
    {
      count := 0;
      for n := 0 to |ids|
        modifies `rows
        invariant OwnersKnown() && rows == PublishedUpTo(settings, old(rows), ids, accepts, n)
        invariant count == |set m | 0 <= m < n && accepts[m]|
      {
        assert (set m | 0 <= m < n + 1 && accepts[m]) ==
          (set m | 0 <= m < n && accepts[m]) + (if accepts[n] then {n} else {});
        var ok := TryPublishEvent(ids[n], accepts[n]);
        if ok {
          count := count + 1;
        }
      }
    }
  }

  /** The rows after the first `n` claimed events were published and marked in turn. */
  function PublishedUpTo(c: Settings, rows: seq<Row>, ids: seq<nat>, accepts: seq<bool>, n: nat): (r: seq<Row>)
    requires n <= |ids| && n <= |accepts|
    ensures |r| == |rows|
  {
    if n == 0 then rows
    else
      var before := PublishedUpTo(c, rows, ids, accepts, n - 1);
      var id := ids[n - 1];
      if id < |before| then before[id := Marked(c, before[id], accepts[n - 1])] else before
  }

  function Pass(
    c: Settings, rows: seq<Row>, now: int, busy: set<nat>, limit: nat, owner: nat, accepts: seq<bool>): (r: seq<Row>)
    requires |accepts| >= limit
    ensures |r| == |rows|
  {
    var ids := Selected(c, rows, now, busy, limit, 0);
    PublishedUpTo(c, Claimed(rows, ids, owner, now), ids, accepts, |ids|)
  }
}

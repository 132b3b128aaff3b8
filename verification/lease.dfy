/**
 The execution lease: one key per (task, step), taken with SET NX EX and given back by
 compare-and-delete (app/services/idempotency.py). The key type is a parameter.
 */
module ExecutionLease {
  import opened Options

  datatype Lease = Lease(owner: nat, expiry: int)

  predicate Live<K>(store: map<K, Lease>, key: K, now: int) {
    key in store && now < store[key].expiry
  }

  /** The store after SET NX EX: an expired key counts as absent. */
  function Acquired<K>(store: map<K, Lease>, key: K, owner: nat, now: int, ttl: nat): map<K, Lease> {
    if Live(store, key, now) then store else store[key := Lease(owner, now + ttl)]
  }

  /** Compare-and-delete when a token is given, plain delete when none is (manual recovery). */
  function Released<K>(store: map<K, Lease>, key: K, owner: Option<nat>, now: int): map<K, Lease> {
    if owner.None? || (Live(store, key, now) && store[key].owner == owner.value) then store - {key} else store
  }

  /** The store itself, as the source's module-level connection sees it. */
  class LeaseStore<K(==)> {
    var store: map<K, Lease>
    var now: int
    var issued: nat

    constructor ()
      ensures store == map[] && now == 0 && issued == 0
    {
      store, now, issued := map[], 0, 0;
    }

    /** A fresh token on success, None when somebody holds the key. `ttl` 0 selects the default. */
    method AcquireIdempotent(key: K, ttl: nat, defaultTtl: nat) returns (token: Option<nat>)
      modifies this
      ensures now == old(now)
      ensures token == if Live(old(store), key, now) then None else Some(old(issued))
      ensures store == Acquired(old(store), key, old(issued), now, if ttl == 0 then defaultTtl else ttl)
      ensures issued == old(issued) + 1
    {
      var period := if ttl == 0 then defaultTtl else ttl;
      var owner := issued;
      issued := issued + 1;
      if Live(store, key, now) {
        return None;
      }
      store := store[key := Lease(owner, now + period)];
      return Some(owner);
    }

    method ReleaseIdempotent(key: K, owner: Option<nat>) returns (deleted: bool)
      modifies `store
      ensures store == Released(old(store), key, owner, now)
      ensures deleted <==> Live(old(store), key, now) && (owner.None? || old(store)[key].owner == owner.value)
    {
      if owner.None? {
        deleted := Live(store, key, now);
        store := store - {key};
        return;
      }
      if !Live(store, key, now) || store[key].owner != owner.value {
        return false;
      }
      store := store - {key};
      return true;
    }
  }

  // ---------------------------------------------------------------- all runs

  /** A granted lease: who was told "you hold the key", from when, and when it was given back. */
  datatype Grant<K> = Grant(key: K, from: int, expiry: int, returned: Option<int>)

  datatype System<K> = System(store: map<K, Lease>, now: int, grants: seq<Grant<K>>)

  datatype Action<K> =
    | Wait(until: int)
    | Acquire(key: K, ttl: nat)
    | Release(key: K, token: nat)
    | ForceRelease(key: K)

  function Initial<K>(): System<K> {
    System(map[], 0, [])
  }

  function Next<K>(s: System<K>, a: Action<K>): System<K> {
    match a
    case Wait(until) => if until > s.now then s.(now := until) else s
    case Acquire(key, ttl) =>
      if Live(s.store, key, s.now) then s
      else s.(store := Acquired(s.store, key, |s.grants|, s.now, ttl),
              grants := s.grants + [Grant(key, s.now, s.now + ttl, None)])
    case Release(key, token) =>
      var store := Released(s.store, key, Some(token), s.now);
      if Live(s.store, key, s.now) && s.store[key].owner == token && token < |s.grants|
      then s.(store := store, grants := s.grants[token := s.grants[token].(returned := Some(s.now))])
      else s.(store := store)
    case ForceRelease(key) => s.(store := Released(s.store, key, None, s.now))
  }

  function Run<K(==)>(actions: seq<Action<K>>): System<K> {
    if actions == [] then Initial()
    else Next(Run(actions[..|actions| - 1]), actions[|actions| - 1])
  }

  /** No owner-less release hits a lease that is still running. */
  predicate Considerate<K(==)>(actions: seq<Action<K>>) {
    actions == [] ||
    (var before := actions[..|actions| - 1];
     var a := actions[|actions| - 1];
     Considerate(before) && (a.ForceRelease? ==> !Live(Run(before).store, a.key, Run(before).now)))
  }

  /** The instant from which the holder of the grant may no longer act under it. */
  function HeldUntil<K>(g: Grant<K>): int {
    if g.returned.Some? && g.returned.value < g.expiry then g.returned.value else g.expiry
  }

  /** The grant numbered `i` is what the store says about its key. */
  predicate Backed<K>(s: System<K>, i: nat)
    requires i < |s.grants|
  {
    var g := s.grants[i];
    g.key in s.store && s.store[g.key] == Lease(i, g.expiry)
  }

  ghost predicate Inv<K(!new)>(s: System<K>) {
    && (forall i | 0 <= i < |s.grants| :: s.grants[i].from <= s.now)
    && (forall i | 0 <= i < |s.grants| && HeldUntil(s.grants[i]) > s.now :: Backed(s, i))
    && (forall key | Live(s.store, key, s.now) ::
          var o := s.store[key].owner;
          o < |s.grants| && s.grants[o].key == key && HeldUntil(s.grants[o]) == s.store[key].expiry)
    && (forall i, j | 0 <= i < j < |s.grants| && s.grants[i].key == s.grants[j].key ::
          HeldUntil(s.grants[i]) <= s.grants[j].from)
  }

  lemma {:induction false} InvHolds<K(!new)>(actions: seq<Action<K>>)
    requires Considerate(actions)
    ensures Inv(Run(actions))
  {
    if actions != [] {
      InvHolds(actions[..|actions| - 1]);
      InvStep(Run(actions[..|actions| - 1]), actions[|actions| - 1]);
    }
  }

  lemma InvStep<K(!new)>(s: System<K>, a: Action<K>)
    requires Inv(s)
    requires a.ForceRelease? ==> !Live(s.store, a.key, s.now)
    ensures Inv(Next(s, a))
  {
    if a.Acquire? && !Live(s.store, a.key, s.now) {
      NoGrantRunning(s, a.key);
    }
  }

  /** When the store holds no running lease of a key, nobody may still believe to hold one. */
  lemma NoGrantRunning<K(!new)>(s: System<K>, key: K)
    requires Inv(s) && !Live(s.store, key, s.now)
    ensures forall i | 0 <= i < |s.grants| && s.grants[i].key == key :: HeldUntil(s.grants[i]) <= s.now
  {
    forall i | 0 <= i < |s.grants| && s.grants[i].key == key
      ensures HeldUntil(s.grants[i]) <= s.now
    {
      assert HeldUntil(s.grants[i]) > s.now ==> Backed(s, i);
    }
  }

  /** Two grants of one key never overlap in time: the earlier ended before the later began. */
  lemma {:induction false} LeasesNeverCoexist<K(!new)>(actions: seq<Action<K>>, i: nat, j: nat)
    requires Considerate(actions)
    requires i < j < |Run(actions).grants|
    requires Run(actions).grants[i].key == Run(actions).grants[j].key
    ensures HeldUntil(Run(actions).grants[i]) <= Run(actions).grants[j].from
  {
    InvHolds(actions);
  }

  /** A running lease ends before its time only by its own token or by the owner-less release of its key. */
  lemma OnlyOwnerOrForceFrees<K(!new)>(s: System<K>, a: Action<K>, key: K)
    requires Live(s.store, key, s.now)
    ensures var t := Next(s, a);
      (key in t.store && t.store[key] == s.store[key]) <==>
      !(a == Release(key, s.store[key].owner) || a == ForceRelease(key))
  {
  }

  /**
   The exact price of the owner-less release: followed by an acquisition of the same key it makes
   the new grant overlap an older one if and only if the lease it deleted was still running.
   */
  lemma ForceReleaseOverlapsIffLive<K(!new)>(actions: seq<Action<K>>, key: K, ttl: nat)
    requires Considerate(actions)
    ensures var s := Run(actions);
      var t := Next(Next(s, ForceRelease(key)), Acquire(key, ttl));
      var j := |s.grants|;
      && |t.grants| == j + 1 && t.grants[j].key == key
      && (Live(s.store, key, s.now) <==>
          exists i :: 0 <= i < j && t.grants[i].key == key && HeldUntil(t.grants[i]) > t.grants[j].from)
  {
    InvHolds(actions);
    var s := Run(actions);
    var t := Next(Next(s, ForceRelease(key)), Acquire(key, ttl));
    if Live(s.store, key, s.now) {
      var o := s.store[key].owner;
      assert t.grants[o].key == key && HeldUntil(t.grants[o]) > s.now;
    } else {
      NoGrantRunning(s, key);
    }
  }
}

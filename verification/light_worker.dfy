/** The consumption of messages (app/workers/light_worker.py) and what it means for the fate of a message. */
module LightWorker {
  import opened Options

  /** What a worker tells the broker about a message; a rejected message goes to the dead-letter exchange. */
  datatype Settlement = Ack | Requeue | Reject

  /** Requeue once, reject on the second failure, reject at once what cannot be decoded. */
  function Settle(parseable: bool, redelivered: bool, raised: bool): Settlement {
    if !parseable then Reject
    else if !raised then Ack
    else if redelivered then Reject
    else Requeue
  }

  class Worker {
    const concurrency: nat
    var running: bool
    var inflight: set<nat>
    var slots: nat
    /** The tasks that hold a slot. */
    ghost var executing: set<nat>

    ghost predicate Valid() reads this {
      slots + |executing| == concurrency && executing <= inflight
    }

    /** None when the configured concurrency is refused. */
    static method Create(concurrency: int, dbCapacity: int) returns (w: Option<Worker>)
      ensures w.Some? <==> 1 <= concurrency <= dbCapacity
      ensures w.Some? ==> fresh(w.value) && w.value.Valid() && w.value.concurrency == concurrency
      ensures w.Some? ==> w.value.slots == concurrency && w.value.inflight == {} && !w.value.running
    {
      if concurrency < 1 || concurrency > dbCapacity {
        return None;
      }
      var worker := new Worker(concurrency);
      w := Some(worker);
    }

    constructor (concurrency: nat)
      ensures Valid() && this.concurrency == concurrency && slots == concurrency && inflight == {} && !running
      ensures executing == {}
    {
      this.concurrency := concurrency;
      running, inflight, slots, executing := false, {}, concurrency, {};
    }

    /** One turn of the consuming loop: a task is created unless the worker is stopping. */
    method Consume(tag: nat) returns (created: bool)
      requires Valid() && tag !in inflight
      modifies `inflight
      ensures Valid() && created == running
      ensures inflight == if created then old(inflight) + {tag} else old(inflight)
    {
      created := running;
      if created {
        inflight := inflight + {tag};
      }
    }

    /** Entering `async with self._slots`. */
    method Enter(tag: nat)
      requires Valid() && tag in inflight && tag !in executing && slots > 0
      modifies `slots, `executing
      ensures Valid() && slots == old(slots) - 1 && executing == old(executing) + {tag}
    {
      slots := slots - 1;
      executing := executing + {tag};
    }

    /** Handling a message, leaving the slot and dropping the finished task; `raised`: execute_step raised. */
    method HandleMessage(tag: nat, parseable: bool, redelivered: bool, raised: bool) returns (s: Settlement)
      requires Valid() && tag in executing
      modifies `slots, `executing, `inflight
      ensures Valid() && s == Settle(parseable, redelivered, raised)
      ensures slots == old(slots) + 1
      ensures executing == old(executing) - {tag} && inflight == old(inflight) - {tag}
    {
      if !parseable {
        s := Reject;
      } else if raised {
        s := if redelivered then Reject else Requeue;
      } else {
        s := Ack;
      }
      slots := slots + 1;
      executing := executing - {tag};
      inflight := inflight - {tag};
    }
  }

  // ---------------------------------------------------------------- the fate of one message

  datatype Place = Queued | Delivered | Ended(raised: bool) | Acked | Dead

  /** `normal`, `raises`: completed executions; `losses`: workers that died before they settled the message. */
  datatype Fate = Fate(place: Place, redelivered: bool, normal: nat, raises: nat, losses: nat)

  datatype Happening = Deliver | Handle(raised: bool) | Report | Lose

  function Next(parseable: bool, f: Fate, h: Happening): Fate {
    match h
    case Deliver => if f.place.Queued? then f.(place := Delivered) else f
    case Handle(raised) =>
      if f.place.Delivered? && parseable then
        f.(place := Ended(raised), normal := f.normal + (if raised then 0 else 1),
           raises := f.raises + (if raised then 1 else 0))
      else f
    case Report =>
      if f.place.Ended? || (f.place.Delivered? && !parseable) then
        match Settle(parseable, f.redelivered, f.place.Ended? && f.place.raised)
        case Ack => f.(place := Acked)
        case Requeue => f.(place := Queued, redelivered := true)
        case Reject => f.(place := Dead)
      else f
    case Lose =>
      if f.place.Delivered? || f.place.Ended?
      then f.(place := Queued, redelivered := true, losses := f.losses + 1)
      else f
  }

  function Run(parseable: bool, f: Fate, hs: seq<Happening>): Fate
    decreases hs
  {
    if hs == [] then f else Run(parseable, Next(parseable, f, hs[0]), hs[1..])
  }

  const NEW := Fate(Queued, false, 0, 0, 0)

  predicate WithinLimits(f: Fate, runs: nat) {
    f.normal + f.raises <= runs + f.losses
  }

  /** At least two failed or lost attempts, one of them failed. */
  predicate FailedTwice(f: Fate) {
    f.raises >= 1 && f.raises + f.losses >= 2 && (f.losses == 0 ==> f.normal == 0)
  }

  predicate Inv(parseable: bool, f: Fate) {
    && (!parseable ==> f.normal == 0 && f.raises == 0)
    && match f.place
       case Queued => WaitingInv(f)
       case Delivered => WaitingInv(f)
       case Ended(raised) =>
         && parseable && WithinLimits(f, 2)
         && (f.redelivered && raised ==> FailedTwice(f))
         && (!f.redelivered && raised ==> f.normal == 0 && f.raises == 1 && f.losses == 0)
         && (!raised ==> f.normal >= 1 && (f.losses == 0 ==> f.normal == 1))
       case Acked => parseable && WithinLimits(f, 2) && f.normal >= 1 && (f.losses == 0 ==> f.normal == 1)
       case Dead => WithinLimits(f, 2) && (parseable ==> FailedTwice(f)) && (f.losses == 0 ==> f.normal == 0)
  }

  predicate WaitingInv(f: Fate) {
    && WithinLimits(f, 1) && (f.losses == 0 ==> f.normal == 0)
    && if f.redelivered then f.raises + f.losses >= 1 else f.normal == 0 && f.raises == 0 && f.losses == 0
  }

  lemma InvStep(parseable: bool, f: Fate, h: Happening)
    requires Inv(parseable, f)
    ensures Inv(parseable, Next(parseable, f, h))
  {
  }

  lemma {:induction false} InvHolds(parseable: bool, f: Fate, hs: seq<Happening>)
    requires Inv(parseable, f)
    ensures Inv(parseable, Run(parseable, f, hs))
    decreases hs
  {
    if hs != [] {
      InvStep(parseable, f, hs[0]);
      InvHolds(parseable, Next(parseable, f, hs[0]), hs[1..]);
    }
  }

  /** Acknowledged and dead-lettered messages stay so. */
  lemma {:induction false} SettledForGood(parseable: bool, f: Fate, hs: seq<Happening>)
    requires f.place.Acked? || f.place.Dead?
    ensures Run(parseable, f, hs) == f
    decreases hs
  {
    if hs != [] {
      SettledForGood(parseable, f, hs[1..]);
    }
  }

  /**
   A message is executed at most twice, and once more for each worker that dies over it. An acknowledged
   message was handled without exception; a dead-lettered one cannot be decoded, or raised at least once
   and failed (or lost its worker) at least twice. Without dying workers it returns normally exactly once
   if it is acknowledged and never otherwise. What is acknowledged or dead-lettered stays so.
   */
  lemma FateOfAMessage(parseable: bool, hs: seq<Happening>, later: seq<Happening>)
    ensures var f := Run(parseable, NEW, hs);
      && f.normal + f.raises <= 2 + f.losses
      && (f.place.Acked? ==> parseable && f.normal >= 1)
      && (f.place.Dead? ==> !parseable || (f.raises >= 1 && f.raises + f.losses >= 2))
      && (!parseable ==> f.normal + f.raises == 0)
      && (f.losses == 0 && (f.place.Acked? || f.place.Dead?) ==> (f.normal == 1 <==> f.place.Acked?))
      && (f.place.Acked? || f.place.Dead? ==> Run(parseable, f, later) == f)
  {
    InvHolds(parseable, NEW, hs);
    var f := Run(parseable, NEW, hs);
    if f.place.Acked? || f.place.Dead? {
      SettledForGood(parseable, f, later);
    }
  }
}

/** The machine lease broker (server/computer/leases.ts).

    `Step` is the broker as a function of its state: acquires, releases and timer expiries
    in any order.  The class below runs the same steps on shared, mutable lease states, with
    each pending timer holding on to the very state it was queued on. */
module Leases {
  import opened Options

  datatype Owner = Owner(id: string, name: string)

  /** `id` numbers the acquire calls; it stands for the promise the call returned. */
  datatype Waiter = Waiter(id: nat, owner: Owner)
  datatype Lease = Lease(holder: Owner, queue: seq<Waiter>)

  /** How an acquire settled; a timeout names the holder it lost to. */
  datatype Outcome = Granted | TimedOut(holder: Owner) | Aborted

  datatype Broker = Broker(leases: map<string, Lease>, outcomes: map<nat, Outcome>, next: nat)

  datatype Event =
    | Acquire(key: string, owner: Owner)
    | Release(key: string, ownerId: string)
    | Timer(key: string, waiter: nat)

  // ----- queues -----

  function IndexOfWaiter(queue: seq<Waiter>, id: nat): (i: nat)
    ensures i <= |queue|
    ensures i < |queue| ==> queue[i].id == id
    ensures forall j :: 0 <= j < i ==> queue[j].id != id
  {
    if queue == [] || queue[0].id == id then 0 else 1 + IndexOfWaiter(queue[1..], id)
  }

  function IndexOfOwner(queue: seq<Waiter>, ownerId: string): (i: nat)
    ensures i <= |queue|
    ensures i < |queue| ==> queue[i].owner.id == ownerId
    ensures forall j :: 0 <= j < i ==> queue[j].owner.id != ownerId
  {
    if queue == [] || queue[0].owner.id == ownerId then 0 else 1 + IndexOfOwner(queue[1..], ownerId)
  }

  function Drop(queue: seq<Waiter>, i: nat): seq<Waiter>
    requires i < |queue|
  {
    queue[..i] + queue[i + 1..]
  }

  // ----- the broker as a step function -----

  function Step(b: Broker, e: Event): Broker {
    match e
    case Acquire(key, owner) =>
      if key !in b.leases then
        Broker(b.leases[key := Lease(owner, [])], b.outcomes[b.next := Granted], b.next + 1)
      else if b.leases[key].holder.id == owner.id then
        Broker(b.leases, b.outcomes[b.next := Granted], b.next + 1)
      else
        var lease := b.leases[key];
        Broker(b.leases[key := lease.(queue := lease.queue + [Waiter(b.next, owner)])], b.outcomes, b.next + 1)
    case Release(key, ownerId) =>
      if key !in b.leases then b else
      var lease := b.leases[key];
      if lease.holder.id == ownerId then
        if lease.queue == [] then b.(leases := b.leases - {key})
        else b.(leases := b.leases[key := Lease(lease.queue[0].owner, lease.queue[1..])],
                outcomes := b.outcomes[lease.queue[0].id := Granted])
      else
        var i := IndexOfOwner(lease.queue, ownerId);
        if i == |lease.queue| then b
        else b.(leases := b.leases[key := lease.(queue := Drop(lease.queue, i))],
                outcomes := b.outcomes[lease.queue[i].id := Aborted])
    case Timer(key, id) =>
      if key !in b.leases then b else
      var lease := b.leases[key];
      var i := IndexOfWaiter(lease.queue, id);
      if i == |lease.queue| then b
      else b.(leases := b.leases[key := lease.(queue := Drop(lease.queue, i))],
              outcomes := b.outcomes[id := TimedOut(lease.holder)])
  }

  function Run(b: Broker, trace: seq<Event>): Broker
    decreases |trace|
  {
    if trace == [] then b else Run(Step(b, trace[0]), trace[1..])
  }

  const EMPTY := Broker(map[], map[], 0)

  // ----- conservation of waits -----

  predicate Ordered(queue: seq<Waiter>) {
    forall i, j :: 0 <= i < j < |queue| ==> queue[i].id < queue[j].id
  }

  predicate Queued(b: Broker, key: string, id: nat) {
    key in b.leases && IndexOfWaiter(b.leases[key].queue, id) < |b.leases[key].queue|
  }

  ghost predicate QueuedSomewhere(b: Broker, id: nat) {
    exists key :: Queued(b, key, id)
  }

  /** Queues hold their waiters in acquire order; every acquire so far is either settled or
      waiting in the queue of exactly one live lease. */
  ghost predicate Valid(b: Broker) {
    && (forall key :: key in b.leases ==> Ordered(b.leases[key].queue))
    && (forall id :: id in b.outcomes ==> id < b.next)
    && (forall id: nat :: id < b.next ==> (id in b.outcomes <==> !QueuedSomewhere(b, id)))
    && (forall key, id: nat :: Queued(b, key, id) ==> id < b.next)
    && (forall j, k, id: nat :: Queued(b, j, id) && Queued(b, k, id) ==> j == k)
  }

  lemma FoundWaiter(queue: seq<Waiter>, i: nat)
    requires Ordered(queue) && i < |queue|
    ensures IndexOfWaiter(queue, queue[i].id) == i
  {
  }

  /** Dropping a waiter loses that waiter and no other. */
  lemma DropLoses(queue: seq<Waiter>, i: nat, id: nat)
    requires Ordered(queue) && i < |queue|
    ensures Ordered(Drop(queue, i))
    ensures IndexOfWaiter(Drop(queue, i), id) < |queue| - 1 <==> id != queue[i].id && IndexOfWaiter(queue, id) < |queue|
  {
    var rest := Drop(queue, i);
    assert forall j :: 0 <= j < |rest| ==> rest[j] == if j < i then queue[j] else queue[j + 1];
    var k := IndexOfWaiter(queue, id);
    if k < |queue| && k != i { assert rest[if k < i then k else k - 1].id == id; }
  }

  /** The one lease a step touches, before and after; nothing else moves. */
  ghost predicate Touches(b: Broker, c: Broker, key: string) {
    && (forall k :: k != key ==> (k in b.leases <==> k in c.leases))
    && (forall k :: k != key && k in b.leases ==> b.leases[k] == c.leases[k])
  }

  lemma TouchedElsewhere(b: Broker, c: Broker, key: string, k: string, id: nat)
    requires Touches(b, c, key) && k != key
    ensures Queued(b, k, id) <==> Queued(c, k, id)
  {
  }

  /** A step that settles one queued wait keeps the conservation law. */
  lemma SettleKeepsValid(b: Broker, c: Broker, key: string, gone: nat)
    requires Valid(b) && Touches(b, c, key) && c.next == b.next
    requires Queued(b, key, gone) && c.outcomes.Keys == b.outcomes.Keys + {gone}
    requires key in c.leases && Ordered(c.leases[key].queue)
    requires forall id :: Queued(c, key, id) <==> id != gone && Queued(b, key, id)
    ensures Valid(c)
  {
    forall k, id ensures Queued(c, k, id) <==> id != gone && Queued(b, k, id) {
      if k != key {
        TouchedElsewhere(b, c, key, k, id);
      }
    }
    forall id: nat | id < c.next ensures id in c.outcomes <==> !QueuedSomewhere(c, id) {
      if QueuedSomewhere(b, id) && id != gone {
        var k :| Queued(b, k, id);
        assert Queued(c, k, id);
      }
    }
  }

  lemma DropKeepsValid(b: Broker, key: string, i: nat, outcome: Outcome)
    requires Valid(b) && key in b.leases && i < |b.leases[key].queue|
    ensures var lease := b.leases[key];
            Valid(b.(leases := b.leases[key := lease.(queue := Drop(lease.queue, i))],
                     outcomes := b.outcomes[lease.queue[i].id := outcome]))
  {
    var lease := b.leases[key];
    var c := b.(leases := b.leases[key := lease.(queue := Drop(lease.queue, i))],
                outcomes := b.outcomes[lease.queue[i].id := outcome]);
    FoundWaiter(lease.queue, i);
    forall id ensures Queued(c, key, id) <==> id != lease.queue[i].id && Queued(b, key, id) {
      DropLoses(lease.queue, i, id);
    }
    DropLoses(lease.queue, i, 0);
    SettleKeepsValid(b, c, key, lease.queue[i].id);
  }

  lemma AcquireQueues(b: Broker, key: string, owner: Owner, k: string, id: nat)
    requires Valid(b)
    ensures var c := Step(b, Acquire(key, owner));
            Queued(c, k, id) <==> Queued(b, k, id) || (id == b.next && id !in c.outcomes && k == key)
  {
    if k == key && key in b.leases {
      Appended(b.leases[key].queue, Waiter(b.next, owner), id);
    }
  }

  lemma AcquireOrders(b: Broker, key: string, owner: Owner, k: string)
    requires Valid(b) && k in Step(b, Acquire(key, owner)).leases
    ensures Ordered(Step(b, Acquire(key, owner)).leases[k].queue)
  {
    if k in b.leases {
      var queue := b.leases[k].queue;
      forall i | 0 <= i < |queue| ensures queue[i].id < b.next {
        FoundWaiter(queue, i);
        assert Queued(b, k, queue[i].id);
      }
    }
  }

  lemma AcquireKeepsValid(b: Broker, key: string, owner: Owner)
    requires Valid(b)
    ensures Valid(Step(b, Acquire(key, owner)))
  {
    var c := Step(b, Acquire(key, owner));
    forall k, id: nat
      ensures Queued(c, k, id) <==> Queued(b, k, id) || (id == b.next && id !in c.outcomes && k == key)
    {
      AcquireQueues(b, key, owner, k, id);
    }
    forall k | k in c.leases ensures Ordered(c.leases[k].queue) {
      AcquireOrders(b, key, owner, k);
    }
    forall id: nat | id < c.next ensures id in c.outcomes <==> !QueuedSomewhere(c, id) {
      if QueuedSomewhere(b, id) {
        var k :| Queued(b, k, id);
        assert Queued(c, k, id);
      }
      if id == b.next && id !in c.outcomes { assert Queued(c, key, id); }
    }
  }

  lemma Appended(queue: seq<Waiter>, w: Waiter, id: nat)
    ensures IndexOfWaiter(queue + [w], id) < |queue| + 1 <==> IndexOfWaiter(queue, id) < |queue| || id == w.id
  {
    var longer := queue + [w];
    assert longer[|queue|] == w;
    assert forall j :: 0 <= j < |queue| ==> longer[j] == queue[j];
  }

  lemma FreeKeepsValid(b: Broker, key: string)
    requires Valid(b) && key in b.leases && b.leases[key].queue == []
    ensures Valid(b.(leases := b.leases - {key}))
  {
    var c := b.(leases := b.leases - {key});
    forall k, id: nat ensures Queued(c, k, id) <==> Queued(b, k, id) {
      if k != key { TouchedElsewhere(b, c, key, k, id); }
    }
    forall id: nat ensures QueuedSomewhere(c, id) <==> QueuedSomewhere(b, id) {
      if QueuedSomewhere(b, id) { var k :| Queued(b, k, id); assert Queued(c, k, id); }
    }
  }

  lemma HandOverKeepsValid(b: Broker, key: string)
    requires Valid(b) && key in b.leases && b.leases[key].queue != []
    ensures Valid(Step(b, Release(key, b.leases[key].holder.id)))
  {
    var lease := b.leases[key];
    var c := Step(b, Release(key, lease.holder.id));
    assert lease.queue[1..] == Drop(lease.queue, 0);
    assert c.leases[key].queue == Drop(lease.queue, 0) && Ordered(lease.queue);
    FoundWaiter(lease.queue, 0);
    DropLoses(lease.queue, 0, 0);
    forall id ensures Queued(c, key, id) <==> id != lease.queue[0].id && Queued(b, key, id) {
      DropLoses(lease.queue, 0, id);
    }
    SettleKeepsValid(b, c, key, lease.queue[0].id);
  }

  lemma ReleaseKeepsValid(b: Broker, key: string, ownerId: string)
    requires Valid(b)
    ensures Valid(Step(b, Release(key, ownerId)))
  {
    var c := Step(b, Release(key, ownerId));
    if key in b.leases {
      var lease := b.leases[key];
      if lease.holder.id != ownerId {
        var i := IndexOfOwner(lease.queue, ownerId);
        if i < |lease.queue| { DropKeepsValid(b, key, i, Aborted); }
      } else if lease.queue == [] {
        FreeKeepsValid(b, key);
      } else {
        HandOverKeepsValid(b, key);
      }
    }
  }

  lemma StepKeepsValid(b: Broker, e: Event)
    requires Valid(b)
    ensures Valid(Step(b, e))
  {
    match e
    case Acquire(key, owner) => AcquireKeepsValid(b, key, owner);
    case Release(key, ownerId) => ReleaseKeepsValid(b, key, ownerId);
    case Timer(key, id) =>
      if Queued(b, key, id) {
        DropKeepsValid(b, key, IndexOfWaiter(b.leases[key].queue, id), TimedOut(b.leases[key].holder));
      }
  }

  lemma {:induction false} RunKeepsValid(b: Broker, trace: seq<Event>)
    requires Valid(b)
    ensures Valid(Run(b, trace))
    decreases |trace|
  {
    if trace != [] {
      StepKeepsValid(b, trace[0]);
      RunKeepsValid(Step(b, trace[0]), trace[1..]);
    }
  }

  /** After any history every acquire has settled or waits for exactly one key, not both. */
  lemma EveryWaitAccounted(trace: seq<Event>, id: nat)
    requires id < Run(EMPTY, trace).next
    ensures var b := Run(EMPTY, trace);
            && (id in b.outcomes <==> !exists key :: Queued(b, key, id))
            && forall j, k :: Queued(b, j, id) && Queued(b, k, id) ==> j == k
  {
    RunKeepsValid(EMPTY, trace);
    var b := Run(EMPTY, trace);
    assert id in b.outcomes <==> !QueuedSomewhere(b, id);
  }

  // ----- every wait settles at most once, in acquire order, in bounded turns -----

  lemma StepKeepsOutcome(b: Broker, e: Event, id: nat)
    requires Valid(b) && id in b.outcomes
    ensures id in Step(b, e).outcomes && Step(b, e).outcomes[id] == b.outcomes[id]
  {
    match e
    case Acquire(_, _) =>
    case Release(key, ownerId) =>
      if key in b.leases {
        var queue := b.leases[key].queue;
        forall i | 0 <= i < |queue| ensures queue[i].id != id {
          FoundWaiter(queue, i);
          assert Queued(b, key, queue[i].id);
        }
      }
    case Timer(key, w) =>
      if Queued(b, key, w) { assert QueuedSomewhere(b, w); }
  }

  lemma {:induction false} SettlesOnce(b: Broker, trace: seq<Event>, id: nat)
    requires Valid(b) && id in b.outcomes
    ensures id in Run(b, trace).outcomes && Run(b, trace).outcomes[id] == b.outcomes[id]
    decreases |trace|
  {
    if trace != [] {
      StepKeepsValid(b, trace[0]);
      StepKeepsOutcome(b, trace[0], id);
      SettlesOnce(Step(b, trace[0]), trace[1..], id);
    }
  }

  predicate HolderRelease(b: Broker, key: string, e: Event) {
    e.Release? && e.key == key && key in b.leases && b.leases[key].holder.id == e.ownerId
  }

  /** How often, along the trace, the holder of `key` gave it up. */
  function HolderReleases(b: Broker, key: string, trace: seq<Event>): nat
    decreases |trace|
  {
    if trace == [] then 0
    else (if HolderRelease(b, key, trace[0]) then 1 else 0) + HolderReleases(Step(b, trace[0]), key, trace[1..])
  }

  lemma {:induction false} HolderReleasesCount(b: Broker, key: string, trace: seq<Event>, e: Event)
    ensures HolderReleases(b, key, []) == 0
    ensures HolderReleases(b, key, trace + [e])
            == HolderReleases(b, key, trace) + if HolderRelease(Run(b, trace), key, e) then 1 else 0
    decreases |trace|
  {
    if trace == [] {
      assert trace + [e] == [e] && [e][1..] == [];
      assert HolderReleases(Step(b, e), key, []) == 0;
    } else {
      assert (trace + [e])[0] == trace[0] && (trace + [e])[1..] == trace[1..] + [e];
      HolderReleasesCount(Step(b, trace[0]), key, trace[1..], e);
    }
  }

  function Position(b: Broker, key: string, id: nat): nat
    requires Queued(b, key, id)
  {
    IndexOfWaiter(b.leases[key].queue, id)
  }

  /** One step moves a waiter forward, by one at least when the holder lets go, or settles it. */
  lemma StepAdvances(b: Broker, e: Event, key: string, id: nat)
    requires Valid(b) && Queued(b, key, id)
    ensures var c := Step(b, e);
            if Queued(c, key, id) then
              Position(c, key, id) + (if HolderRelease(b, key, e) then 1 else 0) <= Position(b, key, id)
            else id in c.outcomes
  {
    hide IndexOfWaiter, QueuedSomewhere;
    if e.key == key {
      match e
      case Acquire(_, owner) => JoinKeepsPosition(b.leases[key].queue, Waiter(b.next, owner), id);
      case Release(_, _) => ReleaseAdvances(b, e, key, id);
      case Timer(_, w) =>
        var i := IndexOfWaiter(b.leases[key].queue, w);
        if i < |b.leases[key].queue| { DropShifts(b.leases[key].queue, i, id); }
    }
  }

  lemma JoinKeepsPosition(queue: seq<Waiter>, w: Waiter, id: nat)
    requires IndexOfWaiter(queue, id) < |queue|
    ensures IndexOfWaiter(queue + [w], id) == IndexOfWaiter(queue, id)
  {
    var k, longer := IndexOfWaiter(queue, id), queue + [w];
    assert longer[k].id == id;
    assert forall j :: 0 <= j < |queue| ==> longer[j] == queue[j];
    assert !(IndexOfWaiter(longer, id) < k) && !(IndexOfWaiter(longer, id) > k);
  }

  lemma ReleaseAdvances(b: Broker, e: Event, key: string, id: nat)
    requires Valid(b) && Queued(b, key, id) && e.Release? && e.key == key
    ensures var c := Step(b, e);
            if Queued(c, key, id) then
              Position(c, key, id) + (if HolderRelease(b, key, e) then 1 else 0) <= Position(b, key, id)
            else id in c.outcomes
  {
    var queue := b.leases[key].queue;
    if b.leases[key].holder.id == e.ownerId {
      HolderReleaseAdvances(b, key, id);
    } else {
      OtherReleaseAdvances(b, key, e.ownerId, id);
    }
  }

  lemma HolderReleaseAdvances(b: Broker, key: string, id: nat)
    requires Queued(b, key, id) && Ordered(b.leases[key].queue)
    ensures var c := Step(b, Release(key, b.leases[key].holder.id));
            if Queued(c, key, id) then Position(c, key, id) + 1 <= Position(b, key, id) else id in c.outcomes
  {
    var queue := b.leases[key].queue;
    assert queue[1..] == Drop(queue, 0);
    DropShifts(queue, 0, id);
    hide IndexOfWaiter, Ordered;
  }

  lemma OtherReleaseAdvances(b: Broker, key: string, ownerId: string, id: nat)
    requires Queued(b, key, id) && Ordered(b.leases[key].queue) && b.leases[key].holder.id != ownerId
    ensures var c := Step(b, Release(key, ownerId));
            if Queued(c, key, id) then Position(c, key, id) <= Position(b, key, id) else id in c.outcomes
  {
    hide IndexOfWaiter, Ordered, IndexOfOwner;
    var queue := b.leases[key].queue;
    var i := IndexOfOwner(queue, ownerId);
    if i < |queue| { DropShifts(queue, i, id); }
  }

  lemma DropShifts(queue: seq<Waiter>, i: nat, id: nat)
    requires Ordered(queue) && i < |queue| && IndexOfWaiter(queue, id) < |queue|
    ensures var k := IndexOfWaiter(queue, id);
            if k != i then IndexOfWaiter(Drop(queue, i), id) == (if k < i then k else k - 1)
            else IndexOfWaiter(Drop(queue, i), id) == |queue| - 1
    ensures IndexOfWaiter(queue, id) == i <==> queue[i].id == id
  {
    var rest := Drop(queue, i);
    var k := IndexOfWaiter(queue, id);
    assert forall j :: 0 <= j < |rest| ==> rest[j] == if j < i then queue[j] else queue[j + 1];
    if k != i {
      DropLoses(queue, i, id);
      FoundWaiter(rest, if k < i then k else k - 1);
    }
    FoundWaiter(queue, i);
    if k == i { DropLoses(queue, i, id); }
  }

  /** A waiter at position `k` is settled by the time the holder has let go `k + 1` times. */
  lemma {:induction false} ServedWithinPosition(b: Broker, trace: seq<Event>, key: string, id: nat)
    requires Valid(b) && Queued(b, key, id)
    ensures var c := Run(b, trace);
            if Queued(c, key, id) then Position(c, key, id) + HolderReleases(b, key, trace) <= Position(b, key, id)
            else id in c.outcomes
    ensures HolderReleases(b, key, trace) > Position(b, key, id) ==> id in Run(b, trace).outcomes
    decreases |trace|
  {
    if trace != [] {
      var next := Step(b, trace[0]);
      StepKeepsValid(b, trace[0]);
      StepAdvances(b, trace[0], key, id);
      if Queued(next, key, id) {
        ServedWithinPosition(next, trace[1..], key, id);
      } else {
        SettlesOnce(next, trace[1..], id);
        RunKeepsValid(next, trace[1..]);
      }
    }
  }

  /** First come, first served: a waiter is granted only once everyone ahead of it in the
      queue has been granted, timed out or aborted. */
  lemma {:induction false} GrantsInOrder(b: Broker, trace: seq<Event>, key: string, ahead: nat, behind: nat)
    requires Valid(b) && Queued(b, key, ahead) && Queued(b, key, behind) && ahead < behind
    requires behind in Run(b, trace).outcomes && Run(b, trace).outcomes[behind] == Granted
    ensures ahead in Run(b, trace).outcomes
    decreases |trace|
  {
    if trace == [] {
      assert QueuedSomewhere(b, behind);
    } else {
      var next := Step(b, trace[0]);
      StepKeepsValid(b, trace[0]);
      StepAdvances(b, trace[0], key, ahead);
      StepAdvances(b, trace[0], key, behind);
      if ahead in next.outcomes {
        SettlesOnce(next, trace[1..], ahead);
      } else if Queued(next, key, behind) {
        GrantsInOrder(next, trace[1..], key, ahead, behind);
      } else {
        BehindNotGranted(b, trace[0], key, ahead, behind);
        SettlesOnce(next, trace[1..], behind);
      }
    }
  }

  lemma BehindNotGranted(b: Broker, e: Event, key: string, ahead: nat, behind: nat)
    requires Valid(b) && Queued(b, key, ahead) && Queued(b, key, behind) && ahead < behind
    requires behind in Step(b, e).outcomes
    ensures Step(b, e).outcomes[behind] != Granted
  {
    var queue := b.leases[key].queue;
    assert queue[0].id != behind by { assert Position(b, key, ahead) < Position(b, key, behind); }
    assert QueuedSomewhere(b, behind);
    if e.Release? && e.key != key && e.key in b.leases && b.leases[e.key].queue != [] {
      FoundWaiter(b.leases[e.key].queue, 0);
      assert Queued(b, e.key, b.leases[e.key].queue[0].id);
    }
  }

  // ----- re-entrant waits -----

  /** Nobody is queued twice, and the holder is not in its own queue. */
  predicate DistinctOwners(lease: Lease) {
    && (forall i :: 0 <= i < |lease.queue| ==> lease.queue[i].owner.id != lease.holder.id)
    && (forall i, j :: 0 <= i < j < |lease.queue| ==> lease.queue[i].owner.id != lease.queue[j].owner.id)
  }

  predicate AllDistinct(b: Broker) {
    forall key :: key in b.leases ==> DistinctOwners(b.leases[key])
  }

  /** The caller does not acquire a key it is already queued on. */
  predicate NoDoubleWait(b: Broker, e: Event) {
    e.Acquire? && e.key in b.leases ==> IndexOfOwner(b.leases[e.key].queue, e.owner.id) == |b.leases[e.key].queue|
  }

  lemma StepKeepsDistinct(b: Broker, e: Event)
    requires AllDistinct(b) && NoDoubleWait(b, e)
    ensures AllDistinct(Step(b, e))
  {
    if e.key in b.leases {
      var queue := b.leases[e.key].queue;
      match e
      case Acquire(_, owner) =>
      case Release(_, ownerId) =>
        var i := IndexOfOwner(queue, ownerId);
        if b.leases[e.key].holder.id != ownerId && i < |queue| { DropKeepsDistinct(b.leases[e.key], i); }
      case Timer(_, w) =>
        var i := IndexOfWaiter(queue, w);
        if i < |queue| { DropKeepsDistinct(b.leases[e.key], i); }
    }
  }

  lemma DropKeepsDistinct(lease: Lease, i: nat)
    requires DistinctOwners(lease) && i < |lease.queue|
    ensures DistinctOwners(lease.(queue := Drop(lease.queue, i)))
  {
    var rest := Drop(lease.queue, i);
    assert forall j :: 0 <= j < |rest| ==> rest[j] == if j < i then lease.queue[j] else lease.queue[j + 1];
  }

  /** How often an owner holds or waits for a key. */
  function Claims(queue: seq<Waiter>, ownerId: string): nat {
    if queue == [] then 0 else (if queue[0].owner.id == ownerId then 1 else 0) + Claims(queue[1..], ownerId)
  }

  function Occurrences(b: Broker, key: string, ownerId: string): nat {
    if key !in b.leases then 0
    else (if b.leases[key].holder.id == ownerId then 1 else 0) + Claims(b.leases[key].queue, ownerId)
  }

  lemma {:induction false} ClaimsFound(queue: seq<Waiter>, ownerId: string)
    ensures Claims(queue, ownerId) > 0 <==> IndexOfOwner(queue, ownerId) < |queue|
    ensures var i := IndexOfOwner(queue, ownerId);
            i < |queue| ==> Claims(Drop(queue, i), ownerId) == Claims(queue, ownerId) - 1
  {
    if queue != [] {
      var i := IndexOfOwner(queue, ownerId);
      ClaimsFound(queue[1..], ownerId);
      if i == 0 {
        assert Drop(queue, 0) == queue[1..];
      } else if i < |queue| {
        assert Drop(queue, i) == [queue[0]] + Drop(queue[1..], i - 1);
      }
    }
  }

  lemma ReleaseChangesInvolved(b: Broker, key: string, ownerId: string)
    ensures Step(b, Release(key, ownerId)) == b <==> Occurrences(b, key, ownerId) == 0
    ensures Occurrences(b, key, ownerId) > 0 ==>
              Occurrences(Step(b, Release(key, ownerId)), key, ownerId) == Occurrences(b, key, ownerId) - 1
  {
    if key in b.leases {
      var lease := b.leases[key];
      var c := Step(b, Release(key, ownerId));
      ClaimsFound(lease.queue, ownerId);
      if Occurrences(b, key, ownerId) > 0 {
        assert key in c.leases ==> |c.leases[key].queue| < |lease.queue|;
        assert c != b;
      }
    }
  }

  /** `release` is documented as idempotent; it is so exactly for an owner that holds or
      waits for the key at most once. */
  lemma ReleaseIdempotent(b: Broker, key: string, ownerId: string)
    ensures Step(Step(b, Release(key, ownerId)), Release(key, ownerId)) == Step(b, Release(key, ownerId))
            <==> Occurrences(b, key, ownerId) <= 1
  {
    ReleaseChangesInvolved(b, key, ownerId);
    ReleaseChangesInvolved(Step(b, Release(key, ownerId)), key, ownerId);
  }

  // ----- who gets which outcome -----

  /** A free key, or one the caller holds, is granted at once; any other acquire queues up last. */
  lemma AcquireAnswered(b: Broker, key: string, owner: Owner)
    requires Valid(b)
    ensures var c := Step(b, Acquire(key, owner));
            && key in c.leases && c.next == b.next + 1
            && if key !in b.leases || b.leases[key].holder.id == owner.id then
                 && b.next in c.outcomes && c.outcomes[b.next] == Granted && c.leases[key].holder.id == owner.id
                 && c.leases[key].queue == if key in b.leases then b.leases[key].queue else []
               else
                 && b.next !in c.outcomes && c.leases[key].holder == b.leases[key].holder
                 && c.leases[key].queue == b.leases[key].queue + [Waiter(b.next, owner)]
  {
  }

  /** When the holder lets go, the front waiter is granted and holds the key, and with nobody
      waiting the key is free. */
  lemma HandOverGrants(b: Broker, e: Event, key: string)
    requires HolderRelease(b, key, e)
    ensures var queue, c := b.leases[key].queue, Step(b, e);
            if queue == [] then key !in c.leases
            else
              && key in c.leases && c.leases[key] == Lease(queue[0].owner, queue[1..])
              && queue[0].id in c.outcomes && c.outcomes[queue[0].id] == Granted
  {
  }

  /** The owner whose acquire `id` is. */
  function WaitOwner(b: Broker, key: string, id: nat): Owner
    requires Queued(b, key, id)
  {
    b.leases[key].queue[Position(b, key, id)].owner
  }

  /** What a newly settled acquire was settled by, and what the key looks like then: a grant goes
      to whoever holds the key afterwards, a timeout comes of one's own timer and names the
      holder, an abort of one's own release while somebody else holds the key. */
  lemma SettledBy(b: Broker, e: Event, id: nat)
    requires Valid(b) && id !in b.outcomes && id in Step(b, e).outcomes
    ensures var c := Step(b, e);
            match c.outcomes[id]
            case Granted =>
              || (e.Acquire? && id == b.next && e.key in c.leases && c.leases[e.key].holder.id == e.owner.id)
              || (&& e.Release? && HolderRelease(b, e.key, e) && Queued(b, e.key, id) && Position(b, e.key, id) == 0
                  && e.key in c.leases && c.leases[e.key].holder == WaitOwner(b, e.key, id))
            case TimedOut(holder) =>
              e.Timer? && e.waiter == id && Queued(b, e.key, id) && holder == b.leases[e.key].holder
            case Aborted =>
              && e.Release? && Queued(b, e.key, id)
              && WaitOwner(b, e.key, id).id == e.ownerId != b.leases[e.key].holder.id
  {
    match e
    case Acquire(_, _) =>
    case Release(key, ownerId) =>
      var queue := b.leases[key].queue;
      if b.leases[key].holder.id == ownerId {
        FoundWaiter(queue, 0);
      } else {
        FoundWaiter(queue, IndexOfOwner(queue, ownerId));
      }
    case Timer(_, _) =>
  }

  /** The step takes the queued wait back: its own timer, or its owner's release while another
      holds the key, if this is the first of the owner's waits. */
  predicate Withdraws(b: Broker, e: Event, key: string, id: nat) {
    && Queued(b, key, id) && e.key == key
    && match e
       case Acquire(_, _) => false
       case Release(_, ownerId) =>
         b.leases[key].holder.id != ownerId && IndexOfOwner(b.leases[key].queue, ownerId) == Position(b, key, id)
       case Timer(_, waiter) => waiter == id
  }

  lemma LeavesAs(b: Broker, e: Event, key: string, id: nat)
    requires Valid(b) && Queued(b, key, id) && !Queued(Step(b, e), key, id)
    ensures id in Step(b, e).outcomes
    ensures Step(b, e).outcomes[id] == Granted <==> !Withdraws(b, e, key, id)
    ensures Withdraws(b, e, key, id) && e.Timer? ==> Step(b, e).outcomes[id] == TimedOut(b.leases[key].holder)
    ensures Withdraws(b, e, key, id) && e.Release? ==> Step(b, e).outcomes[id] == Aborted
  {
    StepAdvances(b, e, key, id);
    assert QueuedSomewhere(b, id);
    var queue, k := b.leases[key].queue, Position(b, key, id);
    assert e.key == key;
    if e.Release? {
      if b.leases[key].holder.id == e.ownerId {
        DropShifts(queue, 0, id);
        assert queue[1..] == Drop(queue, 0);
      } else if IndexOfOwner(queue, e.ownerId) < |queue| {
        DropShifts(queue, IndexOfOwner(queue, e.ownerId), id);
      }
    } else if e.Timer? && IndexOfWaiter(queue, e.waiter) < |queue| {
      DropShifts(queue, IndexOfWaiter(queue, e.waiter), id);
    }
  }

  /** No step of the trace takes the wait back while it is queued. */
  predicate NeverWithdrawn(b: Broker, trace: seq<Event>, key: string, id: nat)
    decreases |trace|
  {
    trace == [] || (!Withdraws(b, trace[0], key, id) && NeverWithdrawn(Step(b, trace[0]), trace[1..], key, id))
  }

  /** A wait that settles is granted exactly if it was never taken back; so one that is not is
      granted by the time the holder has let go often enough. */
  lemma {:induction false} GrantedUnlessWithdrawn(b: Broker, trace: seq<Event>, key: string, id: nat)
    requires Valid(b) && Queued(b, key, id)
    ensures var c := Run(b, trace);
            id in c.outcomes ==> (c.outcomes[id] == Granted <==> NeverWithdrawn(b, trace, key, id))
    ensures HolderReleases(b, key, trace) > Position(b, key, id) && NeverWithdrawn(b, trace, key, id) ==>
              id in Run(b, trace).outcomes && Run(b, trace).outcomes[id] == Granted
    decreases |trace|
  {
    ServedWithinPosition(b, trace, key, id);
    if trace == [] {
      assert QueuedSomewhere(b, id);
    } else {
      var next := Step(b, trace[0]);
      StepKeepsValid(b, trace[0]);
      if Queued(next, key, id) {
        StepAdvances(b, trace[0], key, id);
        StillQueued(b, trace[0], key, id);
        GrantedUnlessWithdrawn(next, trace[1..], key, id);
      } else {
        LeavesAs(b, trace[0], key, id);
        SettledNotWithdrawn(next, trace[1..], key, id);
        SettlesOnce(next, trace[1..], id);
      }
    }
  }

  lemma StillQueued(b: Broker, e: Event, key: string, id: nat)
    requires Valid(b) && Queued(b, key, id) && Queued(Step(b, e), key, id)
    ensures !Withdraws(b, e, key, id)
  {
    if Withdraws(b, e, key, id) { DropShifts(b.leases[key].queue, Position(b, key, id), id); }
  }

  lemma {:induction false} SettledNotWithdrawn(b: Broker, trace: seq<Event>, key: string, id: nat)
    requires Valid(b) && id in b.outcomes
    ensures NeverWithdrawn(b, trace, key, id)
    decreases |trace|
  {
    assert Queued(b, key, id) ==> QueuedSomewhere(b, id);
    if trace != [] {
      StepKeepsValid(b, trace[0]);
      StepKeepsOutcome(b, trace[0], id);
      SettledNotWithdrawn(Step(b, trace[0]), trace[1..], key, id);
    }
  }

  /** An owner that queued twice inherits the lease from itself: releasing keeps it. */
  lemma DoubleWaitInheritsFromItself(key: string, a: Owner, o: Owner)
    requires a.id != o.id
    ensures var b := Run(EMPTY, [Acquire(key, a), Acquire(key, o), Acquire(key, o), Release(key, a.id)]);
            && key in b.leases && b.leases[key].holder == o
            && key in Step(b, Release(key, o.id)).leases && Step(b, Release(key, o.id)).leases[key].holder == o
  {
    var b1 := Step(EMPTY, Acquire(key, a));
    var b2 := Step(b1, Acquire(key, o));
    var b3 := Step(b2, Acquire(key, o));
    var b4 := Step(b3, Release(key, a.id));
    assert b3.leases[key].queue == [Waiter(1, o), Waiter(2, o)];
    assert [Acquire(key, a), Acquire(key, o), Acquire(key, o), Release(key, a.id)][1..]
        == [Acquire(key, o), Acquire(key, o), Release(key, a.id)];
    assert [Acquire(key, o), Acquire(key, o), Release(key, a.id)][1..] == [Acquire(key, o), Release(key, a.id)];
    assert [Acquire(key, o), Release(key, a.id)][1..] == [Release(key, a.id)];
    assert Run(b3, [Release(key, a.id)]) == Run(b4, []) == b4;
    assert Run(b2, [Acquire(key, o), Release(key, a.id)]) == Run(b3, [Release(key, a.id)]);
    assert Run(b1, [Acquire(key, o), Acquire(key, o), Release(key, a.id)]) == b4;
  }

  // ----- the suspend guard -----

  function FirstOther(queue: seq<Waiter>, ownerId: string): (o: Option<Owner>)
    ensures o.None? <==> forall i :: 0 <= i < |queue| ==> queue[i].owner.id == ownerId
    ensures o.Some? ==> o.value.id != ownerId && exists i :: WaitsFirst(queue, ownerId, o.value, i)
  {
    if queue == [] then None
    else if queue[0].owner.id != ownerId then
      assert WaitsFirst(queue, ownerId, queue[0].owner, 0);
      Some(queue[0].owner)
    else
      var o := FirstOther(queue[1..], ownerId);
      assert forall i: int :: o.Some? && WaitsFirst(queue[1..], ownerId, o.value, i) ==>
        WaitsFirst(queue, ownerId, o.value, i + 1);
      o
  }

  /** Everybody before `i` is `ownerId`, who is not there. */
  predicate WaitsFirst(queue: seq<Waiter>, ownerId: string, owner: Owner, i: int) {
    0 <= i < |queue| && queue[i].owner == owner && forall j :: 0 <= j < i ==> queue[j].owner.id == ownerId
  }

  /** `busyFor` is null exactly when nobody but `ownerId` holds or waits for the key, and otherwise
      the holder, or if that is `ownerId` the first other to wait. */
  function BusyFor(b: Broker, key: string, ownerId: string): (o: Option<Owner>)
    ensures o.None? <==>
              (key in b.leases ==>
                && b.leases[key].holder.id == ownerId
                && forall i :: 0 <= i < |b.leases[key].queue| ==> b.leases[key].queue[i].owner.id == ownerId)
    ensures o.Some? ==>
              && o.value.id != ownerId && key in b.leases
              && (b.leases[key].holder.id != ownerId ==> o.value == b.leases[key].holder)
              && (b.leases[key].holder.id == ownerId ==>
                    exists i :: WaitsFirst(b.leases[key].queue, ownerId, o.value, i))
  {
    if key !in b.leases then None
    else if b.leases[key].holder.id != ownerId then Some(b.leases[key].holder)
    else FirstOther(b.leases[key].queue, ownerId)
  }

  // ----- the broker on shared lease states -----

  /** Who is queued where after a step: everyone who was and has not settled, and the new call. */
  lemma StepQueued(b: Broker, e: Event, k: string, id: nat)
    requires Valid(b) && Valid(Step(b, e))
    ensures var c := Step(b, e);
            Queued(c, k, id) <==>
              || (Queued(b, k, id) && id !in c.outcomes)
              || (e.Acquire? && k == e.key && id == b.next && id !in c.outcomes)
  {
    var c := Step(b, e);
    if Queued(b, k, id) {
      StepAdvances(b, e, k, id);
      assert QueuedSomewhere(b, id);
      if Queued(c, k, id) { assert QueuedSomewhere(c, id); }
    }
    if Queued(c, k, id) {
      assert QueuedSomewhere(c, id);
      if id in b.outcomes { StepKeepsOutcome(b, e, id); }
      if id < b.next {
        var j :| Queued(b, j, id);
        StepAdvances(b, e, j, id);
        assert Queued(c, j, id);
      }
    }
    if e.Acquire? && k == e.key && id == b.next && id !in c.outcomes {
      Appended(b.leases[k].queue, Waiter(b.next, e.owner), id);
    }
    if Queued(c, k, id) && id == b.next && k != e.key { TouchedElsewhere(b, c, e.key, k, id); }
  }

  class LeaseState {
    var holder: Owner
    var queue: seq<Waiter>

    constructor (holder: Owner)
      ensures this.holder == holder && queue == []
    {
      this.holder, queue := holder, [];
    }
  }

  /** The timers pending are exactly those of the queued waiters, each holding the live state
      its waiter is queued on. */
  ghost predicate Linked(b: Broker, leases: map<string, LeaseState>, timers: map<nat, LeaseState>) {
    && b.leases.Keys == leases.Keys
    && (forall key, id: nat :: Queued(b, key, id) ==> id in timers && timers[id] == leases[key])
    && (forall id :: id in timers ==> QueuedSomewhere(b, id))
  }

  /** What a step does to the lease states and timers: it clears the timers of those it settles,
      or starts the timer of whoever joins. */
  ghost predicate Retimed(b: Broker, e: Event, leases: map<string, LeaseState>, leases': map<string, LeaseState>,
                          timers: map<nat, LeaseState>, timers': map<nat, LeaseState>, gone: set<nat>, joined: bool) {
    && leases'.Keys == Step(b, e).leases.Keys
    && (forall k :: k in leases' && k in leases ==> leases'[k] == leases[k])
    && Step(b, e).outcomes.Keys == b.outcomes.Keys + gone + (if e.Acquire? && !joined then {b.next} else {})
    && (joined ==> gone == {} && e.Acquire? && e.key in leases' && timers' == timers[b.next := leases'[e.key]])
    && (!joined ==> timers' == timers - gone)
  }

  lemma QueuedTimed(b: Broker, e: Event, leases: map<string, LeaseState>, leases': map<string, LeaseState>,
                    timers: map<nat, LeaseState>, timers': map<nat, LeaseState>, gone: set<nat>, joined: bool,
                    key: string, id: nat)
    requires Valid(b) && Valid(Step(b, e)) && Linked(b, leases, timers)
    requires Retimed(b, e, leases, leases', timers, timers', gone, joined) && Queued(Step(b, e), key, id)
    ensures key in leases' && id in timers' && timers'[id] == leases'[key]
  {
    assert QueuedSomewhere(Step(b, e), id);
    assert key in Step(b, e).leases;
    StepQueued(b, e, key, id);
    assert Queued(b, key, id) ==> id < b.next;
    hide Valid, Queued, QueuedSomewhere, Step;
  }

  lemma TimedQueued(b: Broker, e: Event, leases: map<string, LeaseState>, leases': map<string, LeaseState>,
                    timers: map<nat, LeaseState>, timers': map<nat, LeaseState>, gone: set<nat>, joined: bool, id: nat)
    requires Valid(b) && Valid(Step(b, e)) && Linked(b, leases, timers)
    requires Retimed(b, e, leases, leases', timers, timers', gone, joined) && id in timers'
    ensures QueuedSomewhere(Step(b, e), id)
  {
    if id in timers {
      assert QueuedSomewhere(b, id);
      var key :| Queued(b, key, id);
      assert id !in b.outcomes && id < b.next;
      StepQueued(b, e, key, id);
      hide Valid, Step, Queued;
    } else {
      assert e.Acquire? && id == b.next && id !in b.outcomes;
      StepQueued(b, e, e.key, id);
    }
  }

  /** Timers stay linked through such a step. */
  lemma Relink(b: Broker, e: Event, leases: map<string, LeaseState>, leases': map<string, LeaseState>,
               timers: map<nat, LeaseState>, timers': map<nat, LeaseState>, gone: set<nat>, joined: bool)
    requires Valid(b) && Linked(b, leases, timers)
    requires leases'.Keys == Step(b, e).leases.Keys
    requires forall k :: k in leases' && k in leases ==> leases'[k] == leases[k]
    requires Step(b, e).outcomes.Keys == b.outcomes.Keys + gone + (if e.Acquire? && !joined then {b.next} else {})
    requires joined ==> gone == {} && e.Acquire? && e.key in leases' && timers' == timers[b.next := leases'[e.key]]
    requires !joined ==> timers' == timers - gone
    ensures Valid(Step(b, e)) && Linked(Step(b, e), leases', timers')
  {
    hide Valid, Queued, QueuedSomewhere, Step;
    assert Retimed(b, e, leases, leases', timers, timers', gone, joined);
    hide Retimed;
    StepKeepsValid(b, e);
    forall key, id: nat | Queued(Step(b, e), key, id)
      ensures key in leases' && id in timers' && timers'[id] == leases'[key]
    {
      QueuedTimed(b, e, leases, leases', timers, timers', gone, joined, key, id);
    }
    forall id | id in timers' ensures QueuedSomewhere(Step(b, e), id) {
      TimedQueued(b, e, leases, leases', timers, timers', gone, joined, id);
    }
  }

  /** The broker of the source: a map of mutable states.  A pending timer keeps the state it
      was created with, which could be one no longer in the map; `Linked` says it never is. */
  class LeaseBroker {
    var leases: map<string, LeaseState>
    var timers: map<nat, LeaseState>
    var outcomes: map<nat, Outcome>
    var next: nat
    ghost var model: Broker
    ghost var repr: set<LeaseState>

    /** The fields and the states they point to read as the model. */
    ghost predicate Represents()
      reads this, repr
    {
      && leases.Keys == model.leases.Keys
      && (forall key :: key in leases ==> leases[key] in repr)
      && (forall key :: key in leases ==> model.leases[key] == Lease(leases[key].holder, leases[key].queue))
      && (forall j, k :: j in leases && k in leases && leases[j] == leases[k] ==> j == k)
      && outcomes == model.outcomes && next == model.next
    }

    ghost predicate Inv()
      reads this, repr
    {
      Valid(model) && Represents() && Linked(model, leases, timers)
    }

    constructor ()
      ensures Inv() && fresh(repr) && model == EMPTY
    {
      leases, timers, outcomes, next, model, repr := map[], map[], map[], 0, EMPTY, {};
    }

    method Acquire(key: string, owner: Owner) returns (ticket: nat)
      requires Inv()
      modifies this, repr
      ensures Inv() && fresh(repr - old(repr)) && ticket == old(next)
      ensures model == Step(old(model), Event.Acquire(key, owner))
    {
      ticket := next;
      if key !in leases {
        Take(key, owner);
        Relink(old(model), Event.Acquire(key, owner), old(leases), leases, old(timers), timers, {}, false);
        return;
      }
      var reentrant := leases[key].holder.id == owner.id;
      if reentrant {
        Reenter(key, owner);
      } else {
        Wait(key, owner);
      }
      Relink(old(model), Event.Acquire(key, owner), old(leases), leases, old(timers), timers, {}, !reentrant);
    }

    method Release(key: string, ownerId: string)
      requires Inv()
      modifies this, repr
      ensures Inv() && repr == old(repr)
      ensures model == Step(old(model), Event.Release(key, ownerId))
    {
      if key !in leases { return; }
      ghost var gone := {};
      if leases[key].holder.id == ownerId {
        gone := HandOver(key);
      } else {
        gone := Abort(key, ownerId);
      }
      Relink(old(model), Event.Release(key, ownerId), old(leases), leases, old(timers), timers, gone, false);
    }

    /** A pending timer fires: it drops its waiter from the state it captured, which is the
        live state of the one key the waiter is queued on. */
    method TimerFires(id: nat) returns (ghost key: string)
      requires Inv() && id in timers
      modifies this, repr
      ensures Inv() && repr == old(repr)
      ensures key in old(leases) && old(leases[key]) == old(timers[id])
      ensures model == Step(old(model), Timer(key, id))
    {
      key :| Queued(model, key, id);
      Expire(id, key);
      Relink(old(model), Timer(key, id), old(leases), leases, old(timers), timers, {id}, false);
    }

    // The heap half of each step, on the state found or captured.

    method Take(key: string, owner: Owner)
      requires Represents() && key !in leases
      modifies this
      ensures Represents() && fresh(repr - old(repr)) && timers == old(timers)
      ensures model == Step(old(model), Event.Acquire(key, owner))
      ensures forall k :: k in old(leases) ==> k in leases && leases[k] == old(leases[k])
    {
      var created := new LeaseState(owner);
      model := Step(model, Event.Acquire(key, owner));
      next, outcomes := next + 1, outcomes[next := Granted];
      leases, repr := leases[key := created], repr + {created};
    }

    method Reenter(key: string, owner: Owner)
      requires Represents() && key in leases && leases[key].holder.id == owner.id
      modifies this
      ensures Represents() && leases == old(leases) && repr == old(repr) && timers == old(timers)
      ensures model == Step(old(model), Event.Acquire(key, owner))
    {
      model := Step(model, Event.Acquire(key, owner));
      next, outcomes := next + 1, outcomes[next := Granted];
    }

    method Wait(key: string, owner: Owner)
      requires Represents() && key in leases && leases[key].holder.id != owner.id
      modifies this, leases[key]
      ensures Represents() && leases == old(leases) && repr == old(repr)
      ensures timers == old(timers)[old(next) := leases[key]]
      ensures model == Step(old(model), Event.Acquire(key, owner))
    {
      var state := leases[key];
      model := Step(model, Event.Acquire(key, owner));
      timers := timers[next := state];
      state.queue := state.queue + [Waiter(next, owner)];
      next := next + 1;
    }

    method HandOver(key: string) returns (ghost gone: set<nat>)
      requires Represents() && key in leases
      modifies this, leases[key]
      ensures Represents() && repr == old(repr)
      ensures model == Step(old(model), Event.Release(key, old(leases[key].holder.id)))
      ensures timers == old(timers) - gone && outcomes.Keys == old(outcomes.Keys) + gone
      ensures forall k :: k in leases ==> k in old(leases) && leases[k] == old(leases[k])
    {
      var state := leases[key];
      model := Step(model, Event.Release(key, state.holder.id));
      if state.queue == [] {
        leases := leases - {key};
        return {};
      }
      var first := state.queue[0];
      state.queue := state.queue[1..];
      timers := timers - {first.id};
      state.holder := first.owner;
      outcomes := outcomes[first.id := Granted];
      return {first.id};
    }

    method Abort(key: string, ownerId: string) returns (ghost gone: set<nat>)
      requires Represents() && key in leases && leases[key].holder.id != ownerId
      modifies this, leases[key]
      ensures Represents() && leases == old(leases) && repr == old(repr)
      ensures model == Step(old(model), Event.Release(key, ownerId))
      ensures timers == old(timers) - gone && outcomes.Keys == old(outcomes.Keys) + gone
    {
      var state := leases[key];
      model := Step(model, Event.Release(key, ownerId));
      var i := IndexOfOwner(state.queue, ownerId);
      if i == |state.queue| { return {}; }
      var queued := state.queue[i];
      state.queue := Drop(state.queue, i);
      timers := timers - {queued.id};
      outcomes := outcomes[queued.id := Aborted];
      return {queued.id};
    }

    method Expire(id: nat, ghost key: string)
      requires Represents() && id in timers && key in leases && timers[id] == leases[key] && Queued(model, key, id)
      modifies this, timers[id]
      ensures Represents() && leases == old(leases) && repr == old(repr)
      ensures model == Step(old(model), Timer(key, id))
      ensures timers == old(timers) - {id} && outcomes.Keys == old(outcomes.Keys) + {id}
    {
      var state := timers[id];
      model := Step(model, Timer(key, id));
      var i := IndexOfWaiter(state.queue, id);
      if i < |state.queue| { state.queue := Drop(state.queue, i); }
      timers := timers - {id};
      outcomes := outcomes[id := TimedOut(state.holder)];
    }
  }
}

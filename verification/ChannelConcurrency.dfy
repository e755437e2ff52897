/** The per-channel semaphore (server/channels/discord-protocol.ts, `ChannelConcurrency`).

    An acquire that finds the channel full parks a resolve callback; a release resolves the
    oldest one; the woken acquire runs again later, in any order, and re-checks.  Callbacks,
    resumptions and release closures are explicit here so that every interleaving is a run. */
module ChannelConcurrency {

  /** The release closure of a granted acquire, with the flag it captures. */
  datatype Permit = Permit(key: string, released: bool)

  datatype Status = Parked | Woken | Served

  /** Acquire calls are numbered; `keys` and `status` say what became of each.  `waiters` and
      `woken` hold call numbers in place of callbacks. */
  datatype Gate = Gate(max: nat, inflight: map<string, nat>, waiters: map<string, seq<nat>>,
                       woken: seq<nat>, permits: seq<Permit>, keys: seq<string>, status: seq<Status>)

  datatype Event = Acquire(channel: string) | Resume(index: nat) | Release(permit: nat)

  function Inflight(g: Gate, key: string): nat {
    if key in g.inflight then g.inflight[key] else 0
  }

  function Queue(g: Gate, key: string): seq<nat> {
    if key in g.waiters then g.waiters[key] else []
  }

  function KeyOf(channel: string): string {
    if channel == "" then "*" else channel
  }

  /** One pass of the loop in `acquire`: park, or take a permit. */
  function Attempt(g: Gate, call: nat, key: string): Gate
    requires call < |g.status|
  {
    if Inflight(g, key) >= g.max then
      g.(waiters := g.waiters[key := Queue(g, key) + [call]], status := g.status[call := Parked])
    else
      g.(inflight := g.inflight[key := Inflight(g, key) + 1],
         permits := g.permits + [Permit(key, false)], status := g.status[call := Served])
  }

  /** Give the slot back. */
  function Vacate(g: Gate, i: nat): Gate
    requires i < |g.permits|
  {
    var key := g.permits[i].key;
    var held: int := if key in g.inflight then g.inflight[key] else 1;
    g.(permits := g.permits[i := Permit(key, true)],
       inflight := if held - 1 <= 0 then g.inflight - {key} else g.inflight[key := held - 1])
  }

  /** Resolve the oldest callback, if there is one. */
  function Wake(g: Gate, key: string): Gate
    requires forall call :: call in Queue(g, key) ==> call < |g.status|
  {
    var queue := Queue(g, key);
    if queue == [] then g.(waiters := g.waiters - {key})
    else
      assert queue[0] in queue;
      g.(waiters := if |queue| == 1 then g.waiters - {key} else g.waiters[key := queue[1..]],
         woken := g.woken + [queue[0]], status := g.status[queue[0] := Woken])
  }

  /** The event has something to act on. */
  predicate Effective(g: Gate, e: Event) {
    match e
    case Acquire(_) => true
    case Resume(i) => i < |g.woken|
    case Release(i) => i < |g.permits| && !g.permits[i].released
  }

  ghost predicate Numbered(g: Gate) {
    && |g.keys| == |g.status|
    && (forall key, call :: call in Queue(g, key) ==> call < |g.keys|)
    && (forall call :: call in g.woken ==> call < |g.keys|)
  }

  ghost function Step(g: Gate, e: Event): Gate
    requires Numbered(g)
  {
    if !Effective(g, e) then g else
    match e
    case Acquire(channel) =>
      Attempt(g.(keys := g.keys + [KeyOf(channel)], status := g.status + [Parked]), |g.keys|, KeyOf(channel))
    case Resume(i) =>
      assert g.woken[i] in g.woken;
      Attempt(g.(woken := g.woken[..i] + g.woken[i + 1..]), g.woken[i], g.keys[g.woken[i]])
    case Release(i) =>
      assert forall k :: Queue(Vacate(g, i), k) == Queue(g, k);
      Wake(Vacate(g, i), g.permits[i].key)
  }

  // ----- counting -----

  function Outstanding(permits: seq<Permit>, key: string): nat {
    if permits == [] then 0
    else (if permits[0].key == key && !permits[0].released then 1 else 0) + Outstanding(permits[1..], key)
  }

  function WokenOn(woken: seq<nat>, keys: seq<string>, key: string): nat {
    if woken == [] then 0
    else (if woken[0] < |keys| && keys[woken[0]] == key then 1 else 0) + WokenOn(woken[1..], keys, key)
  }

  function Returned(permits: seq<Permit>): nat {
    if permits == [] then 0 else (if permits[0].released then 1 else 0) + Returned(permits[1..])
  }

  lemma {:induction false} PermitAdded(permits: seq<Permit>, p: Permit, key: string)
    ensures Outstanding(permits + [p], key) == Outstanding(permits, key) + if p.key == key && !p.released then 1 else 0
    ensures Returned(permits + [p]) == Returned(permits) + if p.released then 1 else 0
  {
    if permits == [] {
      assert permits + [p] == [p] && [p][1..] == [];
    } else {
      PermitAdded(permits[1..], p, key);
      assert (permits + [p])[1..] == permits[1..] + [p];
    }
  }

  lemma {:induction false} PermitReturned(permits: seq<Permit>, i: nat, key: string)
    requires i < |permits| && !permits[i].released
    ensures var after := permits[i := Permit(permits[i].key, true)];
            && Outstanding(after, key) == Outstanding(permits, key) - (if permits[i].key == key then 1 else 0)
            && Returned(after) == Returned(permits) + 1
  {
    var after := permits[i := Permit(permits[i].key, true)];
    if i == 0 {
      assert after[1..] == permits[1..];
    } else {
      PermitReturned(permits[1..], i - 1, key);
      assert after[1..] == permits[1..][i - 1 := Permit(permits[i].key, true)];
    }
  }

  lemma {:induction false} WokenAdded(woken: seq<nat>, call: nat, keys: seq<string>, key: string)
    requires call < |keys|
    ensures WokenOn(woken + [call], keys, key) == WokenOn(woken, keys, key) + if keys[call] == key then 1 else 0
  {
    if woken == [] {
      assert woken + [call] == [call] && [call][1..] == [];
    } else {
      WokenAdded(woken[1..], call, keys, key);
      assert (woken + [call])[1..] == woken[1..] + [call];
    }
  }

  lemma {:induction false} WokenRemoved(woken: seq<nat>, i: nat, keys: seq<string>, key: string)
    requires i < |woken| && woken[i] < |keys|
    ensures WokenOn(woken[..i] + woken[i + 1..], keys, key)
            == WokenOn(woken, keys, key) - if keys[woken[i]] == key then 1 else 0
  {
    if i == 0 {
      assert woken[..0] + woken[1..] == woken[1..];
    } else {
      WokenRemoved(woken[1..], i - 1, keys, key);
      assert (woken[..i] + woken[i + 1..])[1..] == woken[1..][..i - 1] + woken[1..][i..];
    }
  }

  lemma {:induction false} WokenSameKeys(woken: seq<nat>, keys: seq<string>, added: string, key: string)
    requires forall call :: call in woken ==> call < |keys|
    ensures WokenOn(woken, keys + [added], key) == WokenOn(woken, keys, key)
  {
    if woken != [] {
      assert woken[0] in woken && forall call :: call in woken[1..] ==> call in woken;
      WokenSameKeys(woken[1..], keys, added, key);
    }
  }

  // ----- the invariant -----

  /** A channel's in-flight number is its outstanding permits, and never over the limit. */
  ghost predicate Counted(g: Gate) {
    forall key :: Inflight(g, key) == Outstanding(g.permits, key) && Inflight(g, key) <= g.max
  }

  /** No wakeup is lost: while anyone is parked, the permits out and the acquires woken but
      not yet resumed account for the whole limit. */
  ghost predicate NoLostWakeup(g: Gate) {
    forall key :: Queue(g, key) != [] ==> Inflight(g, key) + WokenOn(g.woken, g.keys, key) >= g.max
  }

  predicate NoRepeats(calls: seq<nat>) {
    calls == [] || (calls[0] !in calls[1..] && NoRepeats(calls[1..]))
  }

  lemma {:induction false} NoRepeatsAdded(calls: seq<nat>, call: nat)
    requires NoRepeats(calls) && call !in calls
    ensures NoRepeats(calls + [call])
  {
    if calls == [] {
      assert calls + [call] == [call] && [call][1..] == [];
    } else {
      NoRepeatsAdded(calls[1..], call);
      assert (calls + [call])[1..] == calls[1..] + [call];
    }
  }

  /** Parked and woken calls carry their tag and, if parked, sit under their own channel. */
  ghost predicate Tagged(g: Gate) {
    && Numbered(g)
    && (forall key, call :: call in Queue(g, key) ==> g.keys[call] == key && g.status[call] == Parked)
    && (forall call :: call in g.woken ==> g.status[call] == Woken)
  }

  ghost predicate Once(g: Gate) {
    (forall key :: NoRepeats(Queue(g, key))) && NoRepeats(g.woken)
  }

  /** Every acquire so far is parked in its channel's queue, or woken, or served, and is so once. */
  ghost predicate Placed(g: Gate) {
    Tagged(g) && Once(g) && forall call: nat :: call < |g.status| ==> Found(g, call)
  }

  ghost predicate Found(g: Gate, call: nat)
    requires Numbered(g) && call < |g.status|
  {
    match g.status[call]
    case Parked => call in Queue(g, g.keys[call])
    case Woken => call in g.woken
    case Served => true
  }

  ghost predicate Valid(g: Gate) {
    Counted(g) && NoLostWakeup(g) && Placed(g)
  }

  function Open(max: nat): Gate {
    Gate(max, map[], map[], [], [], [], [])
  }

  lemma OpenValid(max: nat)
    ensures Valid(Open(max))
  {
  }

  // ----- every step keeps it -----

  /** Before one pass of the loop: everything holds but for the call about to run, which is
      nowhere, and whose slot in the wakeup balance is free to be spent. */
  ghost predicate Poised(g: Gate, call: nat, key: string) {
    && Counted(g) && Numbered(g) && call < |g.keys| && g.keys[call] == key
    && (forall k :: Queue(g, k) != [] ==>
          Inflight(g, k) + WokenOn(g.woken, g.keys, k) + (if k == key then 1 else 0) >= g.max)
    && (forall k, c :: c in Queue(g, k) ==> c != call && g.keys[c] == k && g.status[c] == Parked)
    && (forall c :: c in g.woken ==> c != call && g.status[c] == Woken)
    && (forall c: nat :: c < |g.status| && c != call ==> Found(g, c))
    && Once(g)
  }

  lemma AttemptKeepsCounted(g: Gate, call: nat, key: string)
    requires Poised(g, call, key)
    ensures Counted(Attempt(g, call, key)) && NoLostWakeup(Attempt(g, call, key))
  {
    var c := Attempt(g, call, key);
    forall k ensures Inflight(c, k) == Outstanding(c.permits, k) && Inflight(c, k) <= c.max {
      PermitAdded(g.permits, Permit(key, false), k);
      assert Inflight(g, k) == Outstanding(g.permits, k) && Inflight(g, k) <= g.max;
    }
  }

  lemma AttemptQueues(g: Gate, call: nat, key: string, k: string)
    requires call < |g.status|
    ensures Queue(Attempt(g, call, key), k)
            == Queue(g, k) + if k == key && Inflight(g, key) >= g.max then [call] else []
  {
  }

  lemma AttemptKeepsPlaced(g: Gate, call: nat, key: string)
    requires Poised(g, call, key)
    ensures Placed(Attempt(g, call, key))
  {
    if Inflight(g, key) >= g.max { ParkKeepsPlaced(g, call, key); } else { ServeKeepsPlaced(g, call, key); }
  }

  lemma ServeKeepsPlaced(g: Gate, call: nat, key: string)
    requires Poised(g, call, key) && Inflight(g, key) < g.max
    ensures Placed(Attempt(g, call, key))
  {
    var c := Attempt(g, call, key);
    assert c.waiters == g.waiters && forall k :: Queue(c, k) == Queue(g, k);
    hide Queue, Inflight, Counted, NoRepeats, WokenOn;
    forall x: nat | x < |c.status| && x != call ensures Found(c, x) { assert Found(g, x); }
  }

  lemma ParkKeepsPlaced(g: Gate, call: nat, key: string)
    requires Poised(g, call, key) && Inflight(g, key) >= g.max
    ensures Placed(Attempt(g, call, key))
  {
    var c := Attempt(g, call, key);
    ParkKeepsTagged(g, call, key);
    ParkKeepsOnce(g, call, key);
    forall x: nat | x < |c.status| ensures Found(c, x) {
      AttemptQueues(g, call, key, c.keys[x]);
      if x != call { assert Found(g, x); }
    }
  }

  lemma ParkQueues(g: Gate, call: nat, key: string)
    requires call < |g.status| && Inflight(g, key) >= g.max
    ensures forall k, x: nat :: x in Queue(Attempt(g, call, key), k) <==> x in Queue(g, k) || (k == key && x == call)
  {
    forall k, x: nat ensures x in Queue(Attempt(g, call, key), k) <==> x in Queue(g, k) || (k == key && x == call) {
      AttemptQueues(g, call, key, k);
    }
  }

  lemma ParkKeepsTagged(g: Gate, call: nat, key: string)
    requires Poised(g, call, key) && Inflight(g, key) >= g.max
    ensures Tagged(Attempt(g, call, key))
  {
    ParkQueues(g, call, key);
    OneMoreTagged(g, Attempt(g, call, key), call, key);
  }

  /** Of two states that differ in one call, tagged and queued as parked. */
  lemma OneMoreTagged(g: Gate, c: Gate, call: nat, key: string)
    requires Numbered(g) && call < |g.keys| && g.keys[call] == key
    requires forall k, x :: x in Queue(g, k) ==> x != call && g.keys[x] == k && g.status[x] == Parked
    requires forall x :: x in g.woken ==> x != call && g.status[x] == Woken
    requires c.keys == g.keys && c.woken == g.woken && c.status == g.status[call := Parked]
    requires forall k, x: nat :: x in Queue(c, k) <==> x in Queue(g, k) || (k == key && x == call)
    ensures Tagged(c)
  {
    hide Queue;
  }

  lemma ParkKeepsOnce(g: Gate, call: nat, key: string)
    requires Poised(g, call, key) && Inflight(g, key) >= g.max
    ensures Once(Attempt(g, call, key))
  {
    forall k ensures NoRepeats(Queue(Attempt(g, call, key), k)) {
      AttemptQueues(g, call, key, k);
      NoRepeatsAdded(Queue(g, k), call);
    }
  }

  /** A call is numbered: what stood in queues and counts stands there still. */
  lemma NumberingQueues(g: Gate, mid: Gate, key: string)
    requires Numbered(g) && mid == g.(keys := g.keys + [key], status := g.status + [Parked])
    ensures forall k :: Queue(mid, k) == Queue(g, k) && Inflight(mid, k) == Inflight(g, k)
    ensures forall k :: WokenOn(mid.woken, mid.keys, k) == WokenOn(g.woken, g.keys, k)
  {
    forall k ensures WokenOn(mid.woken, mid.keys, k) == WokenOn(g.woken, g.keys, k) {
      WokenSameKeys(g.woken, g.keys, key, k);
    }
  }

  lemma NumberingTags(g: Gate, mid: Gate, key: string)
    requires Placed(g) && mid == g.(keys := g.keys + [key], status := g.status + [Parked])
    requires forall k :: Queue(mid, k) == Queue(g, k)
    ensures Numbered(mid) && Once(mid)
    ensures forall k, c :: c in Queue(mid, k) ==> c != |g.keys| && mid.keys[c] == k && mid.status[c] == Parked
    ensures forall c :: c in mid.woken ==> c != |g.keys| && mid.status[c] == Woken
    ensures forall c: nat :: c < |mid.status| && c != |g.keys| ==> Found(mid, c)
  {
    hide Queue, NoRepeats;
    forall c: nat | c < |mid.status| && c != |g.keys| ensures Found(mid, c) { assert Found(g, c); }
  }

  lemma AcquirePoises(g: Gate, channel: string)
    requires Valid(g)
    ensures var key := KeyOf(channel);
            Poised(g.(keys := g.keys + [key], status := g.status + [Parked]), |g.keys|, key)
  {
    hide Queue, Inflight, WokenOn, Outstanding, Placed, Found, Once, NoRepeats;
    var key := KeyOf(channel);
    var mid := g.(keys := g.keys + [key], status := g.status + [Parked]);
    PlacedNumbers(g);
    NumberingQueues(g, mid, key);
    NumberingTags(g, mid, key);
  }

  lemma PlacedNumbers(g: Gate)
    requires Placed(g)
    ensures Numbered(g)
  {
  }

  lemma AcquireKeepsValid(g: Gate, channel: string)
    requires Valid(g)
    ensures Valid(Step(g, Acquire(channel)))
  {
    var call, key := |g.keys|, KeyOf(channel);
    var mid := g.(keys := g.keys + [key], status := g.status + [Parked]);
    AcquirePoises(g, channel);
    AttemptKeepsCounted(mid, call, key);
    AttemptKeepsPlaced(mid, call, key);
    assert Step(g, Acquire(channel)) == Attempt(mid, call, key);
  }

  lemma {:induction false} Without(woken: seq<nat>, i: nat)
    requires i < |woken| && NoRepeats(woken)
    ensures var rest := woken[..i] + woken[i + 1..];
            NoRepeats(rest) && forall c :: c in rest <==> c in woken && c != woken[i]
  {
    var rest := woken[..i] + woken[i + 1..];
    if i == 0 {
      assert rest == woken[1..] && woken == [woken[0]] + rest;
    } else {
      Without(woken[1..], i - 1);
      assert rest[1..] == woken[1..][..i - 1] + woken[1..][i..];
      assert woken == [woken[0]] + woken[1..] && rest == [woken[0]] + rest[1..];
    }
  }

  lemma ResumePoises(g: Gate, i: nat)
    requires Valid(g) && i < |g.woken|
    ensures g.woken[i] in g.woken
    ensures Poised(g.(woken := g.woken[..i] + g.woken[i + 1..]), g.woken[i], g.keys[g.woken[i]])
  {
    var call := g.woken[i];
    var mid := g.(woken := g.woken[..i] + g.woken[i + 1..]);
    assert call in g.woken;
    assert NoRepeats(g.woken) && Numbered(g);
    hide Queue, Inflight, WokenOn, NoRepeats, Found, Counted, NoLostWakeup, Placed, Once;
    Without(g.woken, i);
    SameQueues(g, mid);
    ResumeTags(g, mid, call);
    ResumeBalance(g, i);
    ResumeFinds(g, mid, call);
  }

  lemma SameQueues(g: Gate, mid: Gate)
    requires mid == g.(woken := mid.woken)
    ensures forall k :: Queue(mid, k) == Queue(g, k) && Inflight(mid, k) == Inflight(g, k)
  {
  }

  /** Taking the call off the woken ones leaves the counts and the tags of the others. */
  lemma ResumeTags(g: Gate, mid: Gate, call: nat)
    requires Counted(g) && Placed(g) && mid == g.(woken := mid.woken) && call in g.woken
    requires NoRepeats(mid.woken) && forall c :: c in mid.woken <==> c in g.woken && c != call
    ensures Counted(mid) && Numbered(mid) && Once(mid)
    ensures forall k, c :: c in Queue(mid, k) ==> c != call && mid.keys[c] == k && mid.status[c] == Parked
    ensures forall c :: c in mid.woken ==> c != call && mid.status[c] == Woken
  {
    SameQueues(g, mid);
  }

  lemma ResumeBalance(g: Gate, i: nat)
    requires NoLostWakeup(g) && Numbered(g) && i < |g.woken| && g.woken[i] in g.woken
    ensures var rest := g.woken[..i] + g.woken[i + 1..];
            forall k :: Queue(g, k) != [] ==>
              Inflight(g, k) + WokenOn(rest, g.keys, k) + (if k == g.keys[g.woken[i]] then 1 else 0) >= g.max
  {
    forall k { WokenRemoved(g.woken, i, g.keys, k); }
  }

  lemma ResumeFinds(g: Gate, mid: Gate, call: nat)
    requires Placed(g) && Numbered(mid) && mid == g.(woken := mid.woken)
    requires forall c :: c in mid.woken <==> c in g.woken && c != call
    ensures forall c: nat :: c < |g.status| && c != call ==> Found(mid, c)
  {
    forall c: nat | c < |g.status| && c != call ensures Found(mid, c) {
      assert Found(g, c);
      assert Queue(mid, g.keys[c]) == Queue(g, g.keys[c]);
    }
  }

  lemma ResumeKeepsValid(g: Gate, i: nat)
    requires Valid(g) && i < |g.woken|
    ensures Valid(Step(g, Resume(i)))
  {
    ResumePoises(g, i);
    var mid := g.(woken := g.woken[..i] + g.woken[i + 1..]);
    AttemptKeepsCounted(mid, g.woken[i], g.keys[g.woken[i]]);
    AttemptKeepsPlaced(mid, g.woken[i], g.keys[g.woken[i]]);
  }

  lemma ReleaseKeepsCounted(g: Gate, i: nat)
    requires Valid(g) && i < |g.permits| && !g.permits[i].released
    ensures Counted(Step(g, Release(i))) && NoLostWakeup(Step(g, Release(i)))
  {
    var key := g.permits[i].key;
    var c := Step(g, Release(i));
    forall k ensures Inflight(c, k) == Inflight(g, k) - (if k == key then 1 else 0) == Outstanding(c.permits, k) {
      PermitReturned(g.permits, i, k);
    }
    forall k ensures Queue(c, k) != [] ==> Inflight(c, k) + WokenOn(c.woken, c.keys, k) >= c.max {
      if Queue(g, key) != [] {
        assert Queue(g, key)[0] in Queue(g, key);
        WokenAdded(g.woken, Queue(g, key)[0], g.keys, k);
      }
    }
  }

  lemma WakeQueues(g: Gate, key: string, k: string)
    requires Numbered(g)
    ensures Queue(Wake(g, key), k) == if k == key && Queue(g, k) != [] then Queue(g, k)[1..] else Queue(g, k)
  {
  }

  lemma WakeKeepsPlaced(g: Gate, key: string)
    requires Placed(g)
    ensures Placed(Wake(g, key))
  {
    var c := Wake(g, key);
    var queue := Queue(g, key);
    if queue == [] {
      forall k ensures Queue(c, k) == Queue(g, k) { WakeQueues(g, key, k); }
      forall x: nat | x < |c.status| ensures Found(c, x) { assert Found(g, x); }
    } else {
      WakeKeepsTagged(g, key);
      WakeKeepsOnce(g, key);
      forall x: nat | x < |c.status| ensures Found(c, x) {
        WakeQueues(g, key, g.keys[x]);
        FirstOf(queue);
        if x != queue[0] { assert Found(g, x); }
      }
    }
  }

  lemma WakeKeepsTagged(g: Gate, key: string)
    requires Placed(g) && Queue(g, key) != []
    ensures Tagged(Wake(g, key))
  {
    var first := Queue(g, key)[0];
    assert first in Queue(g, key);
    WakeTakesFirst(g, key);
    FirstWoken(g, Wake(g, key), first);
  }

  /** Of two states that differ in one call, queued before and woken now. */
  lemma FirstWoken(g: Gate, c: Gate, first: nat)
    requires Tagged(g) && first < |g.keys| && g.status[first] == Parked
    requires c.keys == g.keys && c.woken == g.woken + [first] && c.status == g.status[first := Woken]
    requires forall k, x: nat :: x in Queue(c, k) <==> x in Queue(g, k) && x != first
    ensures Tagged(c)
  {
    hide Queue;
    assert forall x :: x in c.woken ==> x in g.woken || x == first;
  }

  lemma WakeTakesFirst(g: Gate, key: string)
    requires Placed(g) && Queue(g, key) != []
    ensures forall k, x: nat :: x in Queue(Wake(g, key), k) <==> x in Queue(g, k) && x != Queue(g, key)[0]
  {
    var first := Queue(g, key)[0];
    FirstOf(Queue(g, key));
    forall k, x: nat ensures x in Queue(Wake(g, key), k) <==> x in Queue(g, k) && x != first {
      WakeQueues(g, key, k);
      assert g.keys[first] == key;
      if x in Queue(g, k) { assert g.keys[x] == k; }
    }
  }

  lemma WakeKeepsOnce(g: Gate, key: string)
    requires Placed(g) && Queue(g, key) != []
    ensures Once(Wake(g, key))
  {
    FirstOf(Queue(g, key));
    forall k ensures NoRepeats(Queue(Wake(g, key), k)) { WakeQueues(g, key, k); }
    NoRepeatsAdded(g.woken, Queue(g, key)[0]);
  }

  lemma FirstOf(queue: seq<nat>)
    requires queue != [] && NoRepeats(queue)
    ensures queue[0] in queue && queue[0] !in queue[1..]
    ensures forall x :: x in queue[1..] <==> x in queue && x != queue[0]
  {
    assert queue == [queue[0]] + queue[1..];
  }

  lemma ReleaseKeepsPlaced(g: Gate, i: nat)
    requires Valid(g) && i < |g.permits| && !g.permits[i].released
    ensures Placed(Step(g, Release(i)))
  {
    var mid := Vacate(g, i);
    assert forall k :: Queue(mid, k) == Queue(g, k);
    forall x: nat | x < |mid.status| ensures Found(mid, x) { assert Found(g, x); }
    WakeKeepsPlaced(mid, g.permits[i].key);
  }

  lemma StepKeepsValid(g: Gate, e: Event)
    requires Valid(g)
    ensures Valid(Step(g, e)) && Step(g, e).max == g.max
  {
    if Effective(g, e) {
      match e
      case Acquire(channel) => AcquireKeepsValid(g, channel);
      case Resume(i) => ResumeKeepsValid(g, i);
      case Release(i) => ReleaseKeepsCounted(g, i); ReleaseKeepsPlaced(g, i);
    }
  }

  // ----- whole runs -----

  ghost function Run(g: Gate, trace: seq<Event>): Gate
    requires Valid(g)
    decreases |trace|
  {
    if trace == [] then g else StepKeepsValid(g, trace[0]); Run(Step(g, trace[0]), trace[1..])
  }

  /** A run is its steps, one after another. */
  lemma {:induction false} RunInParts(g: Gate, before: seq<Event>, e: Event)
    requires Valid(g)
    ensures Run(g, []) == g && Valid(Run(g, before)) && Run(g, before + [e]) == Step(Run(g, before), e)
    decreases |before|
  {
    if before == [] {
      assert before + [e] == [e] && [e][1..] == [];
      StepKeepsValid(g, e);
      assert Run(g, [e]) == Run(Step(g, e), []);
    } else {
      StepKeepsValid(g, before[0]);
      assert (before + [e])[0] == before[0] && (before + [e])[1..] == before[1..] + [e];
      RunInParts(Step(g, before[0]), before[1..], e);
    }
  }

  /** Under every interleaving the in-flight number of a channel is its outstanding permits,
      at most the limit, and no wakeup is lost. */
  lemma {:induction false} RunKeepsValid(g: Gate, trace: seq<Event>)
    requires Valid(g)
    ensures Valid(Run(g, trace)) && Run(g, trace).max == g.max
    decreases |trace|
  {
    if trace != [] {
      StepKeepsValid(g, trace[0]);
      RunKeepsValid(Step(g, trace[0]), trace[1..]);
    }
  }

  /** Calling a release closure again does nothing. */
  lemma ReleaseTwice(g: Gate, i: nat)
    requires Valid(g) && i < |g.permits|
    ensures Valid(Step(g, Release(i))) && Step(Step(g, Release(i)), Release(i)) == Step(g, Release(i))
  {
    StepKeepsValid(g, Release(i));
  }

  // ----- who is granted, and who waits -----

  /** A call is granted exactly while fewer permits than the limit are out on its own channel,
      whatever the other channels hold, and takes one; otherwise it goes to the end of its queue. */
  lemma AcquireAnswered(g: Gate, channel: string)
    requires Valid(g)
    ensures var key, after := if channel == "" then "*" else channel, Step(g, Acquire(channel));
            var granted := Outstanding(g.permits, key) < g.max;
            && after.keys == g.keys + [key] && after.status == g.status + [if granted then Served else Parked]
            && after.permits == (if granted then g.permits + [Permit(key, false)] else g.permits)
            && Queue(after, key) == (if granted then Queue(g, key) else Queue(g, key) + [|g.keys|])
            && (forall k :: k != key ==> Queue(after, k) == Queue(g, k)) && after.woken == g.woken
  {
    var key := KeyOf(channel);
    assert Inflight(g, key) == Outstanding(g.permits, key);
    assert Numbered(g);
  }

  /** On an idle channel every call is granted at once. */
  lemma IdleGranted(g: Gate, channel: string)
    requires Valid(g) && g.max >= 1
    requires forall i :: 0 <= i < |g.permits| && g.permits[i].key == (if channel == "" then "*" else channel) ==>
      g.permits[i].released
    ensures Step(g, Acquire(channel)).status == g.status + [Served]
  {
    NoneOut(g.permits, if channel == "" then "*" else channel);
    AcquireAnswered(g, channel);
  }

  lemma {:induction false} NoneOut(permits: seq<Permit>, key: string)
    requires forall i :: 0 <= i < |permits| && permits[i].key == key ==> permits[i].released
    ensures Outstanding(permits, key) == 0
  {
    if permits != [] { NoneOut(permits[1..], key); }
  }

  /** A woken call is granted exactly when the limit still allows it, and otherwise parks again. */
  lemma ResumeAnswered(g: Gate, i: nat)
    requires Valid(g) && i < |g.woken|
    ensures g.woken[i] < |g.keys|
    ensures var call, after := g.woken[i], Step(g, Resume(i));
            var key := g.keys[call];
            var granted := Outstanding(g.permits, key) < g.max;
            && after.status == g.status[call := if granted then Served else Parked]
            && after.permits == (if granted then g.permits + [Permit(key, false)] else g.permits)
            && Queue(after, key) == (if granted then Queue(g, key) else Queue(g, key) + [call])
            && (forall k :: k != key ==> Queue(after, k) == Queue(g, k))
            && after.woken == g.woken[..i] + g.woken[i + 1..] && after.keys == g.keys
  {
    var call := g.woken[i];
    assert call in g.woken;
    assert Inflight(g, g.keys[call]) == Outstanding(g.permits, g.keys[call]);
  }

  /** A first release gives the permit back and wakes the call that has waited longest on that
      channel, if any. */
  lemma ReleaseWakesOldest(g: Gate, i: nat)
    requires Valid(g) && i < |g.permits| && !g.permits[i].released
    ensures var key, after := g.permits[i].key, Step(g, Release(i));
            && after.permits == g.permits[i := Permit(key, true)] && after.keys == g.keys
            && Outstanding(after.permits, key) == Outstanding(g.permits, key) - 1
            && (forall k :: k != key ==> Queue(after, k) == Queue(g, k))
            && if Queue(g, key) == [] then after.status == g.status && after.woken == g.woken && Queue(after, key) == []
               else && Queue(g, key) == [Queue(g, key)[0]] + Queue(after, key)
                    && after.woken == g.woken + [Queue(g, key)[0]]
                    && Queue(g, key)[0] < |g.status| && after.status == g.status[Queue(g, key)[0] := Woken]
  {
    var key := g.permits[i].key;
    var mid := Vacate(g, i);
    PermitReturned(g.permits, i, key);
    PlacedNumbers(g);
    assert forall k :: Queue(mid, k) == Queue(g, k);
    forall k { WakeQueues(mid, key, k); }
    if Queue(g, key) != [] { assert Queue(g, key)[0] in Queue(g, key); }
  }

  /** `a` is ahead of `b` in the queue of a channel. */
  ghost predicate Ahead(g: Gate, key: string, a: nat, b: nat) {
    exists i, j :: 0 <= i < j < |Queue(g, key)| && Queue(g, key)[i] == a && Queue(g, key)[j] == b
  }

  /** Whoever is ahead is woken first: while the one in front is parked, the one behind is. */
  lemma StepKeepsOrder(g: Gate, e: Event, key: string, a: nat, b: nat)
    requires Valid(g) && Ahead(g, key, a, b) && a < |Step(g, e).status| && Step(g, e).status[a] == Parked
    ensures Ahead(Step(g, e), key, a, b)
  {
    var queue, after := Queue(g, key), Step(g, e);
    var i, j :| 0 <= i < j < |queue| && queue[i] == a && queue[j] == b;
    if Effective(g, e) {
      match e
      case Acquire(channel) => AcquireAnswered(g, channel);
      case Resume(n) => ResumeAnswered(g, n);
      case Release(n) => ReleaseWakesOldest(g, n);
    }
    if Queue(after, key) == queue[1..] && queue != Queue(after, key) {
      assert queue[1..][i - 1] == a && queue[1..][j - 1] == b;
    } else {
      assert queue <= Queue(after, key);
      assert Queue(after, key)[i] == a && Queue(after, key)[j] == b;
    }
  }

  /** The call is parked all along the run. */
  ghost predicate StaysParked(g: Gate, trace: seq<Event>, call: nat)
    requires Valid(g)
    decreases |trace|
  {
    && call < |g.status| && g.status[call] == Parked
    && (trace != [] ==> (StepKeepsValid(g, trace[0]); StaysParked(Step(g, trace[0]), trace[1..], call)))
  }

  /** In every run, no call is woken before one that stood ahead of it. */
  lemma {:induction false} FirstParkedFirstWoken(g: Gate, trace: seq<Event>, key: string, a: nat, b: nat)
    requires Valid(g) && Ahead(g, key, a, b) && StaysParked(g, trace, a)
    ensures Ahead(Run(g, trace), key, a, b) && StaysParked(g, trace, b)
    decreases |trace|
  {
    assert Placed(g) && b in Queue(g, key);
    if trace != [] {
      StepKeepsValid(g, trace[0]);
      assert StaysParked(Step(g, trace[0]), trace[1..], a);
      StepKeepsOrder(g, trace[0], key, a, b);
      FirstParkedFirstWoken(Step(g, trace[0]), trace[1..], key, a, b);
    }
  }

  predicate Quiet(g: Gate) {
    g.woken == [] && forall i :: 0 <= i < |g.permits| ==> g.permits[i].released
  }

  lemma {:induction false} NoneOutstanding(permits: seq<Permit>, key: string)
    requires forall i :: 0 <= i < |permits| ==> permits[i].released
    ensures Outstanding(permits, key) == 0
  {
    if permits != [] { NoneOutstanding(permits[1..], key); }
  }

  /** Once every permit is back and every woken acquire has run, nobody is stuck: every
      acquire ever made has had its permit. */
  lemma QuietServedAll(g: Gate)
    requires Valid(g) && g.max >= 1 && Quiet(g)
    ensures forall key :: Queue(g, key) == []
    ensures forall call :: 0 <= call < |g.status| ==> g.status[call] == Served
  {
    forall key ensures Queue(g, key) == [] {
      NoneOutstanding(g.permits, key);
      assert WokenOn(g.woken, g.keys, key) == 0;
    }
    forall call: nat | call < |g.status| ensures g.status[call] == Served { assert Found(g, call); }
  }

  // ----- draining -----

  function ServedCount(status: seq<Status>): nat {
    if status == [] then 0 else (if status[0] == Served then 1 else 0) + ServedCount(status[1..])
  }

  lemma {:induction false} ServedCountUpdated(status: seq<Status>, i: nat, now: Status)
    requires i < |status|
    ensures ServedCount(status[i := now])
            == ServedCount(status) - (if status[i] == Served then 1 else 0) + (if now == Served then 1 else 0)
    ensures ServedCount(status) <= |status|
  {
    var after := status[i := now];
    if |status| > 1 { ServedCountUpdated(status[1..], if i == 0 then 0 else i - 1, now); }
    if i == 0 {
      assert after[1..] == status[1..];
    } else {
      assert after[1..] == status[1..][i - 1 := now];
    }
  }

  lemma {:induction false} ReturnedBounded(permits: seq<Permit>)
    ensures Returned(permits) <= |permits|
  {
    if permits != [] { ReturnedBounded(permits[1..]); }
  }

  /** As many permits as served acquires. */
  ghost predicate Balanced(g: Gate) {
    |g.permits| == ServedCount(g.status)
  }

  lemma {:induction false} ServedCountAdded(status: seq<Status>)
    ensures ServedCount(status + [Parked]) == ServedCount(status)
  {
    if status == [] {
      assert status + [Parked] == [Parked] && [Parked][1..] == [];
    } else {
      ServedCountAdded(status[1..]);
      assert (status + [Parked])[1..] == status[1..] + [Parked];
    }
  }

  lemma AttemptKeepsBalanced(g: Gate, call: nat, key: string)
    requires Balanced(g) && call < |g.status| && g.status[call] != Served
    ensures Balanced(Attempt(g, call, key))
  {
    ServedCountUpdated(g.status, call, Parked);
    ServedCountUpdated(g.status, call, Served);
  }

  lemma StepKeepsBalanced(g: Gate, e: Event)
    requires Valid(g) && Balanced(g)
    ensures Balanced(Step(g, e))
  {
    if Effective(g, e) {
      match e
      case Acquire(channel) =>
        ServedCountAdded(g.status);
        var key := KeyOf(channel);
        AttemptKeepsBalanced(g.(keys := g.keys + [key], status := g.status + [Parked]), |g.keys|, key);
      case Resume(i) =>
        assert g.woken[i] in g.woken;
        AttemptKeepsBalanced(g.(woken := g.woken[..i] + g.woken[i + 1..]), g.woken[i], g.keys[g.woken[i]]);
      case Release(i) => DrainingShrinks(g, e);
    }
  }

  lemma {:induction false} RunKeepsBalanced(g: Gate, trace: seq<Event>)
    requires Valid(g) && Balanced(g)
    ensures Balanced(Run(g, trace))
    decreases |trace|
  {
    if trace != [] {
      StepKeepsValid(g, trace[0]);
      StepKeepsBalanced(g, trace[0]);
      RunKeepsBalanced(Step(g, trace[0]), trace[1..]);
    }
  }

  /** What releases and resumptions have left to do. */
  ghost function Work(g: Gate): int {
    2 * (|g.status| - Returned(g.permits)) + |g.woken|
  }

  predicate Draining(e: Event) {
    !e.Acquire?
  }

  /** Each effective release or resumption leaves strictly less to do. */
  lemma DrainingShrinks(g: Gate, e: Event)
    requires Valid(g) && Balanced(g) && Draining(e) && Effective(g, e)
    ensures Balanced(Step(g, e)) && Work(Step(g, e)) < Work(g) && |Step(g, e).status| == |g.status|
  {
    match e
    case Resume(i) =>
      var call := g.woken[i];
      assert call in g.woken;
      PermitAdded(g.permits, Permit(g.keys[call], false), g.keys[call]);
      ServedCountUpdated(g.status, call, Parked);
      ServedCountUpdated(g.status, call, Served);
    case Release(i) =>
      PermitReturned(g.permits, i, g.permits[i].key);
      var queue := Queue(g, g.permits[i].key);
      if queue != [] {
        assert queue[0] in queue;
        ServedCountUpdated(g.status, queue[0], Woken);
      }
  }

  /** The trace is all releases and resumptions that find something to act on. */
  ghost predicate DrainRun(g: Gate, trace: seq<Event>)
    requires Valid(g)
    decreases |trace|
  {
    trace != [] ==>
      && Draining(trace[0]) && Effective(g, trace[0])
      && (StepKeepsValid(g, trace[0]); DrainRun(Step(g, trace[0]), trace[1..]))
  }

  /** Without new acquires, releasing and resuming in any order comes to an end within `Work`
      steps, and when nothing is left to do everyone has been served. */
  lemma {:induction false} DrainEnds(g: Gate, trace: seq<Event>)
    requires Valid(g) && Balanced(g) && DrainRun(g, trace)
    ensures |trace| <= Work(g)
    ensures g.max >= 1 && (forall e :: Draining(e) ==> !Effective(Run(g, trace), e)) ==>
              forall call :: 0 <= call < |Run(g, trace).status| ==> Run(g, trace).status[call] == Served
    decreases |trace|
  {
    if trace == [] {
      ReturnedBounded(g.permits);
      if |g.status| > 0 { ServedCountUpdated(g.status, 0, Parked); }
      if forall e :: Draining(e) ==> !Effective(g, e) {
        assert !Effective(g, Resume(0));
        forall i | 0 <= i < |g.permits| ensures g.permits[i].released { assert !Effective(g, Release(i)); }
        if g.max >= 1 { QuietServedAll(g); }
      }
    } else {
      StepKeepsValid(g, trace[0]);
      DrainingShrinks(g, trace[0]);
      DrainEnds(Step(g, trace[0]), trace[1..]);
    }
  }

  // ----- the class -----

  /** The semaphore with its two maps.  The closures and resumptions the promises of the
      source keep alive are listed beside them. */
  class Semaphore {
    const max: nat
    var inflight: map<string, nat>
    var waiters: map<string, seq<nat>>
    var woken: seq<nat>
    var permits: seq<Permit>
    var keys: seq<string>
    ghost var status: seq<Status>

    ghost function View(): Gate reads this {
      Gate(max, inflight, waiters, woken, permits, keys, status)
    }

    constructor (max: nat)
      ensures View() == Open(max) && Valid(View())
    {
      this.max, inflight, waiters, woken, permits, keys, status := max, map[], map[], [], [], [], [];
      new;
      OpenValid(max);
    }

    /** A call of `acquire`: it is granted at once or parked. */
    method Acquire(channel: string) returns (call: nat, granted: bool)
      requires Valid(View())
      modifies this
      ensures View() == Step(old(View()), Event.Acquire(channel)) && Valid(View())
      ensures call == |old(keys)| && granted == (status[call] == Served)
    {
      StepKeepsValid(View(), Event.Acquire(channel));
      var key := KeyOf(channel);
      call := |keys|;
      keys, status := keys + [key], status + [Parked];
      granted := Pass(call, key);
    }

    /** The loop body, from the top of the `while` to the next `await` or the grant. */
    method Pass(call: nat, key: string) returns (granted: bool)
      requires call < |status|
      modifies this
      ensures View() == Attempt(old(View()), call, key)
      ensures granted == (old(Inflight(View(), key)) < max)
    {
      var count := if key in inflight then inflight[key] else 0;
      if count >= max {
        var queue := if key in waiters then waiters[key] else [];
        waiters, status := waiters[key := queue + [call]], status[call := Parked];
        return false;
      }
      inflight := inflight[key := count + 1];
      permits, status := permits + [Permit(key, false)], status[call := Served];
      return true;
    }

    /** A resolved callback lets its acquire run on. */
    method Resume(i: nat) returns (granted: bool)
      requires Valid(View()) && i < |woken|
      modifies this
      ensures View() == Step(old(View()), Event.Resume(i)) && Valid(View())
    {
      StepKeepsValid(View(), Event.Resume(i));
      var call := woken[i];
      assert call in woken;
      woken := woken[..i] + woken[i + 1..];
      granted := Pass(call, keys[call]);
    }

    /** The release closure of permit `i`. */
    method Release(i: nat)
      requires Valid(View()) && i < |permits|
      modifies this
      ensures View() == Step(old(View()), Event.Release(i)) && Valid(View())
    {
      ghost var g := View();
      StepKeepsValid(g, Event.Release(i));
      hide Valid, Wake;
      if permits[i].released { return; }
      var key := permits[i].key;
      permits := permits[i := Permit(key, true)];
      var held: int := if key in inflight then inflight[key] else 1;
      var next := held - 1;
      if next <= 0 { inflight := inflight - {key}; } else { inflight := inflight[key := next]; }
      assert View() == Vacate(g, i);
      assert forall k :: Queue(View(), k) == Queue(g, k);
      WakeNext(key);
    }

    method WakeNext(key: string)
      requires Numbered(View())
      modifies this
      ensures View() == Wake(old(View()), key)
    {
      if key !in waiters { assert waiters - {key} == waiters; return; }
      var queue := waiters[key];
      assert queue == Queue(View(), key);
      if queue != [] {
        assert queue[0] in queue;
        woken, status := woken + [queue[0]], status[queue[0] := Woken];
        waiters := waiters[key := queue[1..]];
      }
      if |queue| <= 1 { waiters := waiters - {key}; assert waiters == old(waiters) - {key}; }
    }
  }
}

/** Handing work to a peer without waiting for it (server/delegations.ts), on the task store of
    server/agent-tasks.ts.  Which target is missing or busy when its turn comes, and the clock
    at each patch, are given from outside. */
module Delegations {
  import opened AgentTasks
  import opened JsText
  import opened Options

  const MAX_QUEUED_PER_THREAD: nat := 4
  const MAX_DELEGATION_DEPTH := 1

  datatype Item = Item(to: BotId, depth: int, message: Text, task: Id)

  /** How the target of an item stands when its turn comes. */
  datatype Target = Ready | Missing | Busy(name: string)

  /** What becomes of an item: it meets its target, its thread has lost its bot, or the source
      turn did not finish. */
  datatype Fate = Meets(target: Target) | NoLead | Dropped

  datatype Look = Look(target: Target, now: int)
  datatype Turn = Turn(fate: Fate, now: int)

  /** One call of `runTarget`. */
  datatype Call = Call(to: BotId, message: Text, depth: int, thread: ThreadId, task: Id)

  /** One item as it was handled. */
  datatype Handling = Handling(item: Item, fate: Fate)

  function At<T>(lists: map<ThreadId, seq<T>>, thread: ThreadId): seq<T> {
    if thread in lists then lists[thread] else []
  }

  function Push<T>(lists: map<ThreadId, seq<T>>, thread: ThreadId, more: seq<T>): map<ThreadId, seq<T>> {
    lists[thread := At(lists, thread) + more]
  }

  // ----- what handling does to the tasks -----

  function BlockedPatch(note: string): Patch {
    NO_PATCH.(state := Some(Blocked), blocker := Some(note))
  }

  function TurnPatch(item: Item, fate: Fate): Patch {
    match fate
    case Meets(Ready) => NO_PATCH.(state := Some(Active))
    case Meets(Missing) => BlockedPatch("error: delegation to " + item.to + " failed — no such bot")
    case Meets(Busy(name)) => BlockedPatch("@" + name + " is busy")
    case NoLead => BlockedPatch("The source turn finished without a lead bot")
    case Dropped => NO_PATCH.(state := Some(Cancelled))
  }

  function TurnRows(rows: Rows, item: Item, turn: Turn): Rows {
    PatchRows(rows, item.task, TurnPatch(item, turn.fate), turn.now)
  }

  function HandleRows(rows: Rows, items: seq<Item>, turns: seq<Turn>): Rows
    requires |items| == |turns|
    decreases |items|
  {
    if items == [] then rows else HandleRows(TurnRows(rows, items[0], turns[0]), items[1..], turns[1..])
  }

  /** Where draining leaves a task. */
  predicate Drained(t: Task) {
    t.state == Active || t.state == Stale || t.state == Blocked
  }

  /** Nobody has said who unblocks it, or how. */
  predicate NoPlan(t: Task) {
    t.owner == "" || t.next == ""
  }

  predicate Ended(t: Task) {
    t.state == Active || t.state == Stale
  }

  predicate Drains(turns: seq<Turn>) {
    forall i :: 0 <= i < |turns| ==> turns[i].fate != Dropped
  }

  predicate Drops(turns: seq<Turn>) {
    forall i :: 0 <= i < |turns| ==> turns[i].fate == Dropped
  }

  lemma PatchTurn(t: Task, item: Item, turn: Turn)
    requires turn.fate != Dropped
    ensures var after := Patched(t, TurnPatch(item, turn.fate), turn.now);
            Drained(after) && (NoPlan(t) ==> NoPlan(after) && Ended(after))
  {
    BlockedNeedsStructure(t, TurnPatch(item, turn.fate), turn.now);
  }

  lemma TidyingKeeps(t: Task, now: int)
    ensures Drained(t) ==> Drained(Reconciled(t, now))
    ensures NoPlan(t) ==> NoPlan(Reconciled(t, now)) && (Ended(t) ==> Ended(Reconciled(t, now)))
  {
  }

  /** What one patch of a drain does to a task, its own or another. */
  lemma TurnKeeps(rows: Rows, item: Item, turn: Turn, id: Id)
    requires id in rows && turn.fate != Dropped
    ensures var after := TurnRows(rows, item, turn);
            && id in after
            && (Drained(rows[id]) || id == item.task ==> Drained(after[id]))
            && (NoPlan(rows[id]) ==> NoPlan(after[id]) && (Ended(rows[id]) || id == item.task ==> Ended(after[id])))
  {
    TidyingKeeps(rows[id], turn.now);
    if id == item.task { PatchTurn(Reconciled(rows[id], turn.now), item, turn); }
  }

  lemma RestFits(turns: seq<Turn>)
    requires turns != []
    ensures Drains(turns) ==> Drains(turns[1..])
    ensures Drops(turns) ==> Drops(turns[1..])
  {
    assert forall i :: 0 <= i < |turns| - 1 ==> turns[1..][i] == turns[i + 1];
  }

  lemma {:induction false} DrainKeeps(rows: Rows, items: seq<Item>, turns: seq<Turn>, id: Id)
    requires |items| == |turns| && id in rows && Drains(turns)
    ensures var after := HandleRows(rows, items, turns);
            && id in after
            && (Drained(rows[id]) ==> Drained(after[id]))
            && (NoPlan(rows[id]) && Ended(rows[id]) ==> Ended(after[id]))
    decreases |items|
  {
    if items != [] {
      TurnKeeps(rows, items[0], turns[0], id);
      RestFits(turns);
      DrainKeeps(TurnRows(rows, items[0], turns[0]), items[1..], turns[1..], id);
    }
  }

  /** However the targets stand, the task of a drained item ends active or stale; it can end
      blocked only if somebody had named an owner and a next action.  It is never left
      pending. */
  lemma {:induction false} DrainSettles(rows: Rows, items: seq<Item>, turns: seq<Turn>, k: nat)
    requires |items| == |turns| && k < |items| && items[k].task in rows && Drains(turns)
    ensures var after := HandleRows(rows, items, turns); var id := items[k].task;
            id in after && Drained(after[id]) && (NoPlan(rows[id]) ==> Ended(after[id]))
    decreases |items|
  {
    var id := items[k].task;
    var next := TurnRows(rows, items[0], turns[0]);
    TurnKeeps(rows, items[0], turns[0], id);
    RestFits(turns);
    if k == 0 {
      DrainKeeps(next, items[1..], turns[1..], id);
    } else {
      DrainSettles(next, items[1..], turns[1..], k - 1);
    }
  }

  lemma CancelKeeps(rows: Rows, item: Item, turn: Turn, id: Id)
    requires id in rows && turn.fate == Dropped
    ensures var after := TurnRows(rows, item, turn);
            id in after && (rows[id].state == Cancelled || id == item.task ==> after[id].state == Cancelled)
  {
  }

  lemma {:induction false} DiscardKeeps(rows: Rows, items: seq<Item>, turns: seq<Turn>, id: Id)
    requires |items| == |turns| && Drops(turns) && id in rows && rows[id].state == Cancelled
    ensures id in HandleRows(rows, items, turns) && HandleRows(rows, items, turns)[id].state == Cancelled
    decreases |items|
  {
    if items != [] {
      CancelKeeps(rows, items[0], turns[0], id);
      RestFits(turns);
      DiscardKeeps(TurnRows(rows, items[0], turns[0]), items[1..], turns[1..], id);
    }
  }

  /** The task of a dropped item ends cancelled. */
  lemma {:induction false} DiscardCancels(rows: Rows, items: seq<Item>, turns: seq<Turn>, k: nat)
    requires |items| == |turns| && Drops(turns) && k < |items| && items[k].task in rows
    ensures var after := HandleRows(rows, items, turns);
            items[k].task in after && after[items[k].task].state == Cancelled
    decreases |items|
  {
    var next := TurnRows(rows, items[0], turns[0]);
    CancelKeeps(rows, items[0], turns[0], items[k].task);
    RestFits(turns);
    if k == 0 {
      DiscardKeeps(next, items[1..], turns[1..], items[k].task);
    } else {
      DiscardCancels(next, items[1..], turns[1..], k - 1);
    }
  }

  // ----- what draining does to the one open task per source -----

  ghost predicate TurnReopens(rows: Rows, item: Item, turn: Turn) {
    Reopens(rows, item.task, TurnPatch(item, turn.fate), turn.now)
  }

  /** No patch of the drain re-opens a task beside another open one. */
  ghost predicate Orderly(rows: Rows, items: seq<Item>, turns: seq<Turn>)
    requires |items| == |turns|
    decreases |items|
  {
    items != [] ==>
      && !TurnReopens(rows, items[0], turns[0])
      && Orderly(TurnRows(rows, items[0], turns[0]), items[1..], turns[1..])
  }

  /** At most one open task per source before, between and after the items. */
  ghost predicate OneOpenThroughout(rows: Rows, items: seq<Item>, turns: seq<Turn>)
    requires |items| == |turns|
    decreases |items|
  {
    && OneOpen(rows)
    && (items != [] ==> OneOpenThroughout(TurnRows(rows, items[0], turns[0]), items[1..], turns[1..]))
  }

  /** A drain keeps one open task per source all along exactly when it is orderly. */
  lemma {:induction false} OrderlyDrain(rows: Rows, items: seq<Item>, turns: seq<Turn>)
    requires |items| == |turns| && OneOpen(rows)
    ensures OneOpenThroughout(rows, items, turns) <==> Orderly(rows, items, turns)
    ensures Orderly(rows, items, turns) ==> OneOpen(HandleRows(rows, items, turns))
    decreases |items|
  {
    if items != [] {
      var next := TurnRows(rows, items[0], turns[0]);
      PatchKeepsOneOpen(rows, items[0].task, TurnPatch(items[0], turns[0].fate), turns[0].now);
      if OneOpen(next) { OrderlyDrain(next, items[1..], turns[1..]); }
    }
  }

  /** A ready target's task is made active, whatever state it was in. */
  lemma ReadyActivates(rows: Rows, item: Item, turn: Turn, other: Id)
    requires item.task in rows && other in rows && turn.fate == Meets(Ready)
    ensures var after := TurnRows(rows, item, turn); var id := item.task;
            && id in after && after[id].state == Active && SameKey(after[id], rows[id])
            && other in after && SameKey(after[other], rows[other])
            && (rows[other].state == Active ==> after[other].state == Active)
  {
  }

  /** Two different assignments queued for one bot in one turn: the second supersedes the
      first, and draining both re-opens it.  Both tasks are then active. */
  lemma DrainReopensSuperseded(rows: Rows, i: Input, j: Input, a: Id, b: Id, rows1: Rows, rows2: Rows,
                               items: seq<Item>, turns: seq<Turn>, now1: int, now2: int)
    requires j.assignee == i.assignee && j.from == i.from && j.thread == i.thread
    requires NormalizeAssignment(i.assignment) != NormalizeAssignment(j.assignment)
    requires a !in rows && b !in rows1
    requires OneOpen(rows) && Creates(rows, i, now1, a, rows1, a) && Creates(rows1, j, now2, b, rows2, b)
    requires |items| == |turns| == 2 && items[0].task == a && items[1].task == b
    requires turns[0].fate == Meets(Ready) == turns[1].fate
    ensures a in rows2 && b in rows2 && rows2[a].state == Superseded && rows2[b].state == Pending
    ensures var after := HandleRows(rows2, items, turns);
            a in after && b in after && after[a].state == Active == after[b].state && !OneOpen(after)
  {
    NewTaskPending(rows, i, now1, a, rows1);
    PendingSuperseded(rows1, i, j, now2, a, b, rows2);
    DrainBoth(rows2, a, b, items, turns);
  }

  /** As it usually goes: the first target's run has made the bot busy by the second turn.  The
      superseded task then ends active, and the one that superseded it stale. */
  lemma DrainRunsSuperseded(rows: Rows, i: Input, j: Input, a: Id, b: Id, rows1: Rows, rows2: Rows,
                            items: seq<Item>, turns: seq<Turn>, now1: int, now2: int)
    requires j.assignee == i.assignee && j.from == i.from && j.thread == i.thread
    requires NormalizeAssignment(i.assignment) != NormalizeAssignment(j.assignment)
    requires a !in rows && b !in rows1
    requires Creates(rows, i, now1, a, rows1, a) && Creates(rows1, j, now2, b, rows2, b)
    requires |items| == |turns| == 2 && items[0].task == a && items[1].task == b
    requires turns[0].fate == Meets(Ready) && turns[1].fate.Meets? && turns[1].fate.target.Busy?
    ensures a in rows2 && b in rows2 && rows2[a].state == Superseded && rows2[b].state == Pending
    ensures var after := HandleRows(rows2, items, turns);
            a in after && b in after && after[a].state == Active && after[b].state == Stale
  {
    NewTaskPending(rows, i, now1, a, rows1);
    PendingSuperseded(rows1, i, j, now2, a, b, rows2);
    NewTaskPending(rows1, j, now2, b, rows2);
    ReadyThenBusy(rows2, a, b, items, turns);
  }

  lemma ReadyThenBusy(rows: Rows, a: Id, b: Id, items: seq<Item>, turns: seq<Turn>)
    requires a in rows && b in rows && a != b && rows[b].state == Pending && NoPlan(rows[b])
    requires |items| == |turns| == 2 && items[0].task == a && items[1].task == b
    requires turns[0].fate == Meets(Ready) && turns[1].fate.Meets? && turns[1].fate.target.Busy?
    ensures var after := HandleRows(rows, items, turns);
            a in after && b in after && after[a].state == Active && after[b].state == Stale
  {
    var next := TurnRows(rows, items[0], turns[0]);
    var after := TurnRows(next, items[1], turns[1]);
    ReadyActivates(rows, items[0], turns[0], b);
    assert next[b] == rows[b];
    assert after[a] == next[a];
    BlockedNeedsStructure(next[b], TurnPatch(items[1], turns[1].fate), turns[1].now);
    HandleTwo(rows, items, turns, next, after);
  }

  lemma DrainBoth(rows: Rows, a: Id, b: Id, items: seq<Item>, turns: seq<Turn>)
    requires a in rows && b in rows && a != b && SameKey(rows[a], rows[b])
    requires |items| == |turns| == 2 && items[0].task == a && items[1].task == b
    requires turns[0].fate == Meets(Ready) == turns[1].fate
    ensures var after := HandleRows(rows, items, turns);
            a in after && b in after && after[a].state == Active == after[b].state && !OneOpen(after)
  {
    var next := TurnRows(rows, items[0], turns[0]);
    ReadyActivates(rows, items[0], turns[0], b);
    ReadyActivates(next, items[1], turns[1], a);
    var after := TurnRows(next, items[1], turns[1]);
    HandleTwo(rows, items, turns, next, after);
    assert SameKey(after[a], after[b]);
  }

  lemma HandleTwo(rows: Rows, items: seq<Item>, turns: seq<Turn>, next: Rows, after: Rows)
    requires |items| == |turns| == 2
    requires next == TurnRows(rows, items[0], turns[0]) && after == TurnRows(next, items[1], turns[1])
    ensures HandleRows(rows, items, turns) == after
  {
    assert items[1..] == [items[1]] && turns[1..] == [turns[1]];
    assert HandleRows(after, [], []) == after && [items[1]][1..] == [] && [turns[1]][1..] == [];
    assert HandleRows(next, [items[1]], [turns[1]]) == after;
  }

  lemma NewTaskPending(rows: Rows, i: Input, now: int, a: Id, after: Rows)
    requires a !in rows && Creates(rows, i, now, a, after, a)
    ensures a in after && after[a] == NewTask(i, now)
  {
    assert a !in Duplicates(Reconcile(rows, now), i, now);
  }

  lemma PendingSuperseded(rows: Rows, i: Input, j: Input, now: int, a: Id, b: Id, after: Rows)
    requires j.assignee == i.assignee && j.from == i.from && j.thread == i.thread
    requires a in rows && rows[a].state == Pending && SameSource(rows[a], i) && b !in rows
    requires Creates(rows, j, now, b, after, b)
    ensures a in after && b in after && after[a].state == Superseded && after[b].state == Pending
    ensures SameKey(after[a], after[b])
  {
    NewTaskPending(rows, j, now, b, after);
    var tidy := Reconcile(rows, now);
    assert tidy[a] == rows[a] && Displaced(tidy[a], j, now);
    assert b !in Duplicates(tidy, j, now);
  }

  // ----- the queues and the task store together -----

  /** `queued` and `handled` remember everything that was ever queued, and handled, per thread;
      `next` is the number the task store gives out next. */
  datatype World = World(
    queues: map<ThreadId, seq<Item>>,
    calls: seq<Call>,
    queued: map<ThreadId, seq<Item>>,
    handled: map<ThreadId, seq<Handling>>,
    rows: Rows,
    next: nat)

  datatype Request = Request(from: BotId, to: BotId, known: bool, depth: int, maxDepth: int, message: Text)

  datatype QueueResult = Ok | NoTarget | Self | TooDeep | TooMany

  /** A call that creates a task, or any other call of the task store, comes with the store it
      leaves. */
  datatype Event =
    | Queue(thread: ThreadId, request: Request, now: int, task: Id, rows: Rows)
    | Drain(thread: ThreadId, lead: bool, looks: seq<Look>)
    | Discard(thread: ThreadId, clocks: seq<int>)
    | Other(call: AgentTasks.Event, rows: Rows)

  function Outcome(waiting: seq<Item>, r: Request): QueueResult {
    if r.to == r.from then Self
    else if r.depth >= r.maxDepth then TooDeep
    else if !r.known then NoTarget
    else if |waiting| >= MAX_QUEUED_PER_THREAD then TooMany
    else Ok
  }

  /** Without a bot behind the thread no target is looked at. */
  function Faced(lead: bool, looks: seq<Look>): (turns: seq<Turn>)
    ensures |turns| == |looks| && Drains(turns)
  {
    seq(|looks|, i requires 0 <= i < |looks| => Turn(if lead then Meets(looks[i].target) else NoLead, looks[i].now))
  }

  function Dropping(clocks: seq<int>): (turns: seq<Turn>)
    ensures |turns| == |clocks| && Drops(turns)
  {
    seq(|clocks|, i requires 0 <= i < |clocks| => Turn(Dropped, clocks[i]))
  }

  function CallsFor(item: Item, fate: Fate, thread: ThreadId): seq<Call> {
    if fate == Meets(Ready) then [Call(item.to, item.message, item.depth + 1, thread, item.task)] else []
  }

  /** One item: a patch of its task, and a call if its target is ready. */
  function Handle(w: World, thread: ThreadId, item: Item, turn: Turn): World {
    w.(rows := TurnRows(w.rows, item, turn),
       calls := w.calls + CallsFor(item, turn.fate, thread),
       handled := Push(w.handled, thread, [Handling(item, turn.fate)]))
  }

  function HandleAll(w: World, thread: ThreadId, items: seq<Item>, turns: seq<Turn>): World
    requires |items| == |turns|
    decreases |items|
  {
    if items == [] then w else HandleAll(Handle(w, thread, items[0], turns[0]), thread, items[1..], turns[1..])
  }

  /** The thread's queue is taken off the books, and its items are handled. */
  function TakeOff(w: World, thread: ThreadId, turns: seq<Turn>): World
    requires |turns| == |At(w.queues, thread)|
  {
    if turns == [] then w else HandleAll(w.(queues := w.queues - {thread}), thread, At(w.queues, thread), turns)
  }

  /** Whether the call can happen so: a task created by it is the next one, or a duplicate. */
  ghost predicate Possible(w: World, e: Event) {
    match e
    case Queue(thread, r, now, task, rows) =>
      Outcome(At(w.queues, thread), r) == Ok ==>
        Creates(w.rows, Input(r.to, r.from, thread, r.message, ""), now, Id(w.next), rows, task)
    case Drain(thread, _, looks) => |looks| == |At(w.queues, thread)|
    case Discard(thread, clocks) => |clocks| == |At(w.queues, thread)|
    case Other(call, rows) => AgentTasks.Step(w.rows, call, rows) && (call.CreateTask? ==> call.newId == Id(w.next))
  }

  function Counted(next: nat, task: Id): nat {
    if task == Id(next) then next + 1 else next
  }

  function Advance(w: World, e: Event): World
    requires Possible(w, e)
  {
    match e
    case Queue(thread, r, now, task, rows) =>
      if Outcome(At(w.queues, thread), r) == Ok then
        var item := Item(r.to, r.depth, r.message, task);
        w.(queues := Push(w.queues, thread, [item]), queued := Push(w.queued, thread, [item]),
           rows := rows, next := Counted(w.next, task))
      else w
    case Drain(thread, lead, looks) => TakeOff(w, thread, Faced(lead, looks))
    case Discard(thread, clocks) => TakeOff(w, thread, Dropping(clocks))
    case Other(call, rows) =>
      w.(rows := rows, next := if call.CreateTask? then Counted(w.next, call.task) else w.next)
  }

  ghost predicate AllPossible(w: World, trace: seq<Event>)
    decreases |trace|
  {
    trace == [] || (Possible(w, trace[0]) && AllPossible(Advance(w, trace[0]), trace[1..]))
  }

  function Run(w: World, trace: seq<Event>): World
    requires AllPossible(w, trace)
    decreases |trace|
  {
    if trace == [] then w else Run(Advance(w, trace[0]), trace[1..])
  }

  // ----- nothing is lost, repeated or out of turn -----

  function Items(log: seq<Handling>): (items: seq<Item>)
    ensures |items| == |log|
  {
    seq(|log|, i requires 0 <= i < |log| => log[i].item)
  }

  /** The calls the handled items of a thread ask for. */
  function CallsOf(log: seq<Handling>, thread: ThreadId): seq<Call> {
    if log == [] then []
    else CallsOf(log[..|log| - 1], thread) + CallsFor(log[|log| - 1].item, log[|log| - 1].fate, thread)
  }

  /** The calls made for a thread. */
  function CallsIn(calls: seq<Call>, thread: ThreadId): seq<Call> {
    if calls == [] then []
    else
      CallsIn(calls[..|calls| - 1], thread)
      + if calls[|calls| - 1].thread == thread then [calls[|calls| - 1]] else []
  }

  /** Every item queued for the thread has been handled once, in order, or still waits behind
      those; no more than four wait; and the calls made for the thread are, in order, those of
      the handled items whose target was ready. */
  predicate ConservedAt(w: World, t: ThreadId) {
    && At(w.queued, t) == Items(At(w.handled, t)) + At(w.queues, t)
    && |At(w.queues, t)| <= MAX_QUEUED_PER_THREAD
    && CallsIn(w.calls, t) == CallsOf(At(w.handled, t), t)
  }

  ghost predicate Conserved(w: World) {
    forall t :: ConservedAt(w, t)
  }

  lemma LogGrows(log: seq<Handling>, h: Handling, thread: ThreadId)
    ensures Items(log + [h]) == Items(log) + [h.item]
    ensures CallsOf(log + [h], thread) == CallsOf(log, thread) + CallsFor(h.item, h.fate, thread)
  {
    assert (log + [h])[..|log|] == log;
  }

  lemma CallsGrow(calls: seq<Call>, item: Item, fate: Fate, thread: ThreadId, t: ThreadId)
    ensures CallsIn(calls + CallsFor(item, fate, thread), t)
            == CallsIn(calls, t) + if t == thread then CallsFor(item, fate, thread) else []
  {
    var more := CallsFor(item, fate, thread);
    if more == [] {
      assert calls + more == calls && CallsIn(calls, t) + [] == CallsIn(calls, t);
    } else {
      assert (calls + more)[..|calls|] == calls;
      assert CallsIn(calls, t) + [] == CallsIn(calls, t);
    }
  }

  /** What concerns thread `t` of a list that is for `thread`. */
  function For(t: ThreadId, thread: ThreadId, items: seq<Item>): seq<Item> {
    if t == thread then items else []
  }

  /** Handling one item logs that item, and keeps calls and log together. */
  lemma HandleLogs(w: World, thread: ThreadId, item: Item, turn: Turn, t: ThreadId)
    requires CallsIn(w.calls, t) == CallsOf(At(w.handled, t), t)
    ensures var after := Handle(w, thread, item, turn);
            && Items(At(after.handled, t)) == Items(At(w.handled, t)) + For(t, thread, [item])
            && CallsIn(after.calls, t) == CallsOf(At(after.handled, t), t)
  {
    CallsGrow(w.calls, item, turn.fate, thread, t);
    LogGrows(At(w.handled, t), Handling(item, turn.fate), t);
    assert Items(At(w.handled, t)) + [] == Items(At(w.handled, t));
    assert CallsIn(w.calls, t) + [] == CallsIn(w.calls, t);
  }

  /** Handling a list logs exactly that list, in order, for its thread and no other. */
  lemma {:induction false} HandleAllLogs(w: World, thread: ThreadId, items: seq<Item>, turns: seq<Turn>, t: ThreadId)
    requires |items| == |turns| && CallsIn(w.calls, t) == CallsOf(At(w.handled, t), t)
    ensures var after := HandleAll(w, thread, items, turns);
            && after.queues == w.queues && after.queued == w.queued && after.next == w.next
            && Items(At(after.handled, t)) == Items(At(w.handled, t)) + For(t, thread, items)
            && CallsIn(after.calls, t) == CallsOf(At(after.handled, t), t)
    decreases |items|
  {
    if items == [] {
      assert Items(At(w.handled, t)) + [] == Items(At(w.handled, t));
    } else {
      HandleLogs(w, thread, items[0], turns[0], t);
      HandleAllLogs(Handle(w, thread, items[0], turns[0]), thread, items[1..], turns[1..], t);
      FirstThenRest(Items(At(w.handled, t)), t, thread, items);
    }
  }

  lemma FirstThenRest(done: seq<Item>, t: ThreadId, thread: ThreadId, items: seq<Item>)
    requires items != []
    ensures done + For(t, thread, [items[0]]) + For(t, thread, items[1..]) == done + For(t, thread, items)
  {
  }

  /** Handling leaves the tasks as the patches leave them, one after another. */
  lemma {:induction false} HandleAllRows(w: World, thread: ThreadId, items: seq<Item>, turns: seq<Turn>)
    requires |items| == |turns|
    ensures HandleAll(w, thread, items, turns).rows == HandleRows(w.rows, items, turns)
    decreases |items|
  {
    if items != [] { HandleAllRows(Handle(w, thread, items[0], turns[0]), thread, items[1..], turns[1..]); }
  }

  lemma TakenOff(w: World, thread: ThreadId, turns: seq<Turn>, t: ThreadId)
    requires ConservedAt(w, t) && |turns| == |At(w.queues, thread)|
    ensures ConservedAt(TakeOff(w, thread, turns), t)
  {
    HandleAllLogs(w.(queues := w.queues - {thread}), thread, At(w.queues, thread), turns, t);
    var after := HandleAll(w.(queues := w.queues - {thread}), thread, At(w.queues, thread), turns);
    var log := Items(At(after.handled, t));
    if t == thread {
      assert At(after.queues, t) == [] && log + [] == log;
    } else {
      assert At(after.queues, t) == At(w.queues, t) && log == Items(At(w.handled, t)) + [] == Items(At(w.handled, t));
    }
  }

  lemma StepConserves(w: World, e: Event, t: ThreadId)
    requires ConservedAt(w, t) && Possible(w, e)
    ensures ConservedAt(Advance(w, e), t)
  {
    match e
    case Queue(thread, r, now, task, rows) =>
      Associate(Items(At(w.handled, t)), At(w.queues, t), [Item(r.to, r.depth, r.message, task)]);
    case Drain(thread, lead, looks) => TakenOff(w, thread, Faced(lead, looks), t);
    case Discard(thread, clocks) => TakenOff(w, thread, Dropping(clocks), t);
    case Other(_, _) =>
  }

  lemma Associate(handled: seq<Item>, waiting: seq<Item>, item: seq<Item>)
    ensures handled + waiting + item == handled + (waiting + item)
  {
  }

  /** In every run: nothing queued is lost, handled twice or out of turn, no thread has more
      than four waiting, and its calls are those of its handled items whose target was ready. */
  lemma {:induction false} RunConserves(w: World, trace: seq<Event>)
    requires Conserved(w) && AllPossible(w, trace)
    ensures Conserved(Run(w, trace))
    decreases |trace|
  {
    if trace != [] {
      var next := Advance(w, trace[0]);
      forall t ensures ConservedAt(next, t) {
        assert ConservedAt(w, t);
        StepConserves(w, trace[0], t);
      }
      RunConserves(next, trace[1..]);
    }
  }

  lemma {:induction false} HandleAllElsewhere(w: World, thread: ThreadId, items: seq<Item>, turns: seq<Turn>,
                                              t: ThreadId)
    requires |items| == |turns| && t != thread
    ensures var after := HandleAll(w, thread, items, turns);
            && after.queues == w.queues && At(after.handled, t) == At(w.handled, t)
            && CallsIn(after.calls, t) == CallsIn(w.calls, t)
    decreases |items|
  {
    if items != [] {
      CallsGrow(w.calls, items[0], turns[0].fate, thread, t);
      assert CallsIn(w.calls, t) + [] == CallsIn(w.calls, t);
      HandleAllElsewhere(Handle(w, thread, items[0], turns[0]), thread, items[1..], turns[1..], t);
    }
  }

  lemma TakenOffElsewhere(w: World, thread: ThreadId, turns: seq<Turn>, t: ThreadId)
    requires |turns| == |At(w.queues, thread)| && t != thread
    ensures var after := TakeOff(w, thread, turns);
            && At(after.queues, t) == At(w.queues, t) && At(after.handled, t) == At(w.handled, t)
            && CallsIn(after.calls, t) == CallsIn(w.calls, t)
  {
    HandleAllElsewhere(w.(queues := w.queues - {thread}), thread, At(w.queues, thread), turns, t);
  }

  /** Another thread's queue, log and calls are not touched. */
  lemma OthersUntouched(w: World, e: Event, t: ThreadId)
    requires Possible(w, e) && (e.Other? || e.thread != t)
    ensures var after := Advance(w, e);
            && At(after.queues, t) == At(w.queues, t) && At(after.handled, t) == At(w.handled, t)
            && CallsIn(after.calls, t) == CallsIn(w.calls, t)
  {
    match e
    case Drain(thread, lead, looks) => TakenOffElsewhere(w, thread, Faced(lead, looks), t);
    case Discard(thread, clocks) => TakenOffElsewhere(w, thread, Dropping(clocks), t);
    case _ =>
  }

  // ----- what is asked for, and what comes of it -----

  /** A request is taken exactly from another bot, under the depth limit, for a known bot, with
      fewer than four waiting; the first of these to fail is the answer. */
  lemma TakenExactly(waiting: seq<Item>, r: Request)
    ensures var answer := Outcome(waiting, r);
            && (answer == Ok <==> r.to != r.from && r.depth < r.maxDepth && r.known && |waiting| < 4)
            && (answer == Self <==> r.to == r.from)
            && (answer == TooDeep <==> r.to != r.from && r.depth >= r.maxDepth)
            && (answer == NoTarget <==> r.to != r.from && r.depth < r.maxDepth && !r.known)
  {
  }

  /** The event is a request for just this item, and may be taken. */
  predicate Asks(e: Event, thread: ThreadId, item: Item) {
    && e.Queue? && e.thread == thread && e.task == item.task
    && e.request.to == item.to && e.request.message == item.message && e.request.depth == item.depth
    && e.request.to != e.request.from && e.request.known && e.request.depth < e.request.maxDepth
  }

  ghost predicate Asked(past: seq<Event>, thread: ThreadId, item: Item) {
    exists i :: 0 <= i < |past| && Asks(past[i], thread, item)
  }

  ghost predicate ItemsAsked(past: seq<Event>, thread: ThreadId, items: seq<Item>) {
    forall k :: 0 <= k < |items| ==> Asked(past, thread, items[k])
  }

  ghost predicate CallsAsked(past: seq<Event>, calls: seq<Call>) {
    forall k :: 0 <= k < |calls| ==> CallAsked(past, calls[k])
  }

  ghost predicate CallAsked(past: seq<Event>, c: Call) {
    Asked(past, c.thread, Item(c.to, c.depth - 1, c.message, c.task))
  }

  ghost predicate Backed(w: World, past: seq<Event>) {
    (forall t :: ItemsAsked(past, t, At(w.queues, t))) && CallsAsked(past, w.calls)
  }

  lemma AskedLater(past: seq<Event>, e: Event, thread: ThreadId, item: Item)
    ensures Asked(past, thread, item) || Asks(e, thread, item) ==> Asked(past + [e], thread, item)
  {
    if Asked(past, thread, item) {
      var i :| 0 <= i < |past| && Asks(past[i], thread, item);
      assert (past + [e])[i] == past[i];
    } else {
      assert (past + [e])[|past|] == e;
    }
  }

  lemma BackedLater(w: World, past: seq<Event>, e: Event)
    requires Backed(w, past)
    ensures Backed(w, past + [e])
  {
    forall t ensures ItemsAsked(past + [e], t, At(w.queues, t)) {
      assert ItemsAsked(past, t, At(w.queues, t));
      forall k | 0 <= k < |At(w.queues, t)| ensures Asked(past + [e], t, At(w.queues, t)[k]) {
        AskedLater(past, e, t, At(w.queues, t)[k]);
      }
    }
    forall k | 0 <= k < |w.calls| ensures CallAsked(past + [e], w.calls[k]) {
      var c := w.calls[k];
      assert CallAsked(past, c);
      AskedLater(past, e, c.thread, Item(c.to, c.depth - 1, c.message, c.task));
    }
  }

  lemma {:induction false} HandleAllAsked(w: World, thread: ThreadId, items: seq<Item>, turns: seq<Turn>,
                                          past: seq<Event>)
    requires |items| == |turns| && ItemsAsked(past, thread, items) && CallsAsked(past, w.calls)
    ensures var after := HandleAll(w, thread, items, turns);
            after.queues == w.queues && CallsAsked(past, after.calls)
    decreases |items|
  {
    if items != [] {
      hide Asked;
      var next := Handle(w, thread, items[0], turns[0]);
      forall k | 0 <= k < |next.calls| ensures CallAsked(past, next.calls[k]) {
        if k < |w.calls| { assert CallAsked(past, w.calls[k]); } else { assert Asked(past, thread, items[0]); }
      }
      HandleAllAsked(next, thread, items[1..], turns[1..], past);
    }
  }

  lemma StepBacked(w: World, e: Event, past: seq<Event>)
    requires Backed(w, past) && Possible(w, e)
    ensures Backed(Advance(w, e), past + [e])
  {
    hide Asked;
    BackedLater(w, past, e);
    if e.Drain? || e.Discard? {
      var turns := if e.Drain? then Faced(e.lead, e.looks) else Dropping(e.clocks);
      HandleAllAsked(w.(queues := w.queues - {e.thread}), e.thread, At(w.queues, e.thread), turns, past + [e]);
    }
    var after := Advance(w, e);
    forall t ensures ItemsAsked(past + [e], t, At(after.queues, t)) {
      assert ItemsAsked(past + [e], t, At(w.queues, t));
      if e.Queue? && e.thread == t && after != w {
        AskedLater(past, e, t, Item(e.request.to, e.request.depth, e.request.message, e.task));
      }
    }
  }

  lemma {:induction false} RunBacked(w: World, past: seq<Event>, trace: seq<Event>)
    requires Backed(w, past) && AllPossible(w, trace)
    ensures Backed(Run(w, trace), past + trace)
    decreases |trace|
  {
    if trace == [] {
      assert past + trace == past;
    } else {
      StepBacked(w, trace[0], past);
      RunBacked(Advance(w, trace[0]), past + [trace[0]], trace[1..]);
      assert past + [trace[0]] + trace[1..] == past + trace;
    }
  }

  /** Every call made in a run carries the target, message and task of a request of that run, on its
      thread and one deeper. */
  lemma CallsWereAsked(w: World, trace: seq<Event>, k: nat) returns (i: nat)
    requires w.queues == map[] && w.calls == [] && AllPossible(w, trace) && k < |Run(w, trace).calls|
    ensures i < |trace| && trace[i].Queue?
    ensures var c, r := Run(w, trace).calls[k], trace[i].request;
            && c.to == r.to && c.message == r.message && c.depth == r.depth + 1
            && c.thread == trace[i].thread && c.task == trace[i].task
            && r.to != r.from && r.known && r.depth < r.maxDepth
  {
    RunBacked(w, [], trace);
    assert [] + trace == trace;
    var c := Run(w, trace).calls[k];
    assert CallAsked(trace, c);
    i :| 0 <= i < |trace| && Asks(trace[i], c.thread, Item(c.to, c.depth - 1, c.message, c.task));
  }

  lemma {:induction false} HandleAllCalls(w: World, thread: ThreadId, items: seq<Item>, turns: seq<Turn>)
    requires |items| == |turns|
    ensures var after := HandleAll(w, thread, items, turns);
            && w.calls <= after.calls && |after.calls| <= |w.calls| + |items|
            && (forall k :: 0 <= k < |items| && turns[k].fate == Meets(Ready) ==>
                  Call(items[k].to, items[k].message, items[k].depth + 1, thread, items[k].task) in after.calls)
            && ((forall k :: 0 <= k < |items| ==> turns[k].fate != Meets(Ready)) ==> after.calls == w.calls)
    decreases |items|
  {
    if items != [] {
      var next := Handle(w, thread, items[0], turns[0]);
      HandleAllCalls(next, thread, items[1..], turns[1..]);
      var after := HandleAll(next, thread, items[1..], turns[1..]);
      forall k | 0 < k < |items| ensures items[k] == items[1..][k - 1] && turns[k] == turns[1..][k - 1] {}
      if turns[0].fate == Meets(Ready) {
        assert after.calls[|w.calls|] == next.calls[|w.calls|];
      }
    }
  }

  /** A drain calls every target that is ready, if the thread still has its bot; without it, or with
      no target ready, it calls nobody, and neither does a discard. */
  lemma DrainCalls(w: World, thread: ThreadId, lead: bool, looks: seq<Look>, clocks: seq<int>)
    requires |looks| == |At(w.queues, thread)| == |clocks|
    ensures var queue, after := At(w.queues, thread), Advance(w, Drain(thread, lead, looks));
            && (forall k :: 0 <= k < |queue| && lead && looks[k].target == Ready ==>
                  Call(queue[k].to, queue[k].message, queue[k].depth + 1, thread, queue[k].task) in after.calls)
            && ((forall k :: 0 <= k < |queue| ==> !lead || looks[k].target != Ready) ==> after.calls == w.calls)
            && At(after.queues, thread) == []
    ensures var after := Advance(w, Discard(thread, clocks)); after.calls == w.calls && At(after.queues, thread) == []
  {
    var off := w.(queues := w.queues - {thread});
    HandleAllCalls(off, thread, At(w.queues, thread), Faced(lead, looks));
    HandleAllCalls(off, thread, At(w.queues, thread), Dropping(clocks));
    HandleAllQueues(off, thread, At(w.queues, thread), Faced(lead, looks));
    HandleAllQueues(off, thread, At(w.queues, thread), Dropping(clocks));
  }

  lemma {:induction false} HandleAllQueues(w: World, thread: ThreadId, items: seq<Item>, turns: seq<Turn>)
    requires |items| == |turns|
    ensures HandleAll(w, thread, items, turns).queues == w.queues
    decreases |items|
  {
    if items != [] { HandleAllQueues(Handle(w, thread, items[0], turns[0]), thread, items[1..], turns[1..]); }
  }

  /** What handling stores in the item's task: active for a ready target, cancelled for a dropped
      item, and otherwise why it was refused, blocked or stale. */
  lemma TurnStores(rows: Rows, item: Item, turn: Turn)
    requires item.task in rows
    ensures var was, t := Tidied(rows, turn.now)[item.task], TurnRows(rows, item, turn)[item.task];
            && t.updatedAt == turn.now && t.owner == was.owner && t.next == was.next && t.assignment == was.assignment
            && match turn.fate
               case Meets(Ready) => t.state == Active && t.blocker == was.blocker
               case Dropped => t.state == Cancelled && t.blocker == was.blocker
               case _ =>
                 && t.state == (if t.owner == "" || t.next == "" then Stale else Blocked)
                 && t.blocker == match turn.fate
                                 case NoLead => "The source turn finished without a lead bot"
                                 case Meets(Busy(name)) => "@" + name + " is busy"
                                 case _ => "error: delegation to " + item.to + " failed — no such bot"
  {
    PatchStores(rows, item.task, TurnPatch(item, turn.fate), turn.now);
    hide Tidied, Patched, PatchRows;
  }

  // ----- how deep targets run -----

  predicate ShallowItems(items: seq<Item>, limit: int) {
    forall i :: 0 <= i < |items| ==> items[i].depth < limit
  }

  predicate ShallowCalls(calls: seq<Call>, limit: int) {
    forall i :: 0 <= i < |calls| ==> calls[i].depth <= limit
  }

  ghost predicate Shallow(w: World, limit: int) {
    (forall t :: ShallowItems(At(w.queues, t), limit)) && ShallowCalls(w.calls, limit)
  }

  lemma {:induction false} CallsShallow(w: World, thread: ThreadId, items: seq<Item>, turns: seq<Turn>, limit: int)
    requires |items| == |turns| && ShallowItems(items, limit) && ShallowCalls(w.calls, limit)
    ensures ShallowCalls(HandleAll(w, thread, items, turns).calls, limit)
    ensures HandleAll(w, thread, items, turns).queues == w.queues
    decreases |items|
  {
    if items != [] { CallsShallow(Handle(w, thread, items[0], turns[0]), thread, items[1..], turns[1..], limit); }
  }

  lemma StepKeepsShallow(w: World, e: Event, limit: int)
    requires Shallow(w, limit) && Possible(w, e) && (e.Queue? ==> e.request.maxDepth <= limit)
    ensures Shallow(Advance(w, e), limit)
  {
    if e.Drain? || e.Discard? {
      assert ShallowItems(At(w.queues, e.thread), limit);
      var turns := if e.Drain? then Faced(e.lead, e.looks) else Dropping(e.clocks);
      CallsShallow(w.(queues := w.queues - {e.thread}), e.thread, At(w.queues, e.thread), turns, limit);
    }
    var after := Advance(w, e);
    forall t ensures ShallowItems(At(after.queues, t), limit) {
      assert ShallowItems(At(w.queues, t), limit);
    }
  }

  /** No target runs deeper than the deepest limit any caller gave; with the default, one. */
  lemma {:induction false} RunStaysShallow(w: World, trace: seq<Event>, limit: int)
    requires Shallow(w, limit) && AllPossible(w, trace)
    requires forall i :: 0 <= i < |trace| && trace[i].Queue? ==> trace[i].request.maxDepth <= limit
    ensures Shallow(Run(w, trace), limit)
    decreases |trace|
  {
    if trace != [] {
      StepKeepsShallow(w, trace[0], limit);
      assert forall i :: 0 <= i < |trace| - 1 ==> trace[1..][i] == trace[i + 1];
      RunStaysShallow(Advance(w, trace[0]), trace[1..], limit);
    }
  }

  /** With the default limit targets run at depth one at most. */
  lemma DefaultStaysShallow(w: World, trace: seq<Event>)
    requires Shallow(w, MAX_DELEGATION_DEPTH) && AllPossible(w, trace)
    requires forall i :: 0 <= i < |trace| && trace[i].Queue? ==> trace[i].request.maxDepth == MAX_DELEGATION_DEPTH
    ensures ShallowCalls(Run(w, trace).calls, 1)
  {
    RunStaysShallow(w, trace, MAX_DELEGATION_DEPTH);
  }

  // ----- no handled item's task is left pending -----

  predicate NotPending(rows: Rows, id: Id) {
    id in rows ==> rows[id].state != Pending
  }

  ghost predicate SettledLog(rows: Rows, log: seq<Handling>) {
    forall i :: 0 <= i < |log| ==> NotPending(rows, log[i].item.task)
  }

  ghost predicate Settled(w: World) {
    forall t :: SettledLog(w.rows, At(w.handled, t))
  }

  predicate NumberedItems(items: seq<Item>, next: nat) {
    forall i :: 0 <= i < |items| ==> items[i].task.n < next
  }

  /** Every task, and every item's task, has a number already given out. */
  ghost predicate Numbered(w: World) {
    && (forall id :: id in w.rows ==> id.n < w.next)
    && (forall t :: NumberedItems(At(w.queues, t), w.next))
    && (forall t :: NumberedItems(Items(At(w.handled, t)), w.next))
  }

  /** No task with a number already given out becomes pending, and none appears. */
  ghost predicate NonePends(before: Rows, after: Rows, next: nat) {
    forall id :: id in after && id.n < next ==>
      id in before && (after[id].state == Pending ==> before[id].state == Pending)
  }

  lemma PatchPendsNone(rows: Rows, id: Id, p: Patch, now: int, next: nat)
    requires p.state != Some(Pending)
    ensures NonePends(rows, PatchRows(rows, id, p, now), next)
    ensures p.state.Some? ==> NotPending(PatchRows(rows, id, p, now), id)
    ensures PatchRows(rows, id, p, now).Keys == rows.Keys
  {
  }

  lemma NonePendsOn(a: Rows, b: Rows, c: Rows, next: nat)
    requires NonePends(a, b, next) && NonePends(b, c, next)
    ensures NonePends(a, c, next)
  {
  }

  lemma ReconcilePendsNone(rows: Rows, now: int, next: nat)
    ensures NonePends(rows, Reconcile(rows, now), next) && Reconcile(rows, now).Keys == rows.Keys
  {
  }

  lemma RefreshPendsNone(tidy: Rows, i: Input, now: int, task: Id, next: nat)
    requires task in tidy
    ensures NonePends(tidy, tidy[task := Refreshed(tidy[task], i, now)], next)
  {
    assert Refreshed(tidy[task], i, now).state == Pending ==> tidy[task].state == Pending;
  }

  lemma NewPendsNone(tidy: Rows, i: Input, now: int, next: nat)
    ensures NonePends(tidy, SupersedeDisplaced(tidy, i, now)[Id(next) := NewTask(i, now)], next)
    ensures SupersedeDisplaced(tidy, i, now).Keys == tidy.Keys
  {
    var after := SupersedeDisplaced(tidy, i, now);
    forall id | id in after ensures after[id].state == Pending ==> tidy[id].state == Pending {
      assert after[id] == Ousted(tidy[id], i, now);
    }
  }

  lemma CreatePendsNone(rows: Rows, i: Input, now: int, next: nat, after: Rows, task: Id)
    requires Creates(rows, i, now, Id(next), after, task) && forall id :: id in rows ==> id.n < next
    ensures NonePends(rows, after, next) && task.n < Counted(next, task)
    ensures forall id :: id in after ==> id.n < Counted(next, task)
  {
    var tidy := Reconcile(rows, now);
    ReconcilePendsNone(rows, now, next);
    if Duplicates(tidy, i, now) != {} {
      assert task in tidy;
      RefreshPendsNone(tidy, i, now, task, next);
    } else {
      NewPendsNone(tidy, i, now, next);
    }
    NonePendsOn(rows, tidy, after, next);
  }

  lemma StillSettled(before: Rows, after: Rows, next: nat, log: seq<Handling>)
    requires SettledLog(before, log) && NonePends(before, after, next) && NumberedItems(Items(log), next)
    ensures SettledLog(after, log)
  {
    forall i | 0 <= i < |log| ensures NotPending(after, log[i].item.task) {
      assert Items(log)[i] == log[i].item && NotPending(before, log[i].item.task);
    }
  }

  lemma SettledMore(before: Rows, after: Rows, next: nat, log: seq<Handling>, h: Handling)
    requires SettledLog(before, log) && NonePends(before, after, next) && NumberedItems(Items(log), next)
    requires NotPending(after, h.item.task)
    ensures SettledLog(after, log + [h])
  {
    StillSettled(before, after, next, log);
  }

  lemma NumberedMore(log: seq<Handling>, h: Handling, next: nat)
    requires NumberedItems(Items(log), next) && h.item.task.n < next
    ensures NumberedItems(Items(log + [h]), next)
  {
    LogGrows(log, h, "t");
  }

  lemma HandleSettles(w: World, thread: ThreadId, item: Item, turn: Turn)
    requires Numbered(w) && Settled(w) && item.task.n < w.next
    ensures Settled(Handle(w, thread, item, turn))
  {
    var rows, log, h := TurnRows(w.rows, item, turn), At(w.handled, thread), Handling(item, turn.fate);
    PatchPendsNone(w.rows, item.task, TurnPatch(item, turn.fate), turn.now, w.next);
    assert SettledLog(w.rows, log) && NumberedItems(Items(log), w.next);
    SettledMore(w.rows, rows, w.next, log, h);
    forall t | t != thread ensures SettledLog(rows, At(w.handled, t)) {
      assert SettledLog(w.rows, At(w.handled, t)) && NumberedItems(Items(At(w.handled, t)), w.next);
      StillSettled(w.rows, rows, w.next, At(w.handled, t));
    }
    OneMoreLogged(w.handled, thread, h);
  }

  lemma OneMoreLogged(logs: map<ThreadId, seq<Handling>>, thread: ThreadId, h: Handling)
    ensures At(Push(logs, thread, [h]), thread) == At(logs, thread) + [h]
    ensures forall t :: t != thread ==> At(Push(logs, thread, [h]), t) == At(logs, t)
  {
  }

  lemma HandleNumbers(w: World, thread: ThreadId, item: Item, turn: Turn)
    requires Numbered(w) && item.task.n < w.next
    ensures Numbered(Handle(w, thread, item, turn))
  {
    var h := Handling(item, turn.fate);
    PatchPendsNone(w.rows, item.task, TurnPatch(item, turn.fate), turn.now, w.next);
    assert NumberedItems(Items(At(w.handled, thread)), w.next);
    NumberedMore(At(w.handled, thread), h, w.next);
    OneMoreLogged(w.handled, thread, h);
  }

  lemma {:induction false} HandleAllSettles(w: World, thread: ThreadId, items: seq<Item>, turns: seq<Turn>)
    requires |items| == |turns| && Numbered(w) && Settled(w) && NumberedItems(items, w.next)
    ensures Numbered(HandleAll(w, thread, items, turns)) && Settled(HandleAll(w, thread, items, turns))
    decreases |items|
  {
    if items != [] {
      HandleSettles(w, thread, items[0], turns[0]);
      HandleNumbers(w, thread, items[0], turns[0]);
      HandleAllSettles(Handle(w, thread, items[0], turns[0]), thread, items[1..], turns[1..]);
    }
  }

  predicate Handled(w: World, thread: ThreadId, k: nat, id: Id) {
    k < |At(w.handled, thread)| && At(w.handled, thread)[k].item.task == id
  }

  /** A patch from elsewhere that makes a handled item's task pending again. */
  ghost predicate Repends(w: World, e: Event) {
    && e.Other? && e.call.PatchTask? && e.call.id in w.rows && e.call.patch.state == Some(Pending)
    && exists t: ThreadId, k: nat :: Handled(w, t, k, e.call.id)
  }

  ghost predicate NoneRepended(w: World, trace: seq<Event>)
    requires AllPossible(w, trace)
    decreases |trace|
  {
    trace == [] || (!Repends(w, trace[0]) && NoneRepended(Advance(w, trace[0]), trace[1..]))
  }

  /** What the task store does in a step that is not a drain or a discard. */
  lemma OtherPendsNone(w: World, call: AgentTasks.Event, rows: Rows)
    requires Numbered(w) && Possible(w, Other(call, rows))
    requires call.PatchTask? ==> call.patch.state != Some(Pending) || call.id !in w.rows
    ensures NonePends(w.rows, rows, w.next)
  {
    match call
    case CreateTask(input, newId, now, task) => CreatePendsNone(w.rows, input, now, w.next, rows, task);
    case PatchTask(id, p, now) => if id in w.rows { PatchPendsNone(w.rows, id, p, now, w.next); }
    case ListTasks(now) => ReconcilePendsNone(w.rows, now, w.next);
    case DeleteForBot(bot) =>
  }

  lemma RowsNumbered(w: World, e: Event)
    requires Numbered(w) && Possible(w, e) && (e.Queue? || e.Other?)
    ensures w.next <= Advance(w, e).next
    ensures forall id :: id in Advance(w, e).rows ==> id.n < Advance(w, e).next
  {
    if e.Queue? {
      var r := e.request;
      if Outcome(At(w.queues, e.thread), r) == Ok {
        CreatePendsNone(w.rows, Input(r.to, r.from, e.thread, r.message, ""), e.now, w.next, e.rows, e.task);
      }
    } else if e.call.CreateTask? {
      CreatePendsNone(w.rows, e.call.input, e.call.now, w.next, e.rows, e.call.task);
    } else {
      assert e.rows.Keys <= w.rows.Keys;
    }
  }

  lemma NumberedUp(w: World, t: ThreadId, next: nat)
    requires Numbered(w) && w.next <= next
    ensures NumberedItems(At(w.queues, t), next) && NumberedItems(Items(At(w.handled, t)), next)
  {
    assert NumberedItems(At(w.queues, t), w.next) && NumberedItems(Items(At(w.handled, t)), w.next);
  }

  lemma TakenOffSettles(w: World, thread: ThreadId, turns: seq<Turn>)
    requires Numbered(w) && Settled(w) && |turns| == |At(w.queues, thread)|
    ensures Numbered(TakeOff(w, thread, turns)) && Settled(TakeOff(w, thread, turns))
  {
    var off := w.(queues := w.queues - {thread});
    forall t ensures NumberedItems(At(off.queues, t), w.next) {
      assert NumberedItems(At(w.queues, t), w.next);
    }
    assert NumberedItems(At(w.queues, thread), w.next);
    HandleAllSettles(off, thread, At(w.queues, thread), turns);
  }

  lemma StepKeepsNumbered(w: World, e: Event)
    requires Numbered(w) && Settled(w) && Possible(w, e)
    ensures Numbered(Advance(w, e))
  {
    match e
    case Drain(thread, lead, looks) => TakenOffSettles(w, thread, Faced(lead, looks));
    case Discard(thread, clocks) => TakenOffSettles(w, thread, Dropping(clocks));
    case _ =>
      var after := Advance(w, e);
      RowsNumbered(w, e);
      forall t
        ensures NumberedItems(At(after.queues, t), after.next) && NumberedItems(Items(At(after.handled, t)), after.next)
      {
        NumberedUp(w, t, after.next);
      }
  }

  lemma AllStillSettled(w: World, rows: Rows)
    requires Numbered(w) && Settled(w) && NonePends(w.rows, rows, w.next)
    ensures forall t :: SettledLog(rows, At(w.handled, t))
  {
    forall t ensures SettledLog(rows, At(w.handled, t)) {
      assert SettledLog(w.rows, At(w.handled, t)) && NumberedItems(Items(At(w.handled, t)), w.next);
      StillSettled(w.rows, rows, w.next, At(w.handled, t));
    }
  }

  /** A patch to pending: that task is pending, no other has become so. */
  lemma PendingPatch(w: World, id: Id, p: Patch, now: int)
    requires Settled(w) && id in w.rows && p.state == Some(Pending)
    ensures (forall t :: SettledLog(PatchRows(w.rows, id, p, now), At(w.handled, t))) <==>
            !(exists t: ThreadId, k: nat :: Handled(w, t, k, id))
  {
    var after := PatchRows(w.rows, id, p, now);
    assert !NotPending(after, id);
    assert forall other :: other != id && NotPending(w.rows, other) ==> NotPending(after, other);
    forall t ensures SettledLog(after, At(w.handled, t)) <==> !(exists k: nat :: Handled(w, t, k, id)) {
      var log := At(w.handled, t);
      assert SettledLog(w.rows, log);
      if k: nat :| Handled(w, t, k, id) {
        assert !NotPending(after, log[k].item.task);
      } else {
        forall i | 0 <= i < |log| ensures NotPending(after, log[i].item.task) {
          assert !Handled(w, t, i, id) && NotPending(w.rows, log[i].item.task);
        }
      }
    }
  }

  /** A step leaves a handled item's task pending exactly when it is such a patch. */
  lemma StepSettles(w: World, e: Event)
    requires Numbered(w) && Settled(w) && Possible(w, e)
    ensures Settled(Advance(w, e)) <==> !Repends(w, e)
  {
    match e
    case Drain(thread, lead, looks) => TakenOffSettles(w, thread, Faced(lead, looks));
    case Discard(thread, clocks) => TakenOffSettles(w, thread, Dropping(clocks));
    case Queue(thread, r, now, task, rows) =>
      if Outcome(At(w.queues, thread), r) == Ok {
        CreatePendsNone(w.rows, Input(r.to, r.from, thread, r.message, ""), now, w.next, rows, task);
        AllStillSettled(w, rows);
      }
    case Other(call, rows) =>
      if call.PatchTask? && call.id in w.rows && call.patch.state == Some(Pending) {
        PendingPatch(w, call.id, call.patch, call.now);
      } else {
        OtherPendsNone(w, call, rows);
        AllStillSettled(w, rows);
      }
  }

  /** Over queues and task store together, whatever else is done to the tasks: as long as no
      such patch is made, the task of an item once drained or dropped is not pending. */
  lemma {:induction false} RunSettles(w: World, trace: seq<Event>)
    requires Numbered(w) && Settled(w) && AllPossible(w, trace) && NoneRepended(w, trace)
    ensures Numbered(Run(w, trace)) && Settled(Run(w, trace))
    decreases |trace|
  {
    if trace != [] {
      StepKeepsNumbered(w, trace[0]);
      StepSettles(w, trace[0]);
      RunSettles(Advance(w, trace[0]), trace[1..]);
    }
  }

  // ----- the service -----

  lemma RestOf<T>(list: seq<T>, i: nat)
    requires i < |list|
    ensures list[i..] == [list[i]] + list[i + 1..] && list[i..][1..] == list[i + 1..]
  {
  }

  /** What is done, then what is still to do: one item moves over. */
  lemma OneOfAll(w: World, thread: ThreadId, list: seq<Item>, turns: seq<Turn>, i: nat)
    requires |list| == |turns| && i < |list|
    ensures var next := Handle(w, thread, list[i], turns[i]);
            && HandleAll(w, thread, list[i..], turns[i..]) == HandleAll(next, thread, list[i + 1..], turns[i + 1..])
            && Items(At(next.handled, thread)) + list[i + 1..] == Items(At(w.handled, thread)) + list[i..]
  {
    RestOf(list, i);
    RestOf(turns, i);
    LogGrows(At(w.handled, thread), Handling(list[i], turns[i].fate), thread);
    Associate(Items(At(w.handled, thread)), [list[i]], list[i + 1..]);
  }

  class DelegationQueue {
    const tasks: TaskStore
    var pending: map<ThreadId, seq<Item>>
    var calls: seq<Call>
    ghost var queued: map<ThreadId, seq<Item>>
    ghost var handled: map<ThreadId, seq<Handling>>

    ghost function Model(): World
      reads this, tasks
    {
      World(pending, calls, queued, handled, tasks.rows, tasks.count)
    }

    constructor (tasks: TaskStore)
      requires tasks.Valid()
      ensures this.tasks == tasks && Model() == World(map[], [], map[], map[], tasks.rows, tasks.count)
      ensures Conserved(Model()) && Numbered(Model()) && Settled(Model())
      ensures forall limit :: Shallow(Model(), limit)
    {
      this.tasks := tasks;
      pending, calls, queued, handled := map[], [], map[], map[];
    }

    /** On success the assignment has a task, and the item stands last in its thread's queue;
        otherwise nothing changed. */
    method QueueDelegation(thread: ThreadId, request: Request, now: int) returns (r: QueueResult, task: Id)
      requires tasks.Valid()
      modifies this, tasks
      ensures tasks.Valid() && r == old(Outcome(At(pending, thread), request))
      ensures Possible(old(Model()), Queue(thread, request, now, task, tasks.rows))
      ensures Model() == Advance(old(Model()), Queue(thread, request, now, task, tasks.rows))
    {
      task := Id(0);
      if request.to == request.from { return Self, task; }
      if request.depth >= request.maxDepth { return TooDeep, task; }
      if !request.known { return NoTarget, task; }
      var list := if thread in pending then pending[thread] else [];
      if |list| >= MAX_QUEUED_PER_THREAD { return TooMany, task; }
      task := tasks.CreateAgentTask(Input(request.to, request.from, thread, request.message, ""), now);
      Enqueue(thread, Item(request.to, request.depth, request.message, task));
      return Ok, task;
    }

    method Enqueue(thread: ThreadId, item: Item)
      modifies this
      ensures pending == Push(old(pending), thread, [item]) && queued == Push(old(queued), thread, [item])
      ensures calls == old(calls) && handled == old(handled)
    {
      var list := if thread in pending then pending[thread] else [];
      pending := pending[thread := list + [item]];
      queued := Push(queued, thread, [item]);
    }

    /** `lead` tells whether the thread still has its bot; without it every item is refused. */
    method DrainDelegations(thread: ThreadId, lead: bool, looks: seq<Look>)
      requires tasks.Valid() && Possible(Model(), Drain(thread, lead, looks))
      modifies this, tasks
      ensures tasks.Valid() && Model() == Advance(old(Model()), Drain(thread, lead, looks))
      ensures Items(At(handled, thread)) == old(Items(At(handled, thread)) + At(pending, thread))
    {
      if thread !in pending || pending[thread] == [] { return; }
      var list := pending[thread];
      pending := pending - {thread};
      ProcessAll(thread, list, Faced(lead, looks));
    }

    method DiscardDelegations(thread: ThreadId, clocks: seq<int>)
      requires tasks.Valid() && Possible(Model(), Discard(thread, clocks))
      modifies this, tasks
      ensures tasks.Valid() && Model() == Advance(old(Model()), Discard(thread, clocks))
      ensures Items(At(handled, thread)) == old(Items(At(handled, thread)) + At(pending, thread))
    {
      if thread !in pending || pending[thread] == [] { return; }
      var list := pending[thread];
      pending := pending - {thread};
      ProcessAll(thread, list, Dropping(clocks));
    }

    /** The loop of a drain, and of a discard: what is logged grows by just the items that
        leave the list. */
    method ProcessAll(thread: ThreadId, list: seq<Item>, turns: seq<Turn>)
      requires tasks.Valid() && |list| == |turns|
      modifies this`calls, this`handled, tasks
      ensures tasks.Valid() && Model() == HandleAll(old(Model()), thread, list, turns)
      ensures Items(At(handled, thread)) == old(Items(At(handled, thread))) + list
    {
      var i := 0;
      while i < |list|
        invariant 0 <= i <= |list| && tasks.Valid()
        invariant HandleAll(Model(), thread, list[i..], turns[i..]) == HandleAll(old(Model()), thread, list, turns)
        invariant Items(At(handled, thread)) + list[i..] == old(Items(At(handled, thread))) + list
      {
        OneOfAll(Model(), thread, list, turns, i);
        ProcessOne(thread, list[i], turns[i]);
        i := i + 1;
      }
    }

    method ProcessOne(thread: ThreadId, item: Item, turn: Turn)
      requires tasks.Valid()
      modifies this`calls, this`handled, tasks
      ensures tasks.Valid() && Model() == Handle(old(Model()), thread, item, turn)
    {
      match turn.fate {
        case Meets(Ready) =>
          var _ := tasks.PatchAgentTask(item.task, NO_PATCH.(state := Some(Active)), turn.now);
          calls := calls + [Call(item.to, item.message, item.depth + 1, thread, item.task)];
        case _ =>
          var _ := tasks.PatchAgentTask(item.task, TurnPatch(item, turn.fate), turn.now);
      }
      handled := Push(handled, thread, [Handling(item, turn.fate)]);
    }
  }
}

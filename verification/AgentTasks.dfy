/** The queue of tasks one bot assigns another (server/agent-tasks.ts, on its in-memory store).
    An optional text (blocker, owner, next action, run id) is told by its trimmed form, the
    empty one being absent: that is all any check reads. */
module AgentTasks {
  import opened JsText
  import opened Options

  const BLOCKED_STALE_AFTER_MS := 24 * 60 * 60 * 1000

  /** Ids of bots and threads are never empty. */
  type BotId = s: string | |s| > 0 witness "b"
  type ThreadId = s: string | |s| > 0 witness "t"

  /** Tasks are numbered as they enter the store. */
  datatype Id = Id(n: nat)

  datatype State = Pending | Active | Blocked | Completed | Cancelled | Superseded | Stale

  datatype Task = Task(
    assignee: BotId,
    from: BotId,
    thread: ThreadId,
    assignment: Text,
    state: State,
    blocker: string,
    owner: string,
    next: string,
    runId: string,
    createdAt: int,
    updatedAt: int)

  type Rows = map<Id, Task>

  // ----- what counts as active -----

  predicate HasStructuredBlocker(t: Task) {
    t.blocker != "" && t.owner != "" && t.next != ""
  }

  predicate PastStaleness(t: Task, now: int) {
    t.state == Blocked && now - t.updatedAt > BLOCKED_STALE_AFTER_MS
  }

  predicate IsActiveQueueTask(t: Task, now: int) {
    t.state == Pending || t.state == Active || (t.state == Blocked && HasStructuredBlocker(t) && !PastStaleness(t, now))
  }

  /** Not one of the archived states. */
  predicate Open(t: Task) {
    t.state == Pending || t.state == Active || t.state == Blocked
  }

  // ----- the store's update -----

  datatype Patch = Patch(
    state: Option<State>,
    blocker: Option<string>,
    owner: Option<string>,
    next: Option<string>,
    runId: Option<string>)

  const NO_PATCH := Patch(None, None, None, None, None)

  function Or<T>(o: Option<T>, other: T): T {
    if o.Some? then o.value else other
  }

  /** `{ ...task, ...patch, updatedAt }` */
  function Merge(t: Task, p: Patch, updatedAt: int): Task {
    t.(state := Or(p.state, t.state), blocker := Or(p.blocker, t.blocker), owner := Or(p.owner, t.owner),
       next := Or(p.next, t.next), runId := Or(p.runId, t.runId), updatedAt := updatedAt)
  }

  /** What `update` stores: without a blocker nothing is blocked. */
  function Normalized(t: Task): Task {
    if t.state == Blocked && t.blocker == "" then t.(state := Stale) else t
  }

  predicate ShouldPersistStale(t: Task, now: int) {
    t.state == Blocked && (!HasStructuredBlocker(t) || PastStaleness(t, now))
  }

  function Reconciled(t: Task, now: int): Task {
    if ShouldPersistStale(t, now) then Normalized(t.(state := Stale)) else t
  }

  function Reconcile(rows: Rows, now: int): Rows {
    map id | id in rows :: Reconciled(rows[id], now)
  }

  // ----- creating -----

  datatype Input = Input(assignee: BotId, from: BotId, thread: ThreadId, assignment: Text, runId: string)

  /** `trim().replace(/\s+/g, " ")` */
  function NormalizeAssignment(value: Text): Text {
    Collapse(Trim(value))
  }

  function Collapse(t: Text): Text
    decreases |t|
  {
    if t == [] then []
    else if IsSpace(t[0]) then [SPACE] + Collapse(TrimStart(t[1..]))
    else [t[0]] + Collapse(t[1..])
  }

  /** Assigned by the same bot from the same thread to the same bot. */
  predicate SameSource(t: Task, i: Input) {
    t.assignee == i.assignee && t.from == i.from && t.thread == i.thread
  }

  predicate Duplicate(t: Task, i: Input, now: int) {
    && SameSource(t, i) && IsActiveQueueTask(t, now)
    && NormalizeAssignment(t.assignment) == NormalizeAssignment(i.assignment)
  }

  function Duplicates(rows: Rows, i: Input, now: int): set<Id> {
    set id | id in rows && Duplicate(rows[id], i, now)
  }

  /** The listing order. */
  predicate Earlier(rows: Rows, a: Id, b: Id)
    requires a in rows && b in rows
  {
    rows[a].createdAt < rows[b].createdAt || (rows[a].createdAt == rows[b].createdAt && a.n < b.n)
  }

  predicate IsFirst(rows: Rows, ids: set<Id>, first: Id)
    requires ids <= rows.Keys
  {
    first in ids && forall id :: id in ids && id != first ==> Earlier(rows, first, id)
  }

  /** A duplicate found again: stamped, and bound to the run if there is one. */
  function Touched(t: Task, i: Input, now: int): Task {
    t.(updatedAt := now, runId := if i.runId != "" then i.runId else t.runId)
  }

  function Refreshed(t: Task, i: Input, now: int): Task {
    Normalized(Touched(t, i, now))
  }

  /** Displaced by a new task: open from the same source, or bound to the same run. */
  predicate Displaced(t: Task, i: Input, now: int) {
    IsActiveQueueTask(t, now) && (SameSource(t, i) || (i.runId != "" && t.runId == i.runId))
  }

  function Supersede(t: Task, now: int): Task {
    Normalized(t.(state := Superseded, updatedAt := now))
  }

  function Ousted(t: Task, i: Input, now: int): Task {
    if Displaced(t, i, now) then Supersede(t, now) else t
  }

  function SupersedeDisplaced(rows: Rows, i: Input, now: int): Rows {
    map id | id in rows :: Ousted(rows[id], i, now)
  }

  function NewTask(i: Input, now: int): Task {
    Task(i.assignee, i.from, i.thread, i.assignment, Pending, "", "", "", i.runId, now, now)
  }

  /** How `createAgentTask` changes the store, and the task it answers. */
  ghost predicate Creates(rows: Rows, i: Input, now: int, newId: Id, after: Rows, task: Id) {
    CreatesInTidy(Reconcile(rows, now), i, now, newId, after, task)
  }

  ghost predicate CreatesInTidy(tidy: Rows, i: Input, now: int, newId: Id, after: Rows, task: Id) {
    var duplicates := Duplicates(tidy, i, now);
    if duplicates != {} then
      IsFirst(tidy, duplicates, task) && after == tidy[task := Refreshed(tidy[task], i, now)]
    else
      task == newId && after == SupersedeDisplaced(tidy, i, now)[newId := NewTask(i, now)]
  }

  // ----- patching -----

  function Patched(t: Task, p: Patch, now: int): Task {
    var merged := Merge(t, p, now);
    Normalized(if merged.state == Blocked && !HasStructuredBlocker(merged) then merged.(state := Stale) else merged)
  }

  function PatchRows(rows: Rows, id: Id, p: Patch, now: int): Rows {
    var tidy := Reconcile(rows, now);
    if id in tidy then tidy[id := Patched(tidy[id], p, now)] else tidy
  }

  function DeleteFor(rows: Rows, bot: BotId): Rows {
    map id | id in rows && rows[id].assignee != bot && rows[id].from != bot :: rows[id]
  }

  // ----- which assignments are the same -----

  /** The words of a text: its longest runs without white space, in order. */
  function Words(t: Text): (words: seq<Text>)
    ensures t != [] && !IsSpace(t[0]) ==> words != [] && words[0] != [] && words[0][0] == t[0]
  {
    if t == [] then []
    else if IsSpace(t[0]) then Words(t[1..])
    else if |t| == 1 || IsSpace(t[1]) then [[t[0]]] + Words(t[1..])
    else [[t[0]] + Words(t[1..])[0]] + Words(t[1..])[1..]
  }

  function Join(words: seq<Text>): Text {
    if words == [] then [] else if |words| == 1 then words[0] else words[0] + [SPACE] + Join(words[1..])
  }

  predicate AreWords(words: seq<Text>) {
    forall k :: 0 <= k < |words| ==> words[k] != [] && forall i :: 0 <= i < |words[k]| ==> !IsSpace(words[k][i])
  }

  lemma {:induction false} WordsAreWords(t: Text)
    ensures AreWords(Words(t))
  {
    if t != [] { WordsAreWords(t[1..]); }
  }

  lemma {:induction false} WordsBeforeBlank(t: Text, blank: Text)
    requires Blank(blank)
    ensures Words(t + blank) == Words(t)
  {
    if t != [] {
      assert (t + blank)[1..] == t[1..] + blank;
      WordsBeforeBlank(t[1..], blank);
    } else if blank != [] {
      assert t + blank == blank && blank[1..] == [] + blank[1..];
      WordsBeforeBlank([], blank[1..]);
    } else {
      assert t + blank == [];
    }
  }

  lemma {:induction false} WordsAfterBlank(blank: Text, t: Text)
    requires Blank(blank)
    ensures Words(blank + t) == Words(t)
  {
    if blank == [] {
      assert blank + t == t;
    } else {
      assert (blank + t)[1..] == blank[1..] + t;
      WordsAfterBlank(blank[1..], t);
    }
  }

  lemma TrimStartWords(t: Text)
    ensures Words(TrimStart(t)) == Words(t)
  {
    var n := |t| - |TrimStart(t)|;
    WordsAfterBlank(t[..n], TrimStart(t));
    assert t == t[..n] + t[n..];
  }

  lemma TrimEndWords(t: Text)
    ensures Words(TrimEnd(t)) == Words(t)
  {
    var n := |TrimEnd(t)|;
    WordsBeforeBlank(TrimEnd(t), t[n..]);
    assert t == t[..n] + t[n..];
  }

  /** The words of a text one space apart, after one more space if it starts with white space. */
  function Spaced(t: Text): Text {
    if t != [] && IsSpace(t[0]) then [SPACE] + Join(Words(t)) else Join(Words(t))
  }

  lemma {:induction false} CollapseSpaces(t: Text)
    requires t != [] ==> !IsSpace(t[|t| - 1])
    ensures Collapse(t) == Spaced(t)
    decreases |t|
  {
    hide IsSpace;
    if t != [] {
      if IsSpace(t[0]) {
        CollapseSpaces(TrimStart(t[1..]));
        TrimStartWords(t[1..]);
      } else {
        CollapseSpaces(t[1..]);
        FirstWord(t);
      }
    }
  }

  lemma FirstWord(t: Text)
    requires t != [] && !IsSpace(t[0]) && !IsSpace(t[|t| - 1])
    ensures Spaced(t) == [t[0]] + Spaced(t[1..])
  {
    hide IsSpace, Join;
    var words := Words(t[1..]);
    if |t| > 1 && !IsSpace(t[1]) {
      JoinExtended(t[0], words);
    } else {
      if |t| > 1 { LastWord(t[1..]); }
      assert Words(t) == [[t[0]]] + words;
      JoinAdded([t[0]], words);
      if |t| == 1 { OneUnit(t); }
    }
  }

  lemma OneUnit(t: Text)
    requires |t| == 1
    ensures Spaced(t[1..]) == [] && [t[0]] + [] == [t[0]] && Words(t[1..]) == []
  {
  }

  lemma JoinExtended(u: Unit, words: seq<Text>)
    requires words != []
    ensures Join([[u] + words[0]] + words[1..]) == [u] + Join(words)
  {
    var longer := [[u] + words[0]] + words[1..];
    assert longer[1..] == words[1..] && longer[0] == [u] + words[0];
    Regroup([u], words[0], [SPACE]);
    Regroup([u], words[0] + [SPACE], Join(words[1..]));
  }

  lemma JoinAdded(word: Text, words: seq<Text>)
    ensures Join([word] + words) == if words == [] then word else word + ([SPACE] + Join(words))
  {
    assert ([word] + words)[1..] == words;
    Regroup(word, [SPACE], Join(words));
  }

  lemma {:induction false} LastWord(t: Text)
    requires t != [] && !IsSpace(t[|t| - 1])
    ensures Words(t) != []
  {
    if IsSpace(t[0]) { LastWord(t[1..]); }
  }

  lemma {:induction false} WordThen(word: Text, rest: Text)
    requires word != [] && forall i :: 0 <= i < |word| ==> !IsSpace(word[i])
    requires rest != [] ==> IsSpace(rest[0])
    ensures Words(word + rest) == [word] + Words(rest)
  {
    var t := word + rest;
    assert t[1..] == word[1..] + rest;
    if |word| > 1 {
      WordThen(word[1..], rest);
      assert word == [word[0]] + word[1..] && t[1] == word[1];
    } else {
      assert word == [word[0]] && word[1..] + rest == rest;
    }
  }

  lemma {:induction false} JoinWords(words: seq<Text>)
    requires AreWords(words)
    ensures Words(Join(words)) == words
  {
    if |words| == 1 {
      WordThen(words[0], []);
      assert words[0] + [] == words[0] && words == [words[0]];
    } else if words != [] {
      var rest := Join(words[1..]);
      JoinWords(words[1..]);
      WordThen(words[0], [SPACE] + rest);
      WordsAfterBlank([SPACE], rest);
      assert words[0] + ([SPACE] + rest) == Join(words);
      assert words == [words[0]] + words[1..];
    }
  }

  /** Two assignments count as the same exactly when they have the same words in the same order. */
  lemma SameExactlyWhenSameWords(a: Text, b: Text)
    ensures NormalizeAssignment(a) == NormalizeAssignment(b) <==> Words(a) == Words(b)
  {
    NormalizedWords(a);
    NormalizedWords(b);
  }

  lemma NormalizedWords(t: Text)
    ensures NormalizeAssignment(t) == Join(Words(t)) && Words(NormalizeAssignment(t)) == Words(t)
  {
    var r := Trim(t);
    assert r != [] ==> r[|r| - 1] == TrimEnd(t)[|TrimEnd(t)| - 1];
    TrimEndWords(t);
    TrimStartWords(TrimEnd(t));
    CollapseSpaces(r);
    WordsAreWords(t);
    JoinWords(Words(t));
  }

  // ----- what is stored -----

  /** Blocked without blocker, owner or next action, or for more than a day. */
  predicate Stalls(t: Task, now: int) {
    t.state == Blocked && (t.blocker == "" || t.owner == "" || t.next == "" || now - t.updatedAt > 86_400_000)
  }

  /** The store once the stalled tasks are stale. */
  function Tidied(rows: Rows, now: int): Rows {
    map id | id in rows :: if Stalls(rows[id], now) then rows[id].(state := Stale) else rows[id]
  }

  lemma ReconcileIsTidied(rows: Rows, now: int)
    ensures Reconcile(rows, now) == Tidied(rows, now)
  {
    forall id | id in rows ensures Reconcile(rows, now)[id] == Tidied(rows, now)[id] { StallsExactly(rows[id], now); }
  }

  lemma StallsExactly(t: Task, now: int)
    ensures Reconciled(t, now) == if Stalls(t, now) then t.(state := Stale) else t
  {
  }

  /** A patch stores every field it names and the time, and leaves every other field and task as it
      was once stalled ones are stale; what is blocked without its three fields is stored as stale. */
  lemma PatchStores(rows: Rows, id: Id, p: Patch, now: int)
    requires id in rows
    ensures var was, t := Tidied(rows, now)[id], Patched(Tidied(rows, now)[id], p, now);
            && PatchRows(rows, id, p, now) == Tidied(rows, now)[id := t]
            && t.assignee == was.assignee && t.from == was.from && t.thread == was.thread
            && t.assignment == was.assignment && t.createdAt == was.createdAt && t.updatedAt == now
            && t.blocker == (if p.blocker.Some? then p.blocker.value else was.blocker)
            && t.owner == (if p.owner.Some? then p.owner.value else was.owner)
            && t.next == (if p.next.Some? then p.next.value else was.next)
            && t.runId == (if p.runId.Some? then p.runId.value else was.runId)
            && var asked := if p.state.Some? then p.state.value else was.state;
               t.state == if asked == Blocked && (t.blocker == "" || t.owner == "" || t.next == "") then Stale
                          else asked
  {
    ReconcileIsTidied(rows, now);
    PatchedFields(Tidied(rows, now)[id], p, now);
  }

  lemma PatchedFields(was: Task, p: Patch, now: int)
    ensures var t := Patched(was, p, now);
            && SameKey(was, t) && t.assignment == was.assignment && t.createdAt == was.createdAt && t.updatedAt == now
            && t.blocker == Or(p.blocker, was.blocker) && t.owner == Or(p.owner, was.owner)
            && t.next == Or(p.next, was.next) && t.runId == Or(p.runId, was.runId)
            && var asked := Or(p.state, was.state);
               t.state == if asked == Blocked && (t.blocker == "" || t.owner == "" || t.next == "") then Stale
                          else asked
  {
  }

  /** An open task from the same source with the same words. */
  predicate Matches(t: Task, i: Input) {
    && (t.state == Pending || t.state == Active || t.state == Blocked)
    && t.assignee == i.assignee && t.from == i.from && t.thread == i.thread
    && Words(t.assignment) == Words(i.assignment)
  }

  /** An open task from the same source, or bound to the same run. */
  predicate Yields(t: Task, i: Input) {
    && (t.state == Pending || t.state == Active || t.state == Blocked)
    && ((t.assignee == i.assignee && t.from == i.from && t.thread == i.thread) || (i.runId != "" && t.runId == i.runId))
  }

  /** Once stalled tasks are stale: if an open task of the same source has the same words, the
      earliest such task is answered, stamped and bound to the run; otherwise every open task of the
      same source or run is superseded, and the new one is stored.  Nothing else changes. */
  lemma CreateStores(rows: Rows, i: Input, now: int, newId: Id, after: Rows, task: Id)
    requires newId !in rows && Creates(rows, i, now, newId, after, task)
    ensures var tidy := Tidied(rows, now);
            if exists id :: id in tidy && Matches(tidy[id], i) then
              && task in tidy && Matches(tidy[task], i)
              && (forall id :: id in tidy && Matches(tidy[id], i) && id != task ==>
                    || tidy[task].createdAt < tidy[id].createdAt
                    || (tidy[task].createdAt == tidy[id].createdAt && task.n < id.n))
              && after == tidy[task := tidy[task].(updatedAt := now,
                                                   runId := if i.runId == "" then tidy[task].runId else i.runId)]
            else
              && task == newId && after.Keys == tidy.Keys + {newId}
              && after[newId]
                 == Task(i.assignee, i.from, i.thread, i.assignment, Pending, "", "", "", i.runId, now, now)
              && forall id :: id in tidy ==>
                   after[id] == if Yields(tidy[id], i) then tidy[id].(state := Superseded, updatedAt := now)
                                else tidy[id]
  {
    hide Tidied, Reconcile, Matches, Yields, Words, NormalizeAssignment, Duplicate, Ousted, Refreshed;
    var tidy := Tidied(rows, now);
    ReconcileIsTidied(rows, now);
    TidiedKeys(rows, now);
    forall id | id in tidy
      ensures id in Duplicates(tidy, i, now) <==> Matches(tidy[id], i)
      ensures Ousted(tidy[id], i, now)
           == if Yields(tidy[id], i) then tidy[id].(state := Superseded, updatedAt := now) else tidy[id]
      ensures Matches(tidy[id], i) ==>
                Refreshed(tidy[id], i, now)
                == tidy[id].(updatedAt := now, runId := if i.runId == "" then tidy[id].runId else i.runId)
    {
      TidiedDuplicate(rows[id], tidy[id], i, now);
    }
  }

  lemma TidiedKeys(rows: Rows, now: int)
    ensures Tidied(rows, now).Keys == rows.Keys
    ensures forall id :: id in rows ==>
              Tidied(rows, now)[id] == if Stalls(rows[id], now) then rows[id].(state := Stale) else rows[id]
  {
  }

  lemma TidiedDuplicate(was: Task, t: Task, i: Input, now: int)
    requires t == if Stalls(was, now) then was.(state := Stale) else was
    ensures Duplicate(t, i, now) <==> Matches(t, i)
    ensures Ousted(t, i, now) == if Yields(t, i) then t.(state := Superseded, updatedAt := now) else t
    ensures Matches(t, i) ==>
              Refreshed(t, i, now) == t.(updatedAt := now, runId := if i.runId == "" then t.runId else i.runId)
  {
    SameExactlyWhenSameWords(t.assignment, i.assignment);
    hide NormalizeAssignment, Words;
  }

  lemma {:induction false} FirstExists(rows: Rows, ids: set<Id>) returns (first: Id)
    requires ids <= rows.Keys && ids != {}
    ensures IsFirst(rows, ids, first)
    decreases ids
  {
    var x :| x in ids;
    var rest := ids - {x};
    assert forall id :: id in ids && id != x ==> id in rest;
    first := x;
    if rest != {} {
      var r := FirstExists(rows, rest);
      if Earlier(rows, r, x) { first := r; }
      forall id | id in ids && id != first ensures Earlier(rows, first, id) {
        if id != x && id != r { assert Earlier(rows, r, id); }
      }
    }
  }

  /** Whatever the store holds, every creation has its outcome. */
  lemma CreateHappens(rows: Rows, i: Input, now: int, newId: Id) returns (after: Rows, task: Id)
    requires newId !in rows
    ensures Step(rows, CreateTask(i, newId, now, task), after)
  {
    hide Reconcile, Duplicate;
    var tidy := Reconcile(rows, now);
    if Duplicates(tidy, i, now) == {} {
      task, after := newId, SupersedeDisplaced(tidy, i, now)[newId := NewTask(i, now)];
    } else {
      task := FirstExists(tidy, Duplicates(tidy, i, now));
      after := tidy[task := Refreshed(tidy[task], i, now)];
    }
  }

  /** Deleting for a bot leaves no task it gave or was given, and every other task as it was. */
  lemma DeletesExactly(rows: Rows, bot: BotId, id: Id)
    requires id in rows
    ensures var after := DeleteFor(rows, bot);
            && after.Keys <= rows.Keys
            && (bot == rows[id].assignee || bot == rows[id].from <==> id !in after)
            && (id in after ==> after[id] == rows[id])
  {
  }

  // ----- the active list is the open states -----

  /** At `now` the stored state alone tells which tasks are active. */
  ghost predicate Tidy(rows: Rows, now: int) {
    forall id :: id in rows ==> TidyTask(rows[id], now)
  }

  predicate TidyTask(t: Task, now: int) {
    IsActiveQueueTask(t, now) <==> Open(t)
  }

  lemma ReconcileTidies(rows: Rows, now: int)
    ensures Tidy(Reconcile(rows, now), now)
  {
  }

  /** After creating, patching or listing at `now`, a task is active exactly when it is stored
      as pending, active or blocked. */
  lemma CreateTidies(rows: Rows, i: Input, now: int, newId: Id, after: Rows, task: Id)
    requires Creates(rows, i, now, newId, after, task)
    ensures Tidy(after, now)
  {
  }

  lemma PatchTidies(rows: Rows, id: Id, p: Patch, now: int)
    ensures Tidy(PatchRows(rows, id, p, now), now)
  {
  }

  // ----- one open task per source -----

  predicate SameKey(a: Task, b: Task) {
    a.assignee == b.assignee && a.from == b.from && a.thread == b.thread
  }

  ghost predicate OneOpen(rows: Rows) {
    forall a, b :: a in rows && b in rows && a != b && SameKey(rows[a], rows[b]) ==> !(Open(rows[a]) && Open(rows[b]))
  }

  /** The same tasks, some of them closed or moved on, none opened. */
  ghost predicate OnlyCloses(before: Rows, after: Rows) {
    && after.Keys <= before.Keys
    && forall id :: id in after ==> SameKey(before[id], after[id]) && (Open(after[id]) ==> Open(before[id]))
  }

  /** Every old task is still there, and none of them was opened. */
  ghost predicate OpensNone(before: Rows, after: Rows) {
    && before.Keys <= after.Keys
    && forall id :: id in before ==> SameKey(before[id], after[id]) && (Open(after[id]) ==> Open(before[id]))
  }

  lemma ClosingKeepsOneOpen(before: Rows, after: Rows)
    requires OneOpen(before) && OnlyCloses(before, after)
    ensures OneOpen(after)
  {
  }

  lemma ReconcileOnlyCloses(rows: Rows, now: int)
    ensures OnlyCloses(rows, Reconcile(rows, now))
  {
  }

  /** The task answered is the one asked for, with the same words. */
  lemma CreateAnswers(rows: Rows, i: Input, now: int, newId: Id, after: Rows, task: Id)
    requires newId !in rows && Creates(rows, i, now, newId, after, task)
    ensures task in after && SameSource(after[task], i)
    ensures Words(after[task].assignment) == Words(i.assignment)
  {
    hide Creates, Words, Tidied, Yields;
    CreateStores(rows, i, now, newId, after, task);
  }

  /** Creating never opens an old task, and the task it answers is the only open one of its
      source. */
  lemma CreateKeepsOneOpen(rows: Rows, i: Input, now: int, newId: Id, after: Rows, task: Id)
    requires OneOpen(rows) && newId !in rows && Creates(rows, i, now, newId, after, task)
    ensures OneOpen(after) && task in after && Open(after[task]) && OpensNone(rows, after)
  {
    hide OneOpen, OpensNone, OnlyCloses, Tidy, Duplicate;
    var tidy := Reconcile(rows, now);
    ReconcileTidies(rows, now);
    ReconcileOnlyCloses(rows, now);
    ClosingKeepsOneOpen(rows, tidy);
    if Duplicates(tidy, i, now) != {} {
      DuplicateActive(tidy[task], i, now);
      RefreshKeepsOneOpen(tidy, i, now, task);
    } else {
      NewKeepsOneOpen(tidy, i, now, newId);
    }
    ThenOpensNone(rows, tidy, after);
  }

  lemma DuplicateActive(t: Task, i: Input, now: int)
    requires Duplicate(t, i, now)
    ensures IsActiveQueueTask(t, now)
  {
  }

  lemma ThenOpensNone(a: Rows, b: Rows, c: Rows)
    requires OnlyCloses(a, b) && a.Keys == b.Keys && OpensNone(b, c)
    ensures OpensNone(a, c)
  {
  }

  lemma RefreshKeepsOneOpen(tidy: Rows, i: Input, now: int, task: Id)
    requires OneOpen(tidy) && task in tidy && IsActiveQueueTask(tidy[task], now)
    ensures var after := tidy[task := Refreshed(tidy[task], i, now)];
            OneOpen(after) && OpensNone(tidy, after) && Open(after[task])
  {
  }

  lemma NewKeepsOneOpen(tidy: Rows, i: Input, now: int, newId: Id)
    requires OneOpen(tidy) && Tidy(tidy, now) && newId !in tidy
    ensures OneOpen(SupersedeDisplaced(tidy, i, now)[newId := NewTask(i, now)])
    ensures OpensNone(tidy, SupersedeDisplaced(tidy, i, now)[newId := NewTask(i, now)])
  {
    var after := SupersedeDisplaced(tidy, i, now)[newId := NewTask(i, now)];
    forall id | id in tidy
      ensures SameKey(tidy[id], after[id]) && (Open(after[id]) ==> Open(tidy[id]) && !SameSource(after[id], i))
    {
      OustedCloses(tidy[id], i, now);
      assert after[id] == Ousted(tidy[id], i, now);
    }
    hide SupersedeDisplaced, Ousted, Tidy;
  }

  /** What stays open is from another source. */
  lemma OustedCloses(t: Task, i: Input, now: int)
    requires TidyTask(t, now)
    ensures var after := Ousted(t, i, now);
            SameKey(t, after) && (Open(after) ==> Open(t) && !SameSource(after, i))
  {
  }

  /** Whether a patch opens a task that was archived, as the store stands at `now`, beside
      another open one of the same source. */
  ghost predicate Reopens(rows: Rows, id: Id, p: Patch, now: int) {
    var tidy := Reconcile(rows, now);
    id in tidy && !Open(tidy[id]) && Open(Patched(tidy[id], p, now)) && Crowded(tidy, id)
  }

  /** A patch keeps one open task per source exactly when it re-opens none beside another. */
  lemma PatchKeepsOneOpen(rows: Rows, id: Id, p: Patch, now: int)
    requires OneOpen(rows)
    ensures OneOpen(PatchRows(rows, id, p, now)) <==> !Reopens(rows, id, p, now)
  {
    var tidy := Reconcile(rows, now);
    ReconcileOnlyCloses(rows, now);
    ClosingKeepsOneOpen(rows, tidy);
    if id in tidy {
      var t := Patched(tidy[id], p, now);
      assert SameKey(tidy[id], t);
      ReplaceKeepsOneOpen(tidy, id, t);
    }
  }

  ghost predicate Crowded(rows: Rows, id: Id)
    requires id in rows
  {
    exists other :: other in rows && other != id && SameKey(rows[other], rows[id]) && Open(rows[other])
  }

  lemma ReplaceKeepsOneOpen(rows: Rows, id: Id, t: Task)
    requires OneOpen(rows) && id in rows && SameKey(rows[id], t)
    ensures OneOpen(rows[id := t]) <==> !(!Open(rows[id]) && Open(t) && Crowded(rows, id))
  {
    var after := rows[id := t];
    if Open(t) && Crowded(rows, id) {
      var other :| other in rows && other != id && SameKey(rows[other], rows[id]) && Open(rows[other]);
      assert SameKey(after[other], after[id]);
    }
    if !(!Open(rows[id]) && Open(t) && Crowded(rows, id)) {
      forall other | other in after && other != id && SameKey(after[other], after[id]) && Open(after[other])
        ensures !Open(after[id])
      {
        assert SameKey(rows[other], rows[id]);
      }
    }
  }

  /** A patch leaves a task blocked exactly when blocker, owner and next action are all there;
      a blocked one without them is stored as stale. */
  lemma BlockedNeedsStructure(t: Task, p: Patch, now: int)
    ensures Or(p.state, t.state) == Blocked ==>
              Patched(t, p, now).state == if HasStructuredBlocker(Merge(t, p, now)) then Blocked else Stale
    ensures Or(p.state, t.state) != Blocked ==> Patched(t, p, now).state == Or(p.state, t.state)
  {
  }

  // ----- whole histories -----

  datatype Event =
    | CreateTask(input: Input, newId: Id, now: int, task: Id)
    | PatchTask(id: Id, patch: Patch, now: int)
    | ListTasks(now: int)
    | DeleteForBot(bot: BotId)

  /** One call takes the store from one state to the next. */
  ghost predicate Step(rows: Rows, e: Event, after: Rows) {
    match e
    case CreateTask(input, newId, now, task) => newId !in rows && Creates(rows, input, now, newId, after, task)
    case PatchTask(id, p, now) => after == PatchRows(rows, id, p, now)
    case ListTasks(now) => after == Reconcile(rows, now)
    case DeleteForBot(bot) => after == DeleteFor(rows, bot)
  }

  /** The states a history goes through. */
  ghost predicate History(states: seq<Rows>, trace: seq<Event>) {
    |states| == |trace| + 1 && forall i :: 0 <= i < |trace| ==> StepAt(states, trace, i)
  }

  ghost predicate StepAt(states: seq<Rows>, trace: seq<Event>, i: nat)
    requires |states| == |trace| + 1 && i < |trace|
  {
    Step(states[i], trace[i], states[i + 1])
  }

  ghost predicate Reopening(rows: Rows, e: Event) {
    e.PatchTask? && Reopens(rows, e.id, e.patch, e.now)
  }

  lemma StepKeepsOneOpen(rows: Rows, e: Event, after: Rows)
    requires OneOpen(rows) && Step(rows, e, after)
    ensures OneOpen(after) <==> !Reopening(rows, e)
  {
    match e
    case CreateTask(input, newId, now, task) => CreateKeepsOneOpen(rows, input, now, newId, after, task);
    case PatchTask(id, p, now) => PatchKeepsOneOpen(rows, id, p, now);
    case ListTasks(now) =>
      ReconcileOnlyCloses(rows, now);
      ClosingKeepsOneOpen(rows, after);
    case DeleteForBot(bot) =>
      assert OnlyCloses(rows, after);
      ClosingKeepsOneOpen(rows, after);
  }

  /** From an empty store a history has at most one open task per source at every moment
      exactly when it holds no such patch. */
  lemma {:induction false} HistoryKeepsOneOpen(states: seq<Rows>, trace: seq<Event>, n: nat)
    requires History(states, trace) && states[0] == map[] && n < |states|
    ensures (forall i :: 0 <= i <= n ==> OneOpen(states[i])) <==>
              forall i :: 0 <= i < n ==> !Reopening(states[i], trace[i])
  {
    if n > 0 {
      HistoryKeepsOneOpen(states, trace, n - 1);
      assert StepAt(states, trace, n - 1);
      if OneOpen(states[n - 1]) { StepKeepsOneOpen(states[n - 1], trace[n - 1], states[n]); }
    }
  }

  // ----- the store -----

  class TaskStore {
    var rows: Rows
    var count: nat

    /** New ids are past all used ones. */
    ghost predicate Valid()
      reads this
    {
      forall id :: id in rows ==> id.n < count
    }

    constructor ()
      ensures Valid() && rows == map[]
    {
      rows, count := map[], 0;
    }

    method ReconcileStaleBlocked(now: int)
      requires Valid()
      modifies this`rows
      ensures Valid() && rows == Reconcile(old(rows), now)
    {
      var todo := rows.Keys;
      while todo != {}
        invariant todo <= rows.Keys == old(rows).Keys
        invariant forall id :: id in rows ==>
                    rows[id] == if id in todo then old(rows)[id] else Reconciled(old(rows)[id], now)
        decreases todo
      {
        var id :| id in todo;
        var task := rows[id];
        if ShouldPersistStale(task, now) {
          rows := rows[id := Normalized(task.(state := Stale))];
        }
        todo := todo - {id};
      }
      assert rows == Reconcile(old(rows), now);
    }

    /** The first of the tasks in listing order. */
    method First(ids: set<Id>) returns (first: Id)
      requires ids <= rows.Keys && ids != {}
      ensures IsFirst(rows, ids, first)
    {
      first :| first in ids;
      var todo := ids - {first};
      while todo != {}
        invariant todo <= ids && first in ids
        invariant forall id :: id in ids && id !in todo && id != first ==> Earlier(rows, first, id)
        decreases todo
      {
        var id :| id in todo;
        if id != first && Earlier(rows, id, first) { first := id; }
        todo := todo - {id};
      }
    }

    method SupersedeAll(input: Input, now: int)
      requires Valid()
      modifies this`rows
      ensures Valid() && rows == SupersedeDisplaced(old(rows), input, now)
    {
      var todo := rows.Keys;
      while todo != {}
        invariant todo <= rows.Keys == old(rows).Keys
        invariant forall id :: id in rows ==>
                    rows[id] == if id in todo then old(rows)[id] else Ousted(old(rows)[id], input, now)
        decreases todo
      {
        var id :| id in todo;
        if Displaced(rows[id], input, now) { rows := rows[id := Supersede(rows[id], now)]; }
        todo := todo - {id};
      }
      assert rows == SupersedeDisplaced(old(rows), input, now);
    }

    method CreateInTidyStore(input: Input, now: int) returns (task: Id)
      requires Valid()
      modifies this
      ensures Valid() && CreatesInTidy(old(rows), input, now, Id(old(count)), rows, task)
      ensures count == if task == Id(old(count)) then old(count) + 1 else old(count)
    {
      var duplicates := Duplicates(rows, input, now);
      if duplicates != {} {
        task := First(duplicates);
        rows := rows[task := Refreshed(rows[task], input, now)];
      } else {
        SupersedeAll(input, now);
        task := Id(count);
        rows, count := rows[task := NewTask(input, now)], count + 1;
      }
    }

    method CreateAgentTask(input: Input, now: int) returns (task: Id)
      requires Valid()
      modifies this
      ensures Valid() && Id(old(count)) !in old(rows)
      ensures Creates(old(rows), input, now, Id(old(count)), rows, task)
      ensures count == if task == Id(old(count)) then old(count) + 1 else old(count)
      ensures Tidy(rows, now)
    {
      ghost var before, newId := rows, Id(count);
      ReconcileStaleBlocked(now);
      task := CreateInTidyStore(input, now);
      CreateTidies(before, input, now, newId, rows, task);
    }

    method PatchAgentTask(id: Id, patch: Patch, now: int) returns (found: bool)
      requires Valid()
      modifies this`rows
      ensures Valid() && found == (id in old(rows))
      ensures rows == PatchRows(old(rows), id, patch, now)
      ensures Tidy(rows, now)
    {
      PatchTidies(rows, id, patch, now);
      ReconcileStaleBlocked(now);
      if id !in rows { return false; }
      var existing := rows[id];
      var next := Merge(existing, patch, now);
      if next.state == Blocked && !HasStructuredBlocker(next) { next := next.(state := Stale); }
      assert Normalized(next) == Patched(existing, patch, now);
      rows := rows[id := Normalized(next)];
      return true;
    }

    method DeleteTasksFor(bot: BotId) returns (n: nat)
      requires Valid()
      modifies this`rows
      ensures Valid() && rows == DeleteFor(old(rows), bot)
      ensures n == |old(rows)| - |rows|
    {
      n := 0;
      var todo := rows.Keys;
      while todo != {}
        invariant Valid() && todo <= rows.Keys <= old(rows).Keys
        invariant forall id :: id in rows ==> rows[id] == old(rows)[id]
        invariant forall id :: id in old(rows) ==>
                    (id in rows <==> id in todo || (old(rows)[id].assignee != bot && old(rows)[id].from != bot))
        invariant n == |old(rows)| - |rows|
        decreases todo
      {
        var id :| id in todo;
        if rows[id].assignee == bot || rows[id].from == bot {
          assert |rows.Keys - {id}| == |rows.Keys| - 1 && (rows - {id}).Keys == rows.Keys - {id};
          rows, n := rows - {id}, n + 1;
        }
        todo := todo - {id};
      }
      assert rows == DeleteFor(old(rows), bot);
    }
  }
}

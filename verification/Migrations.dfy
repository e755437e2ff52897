/** The migration runner (server/db/migrations.ts, `migrate`), with the process free to die
    between any two transactions. */
module Migrations {

  import opened Options

  /** Everything in the file but `schema_migrations`: table name to contents. */
  type Contents = map<string, string>

  /** `up` computes the new contents, or throws and rolls its transaction back. */
  datatype Migration = Migration(version: int, name: string, up: Contents -> Option<Contents>)

  /** The database contents and the names in `schema_migrations`, oldest first. */
  datatype Db = Db(data: Contents, applied: seq<string>)

  function Insert(m: Migration, sorted: seq<Migration>): seq<Migration> {
    if sorted == [] then [m]
    else if m.version < sorted[0].version then [m] + sorted
    else [sorted[0]] + Insert(m, sorted[1..])
  }

  /** The stable sort by version. */
  function Sorted(ms: seq<Migration>): seq<Migration> {
    if ms == [] then [] else Insert(ms[|ms| - 1], Sorted(ms[..|ms| - 1]))
  }

  /** One uninterrupted pass over `ms`; a throwing migration ends it. */
  function Complete(db: Db, ms: seq<Migration>): Db
    decreases |ms|
  {
    if ms == [] then db
    else if ms[0].name in db.applied then Complete(db, ms[1..])
    else match ms[0].up(db.data)
      case None => db
      case Some(data) => Complete(Db(data, db.applied + [ms[0].name]), ms[1..])
  }

  /** The same pass when the process dies after `commits` transactions. */
  function Crashed(db: Db, ms: seq<Migration>, commits: nat): Db
    decreases |ms|
  {
    if ms == [] || commits == 0 then db
    else if ms[0].name in db.applied then Crashed(db, ms[1..], commits)
    else match ms[0].up(db.data)
      case None => db
      case Some(data) => Crashed(Db(data, db.applied + [ms[0].name]), ms[1..], commits - 1)
  }

  /** A succession of starts, each dying after so many commits. */
  function Restarts(db: Db, ms: seq<Migration>, deaths: seq<nat>): Db
    decreases |deaths|
  {
    if deaths == [] then db else Restarts(Crashed(db, ms, deaths[0]), ms, deaths[1..])
  }

  /** Each start goes on from where the one before it died. */
  lemma {:induction false} RestartsInParts(db: Db, ms: seq<Migration>, deaths: seq<nat>, last: nat)
    ensures Restarts(db, ms, []) == db
    ensures Restarts(db, ms, deaths + [last]) == Crashed(Restarts(db, ms, deaths), ms, last)
    decreases |deaths|
  {
    if deaths == [] {
      assert deaths + [last] == [last] && [last][1..] == [];
      assert Restarts(db, ms, [last]) == Restarts(Crashed(db, ms, last), ms, []);
    } else {
      assert (deaths + [last])[1..] == deaths[1..] + [last];
      RestartsInParts(Crashed(db, ms, deaths[0]), ms, deaths[1..], last);
    }
  }

  // ----- crash points do not matter -----

  lemma {:induction false} CrashedKeepsApplied(db: Db, ms: seq<Migration>, commits: nat)
    ensures db.applied <= Crashed(db, ms, commits).applied
    decreases |ms|
  {
    if ms != [] && commits != 0 {
      if ms[0].name in db.applied {
        CrashedKeepsApplied(db, ms[1..], commits);
      } else if ms[0].up(db.data).Some? {
        CrashedKeepsApplied(Db(ms[0].up(db.data).value, db.applied + [ms[0].name]), ms[1..], commits - 1);
      }
    }
  }

  /** Whatever a dying start committed, the next complete start ends where an uninterrupted
      one would have. */
  lemma {:induction false} CrashThenComplete(db: Db, ms: seq<Migration>, commits: nat)
    ensures Complete(Crashed(db, ms, commits), ms) == Complete(db, ms)
    decreases |ms|
  {
    if ms != [] && commits != 0 {
      if ms[0].name in db.applied {
        CrashedKeepsApplied(db, ms[1..], commits);
        CrashThenComplete(db, ms[1..], commits);
      } else if ms[0].up(db.data).Some? {
        var next := Db(ms[0].up(db.data).value, db.applied + [ms[0].name]);
        CrashedKeepsApplied(next, ms[1..], commits - 1);
        assert Crashed(next, ms[1..], commits - 1).applied[|db.applied|] == ms[0].name;
        CrashThenComplete(next, ms[1..], commits - 1);
      }
    }
  }

  lemma {:induction false} RestartsThenComplete(db: Db, ms: seq<Migration>, deaths: seq<nat>)
    ensures Complete(Restarts(db, ms, deaths), ms) == Complete(db, ms)
    decreases |deaths|
  {
    if deaths != [] {
      CrashThenComplete(db, ms, deaths[0]);
      RestartsThenComplete(Crashed(db, ms, deaths[0]), ms, deaths[1..]);
    }
  }

  lemma {:induction false} EnoughCommits(db: Db, ms: seq<Migration>, commits: nat)
    requires commits >= |ms|
    ensures Crashed(db, ms, commits) == Complete(db, ms)
    decreases |ms|
  {
    if ms != [] {
      if ms[0].name in db.applied {
        EnoughCommits(db, ms[1..], commits);
      } else if ms[0].up(db.data).Some? {
        EnoughCommits(Db(ms[0].up(db.data).value, db.applied + [ms[0].name]), ms[1..], commits - 1);
      }
    }
  }

  /** A rerun applies nothing and rewrites nothing. */
  lemma RerunIsIdle(db: Db, ms: seq<Migration>)
    ensures Complete(Complete(db, ms), ms) == Complete(db, ms)
  {
    EnoughCommits(db, ms, |ms|);
    CrashThenComplete(db, ms, |ms|);
  }

  // ----- each migration once, in version order -----

  function PendingNames(applied: seq<string>, ms: seq<Migration>): seq<string>
    decreases |ms|
  {
    if ms == [] then []
    else if ms[0].name in applied then PendingNames(applied, ms[1..])
    else [ms[0].name] + PendingNames(applied + [ms[0].name], ms[1..])
  }

  ghost predicate NeverThrows(ms: seq<Migration>) {
    forall m, d :: m in ms ==> m.up(d).Some?
  }

  predicate NoRepeats(names: seq<string>) {
    forall i, j :: 0 <= i < j < |names| ==> names[i] != names[j]
  }

  /** No name is ever recorded twice, and unless a migration throws, every name of the list
      is recorded, the new ones in list order after the old ones. */
  lemma {:induction false} CompleteRecords(db: Db, ms: seq<Migration>)
    ensures NoRepeats(db.applied) ==> NoRepeats(Complete(db, ms).applied)
    ensures NeverThrows(ms) ==>
              && Complete(db, ms).applied == db.applied + PendingNames(db.applied, ms)
              && forall m :: m in ms ==> m.name in Complete(db, ms).applied
    decreases |ms|
  {
    if ms != [] {
      if ms[0].name in db.applied {
        CompleteRecords(db, ms[1..]);
        KeepsName(db, ms[1..], ms[0].name);
      } else if ms[0].up(db.data).Some? {
        var next := Db(ms[0].up(db.data).value, db.applied + [ms[0].name]);
        CompleteRecords(next, ms[1..]);
        KeepsName(next, ms[1..], ms[0].name);
      }
    }
  }

  lemma KeepsName(db: Db, ms: seq<Migration>, name: string)
    requires name in db.applied
    ensures name in Complete(db, ms).applied
  {
    EnoughCommits(db, ms, |ms|);
    CrashedKeepsApplied(db, ms, |ms|);
  }

  // ----- append-only lists -----

  predicate Ascending(ms: seq<Migration>) {
    forall i, j :: 0 <= i < j < |ms| ==> ms[i].version <= ms[j].version
  }

  lemma HeadAndTail(ms: seq<Migration>)
    requires ms != []
    ensures multiset(ms) == multiset{ms[0]} + multiset(ms[1..])
  {
    assert ms == [ms[0]] + ms[1..];
  }

  lemma {:induction false} InsertKeepsAll(m: Migration, sorted: seq<Migration>)
    ensures multiset(Insert(m, sorted)) == multiset(sorted) + multiset{m}
  {
    if sorted != [] && m.version >= sorted[0].version {
      var tail := Insert(m, sorted[1..]);
      InsertKeepsAll(m, sorted[1..]);
      assert Insert(m, sorted) == [sorted[0]] + tail;
      HeadAndTail(sorted);
    }
  }

  lemma {:induction false} InsertSorts(m: Migration, sorted: seq<Migration>)
    requires Ascending(sorted)
    ensures Ascending(Insert(m, sorted))
  {
    if sorted != [] && m.version >= sorted[0].version {
      InsertSorts(m, sorted[1..]);
      InsertKeepsAll(m, sorted[1..]);
      var tail := Insert(m, sorted[1..]);
      forall i | 0 <= i < |tail| ensures tail[i].version >= sorted[0].version {
        assert tail[i] in multiset(tail);
        assert tail[i] == m || tail[i] in sorted[1..];
      }
    }
  }

  lemma {:induction false} SortedSorts(ms: seq<Migration>)
    ensures Ascending(Sorted(ms)) && multiset(Sorted(ms)) == multiset(ms)
  {
    if ms != [] {
      var front := ms[..|ms| - 1];
      SortedSorts(front);
      InsertSorts(ms[|ms| - 1], Sorted(front));
      InsertKeepsAll(ms[|ms| - 1], Sorted(front));
      assert ms == front + [ms[|ms| - 1]];
      hide Insert, Ascending;
    }
  }

  lemma {:induction false} InsertAfter(m: Migration, left: seq<Migration>, right: seq<Migration>)
    requires forall x :: x in left ==> x.version <= m.version
    ensures Insert(m, left + right) == left + Insert(m, right)
  {
    if left == [] {
      assert left + right == right && left + Insert(m, right) == Insert(m, right);
    } else {
      InsertAfter(m, left[1..], right);
      assert (left + right)[1..] == left[1..] + right;
    }
  }

  lemma {:induction false} SortedAppend(shipped: seq<Migration>, added: seq<Migration>)
    requires forall x, y :: x in shipped && y in added ==> x.version <= y.version
    ensures Sorted(shipped + added) == Sorted(shipped) + Sorted(added)
    decreases |added|
  {
    if added == [] {
      assert shipped + added == shipped;
    } else {
      var n := |added| - 1;
      hide Insert;
      SortedAppend(shipped, added[..n]);
      assert (shipped + added)[..|shipped + added| - 1] == shipped + added[..n];
      SortedSorts(shipped);
      forall x | x in Sorted(shipped) ensures x.version <= added[n].version {
        assert x in multiset(Sorted(shipped));
        assert x in shipped;
      }
      InsertAfter(added[n], Sorted(shipped), Sorted(added[..n]));
    }
  }

  /** A complete pass over the front of a list is a pass over the whole of it, cut short. */
  lemma {:induction false} FrontIsCrash(db: Db, first: seq<Migration>, rest: seq<Migration>) returns (commits: nat)
    ensures Complete(db, first) == Crashed(db, first + rest, commits)
    decreases |first|
  {
    if first == [] {
      commits := 0;
    } else {
      assert (first + rest)[1..] == first[1..] + rest;
      if first[0].name in db.applied {
        commits := FrontIsCrash(db, first[1..], rest);
      } else if first[0].up(db.data).None? {
        commits := 0;
      } else {
        var n := FrontIsCrash(Db(first[0].up(db.data).value, db.applied + [first[0].name]), first[1..], rest);
        commits := n + 1;
      }
    }
  }

  /** Appending newer migrations to a shipped list: an install upgraded step by step ends
      exactly where a fresh install of the longer list does, throwing migrations and all. */
  lemma UpgradeMatchesFreshInstall(db: Db, shipped: seq<Migration>, added: seq<Migration>)
    requires forall x, y :: x in shipped && y in added ==> x.version <= y.version
    ensures Complete(Complete(db, Sorted(shipped)), Sorted(shipped + added)) == Complete(db, Sorted(shipped + added))
  {
    SortedAppend(shipped, added);
    var commits := FrontIsCrash(db, Sorted(shipped), Sorted(added));
    CrashThenComplete(db, Sorted(shipped + added), commits);
  }

  // ----- the runner -----

  lemma SortedLength(ms: seq<Migration>)
    ensures |Sorted(ms)| == |ms|
  {
    SortedSorts(ms);
    assert |Sorted(ms)| == |multiset(Sorted(ms))| == |multiset(ms)|;
  }

  lemma NextMigration(db: Db, order: seq<Migration>, i: nat, left: nat)
    requires i < |order| && left > 0
    ensures Crashed(db, order[i..], left) ==
            if order[i].name in db.applied then Crashed(db, order[i + 1..], left)
            else match order[i].up(db.data)
              case None => db
              case Some(data) => Crashed(Db(data, db.applied + [order[i].name]), order[i + 1..], left - 1)
  {
    assert order[i..][0] == order[i] && order[i..][1..] == order[i + 1..];
  }

  class Runner {
    var data: Contents
    var applied: seq<string>

    ghost function View(): Db reads this { Db(data, applied) }

    constructor (initial: Contents)
      ensures View() == Db(initial, [])
    {
      data, applied := initial, [];
    }

    /** One start: `commits` is how many transactions the process lives to commit. */
    method Migrate(ms: seq<Migration>, commits: nat) returns (names: seq<string>)
      modifies this
      ensures View() == Crashed(old(View()), Sorted(ms), commits)
      ensures applied == old(applied) + names
      ensures commits >= |ms| ==> View() == Complete(old(View()), Sorted(ms))
    {
      hide Sorted, Complete, Insert;
      var order := Sorted(ms);
      names := [];
      ghost var goal := Crashed(View(), order, commits);
      SortedLength(ms);
      if commits >= |ms| { EnoughCommits(View(), order, commits); }
      var i, left := 0, commits;
      while i < |order| && left > 0
        invariant 0 <= i <= |order|
        invariant Crashed(View(), order[i..], left) == goal
        invariant applied == old(applied) + names
      {
        var m := order[i];
        NextMigration(View(), order, i, left);
        i := i + 1;
        if m.name in applied { continue; }
        var ok := Apply(m);
        if !ok { return; }
        names, left := names + [m.name], left - 1;
      }
    }

    /** One transaction: the migration and its completion record, or neither. */
    method Apply(m: Migration) returns (ok: bool)
      modifies this
      ensures match m.up(old(data))
              case None => !ok && View() == old(View())
              case Some(next) => ok && View() == Db(next, old(applied) + [m.name])
    {
      var next := m.up(data);
      if next.None? { return false; }
      data, applied := next.value, applied + [m.name];
      return true;
    }
  }
}

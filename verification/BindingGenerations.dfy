/** Workspace-binding authorization generations: the tables, CHECKs, unique keys and
    triggers of schema version 13 (server/db/migrations.ts).

    One plain SQL statement is one step: it either takes effect or is aborted whole. */
module BindingGenerations {

  const MAX_SAFE := 9007199254740991

  datatype Machine = Machine(kind: string, id: string)
  datatype Binding = Binding(machine: Machine, generation: int, createdAt: int, updatedAt: int)

  /** `users`, `user_workspace_binding_generations` and `user_workspace_bindings`. */
  datatype Db = Db(users: set<string>, generations: map<string, int>, bindings: map<string, Binding>)

  /** Row updates name the whole new row; `setsGeneration` says whether the generation column
      is in the SET list, which is what `BEFORE UPDATE OF` looks at. */
  datatype Statement =
    | InsertUser(user: string)
    | DeleteUser(user: string)
    | InsertGeneration(user: string, generation: int)
    | UpdateGeneration(user: string, newUser: string, setsGeneration: bool, generation: int)
    | DeleteGeneration(user: string)
    | InsertBinding(user: string, row: Binding)
    | UpdateBinding(user: string, setsGeneration: bool, row: Binding)
    | DeleteBinding(user: string)

  predicate RowChecks(row: Binding) {
    row.machine.kind != "" && row.machine.id != "" && 1 <= row.generation <= MAX_SAFE
  }

  /** UNIQUE(provider_kind, machine_id) leaves the machine free for `user`. */
  predicate MachineFree(bindings: map<string, Binding>, user: string, machine: Machine) {
    forall u :: u in bindings && u != user ==> bindings[u].machine != machine
  }

  predicate Current(db: Db, user: string, generation: int) {
    user in db.generations && db.generations[user] == generation
  }

  /** The statement is not aborted by a constraint or trigger. */
  predicate Permitted(db: Db, s: Statement) {
    match s
    case InsertUser(u) => u !in db.users
    case DeleteUser(u) => u !in db.bindings
    case InsertGeneration(u, g) => u in db.users && u !in db.generations && 1 <= g <= MAX_SAFE
    case UpdateGeneration(u, v, sets, g) =>
      && u in db.generations
      && (if sets then g > db.generations[u] && g <= MAX_SAFE else g == db.generations[u])
      && (v == u || (v in db.users && v !in db.generations))
    case DeleteGeneration(u) => u !in db.users
    case InsertBinding(u, row) =>
      && u in db.users && u !in db.bindings
      && RowChecks(row) && MachineFree(db.bindings, u, row.machine)
      && Current(db, u, row.generation)
    case UpdateBinding(u, sets, row) =>
      && u in db.bindings
      && RowChecks(row) && MachineFree(db.bindings, u, row.machine)
      && (if sets then Current(db, u, row.generation) else row.generation == db.bindings[u].generation)
      && (row.machine != db.bindings[u].machine ==> row.generation != db.bindings[u].generation)
    case DeleteBinding(u) =>
      u in db.bindings ==> Current(db, u, db.bindings[u].generation) && db.generations[u] < MAX_SAFE
  }

  function Effect(db: Db, s: Statement): Db
    requires Permitted(db, s)
  {
    match s
    case InsertUser(u) => db.(users := db.users + {u})
    case DeleteUser(u) => db.(users := db.users - {u}, generations := db.generations - {u})
    case InsertGeneration(u, g) => db.(generations := db.generations[u := g])
    case UpdateGeneration(u, v, _, g) => db.(generations := (db.generations - {u})[v := g])
    case DeleteGeneration(u) => db.(generations := db.generations - {u})
    case InsertBinding(u, row) => db.(bindings := db.bindings[u := row])
    case UpdateBinding(u, _, row) => db.(bindings := db.bindings[u := row])
    case DeleteBinding(u) =>
      if u !in db.bindings then db else
      db.(bindings := db.bindings - {u}, generations := db.generations[u := db.generations[u] + 1])
  }

  function Step(db: Db, s: Statement): Db {
    if Permitted(db, s) then Effect(db, s) else db
  }

  function Run(db: Db, trace: seq<Statement>): Db
    decreases |trace|
  {
    if trace == [] then db else Run(Step(db, trace[0]), trace[1..])
  }

  // ----- what every statement keeps -----

  /** Foreign keys, every row as its CHECKs demand, and no machine bound twice. */
  ghost predicate Valid(db: Db) {
    && db.bindings.Keys <= db.users
    && db.generations.Keys <= db.users
    && (forall u :: u in db.generations ==> 1 <= db.generations[u] <= 9007199254740991)
    && (forall u :: u in db.bindings ==>
          && db.bindings[u].machine.kind != "" && db.bindings[u].machine.id != ""
          && 1 <= db.bindings[u].generation <= 9007199254740991)
    && (forall u, v :: u in db.bindings && v in db.bindings && u != v ==>
          db.bindings[u].machine != db.bindings[v].machine)
  }

  /** The retained counter has reached the generation the user's binding carries. */
  ghost predicate Anchored(db: Db, user: string) {
    user in db.bindings ==> user in db.generations && db.bindings[user].generation <= db.generations[user]
  }

  ghost predicate Held(db: Db, user: string, generation: int, machine: Machine) {
    && user in db.bindings
    && db.bindings[user].generation == generation
    && db.bindings[user].machine == machine
  }

  /** No row can carry (`user`, `generation`) from here on. */
  ghost predicate Spent(db: Db, user: string, generation: int) {
    && (user in db.users ==> user in db.generations && db.generations[user] > generation)
    && (user in db.bindings ==> db.bindings[user].generation != generation)
  }

  /** The statement takes effect, and gives a deleted user's id out again or hands the user's
      generation row to somebody else. */
  predicate Disturbs(db: Db, s: Statement, user: string) {
    Permitted(db, s) && (s == InsertUser(user) || (s.UpdateGeneration? && s.user == user && s.newUser != user))
  }

  /** No statement of the run disturbs the user's counter. */
  predicate Calm(db: Db, trace: seq<Statement>, user: string)
    decreases |trace|
  {
    trace == [] || (!Disturbs(db, trace[0], user) && Calm(Step(db, trace[0]), trace[1..], user))
  }

  lemma StepKeepsAnchored(db: Db, s: Statement, user: string)
    requires Valid(db) && Anchored(db, user) && !Disturbs(db, s, user)
    ensures Anchored(Step(db, s), user)
  {
  }

  lemma StepKeepsSpent(db: Db, s: Statement, user: string, generation: int)
    requires Valid(db) && Spent(db, user, generation) && !Disturbs(db, s, user)
    ensures Spent(Step(db, s), user, generation)
  {
  }

  lemma StepKeepsValid(db: Db, s: Statement)
    requires Valid(db)
    ensures Valid(Step(db, s))
  {
  }

  /** A held generation stays with its machine until it is spent. */
  lemma StepHoldsOrSpends(db: Db, s: Statement, user: string, generation: int, machine: Machine)
    requires Valid(db) && Anchored(db, user) && !Disturbs(db, s, user)
    requires Held(db, user, generation, machine)
    ensures Held(Step(db, s), user, generation, machine) || Spent(Step(db, s), user, generation)
  {
  }

  // ----- whole runs -----

  lemma {:induction false} CalmParts(db: Db, before: seq<Statement>, after: seq<Statement>, user: string)
    requires Calm(db, before + after, user)
    ensures Calm(db, before, user) && Calm(Run(db, before), after, user)
    decreases |before|
  {
    if before == [] {
      assert before + after == after;
    } else {
      assert (before + after)[0] == before[0] && (before + after)[1..] == before[1..] + after;
      CalmParts(Step(db, before[0]), before[1..], after, user);
    }
  }

  lemma {:induction false} RunKeepsValid(db: Db, trace: seq<Statement>)
    requires Valid(db)
    ensures Valid(Run(db, trace))
    decreases |trace|
  {
    if trace != [] {
      var next := Step(db, trace[0]);
      StepKeepsValid(db, trace[0]);
      RunKeepsValid(next, trace[1..]);
    }
  }

  lemma {:induction false} RunKeepsAnchored(db: Db, trace: seq<Statement>, user: string)
    requires Valid(db) && Anchored(db, user) && Calm(db, trace, user)
    ensures Anchored(Run(db, trace), user)
    decreases |trace|
  {
    if trace != [] {
      StepKeepsValid(db, trace[0]);
      StepKeepsAnchored(db, trace[0], user);
      RunKeepsAnchored(Step(db, trace[0]), trace[1..], user);
    }
  }

  lemma {:induction false} RunKeepsSpent(db: Db, trace: seq<Statement>, user: string, generation: int)
    requires Valid(db) && Spent(db, user, generation) && Calm(db, trace, user)
    ensures Spent(Run(db, trace), user, generation)
    decreases |trace|
  {
    if trace != [] {
      StepKeepsValid(db, trace[0]);
      StepKeepsSpent(db, trace[0], user, generation);
      RunKeepsSpent(Step(db, trace[0]), trace[1..], user, generation);
    }
  }

  lemma {:induction false} RunHoldsOrSpends(db: Db, trace: seq<Statement>, user: string, generation: int,
                                            machine: Machine)
    requires Valid(db) && Anchored(db, user) && Calm(db, trace, user)
    requires Held(db, user, generation, machine)
    ensures Held(Run(db, trace), user, generation, machine) || Spent(Run(db, trace), user, generation)
    decreases |trace|
  {
    if trace != [] {
      var next := Step(db, trace[0]);
      StepKeepsValid(db, trace[0]);
      StepKeepsAnchored(db, trace[0], user);
      StepHoldsOrSpends(db, trace[0], user, generation, machine);
      if Held(next, user, generation, machine) {
        RunHoldsOrSpends(next, trace[1..], user, generation, machine);
      } else {
        RunKeepsSpent(next, trace[1..], user, generation);
      }
    }
  }

  /** One (user, generation) pair belongs to at most one machine, for ever: whatever it is
      found tied to later in the run is what it was tied to at first. */
  lemma OneMachinePerGeneration(db: Db, trace: seq<Statement>, user: string, generation: int, first: Machine,
                                later: Machine)
    requires Valid(db) && Anchored(db, user) && Calm(db, trace, user)
    requires Held(db, user, generation, first) && Held(Run(db, trace), user, generation, later)
    ensures first == later
  {
    RunHoldsOrSpends(db, trace, user, generation, first);
  }

  /** A desktop grant is honoured only while its exact binding is the current one. */
  predicate GrantCurrent(db: Db, user: string, generation: int, machine: Machine) {
    && user in db.bindings && db.bindings[user].machine == machine && db.bindings[user].generation == generation
    && Current(db, user, generation)
  }

  lemma StepDropsGrant(db: Db, s: Statement, user: string, generation: int, machine: Machine)
    requires Valid(db) && !Disturbs(db, s, user)
    requires !GrantCurrent(db, user, generation, machine)
    requires user in db.users ==> user in db.generations && db.generations[user] >= generation
    requires Spent(db, user, generation) || Held(db, user, generation, machine)
    ensures !GrantCurrent(Step(db, s), user, generation, machine)
    ensures user in Step(db, s).users ==> user in Step(db, s).generations && Step(db, s).generations[user] >= generation
    ensures Spent(Step(db, s), user, generation) || Held(Step(db, s), user, generation, machine)
  {
  }

  lemma {:induction false} DroppedGrantStaysDropped(db: Db, trace: seq<Statement>, user: string, generation: int,
                                                    machine: Machine)
    requires Valid(db) && Calm(db, trace, user)
    requires !GrantCurrent(db, user, generation, machine)
    requires user in db.users ==> user in db.generations && db.generations[user] >= generation
    requires Spent(db, user, generation) || Held(db, user, generation, machine)
    ensures !GrantCurrent(Run(db, trace), user, generation, machine)
    decreases |trace|
  {
    if trace != [] {
      StepKeepsValid(db, trace[0]);
      StepDropsGrant(db, trace[0], user, generation, machine);
      DroppedGrantStaysDropped(Step(db, trace[0]), trace[1..], user, generation, machine);
    }
  }

  /** A grant minted at a generation that has once stopped being current is never current
      again: not after A to B to A, not after delete and re-create. */
  lemma GrantNeverRevives(db: Db, before: seq<Statement>, after: seq<Statement>, user: string, generation: int,
                          machine: Machine)
    requires Valid(db) && Calm(db, before + after, user)
    requires GrantCurrent(db, user, generation, machine)
    requires !GrantCurrent(Run(db, before), user, generation, machine)
    ensures !GrantCurrent(Run(Run(db, before), after), user, generation, machine)
  {
    var mid := Run(db, before);
    CalmParts(db, before, after, user);
    RunKeepsValid(db, before);
    RunKeepsAnchored(db, before, user);
    RunHoldsOrSpends(db, before, user, generation, machine);
    DroppedGrantStaysDropped(mid, after, user, generation, machine);
  }

  /** The delete-and-recreate guarantee, from the delete itself. */
  lemma DeleteSpends(db: Db, user: string, generation: int, machine: Machine, after: seq<Statement>)
    requires Valid(db) && Calm(Step(db, DeleteBinding(user)), after, user)
    requires Held(db, user, generation, machine) && Permitted(db, DeleteBinding(user))
    ensures forall m :: !Held(Run(Step(db, DeleteBinding(user)), after), user, generation, m)
  {
    StepKeepsValid(db, DeleteBinding(user));
    RunKeepsSpent(Step(db, DeleteBinding(user)), after, user, generation);
  }

  // ----- what brings a spent generation back -----

  /** Statements that need not disturb anything make the grant current. */
  ghost predicate Revivable(db: Db, user: string, generation: int, machine: Machine) {
    exists more :: Calm(db, more, user) && GrantCurrent(Run(db, more), user, generation, machine)
  }

  /** The counter inserted at the generation, and a binding carrying it. */
  function Revival(db: Db, user: string, generation: int, machine: Machine): seq<Statement> {
    var row := Binding(machine, generation, 0, 0);
    [InsertGeneration(user, generation),
     if user in db.bindings then UpdateBinding(user, true, row) else InsertBinding(user, row)]
  }

  lemma RevivalRevives(db: Db, user: string, generation: int, machine: Machine)
    requires user in db.users && user !in db.generations && 1 <= generation <= MAX_SAFE
    requires machine.kind != "" && machine.id != "" && MachineFree(db.bindings, user, machine)
    requires user in db.bindings ==> db.bindings[user].generation != generation
    ensures var more := Revival(db, user, generation, machine);
            Calm(db, more, user) && GrantCurrent(Run(db, more), user, generation, machine)
  {
    var more := Revival(db, user, generation, machine);
    var counted := Step(db, more[0]);
    assert more[1..] == [more[1]] && [more[1]][1..] == [];
    assert counted.bindings == db.bindings && Current(counted, user, generation);
    var bound := Step(counted, more[1]);
    assert GrantCurrent(bound, user, generation, machine);
    assert Run(bound, []) == bound && Run(counted, [more[1]]) == bound;
    assert Calm(bound, [], user) && Calm(counted, [more[1]], user);
  }

  /** A spent generation can be carried again, by any machine that is free, exactly after a
      statement that disturbs the user's counter. */
  lemma RevivesExactlyWhenDisturbed(db: Db, s: Statement, user: string, generation: int, machine: Machine)
    requires Valid(db) && Spent(db, user, generation) && 1 <= generation <= MAX_SAFE
    requires machine.kind != "" && machine.id != "" && MachineFree(Step(db, s).bindings, user, machine)
    ensures Disturbs(db, s, user) <==> Revivable(Step(db, s), user, generation, machine)
  {
    var next := Step(db, s);
    if Disturbs(db, s, user) {
      var more := Revival(next, user, generation, machine);
      RevivalRevives(next, user, generation, machine);
      assert Calm(next, more, user) && GrantCurrent(Run(next, more), user, generation, machine);
    } else {
      StepKeepsValid(db, s);
      StepKeepsSpent(db, s, user, generation);
      forall more | Calm(next, more, user) ensures !GrantCurrent(Run(next, more), user, generation, machine) {
        RunKeepsSpent(next, more, user, generation);
      }
    }
  }

  // ----- instances of both disturbances -----

  const EMPTY := Db({}, map[], map[])

  const A := Machine("box", "a")
  const B := Machine("box", "b")
  const C := Machine("box", "c")

  lemma ReusedUserIdRevives()
    ensures var before := [InsertUser("u"), InsertGeneration("u", 1), InsertBinding("u", Binding(A, 1, 0, 0))];
            var after := [DeleteBinding("u"), DeleteUser("u"),
                          InsertUser("u"), InsertGeneration("u", 1), InsertBinding("u", Binding(B, 1, 0, 0))];
            GrantCurrent(Run(EMPTY, before), "u", 1, A) && GrantCurrent(Run(Run(EMPTY, before), after), "u", 1, B)
  {
    var bind, rebind := InsertBinding("u", Binding(A, 1, 0, 0)), InsertBinding("u", Binding(B, 1, 0, 0));
    RunThree(EMPTY, InsertUser("u"), InsertGeneration("u", 1), bind);
    var bound := Db({"u"}, map["u" := 1], map["u" := Binding(A, 1, 0, 0)]);
    assert Step(Step(Step(EMPTY, InsertUser("u")), InsertGeneration("u", 1)), bind) == bound;
    RunFive(bound, DeleteBinding("u"), DeleteUser("u"), InsertUser("u"), InsertGeneration("u", 1), rebind);
    assert Step(bound, DeleteBinding("u")) == Db({"u"}, map["u" := 2], map[]);
    assert Step(Db({"u"}, map["u" := 2], map[]), DeleteUser("u")) == EMPTY;
  }

  /** Nothing guards the owner column of a generation row: handing the row to another user
      lets the counter start over under a live binding. */
  lemma RekeyedGenerationRevives()
    ensures var db := Db({"u", "v"}, map["u" := 2], map["u" := Binding(A, 2, 0, 0)]);
            var after := [UpdateGeneration("u", "v", false, 2), InsertGeneration("u", 1),
                          UpdateBinding("u", true, Binding(C, 1, 0, 0)), UpdateGeneration("u", "u", true, 2),
                          UpdateBinding("u", true, Binding(B, 2, 0, 0))];
            Valid(db) && Anchored(db, "u") && GrantCurrent(db, "u", 2, A) && GrantCurrent(Run(db, after), "u", 2, B)
  {
    RunFive(Db({"u", "v"}, map["u" := 2], map["u" := Binding(A, 2, 0, 0)]),
            UpdateGeneration("u", "v", false, 2), InsertGeneration("u", 1),
            UpdateBinding("u", true, Binding(C, 1, 0, 0)), UpdateGeneration("u", "u", true, 2),
            UpdateBinding("u", true, Binding(B, 2, 0, 0)));
  }

  lemma RunThree(db: Db, s0: Statement, s1: Statement, s2: Statement)
    ensures Run(db, [s0, s1, s2]) == Step(Step(Step(db, s0), s1), s2)
  {
    var d2 := Step(Step(db, s0), s1);
    assert [s0, s1, s2][1..] == [s1, s2] && [s1, s2][1..] == [s2] && [s2][1..] == [];
    assert Run(d2, [s2]) == Run(Step(d2, s2), []) == Step(d2, s2);
    assert Run(Step(db, s0), [s1, s2]) == Run(d2, [s2]);
  }

  lemma RunFive(db: Db, s0: Statement, s1: Statement, s2: Statement, s3: Statement, s4: Statement)
    ensures Run(db, [s0, s1, s2, s3, s4]) == Step(Step(Step(Step(Step(db, s0), s1), s2), s3), s4)
  {
    assert [s0, s1, s2, s3, s4][1..] == [s1, s2, s3, s4];
    assert [s1, s2, s3, s4][1..] == [s2, s3, s4];
    assert Run(Step(db, s0), [s1, s2, s3, s4]) == Run(Step(Step(db, s0), s1), [s2, s3, s4]);
    RunThree(Step(Step(db, s0), s1), s2, s3, s4);
  }

  // ----- what a user can always do -----

  /** The machine is named and nobody else's. */
  predicate Available(db: Db, user: string, machine: Machine) {
    && machine.kind != "" && machine.id != ""
    && forall u :: u in db.bindings && u != user ==> db.bindings[u].machine != machine
  }

  /** A new user can start at any generation and bind any free machine at it. */
  lemma NewUserBinds(db: Db, user: string, generation: int, machine: Machine, at: int)
    requires Valid(db) && user !in db.users && 1 <= generation <= 9007199254740991 && Available(db, user, machine)
    ensures var after := Run(db, [InsertUser(user), InsertGeneration(user, generation),
                                  InsertBinding(user, Binding(machine, generation, at, at))]);
            && after.users == db.users + {user}
            && after.bindings == db.bindings[user := Binding(machine, generation, at, at)]
            && after.generations == db.generations[user := generation]
  {
    RunThree(db, InsertUser(user), InsertGeneration(user, generation),
             InsertBinding(user, Binding(machine, generation, at, at)));
  }

  /** A user with a current binding can drop it, bind any free machine at exactly the next
      generation, and drop that one too. */
  lemma NextGenerationBinds(db: Db, user: string, machine: Machine, at: int)
    requires Valid(db) && user in db.bindings && Current(db, user, db.bindings[user].generation)
    requires db.generations[user] + 2 <= 9007199254740991 && Available(db, user, machine)
    ensures var next := db.generations[user] + 1;
            var bind := InsertBinding(user, Binding(machine, next, at, at));
            var bound := Run(db, [DeleteBinding(user), bind]);
            var after := Run(db, [DeleteBinding(user), bind, DeleteBinding(user)]);
            && bound.bindings == db.bindings[user := Binding(machine, next, at, at)]
            && bound.generations == db.generations[user := next] && bound.users == db.users
            && after.bindings == db.bindings - {user}
            && after.generations == db.generations[user := next + 1] && after.users == db.users
  {
    var bind := InsertBinding(user, Binding(machine, db.generations[user] + 1, at, at));
    RunTwo(db, DeleteBinding(user), bind);
    RunThree(db, DeleteBinding(user), bind, DeleteBinding(user));
    var bound := Step(Step(db, DeleteBinding(user)), bind);
    assert bound.bindings == db.bindings[user := bind.row];
    assert bound.bindings - {user} == db.bindings - {user};
  }

  /** A counter starts anywhere in range, for a user who has none; set, it only goes up, within the
      range; and it is deleted only with its user, who cannot go while a binding is there. */
  lemma CounterCommits(db: Db, user: string, generation: int)
    requires Valid(db)
    ensures Permitted(db, InsertGeneration(user, generation)) <==>
            user in db.users && user !in db.generations && 1 <= generation <= 9007199254740991
    ensures Permitted(db, UpdateGeneration(user, user, true, generation)) <==>
            user in db.generations && db.generations[user] < generation <= 9007199254740991
    ensures user in db.generations ==> !Permitted(db, DeleteGeneration(user))
    ensures if user in db.bindings then !Permitted(db, DeleteUser(user))
            else Step(db, DeleteUser(user)) == Db(db.users - {user}, db.generations - {user}, db.bindings)
  {
  }

  /** A user with a binding can move it to any free machine by advancing the counter. */
  lemma LaterGenerationMoves(db: Db, user: string, generation: int, machine: Machine, at: int)
    requires Valid(db) && user in db.bindings && Anchored(db, user) && Available(db, user, machine)
    requires db.generations[user] < generation <= 9007199254740991
    ensures var after := Run(db, [UpdateGeneration(user, user, true, generation),
                                  UpdateBinding(user, true, Binding(machine, generation, at, at))]);
            && after.users == db.users && after.generations == db.generations[user := generation]
            && after.bindings == db.bindings[user := Binding(machine, generation, at, at)]
  {
    RunTwo(db, UpdateGeneration(user, user, true, generation),
           UpdateBinding(user, true, Binding(machine, generation, at, at)));
    assert (db.generations - {user})[user := generation] == db.generations[user := generation];
  }

  lemma RunTwo(db: Db, s0: Statement, s1: Statement)
    ensures Run(db, [s0, s1]) == Step(Step(db, s0), s1)
  {
    assert [s0, s1][1..] == [s1] && [s1][1..] == [];
    assert Run(Step(db, s0), [s1]) == Run(Step(Step(db, s0), s1), []);
  }

  // ----- the tables -----

  /** The three tables, written in place, one method a statement; the result says whether
      the statement committed. */
  class Tables {
    var users: set<string>
    var generations: map<string, int>
    var bindings: map<string, Binding>

    ghost function View(): Db reads this { Db(users, generations, bindings) }

    constructor ()
      ensures View() == EMPTY && Valid(View())
    {
      users, generations, bindings := {}, map[], map[];
    }

    method AddUser(user: string) returns (ok: bool)
      modifies this
      ensures ok == Permitted(old(View()), InsertUser(user))
      ensures View() == Step(old(View()), InsertUser(user))
      ensures old(Valid(View())) ==> Valid(View())
    {
      if Valid(View()) { StepKeepsValid(View(), InsertUser(user)); }
      ok := user !in users;
      if ok { users := users + {user}; }
    }

    /** The binding restricts the delete; the counter goes with its user. */
    method RemoveUser(user: string) returns (ok: bool)
      modifies this
      ensures ok == Permitted(old(View()), DeleteUser(user))
      ensures View() == Step(old(View()), DeleteUser(user))
      ensures old(Valid(View())) ==> Valid(View())
    {
      if Valid(View()) { StepKeepsValid(View(), DeleteUser(user)); }
      ok := user !in bindings;
      if ok { users, generations := users - {user}, generations - {user}; }
    }

    method AddGeneration(user: string, generation: int) returns (ok: bool)
      modifies this
      ensures ok == Permitted(old(View()), InsertGeneration(user, generation))
      ensures View() == Step(old(View()), InsertGeneration(user, generation))
      ensures old(Valid(View())) ==> Valid(View())
    {
      if Valid(View()) { StepKeepsValid(View(), InsertGeneration(user, generation)); }
      ok := user in users && user !in generations && 1 <= generation <= MAX_SAFE;
      if ok { generations := generations[user := generation]; }
    }

    /** `SET generation = ?`, under the monotonic trigger. */
    method AdvanceGeneration(user: string, generation: int) returns (ok: bool)
      modifies this
      ensures ok == Permitted(old(View()), UpdateGeneration(user, user, true, generation))
      ensures View() == Step(old(View()), UpdateGeneration(user, user, true, generation))
      ensures old(Valid(View())) ==> Valid(View())
    {
      if Valid(View()) { StepKeepsValid(View(), UpdateGeneration(user, user, true, generation)); }
      ok := user in generations && generation > generations[user] && generation <= MAX_SAFE;
      if ok {
        generations := generations[user := generation];
        assert old(generations) - {user} + map[user := generation] == generations;
      }
    }

    method BindMachine(user: string, row: Binding) returns (ok: bool)
      modifies this
      ensures ok == Permitted(old(View()), InsertBinding(user, row))
      ensures View() == Step(old(View()), InsertBinding(user, row))
      ensures old(Valid(View())) ==> Valid(View())
    {
      if Valid(View()) { StepKeepsValid(View(), InsertBinding(user, row)); }
      if user !in generations || generations[user] != row.generation { return false; }
      ok := user in users && user !in bindings && RowChecks(row) && MachineFree(bindings, user, row.machine);
      if ok { bindings := bindings[user := row]; }
    }

    method RebindMachine(user: string, setsGeneration: bool, row: Binding) returns (ok: bool)
      modifies this
      ensures ok == Permitted(old(View()), UpdateBinding(user, setsGeneration, row))
      ensures View() == Step(old(View()), UpdateBinding(user, setsGeneration, row))
      ensures old(Valid(View())) ==> Valid(View())
    {
      if Valid(View()) { StepKeepsValid(View(), UpdateBinding(user, setsGeneration, row)); }
      if user !in bindings { return false; }
      var was := bindings[user];
      if setsGeneration {
        if user !in generations || generations[user] != row.generation { return false; }
      } else if row.generation != was.generation {
        return false;
      }
      if row.machine != was.machine && row.generation == was.generation { return false; }
      ok := RowChecks(row) && MachineFree(bindings, user, row.machine);
      if ok { bindings := bindings[user := row]; }
    }

    /** The delete trigger advances the counter first and aborts when it cannot. */
    method Unbind(user: string) returns (ok: bool)
      modifies this
      ensures ok == Permitted(old(View()), DeleteBinding(user))
      ensures View() == Step(old(View()), DeleteBinding(user))
      ensures old(Valid(View())) ==> Valid(View())
    {
      if Valid(View()) { StepKeepsValid(View(), DeleteBinding(user)); }
      if user !in bindings { return true; }
      var changes := 0;
      if user in generations && generations[user] == bindings[user].generation && generations[user] < MAX_SAFE {
        changes := 1;
      }
      if changes != 1 { return false; }
      generations := generations[user := generations[user] + 1];
      bindings := bindings - {user};
      return true;
    }
  }
}

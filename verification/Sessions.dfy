/** Sign-in sessions: issued, pruned, bounded per user, revoked (server/identity.ts over the
    `sessions` table of server/db/migrations.ts).  A token is told by its digest. */
module Sessions {
  import opened Options
  import opened Sets

  type User = string

  /** A token's digest, told by where its text sorts among all digests. */
  datatype Digest = Digest(place: int)

  const MAX_LIVE_SESSIONS_PER_USER: nat := 5
  const MAX_SESSION_AGE_SECONDS := 60 * 60 * 24 * 30
  const MAX_SAFE_INTEGER := 9007199254740991

  datatype Row = Row(user: User, createdAt: int, expiresAt: int, revokedAt: Option<int>)

  type Rows = map<Digest, Row>

  datatype Db = Db(users: set<User>, rows: Rows)

  predicate Millis(now: int) {
    0 <= now <= MAX_SAFE_INTEGER
  }

  // ----- newest first -----

  /** `ORDER BY created_at DESC, token_digest DESC` puts `a` before `b`. */
  predicate Newer(rows: Rows, a: Digest, b: Digest)
    requires a in rows && b in rows
  {
    rows[a].createdAt > rows[b].createdAt || (rows[a].createdAt == rows[b].createdAt && a.place > b.place)
  }

  function Above(rows: Rows, among: set<Digest>, d: Digest): set<Digest>
    requires d in rows && among <= rows.Keys
  {
    set e | e in among && Newer(rows, e, d)
  }

  /** The first `n` of the ordered digests. */
  function Newest(rows: Rows, among: set<Digest>, n: nat): set<Digest>
    requires among <= rows.Keys
  {
    set d | d in among && |Above(rows, among, d)| < n
  }

  predicate IsOldest(rows: Rows, among: set<Digest>, o: Digest)
    requires among <= rows.Keys
  {
    o in among && forall d :: d in among && d != o ==> Newer(rows, d, o)
  }

  lemma {:induction false} Oldest(rows: Rows, among: set<Digest>) returns (o: Digest)
    requires among <= rows.Keys && among != {}
    ensures IsOldest(rows, among, o)
    decreases among
  {
    var x :| x in among;
    var rest := among - {x};
    assert forall d :: d in among && d != x ==> d in rest;
    o := x;
    if rest != {} {
      var r := Oldest(rows, rest);
      if Newer(rows, x, r) { o := r; }
      forall d | d in among && d != o ensures Newer(rows, d, o) {
        if d != x && d != r { assert Newer(rows, d, r); }
      }
    }
  }

  lemma {:induction false} NewestCount(rows: Rows, among: set<Digest>, n: nat)
    requires among <= rows.Keys
    ensures |Newest(rows, among, n)| == if |among| <= n then |among| else n
    decreases among
  {
    if |among| <= n {
      forall d | d in among ensures |Above(rows, among, d)| < n {
        Smaller(Above(rows, among, d), among, d);
      }
      assert Newest(rows, among, n) == among;
    } else {
      var o := Oldest(rows, among);
      var rest := among - {o};
      assert Above(rows, among, o) == rest;
      forall d | d in rest ensures Above(rows, among, d) == Above(rows, rest, d) {}
      assert Newest(rows, among, n) == Newest(rows, rest, n);
      NewestCount(rows, rest, n);
    }
  }

  lemma Smaller(a: set<Digest>, b: set<Digest>, d: Digest)
    requires a <= b && d in b && d !in a
    ensures |a| < |b|
  {
    Within(a, b - {d});
  }

  // ----- the statements -----

  function Pruned(rows: Rows, now: int): Rows {
    map d | d in rows && rows[d].expiresAt > now && rows[d].revokedAt == None :: rows[d]
  }

  function RowsOf(rows: Rows, user: User): set<Digest> {
    set d | d in rows && rows[d].user == user
  }

  /** All but the new row and the newest four others of its user. */
  function Trimmed(rows: Rows, user: User, newest: Digest): Rows {
    var others := RowsOf(rows, user) - {newest};
    rows - (others - Newest(rows, others, MAX_LIVE_SESSIONS_PER_USER - 1))
  }

  function ExpiresAt(now: int, age: int): int {
    now + age * 1000
  }

  predicate MayCreate(db: Db, user: User, d: Digest, now: int, age: int) {
    && Millis(now) && 1 <= age <= MAX_SESSION_AGE_SECONDS && ExpiresAt(now, age) <= MAX_SAFE_INTEGER
    && user in db.users && d !in db.rows
  }

  function Created(rows: Rows, user: User, d: Digest, now: int, age: int): Rows {
    Trimmed(Pruned(rows[d := Row(user, now, ExpiresAt(now, age), None)], now), user, d)
  }

  /** The row `revokeSession` marks, if it finds one. */
  predicate MayRevoke(rows: Rows, d: Digest, now: int) {
    Millis(now) && d in rows && rows[d].revokedAt == None && rows[d].createdAt <= now
  }

  /** `resolveSession`: whose session this is, at this moment. */
  function Resolve(rows: Rows, d: Digest, now: int): Option<User> {
    if Millis(now) && d in rows && rows[d].revokedAt == None && rows[d].expiresAt > now then Some(rows[d].user)
    else None
  }

  datatype Event =
    | SignUp(user: User)
    | DeleteUser(user: User)
    | Create(user: User, digest: Digest, now: int, age: int)
    | Revoke(digest: Digest, now: int)
    | PruneExpired(now: int)

  /** One call; a refused one throws, or answers false, and changes nothing. */
  function Step(db: Db, e: Event): Db {
    match e
    case SignUp(user) => db.(users := db.users + {user})
    case DeleteUser(user) => Db(db.users - {user}, map d | d in db.rows && db.rows[d].user != user :: db.rows[d])
    case Create(user, d, now, age) =>
      if MayCreate(db, user, d, now, age) then db.(rows := Created(db.rows, user, d, now, age)) else db
    case Revoke(d, now) =>
      if MayRevoke(db.rows, d, now) then db.(rows := db.rows[d := db.rows[d].(revokedAt := Some(now))]) else db
    case PruneExpired(now) =>
      if Millis(now) then db.(rows := map d | d in db.rows && db.rows[d].expiresAt > now :: db.rows[d]) else db
  }

  function Run(db: Db, trace: seq<Event>): Db
    decreases |trace|
  {
    if trace == [] then db else Run(Step(db, trace[0]), trace[1..])
  }

  /** A run is its steps, one after another. */
  lemma {:induction false} RunInParts(db: Db, before: seq<Event>, e: Event)
    ensures Run(db, []) == db && Run(db, before + [e]) == Step(Run(db, before), e)
    decreases |before|
  {
    if before == [] {
      assert before + [e] == [e] && [e][1..] == [];
      assert Run(db, [e]) == Run(Step(db, e), []);
    } else {
      assert (before + [e])[1..] == before[1..] + [e];
      RunInParts(Step(db, before[0]), before[1..], e);
    }
  }

  // ----- the bound -----

  /** The table's CHECKs and foreign key, and the bound on every user's rows. */
  ghost predicate Valid(db: Db) {
    && (forall d :: d in db.rows ==> Sound(db, db.rows[d]))
    && (forall user :: Bounded(db.rows, user))
  }

  predicate Sound(db: Db, row: Row) {
    && row.user in db.users && row.expiresAt > row.createdAt
    && (row.revokedAt.Some? ==> row.revokedAt.value >= row.createdAt)
  }

  predicate Bounded(rows: Rows, user: User) {
    |RowsOf(rows, user)| <= MAX_LIVE_SESSIONS_PER_USER
  }

  lemma FewerRows(before: Rows, after: Rows, user: User)
    requires Bounded(before, user)
    requires forall d :: d in after && after[d].user == user ==> d in before && before[d].user == user
    ensures Bounded(after, user)
  {
    Within(RowsOf(after, user), RowsOf(before, user));
  }

  /** Whatever the clocks say, signing in leaves the new session and at most four others. */
  lemma CreateBounds(rows: Rows, user: User, d: Digest, now: int, age: int)
    requires d !in rows && age >= 1
    ensures Bounded(Created(rows, user, d, now, age), user)
    ensures d in Created(rows, user, d, now, age)
  {
    var pruned := Pruned(rows[d := Row(user, now, ExpiresAt(now, age), None)], now);
    assert d in pruned;
    TrimBounds(pruned, user, d);
  }

  lemma TrimBounds(rows: Rows, user: User, d: Digest)
    requires d in rows && rows[d].user == user
    ensures Bounded(Trimmed(rows, user, d), user) && d in Trimmed(rows, user, d)
  {
    var others := RowsOf(rows, user) - {d};
    var newest := Newest(rows, others, MAX_LIVE_SESSIONS_PER_USER - 1);
    NewestCount(rows, others, MAX_LIVE_SESSIONS_PER_USER - 1);
    assert RowsOf(Trimmed(rows, user, d), user) == {d} + newest;
  }

  lemma StepKeepsValid(db: Db, e: Event)
    requires Valid(db)
    ensures Valid(Step(db, e))
  {
    var after := Step(db, e);
    forall user ensures Bounded(after.rows, user) {
      assert Bounded(db.rows, user);
      if e.Create? && MayCreate(db, e.user, e.digest, e.now, e.age) && e.user == user {
        CreateBounds(db.rows, user, e.digest, e.now, e.age);
      } else {
        FewerRows(db.rows, after.rows, user);
      }
    }
  }

  lemma {:induction false} RunKeepsValid(db: Db, trace: seq<Event>)
    requires Valid(db)
    ensures Valid(Run(db, trace))
    decreases |trace|
  {
    if trace != [] {
      StepKeepsValid(db, trace[0]);
      RunKeepsValid(Step(db, trace[0]), trace[1..]);
    }
  }

  /** Whatever calls are made, by whatever clocks, no user ever has more than five rows. */
  lemma NeverOverFive(trace: seq<Event>, user: User)
    ensures var rows := Run(Db({}, map[]), trace).rows; |set d | d in rows && rows[d].user == user| <= 5
  {
    RunKeepsValid(Db({}, map[]), trace);
    assert Bounded(Run(Db({}, map[]), trace).rows, user);
  }

  // ----- who is evicted -----

  /** Live at the moment of a sign-in. */
  predicate LiveAt(row: Row, now: int) {
    row.revokedAt == None && row.expiresAt > now
  }

  /** Signing in keeps every live row, as it was, but those of the same user that four newer
      live ones displace; and it keeps nothing dead. */
  lemma CreateKeeps(rows: Rows, user: User, d: Digest, now: int, age: int, x: Digest)
    requires d !in rows && x in rows && age >= 1
    ensures var after := Created(rows, user, d, now, age);
            x in after <==> LiveAt(rows[x], now) && (rows[x].user == user ==> |Rivals(rows, user, now, x)| < 4)
    ensures x in Created(rows, user, d, now, age) ==> Created(rows, user, d, now, age)[x] == rows[x]
  {
    var pruned := Pruned(rows[d := Row(user, now, ExpiresAt(now, age), None)], now);
    var others := RowsOf(pruned, user) - {d};
    assert x in pruned <==> LiveAt(rows[x], now);
    if x in pruned && rows[x].user == user {
      assert Above(pruned, others, x) == Rivals(rows, user, now, x);
    }
  }

  /** The user's other live rows newer than this one. */
  function Rivals(rows: Rows, user: User, now: int, x: Digest): set<Digest>
    requires x in rows
  {
    set e | e in rows && rows[e].user == user && LiveAt(rows[e], now) && Newer(rows, e, x)
  }

  /** A sign-in with a new token is accepted exactly from a known user, for one second to thirty days,
      while the times are safe integers; the session then resolves to that user for that many
      seconds, and to nobody at any other clock. */
  lemma NewSessionResolves(db: Db, user: User, d: Digest, now: int, age: int, t: int)
    requires d !in db.rows
    ensures Resolve(Step(db, Create(user, d, now, age)).rows, d, t) ==
            if && user in db.users && 0 <= now && 1 <= age <= 2_592_000 && now + age * 1000 <= 9007199254740991
               && 0 <= t < now + age * 1000
            then Some(user) else None
  {
    if MayCreate(db, user, d, now, age) { CreateBounds(db.rows, user, d, now, age); }
  }

  /** Of two of a user's live sessions, an evicted one is the older, by its token if they are of one
      moment. */
  lemma EvictsOldestFirst(rows: Rows, user: User, d: Digest, now: int, age: int, kept: Digest, evicted: Digest)
    requires d !in rows && age >= 1 && kept in rows && evicted in rows
    requires rows[kept].user == user == rows[evicted].user && LiveAt(rows[evicted], now)
    requires kept in Created(rows, user, d, now, age) && evicted !in Created(rows, user, d, now, age)
    ensures rows[kept].createdAt >= rows[evicted].createdAt
    ensures rows[kept].createdAt == rows[evicted].createdAt ==> kept.place > evicted.place
  {
    CreateKeeps(rows, user, d, now, age, kept);
    CreateKeeps(rows, user, d, now, age, evicted);
    if Newer(rows, evicted, kept) {
      assert Rivals(rows, user, now, evicted) <= Rivals(rows, user, now, kept);
      Within(Rivals(rows, user, now, evicted), Rivals(rows, user, now, kept));
    }
  }

  /** Someone is evicted exactly when the user already has five live sessions. */
  lemma EvictsOnlyWhenFull(rows: Rows, user: User, d: Digest, now: int, age: int)
    requires d !in rows && age >= 1
    ensures var live := set x | x in rows && rows[x].user == user && LiveAt(rows[x], now);
            (forall x :: x in live ==> x in Created(rows, user, d, now, age)) <==> |live| < 5
  {
    var live := set x | x in rows && rows[x].user == user && LiveAt(rows[x], now);
    forall x | x in live
      ensures x in Created(rows, user, d, now, age) <==> x in Newest(rows, live, MAX_LIVE_SESSIONS_PER_USER - 1)
    {
      CreateKeeps(rows, user, d, now, age, x);
      assert Above(rows, live, x) == Rivals(rows, user, now, x);
    }
    NewestCount(rows, live, MAX_LIVE_SESSIONS_PER_USER - 1);
    var newest := Newest(rows, live, MAX_LIVE_SESSIONS_PER_USER - 1);
    if |live| < MAX_LIVE_SESSIONS_PER_USER {
      Fills(newest, live);
    } else if live <= newest {
      Within(live, newest);
    }
  }

  lemma {:induction false} Fills(a: set<Digest>, b: set<Digest>)
    requires a <= b && |a| == |b|
    ensures a == b
  {
    if x :| x in b && x !in a { Smaller(a, b, x); }
  }

  // ----- revocation -----

  /** Nothing to resolve, at any clock. */
  ghost predicate Dead(rows: Rows, d: Digest) {
    forall now :: Resolve(rows, d, now) == None
  }

  predicate Gone(rows: Rows, d: Digest) {
    d in rows ==> rows[d].revokedAt.Some?
  }

  lemma {:induction false} RunKeepsGone(db: Db, trace: seq<Event>, d: Digest)
    requires Gone(db.rows, d) && forall e :: e in trace ==> !(e.Create? && e.digest == d)
    ensures Gone(Run(db, trace).rows, d)
    decreases |trace|
  {
    if trace != [] {
      assert trace[0] in trace && forall e :: e in trace[1..] ==> e in trace;
      RunKeepsGone(Step(db, trace[0]), trace[1..], d);
    }
  }

  /** A token revoked, with success, never resolves again, whatever clocks are asked. */
  lemma RevokedForEver(db: Db, d: Digest, now: int, trace: seq<Event>)
    requires MayRevoke(db.rows, d, now) && forall e :: e in trace ==> !(e.Create? && e.digest == d)
    ensures Dead(Run(Step(db, Revoke(d, now)), trace).rows, d)
  {
    RunKeepsGone(Step(db, Revoke(d, now)), trace, d);
  }

  /** Only the first revocation is kept, and a second answers that there was nothing to revoke. */
  lemma RevokeOnce(db: Db, d: Digest, now: int, later: int)
    requires MayRevoke(db.rows, d, now)
    ensures var once := Step(db, Revoke(d, now));
            && once.rows[d] == db.rows[d].(revokedAt := Some(now))
            && !MayRevoke(once.rows, d, later) && Step(once, Revoke(d, later)) == once
  {
  }

  /** Revoking ends a resolvable session exactly when the clock has reached its creation. */
  lemma RevokeNeedsClock(db: Db, d: Digest, now: int, at: int)
    requires Valid(db) && Millis(now) && Resolve(db.rows, d, at).Some?
    ensures Dead(Step(db, Revoke(d, now)).rows, d) <==> db.rows[d].createdAt <= now
  {
    assert db.rows[d].createdAt > now ==> Resolve(Step(db, Revoke(d, now)).rows, d, at).Some?;
  }

  // ----- the whole life of a token -----

  /** What may end a session: its own revocation, its user's end, a sweep at a clock past its
      expiry, or a sign-in of the same user with four newer sessions live. */
  predicate Ends(db: Db, e: Event, d: Digest)
    requires d in db.rows
  {
    match e
    case SignUp(_) => false
    case DeleteUser(user) => db.rows[d].user == user
    case Create(user, new_, now, age) =>
      && MayCreate(db, user, new_, now, age)
      && (now >= db.rows[d].expiresAt || (db.rows[d].user == user && |Rivals(db.rows, user, now, d)| >= 4))
    case Revoke(x, now) => x == d && db.rows[d].createdAt <= now && Millis(now)
    case PruneExpired(now) => now >= db.rows[d].expiresAt && Millis(now)
  }

  lemma SurvivesUnlessEnded(db: Db, e: Event, d: Digest)
    requires d in db.rows && db.rows[d].revokedAt == None
    ensures var after := Step(db, e).rows;
            (d in after && after[d] == db.rows[d]) <==> !Ends(db, e, d)
  {
    if e.Create? && MayCreate(db, e.user, e.digest, e.now, e.age) {
      CreateKeeps(db.rows, e.user, e.digest, e.now, e.age, d);
    }
  }

  /** A sweep at a proper clock drops exactly the expired rows, revoked or not, and keeps the others
      as they are. */
  lemma PruneDropsExpired(db: Db, now: int, d: Digest)
    requires d in db.rows
    ensures var after := Step(db, PruneExpired(now)).rows;
            && (d in after <==> !(0 <= now <= 9007199254740991 && db.rows[d].expiresAt <= now))
            && (d in after ==> after[d] == db.rows[d])
  {
  }

  ghost predicate Undisturbed(db: Db, trace: seq<Event>, d: Digest)
    decreases |trace|
  {
    trace == [] || (d in db.rows && !Ends(db, trace[0], d) && Undisturbed(Step(db, trace[0]), trace[1..], d))
  }

  /** Until one of those happens a token keeps resolving to the user it was issued to, for
      exactly its lifetime. */
  lemma {:induction false} TokenLives(db: Db, d: Digest, trace: seq<Event>, now: int)
    requires d in db.rows && db.rows[d].revokedAt == None && Undisturbed(db, trace, d) && Millis(now)
    ensures Resolve(Run(db, trace).rows, d, now) == if now < db.rows[d].expiresAt then Some(db.rows[d].user) else None
    decreases |trace|
  {
    if trace != [] {
      SurvivesUnlessEnded(db, trace[0], d);
      TokenLives(Step(db, trace[0]), d, trace[1..], now);
    }
  }

  // ----- the table -----

  /** The last DELETE as it is written: it looks for live rows among what pruning left. */
  function TrimNewest(rows: Rows, user: User, newest: Digest, now: int): Rows {
    var live := set d | d in rows && rows[d].user == user && LiveAt(rows[d], now) && d != newest;
    rows - (live - Newest(rows, live, MAX_LIVE_SESSIONS_PER_USER - 1))
  }

  lemma TrimLive(rows: Rows, inserted: Rows, user: User, newest: Digest, now: int)
    requires rows == Pruned(inserted, now)
    ensures TrimNewest(rows, user, newest, now) == Trimmed(rows, user, newest)
  {
    var live := set d | d in rows && rows[d].user == user && LiveAt(rows[d], now) && d != newest;
    assert live == RowsOf(rows, user) - {newest};
  }

  class IdentitySessions {
    var users: set<User>
    var rows: Rows

    ghost function Model(): Db
      reads this
    {
      Db(users, rows)
    }

    constructor ()
      ensures Model() == Db({}, map[]) && Valid(Model())
    {
      users, rows := {}, map[];
    }

    method UpsertUser(user: User)
      requires Valid(Model())
      modifies this
      ensures Model() == Step(old(Model()), SignUp(user)) && Valid(Model())
    {
      StepKeepsValid(Model(), SignUp(user));
      users := users + {user};
    }

    /** Inserts the row, prunes dead history for everybody, then trims the user's own rows. */
    method Issue(user: User, digest: Digest, now: int, age: int)
      requires digest !in rows && age >= 1
      modifies this`rows
      ensures rows == Created(old(rows), user, digest, now, age)
    {
      rows := rows[digest := Row(user, now, ExpiresAt(now, age), None)];
      ghost var inserted := rows;
      rows := map d | d in rows && !(rows[d].expiresAt <= now || rows[d].revokedAt != None) :: rows[d];
      assert rows == Pruned(inserted, now);
      TrimLive(rows, inserted, user, digest, now);
      rows := TrimNewest(rows, user, digest, now);
    }

    method CreateSession(user: User, digest: Digest, now: int, age: int) returns (ok: bool)
      requires Valid(Model())
      modifies this`rows
      ensures ok <==> old(MayCreate(Model(), user, digest, now, age))
      ensures Model() == Step(old(Model()), Create(user, digest, now, age)) && Valid(Model())
    {
      StepKeepsValid(Model(), Create(user, digest, now, age));
      if !Millis(now) || age < 1 || age > MAX_SESSION_AGE_SECONDS { return false; }
      if now + age * 1000 > MAX_SAFE_INTEGER { return false; }
      if user !in users || digest in rows { return false; }
      Issue(user, digest, now, age);
      return true;
    }

    method ResolveSession(digest: Digest, now: int) returns (user: Option<User>)
      ensures user == Resolve(rows, digest, now)
    {
      if now < 0 || now > MAX_SAFE_INTEGER || digest !in rows { return None; }
      var row := rows[digest];
      return if row.revokedAt == None && row.expiresAt > now then Some(row.user) else None;
    }

    method RevokeSession(digest: Digest, now: int) returns (revoked: bool)
      requires Valid(Model())
      modifies this
      ensures revoked <==> old(MayRevoke(rows, digest, now))
      ensures Model() == Step(old(Model()), Revoke(digest, now)) && Valid(Model())
      ensures revoked ==> Dead(rows, digest)
    {
      StepKeepsValid(Model(), Revoke(digest, now));
      if now < 0 || now > MAX_SAFE_INTEGER || digest !in rows { return false; }
      var row := rows[digest];
      if row.revokedAt != None || row.createdAt > now { return false; }
      rows := rows[digest := row.(revokedAt := Some(now))];
      return true;
    }

    method PruneExpiredSessions(now: int) returns (ok: bool)
      requires Valid(Model())
      modifies this
      ensures ok <==> Millis(now)
      ensures Model() == Step(old(Model()), PruneExpired(now)) && Valid(Model())
    {
      StepKeepsValid(Model(), PruneExpired(now));
      if now < 0 || now > MAX_SAFE_INTEGER { return false; }
      rows := map d | d in rows && rows[d].expiresAt > now :: rows[d];
      return true;
    }
  }
}

/** The run, delivery and claim ledger of delegated work: the tables, CHECKs, unique
    indexes and triggers of schema version 23 (server/db/migrations.ts).

    One plain SQL statement is one step, committed or aborted whole.  INSERT OR REPLACE takes
    the same guards as INSERT, because the `no_replace` triggers abort it first.  UPDATE OR
    REPLACE on runs has no such trigger: it can drop the row that clashes on a unique index
    without firing the delete trigger, and is not among the statements here. */
module RunLedger {

  import opened Options

  const MAX_SAFE := 9007199254740991
  const MAX_LEASE := 300_000

  /** A well-formed hash. */
  const ZEROS := seq(64, _ => '0')

  // ----- rows -----

  datatype RunState = Pending | Running | Completed | Failed | Interrupted | Partial

  predicate Terminal(s: RunState) {
    s.Completed? || s.Failed? || s.Interrupted? || s.Partial?
  }

  /** The columns `agent_task_runs_identity_immutable` names. */
  datatype RunIdentity = RunIdentity(task: string, workerBot: string, workerThread: string, sourceBot: string,
                                     sourceThread: string, parentThread: string, room: Option<string>, attempt: int)

  /** The columns `agent_task_runs_terminal_immutable` names. */
  datatype RunReceipt = RunReceipt(state: RunState, outcome: Option<RunState>, resultJson: Option<string>,
                                   resultHash: Option<string>, failureCode: Option<string>, turn: Option<string>,
                                   provider: Option<string>, model: Option<string>, startedAt: Option<int>)

  datatype RunRow = RunRow(identity: RunIdentity, receipt: RunReceipt, createdAt: int, updatedAt: int,
                           lastProgressAt: Option<int>, progressSeq: int, progressJson: Option<string>)

  datatype DeliveryState = DPending | DClaimed | DDelivered | DFailed | DRejected
  datatype Destination = Parent | Room

  datatype DeliveryIdentity = DeliveryIdentity(run: string, kind: Destination, thread: string,
                                               message: string, payloadJson: string, payloadHash: string)

  datatype DeliveryReceipt = DeliveryReceipt(state: DeliveryState, failureCode: Option<string>,
                                             deliveredAt: Option<int>)

  datatype DeliveryRow = DeliveryRow(
    identity: DeliveryIdentity,
    receipt: DeliveryReceipt,
    attempts: int,
    maxAttempts: int,
    retryAt: Option<int>,
    token: Option<string>,
    owner: Option<string>,
    lease: Option<int>,
    generation: int,
    publishedAt: Option<int>,
    createdAt: int,
    updatedAt: int)

  datatype ClaimKey = ClaimKey(delivery: string, generation: int)
  datatype Claim = Claim(token: string, owner: string, claimedAt: int, leaseExpiresAt: int)
  datatype ClaimRow = ClaimRow(claim: Claim, outcome: Option<string>)

  datatype Db = Db(runs: map<string, RunRow>, deliveries: map<string, DeliveryRow>,
                   claims: map<ClaimKey, ClaimRow>, messages: map<string, string>)

  datatype Statement =
    | InsertRun(id: string, run: RunRow)
    | UpdateRun(id: string, run: RunRow)
    | DeleteRun(id: string)
    | InsertDelivery(id: string, delivery: DeliveryRow)
    | UpdateDelivery(id: string, delivery: DeliveryRow)
    | DeleteDelivery(id: string)
    | InsertClaim(key: ClaimKey, row: ClaimRow)
    | UpdateClaim(key: ClaimKey, setsIdentity: bool, row: ClaimRow)
    | DeleteClaim(key: ClaimKey)
    | InsertMessage(id: string, thread: string)
    | DeleteMessage(id: string)

  // ----- CHECK constraints -----

  const RUN_FAILURES := {"interrupted", "cancelled", "provider_error", "auth", "config", "quota"}

  const DELIVERY_FAILURES :=
    {"destination_unavailable", "io_error", "conflict_retry", "auth", "config", "quota",
     "payload_mismatch", "identity_mismatch", "attempts_exhausted"}

  predicate Text(s: string, max: nat) { 1 <= |s| <= max }
  predicate OptText(s: Option<string>, max: nat) { s.Some? ==> Text(s.value, max) }
  predicate Instant(t: int, from: int) { from <= t <= MAX_SAFE }
  predicate OptInstant(t: Option<int>, from: int) { t.Some? ==> Instant(t.value, from) }
  predicate Hash(h: string) { |h| == 64 && forall i :: 0 <= i < |h| ==> '0' <= h[i] <= '9' || 'a' <= h[i] <= 'f' }

  /** The CHECK over the whole receipt.  Its terminal case compares the outcome with the state;
      with a NULL outcome the comparison, and with it the whole CHECK, is NULL, which SQLite
      takes as passed. */
  predicate ReceiptCheck(r: RunReceipt) {
    var started := r.turn.Some? && r.provider.Some? && r.model.Some? && r.startedAt.Some?;
    match r.state
    case Pending =>
      && r.turn.None? && r.provider.None? && r.model.None? && r.startedAt.None?
      && r.resultJson.None? && r.resultHash.None? && r.outcome.None? && r.failureCode.None?
    case Running => started && r.resultJson.None? && r.resultHash.None? && r.outcome.None?
    case _ =>
      started && r.resultJson.Some? && r.resultHash.Some? && (r.outcome.Some? ==> r.outcome.value == r.state)
  }

  predicate RunChecks(id: string, r: RunRow) {
    var i, e := r.identity, r.receipt;
    && Text(id, 128) && Text(i.task, 128) && Text(i.workerBot, 128) && Text(i.workerThread, 128)
    && Text(i.sourceBot, 128) && Text(i.sourceThread, 128) && Text(i.parentThread, 128)
    && OptText(i.room, 128) && i.attempt >= 1
    && OptText(e.turn, 256) && OptText(e.provider, 128) && OptText(e.model, 256) && OptInstant(e.startedAt, 0)
    && Instant(r.createdAt, 0) && Instant(r.updatedAt, r.createdAt) && OptInstant(r.lastProgressAt, r.createdAt)
    && r.progressSeq >= 0 && (r.progressJson.Some? ==> r.progressJson.value != "")
    && (e.resultJson.Some? ==> e.resultJson.value != "") && (e.resultHash.Some? ==> Hash(e.resultHash.value))
    && (e.outcome.Some? ==> Terminal(e.outcome.value))
    && (e.failureCode.Some? ==> e.failureCode.value in RUN_FAILURES)
    && ReceiptCheck(e)
  }

  predicate DeliveryChecks(id: string, d: DeliveryRow) {
    var i, e := d.identity, d.receipt;
    && Text(id, 128) && Text(i.run, 128) && Text(i.thread, 128) && Text(i.message, 256)
    && i.payloadJson != "" && Hash(i.payloadHash)
    && d.attempts >= 0 && 1 <= d.maxAttempts <= 32 && OptInstant(d.retryAt, 0)
    && (d.token.Some? ==> 16 <= |d.token.value| <= 128) && OptText(d.owner, 128) && OptInstant(d.lease, 0)
    && d.generation >= 0 && OptInstant(e.deliveredAt, 0) && OptInstant(d.publishedAt, 0)
    && (e.failureCode.Some? ==> e.failureCode.value in DELIVERY_FAILURES)
    && Instant(d.createdAt, 0) && Instant(d.updatedAt, d.createdAt)
    && match e.state
       case DClaimed => d.token.Some? && d.owner.Some? && d.lease.Some? && e.deliveredAt.None?
       case DDelivered => e.deliveredAt.Some? && d.token.Some?
       case _ => e.deliveredAt.None?
  }

  predicate ClaimChecks(key: ClaimKey, row: ClaimRow) {
    var c := row.claim;
    && Text(key.delivery, 128) && key.generation >= 1
    && 16 <= |c.token| <= 128 && Text(c.owner, 128)
    && Instant(c.claimedAt, 0) && c.claimedAt < c.leaseExpiresAt <= c.claimedAt + MAX_LEASE
    && (row.outcome.Some? ==> row.outcome.value in {"acked", "reclaimed", "expired"})
  }

  // ----- unique indexes -----

  predicate SharesTurn(a: RunRow, b: RunRow) {
    && !a.receipt.state.Pending? && !b.receipt.state.Pending?
    && a.receipt.turn.Some? && a.receipt.turn == b.receipt.turn
    && a.receipt.provider.Some? && a.receipt.provider == b.receipt.provider
  }

  predicate SharesThread(a: RunRow, b: RunRow) {
    a.receipt.state.Running? && b.receipt.state.Running? && a.identity.workerThread == b.identity.workerThread
  }

  predicate RunUnique(runs: map<string, RunRow>, id: string, row: RunRow) {
    forall other :: other in runs && other != id ==> !SharesTurn(runs[other], row) && !SharesThread(runs[other], row)
  }

  predicate SharesDestination(a: DeliveryRow, b: DeliveryRow) {
    || (a.identity.run == b.identity.run && a.identity.kind == b.identity.kind)
    || a.identity.message == b.identity.message
  }

  predicate DeliveryUnique(deliveries: map<string, DeliveryRow>, id: string, row: DeliveryRow) {
    forall other :: other in deliveries && other != id ==> !SharesDestination(deliveries[other], row)
  }

  // ----- triggers -----

  predicate RunMove(was: RunState, now: RunState) {
    was == now || (was.Pending? && now.Running?) || (was.Running? && Terminal(now))
  }

  predicate DeliveryMove(was: DeliveryState, now: DeliveryState) {
    match was
    case DPending => now in {DPending, DClaimed, DFailed, DRejected}
    case DClaimed => true
    case DFailed => now in {DFailed, DPending}
    case _ => now == was
  }

  predicate Sealed(s: DeliveryState) { s.DDelivered? || s.DRejected? }

  predicate LeaseBounded(d: DeliveryRow) {
    d.lease.Some? && d.updatedAt < d.lease.value <= d.updatedAt + MAX_LEASE
  }

  predicate MessageCommitted(db: Db, d: DeliveryRow) {
    d.identity.message in db.messages && db.messages[d.identity.message] == d.identity.thread
  }

  predicate RunUpdateAllowed(was: RunRow, now: RunRow) {
    && now.identity == was.identity
    && RunMove(was.receipt.state, now.receipt.state)
    && (Terminal(was.receipt.state) ==> now.receipt == was.receipt)
    && now.progressSeq >= was.progressSeq
    && now.updatedAt >= was.updatedAt
    && (now.lastProgressAt.Some? && was.lastProgressAt.Some? ==> now.lastProgressAt.value >= was.lastProgressAt.value)
  }

  predicate DeliveryUpdateAllowed(db: Db, was: DeliveryRow, now: DeliveryRow) {
    && now.identity == was.identity
    && DeliveryMove(was.receipt.state, now.receipt.state)
    && (Sealed(was.receipt.state) ==> now.receipt == was.receipt)
    && (now.receipt.state.DDelivered? ==> MessageCommitted(db, now))
    && (now.receipt.failureCode == Some("attempts_exhausted") ==> now.attempts >= now.maxAttempts)
    && (now.receipt.state.DClaimed? ==> LeaseBounded(now))
    && now.updatedAt >= was.updatedAt
  }

  /** The statement is not aborted by a constraint or trigger. */
  predicate Permitted(db: Db, s: Statement) {
    match s
    case InsertRun(id, r) =>
      r.receipt.state.Pending? && id !in db.runs && RunChecks(id, r) && RunUnique(db.runs, id, r)
    case UpdateRun(id, r) =>
      id in db.runs && RunUpdateAllowed(db.runs[id], r) && RunChecks(id, r) && RunUnique(db.runs, id, r)
    case DeleteRun(id) => id !in db.runs
    case InsertDelivery(id, d) =>
      && d.receipt.state.DPending? && d.token.None? && d.publishedAt.None?
      && id !in db.deliveries && DeliveryChecks(id, d) && DeliveryUnique(db.deliveries, id, d)
      && d.identity.run in db.runs
    case UpdateDelivery(id, d) =>
      id in db.deliveries && DeliveryUpdateAllowed(db, db.deliveries[id], d) && DeliveryChecks(id, d)
    case DeleteDelivery(id) => id !in db.deliveries
    case InsertClaim(key, row) =>
      && key !in db.claims && ClaimChecks(key, row) && key.delivery in db.deliveries
      && forall other :: other in db.claims ==> db.claims[other].claim.token != row.claim.token
    case UpdateClaim(key, sets, row) =>
      key in db.claims && !sets && row.claim == db.claims[key].claim && ClaimChecks(key, row)
    case DeleteClaim(key) => key !in db.claims
    case InsertMessage(id, _) => id !in db.messages
    case DeleteMessage(_) => true
  }

  function Effect(db: Db, s: Statement): Db
    requires Permitted(db, s)
  {
    match s
    case InsertRun(id, r) => db.(runs := db.runs[id := r])
    case UpdateRun(id, r) => db.(runs := db.runs[id := r])
    case InsertDelivery(id, d) => db.(deliveries := db.deliveries[id := d])
    case UpdateDelivery(id, d) => db.(deliveries := db.deliveries[id := d])
    case InsertClaim(key, row) => db.(claims := db.claims[key := row])
    case UpdateClaim(key, _, row) => db.(claims := db.claims[key := row])
    case InsertMessage(id, thread) => db.(messages := db.messages[id := thread])
    case DeleteMessage(id) => db.(messages := db.messages - {id})
    case _ => db
  }

  function Step(db: Db, s: Statement): Db {
    if Permitted(db, s) then Effect(db, s) else db
  }

  function Run(db: Db, trace: seq<Statement>): Db
    decreases |trace|
  {
    if trace == [] then db else Run(Step(db, trace[0]), trace[1..])
  }

  // ----- the ledger's invariant -----

  ghost predicate RunsValid(db: Db) {
    && (forall id :: id in db.runs ==> RunChecks(id, db.runs[id]))
    && (forall a, b :: a in db.runs && b in db.runs && a != b ==>
          !SharesTurn(db.runs[a], db.runs[b]) && !SharesThread(db.runs[a], db.runs[b]))
  }

  ghost predicate DeliveriesValid(db: Db) {
    && (forall id :: id in db.deliveries ==>
          && DeliveryChecks(id, db.deliveries[id])
          && db.deliveries[id].identity.run in db.runs
          && (db.deliveries[id].receipt.state.DClaimed? ==> LeaseBounded(db.deliveries[id])))
    && (forall a, b :: a in db.deliveries && b in db.deliveries && a != b ==>
          !SharesDestination(db.deliveries[a], db.deliveries[b]))
  }

  ghost predicate ClaimsValid(db: Db) {
    && (forall key :: key in db.claims ==> ClaimChecks(key, db.claims[key]) && key.delivery in db.deliveries)
    && (forall a, b :: a in db.claims && b in db.claims && a != b ==>
          db.claims[a].claim.token != db.claims[b].claim.token)
  }

  ghost predicate Valid(db: Db) {
    RunsValid(db) && DeliveriesValid(db) && ClaimsValid(db)
  }

  lemma StoredRun(db: Db, id: string, row: RunRow)
    requires RunsValid(db) && RunChecks(id, row) && RunUnique(db.runs, id, row)
    ensures RunsValid(db.(runs := db.runs[id := row]))
  {
  }

  lemma StepKeepsRunsValid(db: Db, s: Statement)
    requires RunsValid(db)
    ensures RunsValid(Step(db, s))
  {
    if s.InsertRun? || s.UpdateRun? {
      if Permitted(db, s) { StoredRun(db, s.id, s.run); }
    } else {
      assert Step(db, s).runs == db.runs;
    }
  }

  lemma StoredDelivery(db: Db, id: string, d: DeliveryRow)
    requires DeliveriesValid(db) && DeliveryChecks(id, d) && DeliveryUnique(db.deliveries, id, d)
    requires d.identity.run in db.runs
    requires d.receipt.state.DClaimed? ==> LeaseBounded(d)
    ensures DeliveriesValid(db.(deliveries := db.deliveries[id := d]))
  {
  }

  lemma StepKeepsDeliveriesValid(db: Db, s: Statement)
    requires DeliveriesValid(db)
    ensures DeliveriesValid(Step(db, s))
  {
    if s.InsertDelivery? || s.UpdateDelivery? {
      if Permitted(db, s) { StoredDelivery(db, s.id, s.delivery); }
    } else {
      assert Step(db, s).deliveries == db.deliveries && db.runs.Keys <= Step(db, s).runs.Keys;
    }
  }

  lemma StoredClaim(db: Db, key: ClaimKey, row: ClaimRow)
    requires ClaimsValid(db) && ClaimChecks(key, row) && key.delivery in db.deliveries
    requires forall other :: other in db.claims && other != key ==> db.claims[other].claim.token != row.claim.token
    ensures ClaimsValid(db.(claims := db.claims[key := row]))
  {
  }

  lemma StepKeepsClaimsValid(db: Db, s: Statement)
    requires ClaimsValid(db)
    ensures ClaimsValid(Step(db, s))
  {
    if s.InsertClaim? || s.UpdateClaim? {
      if Permitted(db, s) { StoredClaim(db, s.key, s.row); }
    } else {
      assert Step(db, s).claims == db.claims && db.deliveries.Keys <= Step(db, s).deliveries.Keys;
    }
  }

  lemma {:induction false} RunKeepsDeliveriesValid(db: Db, trace: seq<Statement>)
    requires DeliveriesValid(db)
    ensures DeliveriesValid(Run(db, trace))
    decreases |trace|
  {
    if trace != [] {
      StepKeepsDeliveriesValid(db, trace[0]);
      RunKeepsDeliveriesValid(Step(db, trace[0]), trace[1..]);
    }
  }

  lemma {:induction false} RunKeepsClaimsValid(db: Db, trace: seq<Statement>)
    requires ClaimsValid(db)
    ensures ClaimsValid(Run(db, trace))
    decreases |trace|
  {
    if trace != [] {
      StepKeepsClaimsValid(db, trace[0]);
      RunKeepsClaimsValid(Step(db, trace[0]), trace[1..]);
    }
  }

  lemma {:induction false} RunKeepsRunsValid(db: Db, trace: seq<Statement>)
    requires RunsValid(db)
    ensures RunsValid(Run(db, trace))
    decreases |trace|
  {
    if trace != [] {
      StepKeepsRunsValid(db, trace[0]);
      RunKeepsRunsValid(Step(db, trace[0]), trace[1..]);
    }
  }

  /** From any valid ledger, in particular the empty one, every run of statements leaves a
      valid ledger: at most one running run a worker thread, one started run a provider turn,
      one delivery a (run, destination), every claimed row with a lease of at most five minutes past its own update. */
  lemma RunKeepsValid(db: Db, trace: seq<Statement>)
    requires Valid(db)
    ensures Valid(Run(db, trace))
  {
    RunKeepsRunsValid(db, trace);
    RunKeepsDeliveriesValid(db, trace);
    RunKeepsClaimsValid(db, trace);
  }

  lemma StepKeepsValid(db: Db, s: Statement)
    requires Valid(db)
    ensures Valid(Step(db, s))
  {
    StepKeepsRunsValid(db, s);
    StepKeepsDeliveriesValid(db, s);
    StepKeepsClaimsValid(db, s);
  }

  // ----- histories -----

  /** `now` may be found where `was` once stood. */
  predicate RunSucceeds(was: RunRow, now: RunRow) {
    && now.identity == was.identity
    && (was.receipt.state.Pending? || was.receipt.state == now.receipt.state
        || (was.receipt.state.Running? && Terminal(now.receipt.state)))
    && (Terminal(was.receipt.state) ==> now.receipt == was.receipt)
    && now.progressSeq >= was.progressSeq && now.updatedAt >= was.updatedAt
  }

  /** A run is never lost, its identity never changes, its state only moves from pending to
      running to one terminal state, and a terminal receipt is the same for ever. */
  lemma {:induction false} RunLifecycle(db: Db, trace: seq<Statement>, id: string)
    requires id in db.runs
    ensures id in Run(db, trace).runs && RunSucceeds(db.runs[id], Run(db, trace).runs[id])
    decreases |trace|
  {
    if trace != [] {
      assert RunSucceeds(db.runs[id], Step(db, trace[0]).runs[id]);
      RunLifecycle(Step(db, trace[0]), trace[1..], id);
    }
  }

  /** Result and hash are present exactly in terminal states, turn, provider, model and start exactly
      once started; an outcome is present in terminal states only, and is then the state. */
  lemma ResultExactlyWhenTerminal(db: Db, trace: seq<Statement>, id: string)
    requires RunsValid(db) && id in Run(db, trace).runs
    ensures var r := Run(db, trace).runs[id].receipt;
            && (r.resultJson.Some? <==> Terminal(r.state))
            && (r.resultHash.Some? <==> Terminal(r.state))
            && (r.outcome.Some? ==> Terminal(r.state) && r.outcome.value == r.state)
            && (r.turn.Some? <==> !r.state.Pending?) && (r.provider.Some? <==> !r.state.Pending?)
            && (r.model.Some? <==> !r.state.Pending?) && (r.startedAt.Some? <==> !r.state.Pending?)
            && (r.failureCode.Some? ==> !r.state.Pending?)
  {
    RunKeepsRunsValid(db, trace);
    assert ReceiptCheck(Run(db, trace).runs[id].receipt);
  }

  /** `s` takes the run `id` from running to a terminal state. */
  predicate Seals(db: Db, s: Statement, id: string) {
    && s.UpdateRun? && s.id == id && Permitted(db, s)
    && db.runs[id].receipt.state.Running? && Terminal(s.run.receipt.state)
  }

  lemma SealedByUpdate(db: Db, s: Statement, id: string)
    requires RunsValid(db) && id in Step(db, s).runs && Terminal(Step(db, s).runs[id].receipt.state)
    requires id in db.runs ==> !Terminal(db.runs[id].receipt.state)
    ensures Seals(db, s, id) && Step(db, s).runs[id] == s.run
  {
    hide RunChecks, RunUnique, RunsValid;
  }

  /** Every terminal run was sealed by one statement of the run, whose receipt it still
      carries; its outcome is its state exactly when that statement wrote one, and is NULL for
      ever otherwise. */
  lemma {:induction false} OutcomeAsSealed(db: Db, trace: seq<Statement>, id: string) returns (i: nat)
    requires RunsValid(db) && id in Run(db, trace).runs && Terminal(Run(db, trace).runs[id].receipt.state)
    requires id in db.runs ==> !Terminal(db.runs[id].receipt.state)
    ensures i < |trace| && Seals(Run(db, trace[..i]), trace[i], id)
    ensures var r := Run(db, trace).runs[id].receipt;
            && r == trace[i].run.receipt
            && (r.outcome == Some(r.state) <==> trace[i].run.receipt.outcome.Some?)
    decreases |trace|
  {
    assert trace != [];
    var next := Step(db, trace[0]);
    StepKeepsRunsValid(db, trace[0]);
    if id in next.runs && Terminal(next.runs[id].receipt.state) {
      i := 0;
      assert trace[..0] == [];
      SealedByUpdate(db, trace[0], id);
      RunLifecycle(next, trace[1..], id);
      ResultExactlyWhenTerminal(db, trace, id);
    } else {
      var j := OutcomeAsSealed(next, trace[1..], id);
      i := j + 1;
      RunPrefix(db, trace, j);
    }
  }

  const EMPTY := Db(map[], map[], map[], map[])

  /** The row of a running run with a result, and no outcome. */
  function WithoutOutcome(row: RunRow, state: RunState, result: string, hash: string): RunRow {
    row.(receipt := row.receipt.(state := state, resultJson := Some(result), resultHash := Some(hash), outcome := None))
  }

  /** The table's CHECK was written to forbid it, but every running run can be sealed without an
      outcome, and then never gets one. */
  lemma SealedWithoutOutcome(db: Db, id: string, state: RunState, result: string, hash: string, after: seq<Statement>)
    requires RunsValid(db) && id in db.runs && db.runs[id].receipt.state.Running?
    requires Terminal(state) && result != "" && Hash(hash)
    ensures var sealing := UpdateRun(id, WithoutOutcome(db.runs[id], state, result, hash));
            var later := Run(Step(db, sealing), after).runs;
            && Permitted(db, sealing)
            && id in later && later[id].receipt.state == state && later[id].receipt.outcome == None
  {
    var row := WithoutOutcome(db.runs[id], state, result, hash);
    assert RunChecks(id, db.runs[id]);
    assert RunChecks(id, row);
    forall other | other in db.runs && other != id ensures !SharesTurn(db.runs[other], row) {
      assert !SharesTurn(db.runs[other], db.runs[id]);
    }
    RunLifecycle(Step(db, UpdateRun(id, row)), after, id);
  }

  const OPEN := RunReceipt(Pending, None, None, None, None, None, None, None, None)
  const STARTED :=
    OPEN.(state := Running, turn := Some("t"), provider := Some("p"), model := Some("m"), startedAt := Some(0))
  const ROW := RunRow(RunIdentity("k", "w", "x", "s", "y", "z", None, 1), OPEN, 0, 0, None, 0, None)

  /** An instance from the empty tables: a run that completes without an outcome. */
  lemma CompletedWithoutOutcome()
    ensures var running := Run(EMPTY, [InsertRun("r", ROW), UpdateRun("r", ROW.(receipt := STARTED))]);
            && RunsValid(running) && running.runs == map["r" := ROW.(receipt := STARTED)]
            && var sealing := UpdateRun("r", WithoutOutcome(running.runs["r"], Completed, "{}", ZEROS));
               Permitted(running, sealing) && Step(running, sealing).runs["r"].receipt.outcome == None
  {
    var s0, s1 := InsertRun("r", ROW), UpdateRun("r", ROW.(receipt := STARTED));
    StartedFromEmpty();
    assert RunsValid(EMPTY);
    var running := Run(EMPTY, [s0, s1]);
    hide RunsValid, Run;
    RunKeepsRunsValid(EMPTY, [s0, s1]);
    SealedWithoutOutcome(running, "r", Completed, "{}", ZEROS, []);
    hide Permitted;
  }

  lemma StartedFromEmpty()
    ensures Run(EMPTY, [InsertRun("r", ROW), UpdateRun("r", ROW.(receipt := STARTED))]).runs
         == map["r" := ROW.(receipt := STARTED)]
  {
    var s0, s1 := InsertRun("r", ROW), UpdateRun("r", ROW.(receipt := STARTED));
    var db1 := Step(EMPTY, s0);
    assert db1.runs == map["r" := ROW];
    assert [s0, s1][1..] == [s1] && [s1][1..] == [];
    assert Run(db1, [s1]) == Run(Step(db1, s1), []) == Step(db1, s1);
  }

  /** A terminal run was seen running: no run jumps over `running`. */
  lemma {:induction false} TerminalWasRunning(db: Db, trace: seq<Statement>, id: string) returns (i: nat)
    requires id in Run(db, trace).runs && Terminal(Run(db, trace).runs[id].receipt.state)
    requires id in db.runs ==> !Terminal(db.runs[id].receipt.state)
    ensures i <= |trace|
    ensures var mid := Run(db, trace[..i]); id in mid.runs && mid.runs[id].receipt.state.Running?
    decreases |trace|
  {
    assert trace != [];
    var next := Step(db, trace[0]);
    if id in db.runs && db.runs[id].receipt.state.Running? {
      i := 0;
      assert trace[..0] == [];
    } else {
      var j := TerminalWasRunning(next, trace[1..], id);
      i := j + 1;
      RunPrefix(db, trace, j);
    }
  }

  lemma {:induction false} DeliveryHistory(db: Db, trace: seq<Statement>, id: string)
    requires id in db.deliveries
    ensures id in Run(db, trace).deliveries
    ensures Run(db, trace).deliveries[id].identity == db.deliveries[id].identity
    ensures db.deliveries[id].receipt.state.DDelivered? || db.deliveries[id].receipt.state.DRejected? ==>
              Run(db, trace).deliveries[id].receipt == db.deliveries[id].receipt
    decreases |trace|
  {
    if trace != [] { DeliveryHistory(Step(db, trace[0]), trace[1..], id); }
  }

  /** A claimed delivery has its token, its owner and a lease of at most five minutes; a time of
      delivery is there exactly in a delivered one, and with it the token it was claimed with. */
  lemma DeliveredExactlyWithTime(db: Db, trace: seq<Statement>, id: string)
    requires DeliveriesValid(db) && id in Run(db, trace).deliveries
    ensures var d := Run(db, trace).deliveries[id];
            && (d.receipt.deliveredAt.Some? <==> d.receipt.state.DDelivered?)
            && (d.receipt.state.DDelivered? ==> d.token.Some?)
            && (d.receipt.state.DClaimed? ==>
                  && d.token.Some? && d.owner.Some? && d.lease.Some?
                  && d.updatedAt < d.lease.value <= d.updatedAt + 300_000)
  {
    RunKeepsDeliveriesValid(db, trace);
    assert DeliveryChecks(id, Run(db, trace).deliveries[id]);
  }

  lemma RunPrefix(db: Db, trace: seq<Statement>, j: nat)
    requires j < |trace|
    ensures Run(db, trace[..j + 1]) == Run(Step(db, trace[0]), trace[1..][..j])
  {
    assert trace[..j + 1][0] == trace[0] && trace[..j + 1][1..] == trace[1..][..j];
  }

  /** `before` to `after` is the statement that delivers `id`. */
  ghost predicate Delivers(before: Db, after: Db, id: string) {
    && id in before.deliveries && id in after.deliveries
    && before.deliveries[id].receipt.state.DClaimed?
    && LeaseBounded(before.deliveries[id])
    && MessageCommitted(before, before.deliveries[id])
    && after.deliveries[id].receipt.state.DDelivered?
  }

  lemma DeliveredFromClaimed(db: Db, s: Statement, id: string)
    requires DeliveriesValid(db)
    requires id in db.deliveries ==> !db.deliveries[id].receipt.state.DDelivered?
    requires id in Step(db, s).deliveries && Step(db, s).deliveries[id].receipt.state.DDelivered?
    ensures Delivers(db, Step(db, s), id)
  {
    assert Step(db, s).deliveries != db.deliveries;
    assert s.UpdateDelivery? && s.id == id && Permitted(db, s);
    assert DeliveryMove(db.deliveries[id].receipt.state, s.delivery.receipt.state);
  }

  /** A delivery found delivered became so in one statement, from a claimed row whose lease was
      bounded against that row's own `updated_at`, at a moment when its message stood committed
      in its destination thread; the receipt written then is the one still there.  Nothing in
      the schema compares the lease with the moment of delivery. */
  lemma {:induction false} DeliveredProvesMessage(db: Db, trace: seq<Statement>, id: string) returns (i: nat)
    requires DeliveriesValid(db) && id in Run(db, trace).deliveries
    requires Run(db, trace).deliveries[id].receipt.state.DDelivered?
    requires id in db.deliveries ==> !db.deliveries[id].receipt.state.DDelivered?
    ensures i < |trace|
    ensures Delivers(Run(db, trace[..i]), Run(db, trace[..i + 1]), id)
    ensures Run(db, trace[..i + 1]).deliveries[id].receipt == Run(db, trace).deliveries[id].receipt
    decreases |trace|
  {
    assert trace != [];
    var next := Step(db, trace[0]);
    if id in next.deliveries && next.deliveries[id].receipt.state.DDelivered? {
      i := 0;
      DeliveredFromClaimed(db, trace[0], id);
      DeliveryHistory(next, trace[1..], id);
      RunPrefix(db, trace, 0);
      assert trace[..0] == [] && trace[1..][..0] == [];
    } else {
      StepKeepsDeliveriesValid(db, trace[0]);
      var j := DeliveredProvesMessage(next, trace[1..], id);
      i := j + 1;
      RunPrefix(db, trace, j);
      RunPrefix(db, trace, j + 1);
    }
  }

  /** Nothing ever rewrites or removes a claim record, and no later claim reuses its token. */
  lemma {:induction false} ClaimHistory(db: Db, trace: seq<Statement>, key: ClaimKey)
    requires key in db.claims
    ensures key in Run(db, trace).claims && Run(db, trace).claims[key].claim == db.claims[key].claim
    decreases |trace|
  {
    if trace != [] { ClaimHistory(Step(db, trace[0]), trace[1..], key); }
  }

  lemma TokenNamesOneClaim(db: Db, trace: seq<Statement>, first: ClaimKey, later: ClaimKey)
    requires ClaimsValid(db) && first in db.claims && later in Run(db, trace).claims
    requires Run(db, trace).claims[later].claim.token == db.claims[first].claim.token
    ensures first == later
  {
    RunKeepsClaimsValid(db, trace);
    ClaimHistory(db, trace, first);
  }

  /** Two looks at the ledger, however far apart, never show two deliveries for one
      (run, destination). */
  lemma OneDeliveryForEver(db: Db, trace: seq<Statement>, first: string, later: string)
    requires DeliveriesValid(db) && first in db.deliveries && later in Run(db, trace).deliveries
    requires SharesDestination(db.deliveries[first], Run(db, trace).deliveries[later])
    ensures first == later
  {
    RunKeepsDeliveriesValid(db, trace);
    DeliveryHistory(db, trace, first);
  }

  // ----- the tables -----

  /** The ledger's tables, written in place; triggers are checked in the order SQLite runs
      them and the result says whether the statement committed. */
  class Tables {
    var runs: map<string, RunRow>
    var deliveries: map<string, DeliveryRow>
    var claims: map<ClaimKey, ClaimRow>
    var messages: map<string, string>

    ghost function View(): Db reads this { Db(runs, deliveries, claims, messages) }

    constructor ()
      ensures View() == EMPTY && Valid(View())
    {
      runs, deliveries, claims, messages := map[], map[], map[], map[];
    }

    method StoreRun(id: string, row: RunRow) returns (ok: bool)
      modifies this
      ensures ok == Permitted(old(View()), InsertRun(id, row))
      ensures View() == Step(old(View()), InsertRun(id, row))
      ensures old(Valid(View())) ==> Valid(View())
    {
      if Valid(View()) { StepKeepsValid(View(), InsertRun(id, row)); }
      if row.receipt.state != Pending { return false; }
      if id in runs || !RunUnique(runs, id, row) { return false; }
      ok := RunChecks(id, row);
      if ok { runs := runs[id := row]; }
    }

    method ChangeRun(id: string, row: RunRow) returns (ok: bool)
      modifies this
      ensures ok == Permitted(old(View()), UpdateRun(id, row))
      ensures View() == Step(old(View()), UpdateRun(id, row))
      ensures old(Valid(View())) ==> Valid(View())
    {
      if Valid(View()) { StepKeepsValid(View(), UpdateRun(id, row)); }
      if id !in runs { return false; }
      var was := runs[id];
      if row.identity != was.identity { return false; }
      if !RunMove(was.receipt.state, row.receipt.state) { return false; }
      if Terminal(was.receipt.state) && row.receipt != was.receipt { return false; }
      if row.progressSeq < was.progressSeq || row.updatedAt < was.updatedAt { return false; }
      if row.lastProgressAt.Some? && was.lastProgressAt.Some? && row.lastProgressAt.value < was.lastProgressAt.value {
        return false;
      }
      ok := RunChecks(id, row) && RunUnique(runs, id, row);
      if ok { runs := runs[id := row]; }
    }

    method StoreDelivery(id: string, row: DeliveryRow) returns (ok: bool)
      modifies this
      ensures ok == Permitted(old(View()), InsertDelivery(id, row))
      ensures View() == Step(old(View()), InsertDelivery(id, row))
      ensures old(Valid(View())) ==> Valid(View())
    {
      if Valid(View()) { StepKeepsValid(View(), InsertDelivery(id, row)); }
      if row.receipt.state != DPending || row.receipt.deliveredAt.Some? || row.token.Some? || row.publishedAt.Some? {
        return false;
      }
      if id in deliveries || !DeliveryUnique(deliveries, id, row) { return false; }
      ok := DeliveryChecks(id, row) && row.identity.run in runs;
      if ok { deliveries := deliveries[id := row]; }
    }

    method ChangeDelivery(id: string, row: DeliveryRow) returns (ok: bool)
      modifies this
      ensures ok == Permitted(old(View()), UpdateDelivery(id, row))
      ensures View() == Step(old(View()), UpdateDelivery(id, row))
      ensures old(Valid(View())) ==> Valid(View())
    {
      if Valid(View()) { StepKeepsValid(View(), UpdateDelivery(id, row)); }
      if id !in deliveries { return false; }
      var was := deliveries[id];
      if row.identity != was.identity { return false; }
      if !DeliveryMove(was.receipt.state, row.receipt.state) { return false; }
      if Sealed(was.receipt.state) && row.receipt != was.receipt { return false; }
      if row.receipt.state == DDelivered
         && !(row.identity.message in messages && messages[row.identity.message] == row.identity.thread) {
        return false;
      }
      if row.receipt.failureCode == Some("attempts_exhausted") && row.attempts < row.maxAttempts { return false; }
      if row.receipt.state == DClaimed && !LeaseBounded(row) { return false; }
      if row.updatedAt < was.updatedAt { return false; }
      ok := DeliveryChecks(id, row);
      if ok { deliveries := deliveries[id := row]; }
    }

    method StoreClaim(key: ClaimKey, row: ClaimRow) returns (ok: bool)
      modifies this
      ensures ok == Permitted(old(View()), InsertClaim(key, row))
      ensures View() == Step(old(View()), InsertClaim(key, row))
      ensures old(Valid(View())) ==> Valid(View())
    {
      if Valid(View()) { StepKeepsValid(View(), InsertClaim(key, row)); }
      if key in claims || exists other :: other in claims && claims[other].claim.token == row.claim.token {
        return false;
      }
      ok := ClaimChecks(key, row) && key.delivery in deliveries;
      if ok { claims := claims[key := row]; }
    }

    method SettleClaim(key: ClaimKey, setsIdentity: bool, row: ClaimRow) returns (ok: bool)
      modifies this
      ensures ok == Permitted(old(View()), UpdateClaim(key, setsIdentity, row))
      ensures View() == Step(old(View()), UpdateClaim(key, setsIdentity, row))
      ensures old(Valid(View())) ==> Valid(View())
    {
      if Valid(View()) { StepKeepsValid(View(), UpdateClaim(key, setsIdentity, row)); }
      if key !in claims || setsIdentity || row.claim != claims[key].claim { return false; }
      ok := ClaimChecks(key, row);
      if ok { claims := claims[key := row]; }
    }
  }
}

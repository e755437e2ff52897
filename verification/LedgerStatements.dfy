/** The UPDATE and INSERT statements of server/repositories/agent-task-runs.ts, on the ledger of
    `RunLedger`: exactly when each of them commits, and the life cycles they lead through. */
module LedgerStatements {
  import opened Options
  import opened RunLedger

  // ----- the rows the statements write -----

  /** `insertRun` */
  function NewRun(identity: RunIdentity, at: int): RunRow {
    RunRow(identity, RunReceipt(Pending, None, None, None, None, None, None, None, None), at, at, None, 0, None)
  }

  /** `bindRunningSql` */
  function Started(r: RunRow, turn: string, provider: string, model: string, startedAt: int, at: int): RunRow {
    r.(receipt := r.receipt.(state := Running, turn := Some(turn), provider := Some(provider), model := Some(model),
                             startedAt := Some(startedAt)),
       updatedAt := at)
  }

  /** `progressSql` */
  function Progressed(r: RunRow, json: string, at: int): RunRow {
    r.(progressJson := Some(json), progressSeq := r.progressSeq + 1, lastProgressAt := Some(at), updatedAt := at)
  }

  /** `terminalizeSql` */
  function Finished(r: RunRow, state: RunState, result: string, hash: string, failure: Option<string>,
                    at: int): RunRow {
    r.(receipt := r.receipt.(state := state, outcome := Some(state), resultJson := Some(result),
                             resultHash := Some(hash), failureCode := failure),
       updatedAt := at)
  }

  /** `insertDelivery` */
  function NewDelivery(identity: DeliveryIdentity, maxAttempts: int, at: int): DeliveryRow {
    DeliveryRow(identity, DeliveryReceipt(DPending, None, None), 0, maxAttempts, None, None, None, None, 0, None,
                at, at)
  }

  /** `claimSql` */
  function Claimed(d: DeliveryRow, token: string, owner: string, lease: int, generation: int, attempts: int,
                   at: int): DeliveryRow {
    d.(receipt := d.receipt.(state := DClaimed, failureCode := None), token := Some(token), owner := Some(owner),
       lease := Some(lease), generation := generation, attempts := attempts, retryAt := None, updatedAt := at)
  }

  /** `ackSql` */
  function Acked(d: DeliveryRow, at: int): DeliveryRow {
    d.(receipt := DeliveryReceipt(DDelivered, None, Some(at)), retryAt := None, updatedAt := at)
  }

  /** `failSql` */
  function Failed(d: DeliveryRow, state: DeliveryState, code: Option<string>, retryAt: Option<int>,
                  at: int): DeliveryRow {
    var failed := d.(receipt := d.receipt.(state := state, failureCode := code), retryAt := retryAt, updatedAt := at);
    if state == DPending then failed.(token := None, owner := None, lease := None) else failed
  }

  /** `retryFailedSql` */
  function Retried(d: DeliveryRow, retryAt: Option<int>, at: int): DeliveryRow {
    d.(receipt := d.receipt.(state := DPending, failureCode := None), retryAt := retryAt,
       token := None, owner := None, lease := None, updatedAt := at)
  }

  /** `publishSql` */
  function Published(d: DeliveryRow, at: int): DeliveryRow {
    d.(publishedAt := Some(at), updatedAt := if d.updatedAt > at then d.updatedAt else at)
  }

  // ----- what no statement can do -----

  /** Rows start pending, a delivery unclaimed and unpublished; nothing on file can be deleted, and a
      statement that sets the identity of a claim is refused whatever it sets. */
  lemma AlwaysRefused(db: Db, id: string, key: ClaimKey, r: RunRow, d: DeliveryRow, row: ClaimRow)
    ensures Permitted(db, InsertRun(id, r)) ==> r.receipt.state.Pending? && id !in db.runs
    ensures Permitted(db, InsertDelivery(id, d)) ==>
              d.receipt.state.DPending? && d.token.None? && d.publishedAt.None? && id !in db.deliveries
    ensures id in db.runs ==> !Permitted(db, DeleteRun(id))
    ensures id in db.deliveries ==> !Permitted(db, DeleteDelivery(id))
    ensures key in db.claims ==> !Permitted(db, DeleteClaim(key))
    ensures !Permitted(db, UpdateClaim(key, true, row))
  {
  }

  /** 64 lower-case hexadecimal digits. */
  predicate Digest(h: string) {
    |h| == 64 && forall i :: 0 <= i < |h| ==> h[i] in "0123456789abcdef"
  }

  lemma DigestHash(h: string)
    ensures Digest(h) <==> Hash(h)
  {
    forall i | 0 <= i < |h| ensures h[i] in "0123456789abcdef" <==> '0' <= h[i] <= '9' || 'a' <= h[i] <= 'f' {
      HexDigit(h[i]);
    }
  }

  lemma HexDigit(c: char)
    ensures c in "0123456789abcdef" <==> '0' <= c <= '9' || 'a' <= c <= 'f'
  {
    var hex := "0123456789abcdef";
    if '0' <= c <= '9' { assert hex[c as int - '0' as int] == c; }
    if 'a' <= c <= 'f' { assert hex[10 + (c as int - 'a' as int)] == c; }
  }

  // ----- exactly when they commit -----

  predicate Later(was: int, at: int) {
    was <= at <= 9007199254740991
  }

  /** A new run is stored exactly when its texts have their lengths and its id is new. */
  lemma NewRunCommits(db: Db, id: string, i: RunIdentity, at: int)
    ensures var texts := {id, i.task, i.workerBot, i.workerThread, i.sourceBot, i.sourceThread, i.parentThread};
            Permitted(db, InsertRun(id, NewRun(i, at))) <==>
            && id !in db.runs && 0 <= at <= 9007199254740991 && i.attempt >= 1
            && (forall s :: s in texts ==> 1 <= |s| <= 128)
            && (i.room.Some? ==> 1 <= |i.room.value| <= 128)
  {
    var texts := {id, i.task, i.workerBot, i.workerThread, i.sourceBot, i.sourceThread, i.parentThread};
    assert (forall s :: s in texts ==> Text(s, 128)) <==>
           (&& Text(id, 128) && Text(i.task, 128) && Text(i.workerBot, 128) && Text(i.workerThread, 128)
            && Text(i.sourceBot, 128) && Text(i.sourceThread, 128) && Text(i.parentThread, 128));
  }

  /** A pending run starts exactly when its worker thread and its provider turn are free. */
  lemma StartCommits(db: Db, id: string, turn: string, provider: string, model: string, startedAt: int, at: int)
    requires RunsValid(db) && id in db.runs && db.runs[id].receipt.state.Pending?
    ensures Permitted(db, UpdateRun(id, Started(db.runs[id], turn, provider, model, startedAt, at))) <==>
            && 1 <= |turn| <= 256 && 1 <= |provider| <= 128 && 1 <= |model| <= 256
            && 0 <= startedAt <= 9007199254740991 && Later(db.runs[id].updatedAt, at)
            && forall other :: other in db.runs && other != id ==>
                 !(db.runs[other].receipt.state.Running?
                   && db.runs[other].identity.workerThread == db.runs[id].identity.workerThread)
                 && !(!db.runs[other].receipt.state.Pending?
                      && db.runs[other].receipt.turn == Some(turn) && db.runs[other].receipt.provider == Some(provider))
  {
    var r := db.runs[id];
    var now := Started(r, turn, provider, model, startedAt, at);
    assert RunChecks(id, r);
    forall other | other in db.runs && other != id
      ensures SharesThread(db.runs[other], now) <==>
              db.runs[other].receipt.state.Running? && db.runs[other].identity.workerThread == r.identity.workerThread
      ensures SharesTurn(db.runs[other], now) <==>
              && !db.runs[other].receipt.state.Pending?
              && db.runs[other].receipt.turn == Some(turn) && db.runs[other].receipt.provider == Some(provider)
    {
    }
  }

  /** A run that stays where it is clashes with no other. */
  lemma StillUnique(db: Db, id: string, now: RunRow)
    requires RunsValid(db) && id in db.runs && now.identity == db.runs[id].identity
    requires now.receipt.turn == db.runs[id].receipt.turn && now.receipt.provider == db.runs[id].receipt.provider
    requires now.receipt.state.Running? ==> db.runs[id].receipt.state.Running?
    requires db.runs[id].receipt.state.Pending? ==> now.receipt.state.Pending?
    ensures RunUnique(db.runs, id, now)
  {
    forall other | other in db.runs && other != id
      ensures !SharesTurn(db.runs[other], now) && !SharesThread(db.runs[other], now)
    {
      assert !SharesTurn(db.runs[other], db.runs[id]) && !SharesThread(db.runs[other], db.runs[id]);
    }
  }

  /** An open run takes progress exactly when there is any and the clock has not gone back. */
  lemma ProgressCommits(db: Db, id: string, json: string, at: int)
    requires RunsValid(db) && id in db.runs && !Terminal(db.runs[id].receipt.state)
    ensures Permitted(db, UpdateRun(id, Progressed(db.runs[id], json, at))) <==>
            && json != "" && Later(db.runs[id].updatedAt, at)
            && (db.runs[id].lastProgressAt.Some? ==> db.runs[id].lastProgressAt.value <= at)
  {
    assert RunChecks(id, db.runs[id]);
    StillUnique(db, id, Progressed(db.runs[id], json, at));
  }

  /** A running run finishes in any terminal state, that being its outcome. */
  lemma FinishCommits(db: Db, id: string, state: RunState, result: string, hash: string, failure: Option<string>,
                      at: int)
    requires RunsValid(db) && id in db.runs && db.runs[id].receipt.state.Running?
    ensures var row := Finished(db.runs[id], state, result, hash, failure, at);
            && row.receipt.outcome == Some(state)
            && (Permitted(db, UpdateRun(id, row)) <==>
                && state in {Completed, RunState.Failed, Interrupted, Partial} && result != "" && Digest(hash)
                && failure in {None, Some("interrupted"), Some("cancelled"), Some("provider_error"), Some("auth"),
                               Some("config"), Some("quota")}
                && Later(db.runs[id].updatedAt, at))
  {
    var row := Finished(db.runs[id], state, result, hash, failure, at);
    DigestHash(hash);
    assert RunChecks(id, db.runs[id]);
    if Terminal(state) { StillUnique(db, id, row); }
  }

  /** The whole life of a run, in two statements: a pending one whose thread and turn are free can be
      started, and sealed in any terminal state, that being its outcome. */
  lemma PendingRunCanFinish(db: Db, id: string, turn: string, provider: string, model: string, startedAt: int,
                            state: RunState, result: string, hash: string, at: int)
    requires RunsValid(db) && id in db.runs && db.runs[id].receipt.state.Pending?
    requires 1 <= |turn| <= 256 && 1 <= |provider| <= 128 && 1 <= |model| <= 256
    requires 0 <= startedAt <= 9007199254740991 && Later(db.runs[id].updatedAt, at)
    requires forall other :: other in db.runs && other != id ==>
      && !SharesThread(db.runs[other], Started(db.runs[id], turn, provider, model, startedAt, at))
      && !SharesTurn(db.runs[other], Started(db.runs[id], turn, provider, model, startedAt, at))
    requires Terminal(state) && result != "" && Digest(hash)
    ensures var started := Started(db.runs[id], turn, provider, model, startedAt, at);
            var finished := Finished(started, state, result, hash, None, at);
            var after := Run(db, [UpdateRun(id, started), UpdateRun(id, finished)]);
            && id in after.runs
            && after.runs[id].receipt.state == state && after.runs[id].receipt.outcome == Some(state)
            && after.runs[id].receipt.turn == Some(turn) && after.runs[id].receipt.resultJson == Some(result)
  {
    var started := Started(db.runs[id], turn, provider, model, startedAt, at);
    var s0, s1 := UpdateRun(id, started), UpdateRun(id, Finished(started, state, result, hash, None, at));
    var mid := Step(db, s0);
    DigestHash(hash);
    assert RunChecks(id, db.runs[id]);
    assert RunUnique(db.runs, id, started);
    StepKeepsRunsValid(db, s0);
    assert mid.runs[id] == started;
    FinishCommits(mid, id, state, result, hash, None, at);
    RunTwo(db, s0, s1);
  }

  lemma RunTwo(db: Db, s0: Statement, s1: Statement)
    ensures Run(db, [s0, s1]) == Step(Step(db, s0), s1)
  {
    assert [s0, s1][1..] == [s1] && [s1][1..] == [];
    assert Run(Step(db, s0), [s1]) == Run(Step(Step(db, s0), s1), []);
  }

  /** A new delivery is stored exactly when well formed, for a known run, and the only one for its
      destination and its message. */
  lemma NewDeliveryCommits(db: Db, id: string, i: DeliveryIdentity, maxAttempts: int, at: int)
    ensures Permitted(db, InsertDelivery(id, NewDelivery(i, maxAttempts, at))) <==>
            && id !in db.deliveries && i.run in db.runs && 1 <= maxAttempts <= 32 && 0 <= at <= 9007199254740991
            && 1 <= |id| <= 128 && 1 <= |i.run| <= 128 && 1 <= |i.thread| <= 128 && 1 <= |i.message| <= 256
            && i.payloadJson != "" && Digest(i.payloadHash)
            && forall other :: other in db.deliveries ==>
                 && !(db.deliveries[other].identity.run == i.run && db.deliveries[other].identity.kind == i.kind)
                 && db.deliveries[other].identity.message != i.message
  {
    var d := NewDelivery(i, maxAttempts, at);
    DigestHash(i.payloadHash);
    assert forall other :: other in db.deliveries ==>
      (SharesDestination(db.deliveries[other], d) <==>
        || (db.deliveries[other].identity.run == i.run && db.deliveries[other].identity.kind == i.kind)
        || db.deliveries[other].identity.message == i.message);
  }

  /** A pending or claimed delivery is claimed exactly with a proper token and owner and a lease of
      at most five minutes. */
  lemma ClaimCommits(db: Db, id: string, token: string, owner: string, lease: int, generation: int, attempts: int,
                     at: int)
    requires DeliveriesValid(db) && id in db.deliveries
    requires db.deliveries[id].receipt.state.DPending? || db.deliveries[id].receipt.state.DClaimed?
    ensures var row := Claimed(db.deliveries[id], token, owner, lease, generation, attempts, at);
            Permitted(db, UpdateDelivery(id, row)) <==>
            && 16 <= |token| <= 128 && 1 <= |owner| <= 128 && generation >= 0 && attempts >= 0
            && Later(db.deliveries[id].updatedAt, at) && at < lease <= at + 300_000 && lease <= 9007199254740991
  {
    assert DeliveryChecks(id, db.deliveries[id]);
  }

  /** A claimed delivery is acknowledged exactly while its message stands in its thread. */
  lemma AckCommits(db: Db, id: string, at: int)
    requires DeliveriesValid(db) && id in db.deliveries && db.deliveries[id].receipt.state.DClaimed?
    ensures Permitted(db, UpdateDelivery(id, Acked(db.deliveries[id], at))) <==>
            && Later(db.deliveries[id].updatedAt, at)
            && db.deliveries[id].identity.message in db.messages
            && db.messages[db.deliveries[id].identity.message] == db.deliveries[id].identity.thread
  {
    assert DeliveryChecks(id, db.deliveries[id]);
  }

  /** A claimed delivery goes back to pending, or ends failed or rejected, exactly with a known code;
      `attempts_exhausted` only once they are. */
  lemma FailCommits(db: Db, id: string, state: DeliveryState, code: Option<string>, retryAt: Option<int>, at: int)
    requires DeliveriesValid(db) && id in db.deliveries && db.deliveries[id].receipt.state.DClaimed?
    requires state.DPending? || state.DFailed? || state.DRejected?
    ensures Permitted(db, UpdateDelivery(id, Failed(db.deliveries[id], state, code, retryAt, at))) <==>
            && Later(db.deliveries[id].updatedAt, at)
            && (retryAt.Some? ==> 0 <= retryAt.value <= 9007199254740991)
            && code in {None, Some("destination_unavailable"), Some("io_error"), Some("conflict_retry"), Some("auth"),
                        Some("config"), Some("quota"), Some("payload_mismatch"), Some("identity_mismatch"),
                        Some("attempts_exhausted")}
            && (code == Some("attempts_exhausted") ==> db.deliveries[id].attempts >= db.deliveries[id].maxAttempts)
  {
    assert DeliveryChecks(id, db.deliveries[id]);
  }

  /** A failed delivery can always be tried again. */
  lemma RetryCommits(db: Db, id: string, retryAt: Option<int>, at: int)
    requires DeliveriesValid(db) && id in db.deliveries && db.deliveries[id].receipt.state.DFailed?
    ensures Permitted(db, UpdateDelivery(id, Retried(db.deliveries[id], retryAt, at))) <==>
            Later(db.deliveries[id].updatedAt, at) && (retryAt.Some? ==> 0 <= retryAt.value <= 9007199254740991)
  {
    assert DeliveryChecks(id, db.deliveries[id]);
  }

  /** A delivered one is published exactly while its message stands, whatever the clock; one that
      carries `attempts_exhausted` also only once they are. */
  lemma PublishCommits(db: Db, id: string, at: int)
    requires DeliveriesValid(db) && id in db.deliveries && db.deliveries[id].receipt.state.DDelivered?
    ensures Permitted(db, UpdateDelivery(id, Published(db.deliveries[id], at))) <==>
            && 0 <= at <= 9007199254740991 && MessageCommitted(db, db.deliveries[id])
            && (db.deliveries[id].receipt.failureCode == Some("attempts_exhausted") ==>
                  db.deliveries[id].attempts >= db.deliveries[id].maxAttempts)
  {
    assert DeliveryChecks(id, db.deliveries[id]);
  }

  /** The row that takes a delivery to a state. */
  function MovedTo(d: DeliveryRow, to: DeliveryState): DeliveryRow {
    if d.receipt.state == to then d.(attempts := d.attempts + 32)
    else if to.DClaimed? then Claimed(d, seq(16, _ => 't'), "o", d.updatedAt + 1, 0, d.attempts, d.updatedAt)
    else if to.DDelivered? then Acked(d, d.updatedAt)
    else Failed(d, to, None, None, d.updatedAt)
  }

  predicate CanMove(db: Db, d: DeliveryRow, to: DeliveryState) {
    var from := d.receipt.state;
    && (from == to || from.DClaimed? || (from.DPending? && !to.DDelivered?) || (from.DFailed? && to.DPending?))
    && (to.DDelivered? ==> MessageCommitted(db, d))
  }

  lemma MovesOnlySo(db: Db, id: string, row: DeliveryRow)
    requires Permitted(db, UpdateDelivery(id, row))
    ensures CanMove(db, db.deliveries[id], row.receipt.state)
  {
    var from := db.deliveries[id].receipt.state;
    assert DeliveryMove(from, row.receipt.state);
  }

  lemma MovesSo(db: Db, id: string, to: DeliveryState)
    requires DeliveriesValid(db) && id in db.deliveries && db.deliveries[id].updatedAt < 9007199254740991
    requires CanMove(db, db.deliveries[id], to)
    ensures Permitted(db, UpdateDelivery(id, MovedTo(db.deliveries[id], to)))
  {
    assert DeliveryChecks(id, db.deliveries[id]);
    if db.deliveries[id].receipt.state == to {
      assert to.DClaimed? ==> LeaseBounded(db.deliveries[id]);
    }
  }

  /** Which states one statement can take a delivery to: from pending anywhere but delivered, from
      claimed anywhere, from failed back to pending; delivered only with its message. */
  lemma DeliveryMovesExactly(db: Db, id: string, to: DeliveryState)
    requires DeliveriesValid(db) && id in db.deliveries && db.deliveries[id].updatedAt < 9007199254740991
    ensures (exists row: DeliveryRow :: row.receipt.state == to && Permitted(db, UpdateDelivery(id, row))) <==>
            var from := db.deliveries[id].receipt.state;
            && (from == to || from.DClaimed? || (from.DPending? && !to.DDelivered?) || (from.DFailed? && to.DPending?))
            && (to.DDelivered? ==> MessageCommitted(db, db.deliveries[id]))
  {
    hide Permitted;
    forall row: DeliveryRow | row.receipt.state == to && Permitted(db, UpdateDelivery(id, row))
      ensures CanMove(db, db.deliveries[id], to)
    {
      MovesOnlySo(db, id, row);
    }
    if CanMove(db, db.deliveries[id], to) {
      MovesSo(db, id, to);
      assert MovedTo(db.deliveries[id], to).receipt.state == to;
    }
  }

  /** A claimed delivery can be delivered, whatever stands under its message id. */
  lemma ClaimedCanBeDelivered(db: Db, id: string) returns (trace: seq<Statement>)
    requires DeliveriesValid(db) && id in db.deliveries && db.deliveries[id].receipt.state.DClaimed?
    ensures |trace| <= 3 && id in Run(db, trace).deliveries && Run(db, trace).deliveries[id].receipt.state.DDelivered?
    ensures db.deliveries[id].identity.message !in db.messages || MessageCommitted(db, db.deliveries[id]) ==>
              |trace| <= 2
  {
    var d := db.deliveries[id];
    var message, thread := d.identity.message, d.identity.thread;
    var ack := UpdateDelivery(id, Acked(d, d.updatedAt));
    assert DeliveryChecks(id, d);
    if MessageCommitted(db, d) {
      trace := [ack];
      AckCommits(db, id, d.updatedAt);
      assert Run(db, trace) == Run(Step(db, ack), []);
    } else {
      var free := Step(db, DeleteMessage(message));
      var sent := Step(free, InsertMessage(message, thread));
      assert sent.deliveries == db.deliveries && sent.runs == db.runs && sent.messages[message] == thread;
      assert DeliveriesValid(sent);
      AckCommits(sent, id, d.updatedAt);
      trace := [InsertMessage(message, thread), ack];
      RunTwo(free, InsertMessage(message, thread), ack);
      if message in db.messages {
        trace := [DeleteMessage(message)] + trace;
        RunFirst(db, trace);
      } else {
        assert free.messages == db.messages;
      }
    }
  }

  /** Every pending delivery can be claimed, its message committed, and delivered. */
  lemma PendingCanBeDelivered(db: Db, id: string, token: string, owner: string) returns (trace: seq<Statement>)
    requires DeliveriesValid(db) && id in db.deliveries && db.deliveries[id].receipt.state.DPending?
    requires db.deliveries[id].updatedAt < 9007199254740991 && 16 <= |token| <= 128 && 1 <= |owner| <= 128
    ensures |trace| <= 4 && id in Run(db, trace).deliveries && Run(db, trace).deliveries[id].receipt.state.DDelivered?
    ensures db.deliveries[id].identity.message !in db.messages || MessageCommitted(db, db.deliveries[id]) ==>
              |trace| <= 3
  {
    var d := db.deliveries[id];
    var at := d.updatedAt;
    assert DeliveryChecks(id, d);
    ClaimCommits(db, id, token, owner, at + 1, d.generation + 1, d.attempts + 1, at);
    var claim := UpdateDelivery(id, Claimed(d, token, owner, at + 1, d.generation + 1, d.attempts + 1, at));
    StepKeepsDeliveriesValid(db, claim);
    var rest := ClaimedCanBeDelivered(Step(db, claim), id);
    trace := [claim] + rest;
    RunFirst(db, trace);
  }

  lemma RunFirst(db: Db, trace: seq<Statement>)
    requires trace != []
    ensures Run(db, trace) == Run(Step(db, trace[0]), trace[1..])
  {
  }

  /** The record of a claim is stored exactly when well formed, for a known delivery, with a new
      generation and a token nobody had. */
  lemma NewClaimCommits(db: Db, key: ClaimKey, token: string, owner: string, at: int, lease: int)
    ensures Permitted(db, InsertClaim(key, ClaimRow(Claim(token, owner, at, lease), None))) <==>
            && key !in db.claims && key.delivery in db.deliveries && 1 <= |key.delivery| <= 128 && key.generation >= 1
            && 16 <= |token| <= 128 && 1 <= |owner| <= 128
            && 0 <= at <= 9007199254740991 && at < lease <= at + 300_000
            && forall other :: other in db.claims ==> db.claims[other].claim.token != token
  {
  }

  /** `markClaimOutcome`: any of the three outcomes can be written to a record, and nothing else. */
  lemma SettleCommits(db: Db, key: ClaimKey, outcome: Option<string>)
    requires ClaimsValid(db) && key in db.claims
    ensures Permitted(db, UpdateClaim(key, false, db.claims[key].(outcome := outcome))) <==>
            (outcome.Some? ==> outcome.value in {"acked", "reclaimed", "expired"})
  {
    assert ClaimChecks(key, db.claims[key]);
  }
}

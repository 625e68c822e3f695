/**
 * The durable claim ledger behind keyed batches: one row per (scope, key), a generation counter
 * and a restore gate made of a database flag and a marker file.
 *
 * Every SQLite transaction is a ghost function from the database to the database and its answer; a
 * refused transaction rolls back. The class below performs them step by step on mutable state.
 */
module BatchLedger {
  import opened Wrappers
  import opened Batch
  import opened Tables

  datatype Id = Id(scope: string, key: string)

  /** Stands for the SHA-256 digest of the canonical request and its scope. */
  datatype Fingerprint = Fingerprint(scope: string, request: Request)

  /** A JSON text: the value it encodes and its UTF-8 length. */
  datatype Serialized = Serialized(value: BatchResult, bytes: nat)

  datatype ClaimState = InProgress | Completed(completedAt: nat, response: Serialized) | Released

  datatype Row = Row(
    fingerprint: Fingerprint,
    state: ClaimState,
    createdAt: nat,
    responseBytes: nat,
    reservedBytes: nat,
    operation: string,
    generation: nat)

  datatype Db = Db(rows: map<Id, Row>, generation: nat, restorePending: bool)

  datatype Input = Input(scope: string, key: string, fingerprint: Fingerprint, operation: Option<string>)
  {
    function RowId(): Id { Id(scope, key) }
  }

  datatype Refusal =
    | RestorePending | Malformed | StaleGeneration
    | ReleasedUnbound | OtherOperation | OtherRequest | StillRunning | CapacityExhausted
    | ResponseTooLarge | NoClaim | AlreadyReleased | NotInProgress
    | GateAlreadyHeld | MutationInProgress | MarkerFailed | GenerationOverflow

  datatype Claim = Fresh | Replay(response: Serialized)

  type Answer<T> = Result<T, Refusal>

  // ----- configuration and input validation

  const MAX_RESPONSE_BYTES := 2 * 1024 * 1024
  const MAX_SAFE_INTEGER := 9007199254740991

  datatype Limits = Limits(maxBytes: nat, maxEntries: nat, maxEntriesPerScope: nat, maxTotalBytes: nat)
  {
    predicate Valid() {
      && 1024 <= maxBytes <= MAX_RESPONSE_BYTES
      && 1 <= maxEntries <= 100_000
      && 1 <= maxEntriesPerScope <= maxEntries
      && maxBytes <= maxTotalBytes <= 1024 * 1024 * 1024
    }
  }

  predicate IsHexDigest(s: string) {
    |s| == 64 && forall i :: 0 <= i < |s| ==> 'a' <= s[i] <= 'f' || '0' <= s[i] <= '9'
  }

  predicate IsOperationLabel(s: string) {
    && 1 <= |s| <= 16
    && 'a' <= s[0] <= 'z'
    && forall i :: 1 <= i < |s| ==> 'a' <= s[i] <= 'z' || '0' <= s[i] <= '9' || s[i] == '_'
  }

  predicate ValidInput(input: Input) {
    && IsHexDigest(input.scope)
    && 1 <= |input.key| <= 128
    && (input.operation.Some? ==> IsOperationLabel(input.operation.value))
  }

  // ----- aggregates

  ghost function LiveWeight(id: Id, row: Row): nat { if row.state.Released? then 0 else 1 }

  ghost function ByteWeight(id: Id, row: Row): nat {
    match row.state
    case InProgress => row.reservedBytes
    case Completed(_, _) => row.responseBytes
    case Released => 0
  }

  ghost function ScopeWeight(scope: string): (Id, Row) -> nat {
    (id: Id, row: Row) => if id.scope == scope && !row.state.Released? then 1 else 0
  }

  ghost function EntryCount(rows: map<Id, Row>): nat { Sum(rows, LiveWeight) }

  ghost function TotalBytes(rows: map<Id, Row>): nat { Sum(rows, ByteWeight) }

  ghost function ScopeCount(rows: map<Id, Row>, scope: string): nat { Sum(rows, ScopeWeight(scope)) }

  ghost predicate AtCapacity(limits: Limits, rows: map<Id, Row>, scope: string) {
    || EntryCount(rows) >= limits.maxEntries
    || TotalBytes(rows) + limits.maxBytes > limits.maxTotalBytes
    || ScopeCount(rows, scope) >= limits.maxEntriesPerScope
  }

  // ----- transactions

  function NewRow(limits: Limits, db: Db, input: Input, now: nat): Row {
    Row(input.fingerprint, InProgress, now, 0, limits.maxBytes,
        if input.operation.Some? then input.operation.value else "", db.generation)
  }

  /** The insert half of `claim`; `table` is the table after a released tombstone was deleted. */
  ghost function InsertClaim(limits: Limits, db: Db, table: map<Id, Row>, input: Input, now: nat): (Db, Answer<Claim>) {
    if AtCapacity(limits, table, input.scope) then (db, Err(CapacityExhausted))
    else (db.(rows := table[input.RowId() := NewRow(limits, db, input, now)]), Ok(Fresh))
  }

  ghost function ClaimTx(limits: Limits, db: Db, input: Input, now: nat): (Db, Answer<Claim>) {
    var id := input.RowId();
    if db.restorePending then (db, Err(RestorePending))
    else if id !in db.rows then InsertClaim(limits, db, db.rows, input, now)
    else
      var row := db.rows[id];
      if row.generation != db.generation then (db, Err(StaleGeneration))
      else if row.state.Released? then
        if row.operation == "" then (db, Err(ReleasedUnbound))
        else if input.operation != Some(row.operation) then (db, Err(OtherOperation))
        else InsertClaim(limits, db, db.rows - {id}, input, now)
      else if row.fingerprint != input.fingerprint then (db, Err(OtherRequest))
      else if row.state.InProgress? then (db, Err(StillRunning))
      else (db, Ok(Replay(row.state.response)))
  }

  function CompleteTx(db: Db, input: Input, response: Serialized, now: nat): (Db, Answer<()>) {
    var id := input.RowId();
    if db.restorePending then (db, Err(RestorePending))
    else if id !in db.rows then (db, Err(NoClaim))
    else
      var row := db.rows[id];
      if row.generation != db.generation then (db, Err(StaleGeneration))
      else if row.fingerprint != input.fingerprint then (db, Err(OtherRequest))
      else if row.state.Completed? then (db, Ok(()))
      else if row.state.Released? then (db, Err(AlreadyReleased))
      else
        var completed := row.(state := Completed(now, response), responseBytes := response.bytes, reservedBytes := 0);
        (db.(rows := db.rows[id := completed]), Ok(()))
  }

  function AbandonTx(db: Db, input: Input): (Db, Answer<()>) {
    var id := input.RowId();
    if db.restorePending then (db, Err(RestorePending))
    else if id !in db.rows then (db, Ok(()))
    else
      var row := db.rows[id];
      if row.generation != db.generation then (db, Err(StaleGeneration))
      else if row.fingerprint != input.fingerprint then (db, Err(OtherRequest))
      else if row.state.Released? then
        if row.operation != (if input.operation.Some? then input.operation.value else "")
        then (db, Err(OtherOperation)) else (db, Ok(()))
      else if !row.state.InProgress? then (db, Err(NotInProgress))
      else
        var operation := if input.operation.Some? then input.operation.value else row.operation;
        (db.(rows := db.rows[id := row.(state := Released, reservedBytes := 0, operation := operation)]), Ok(()))
  }

  function BeginTx(db: Db): (Db, Answer<()>) {
    if db.restorePending then (db, Err(GateAlreadyHeld))
    else if exists id :: id in db.rows && db.rows[id].state.InProgress? then (db, Err(MutationInProgress))
    else (db.(restorePending := true), Ok(()))
  }

  /** The compensation of `beginRestore` when its marker file could not be established. */
  function RevertTx(db: Db): Db { db.(restorePending := false) }

  function InvalidateTx(db: Db): (Db, Answer<()>) {
    if db.generation + 1 > MAX_SAFE_INTEGER then (db, Err(GenerationOverflow))
    else (Db(map[], db.generation + 1, false), Ok(()))
  }

  // ----- the ledger invariant

  ghost predicate WithinCapacity(limits: Limits, rows: map<Id, Row>) {
    && EntryCount(rows) <= limits.maxEntries
    && TotalBytes(rows) <= limits.maxTotalBytes
    && forall scope :: ScopeCount(rows, scope) <= limits.maxEntriesPerScope
  }

  ghost predicate RowOk(limits: Limits, db: Db, row: Row) {
    && row.generation == db.generation
    && match row.state
       case InProgress => row.reservedBytes == limits.maxBytes && row.responseBytes == 0
       case Completed(_, response) => row.reservedBytes == 0 && row.responseBytes == response.bytes <= limits.maxBytes
       case Released => row.reservedBytes == 0 && row.responseBytes == 0
  }

  ghost predicate DbOk(limits: Limits, db: Db) {
    && (forall id :: id in db.rows ==> RowOk(limits, db, db.rows[id]))
    && (db.restorePending ==> forall id :: id in db.rows ==> !db.rows[id].state.InProgress?)
    && WithinCapacity(limits, db.rows)
  }

  /** Writing a row that weighs no more than the row it replaces keeps every capacity bound. */
  lemma LighterRowKeepsCapacity(limits: Limits, rows: map<Id, Row>, id: Id, row: Row)
    requires WithinCapacity(limits, rows) && id in rows
    requires ByteWeight(id, row) <= ByteWeight(id, rows[id])
    requires LiveWeight(id, row) <= LiveWeight(id, rows[id])
    ensures WithinCapacity(limits, rows[id := row])
    ensures TotalBytes(rows[id := row]) <= TotalBytes(rows)
  {
    SumUpdate(rows, id, row, LiveWeight);
    SumUpdate(rows, id, row, ByteWeight);
    var next := rows[id := row];
    forall scope ensures ScopeCount(next, scope) <= limits.maxEntriesPerScope {
      SumUpdate(rows, id, row, ScopeWeight(scope));
      assert ScopeCount(rows, scope) <= limits.maxEntriesPerScope;
    }
  }

  /** Deleting a tombstone changes no aggregate: a released claim consumes no capacity. */
  lemma TombstoneWeighsNothing(limits: Limits, rows: map<Id, Row>, id: Id)
    requires id in rows && rows[id].state.Released?
    ensures EntryCount(rows - {id}) == EntryCount(rows) && TotalBytes(rows - {id}) == TotalBytes(rows)
    ensures forall scope :: ScopeCount(rows - {id}, scope) == ScopeCount(rows, scope)
    ensures WithinCapacity(limits, rows) ==> WithinCapacity(limits, rows - {id})
  {
    SumRemove(rows, id, LiveWeight);
    SumRemove(rows, id, ByteWeight);
    forall scope ensures ScopeCount(rows - {id}, scope) == ScopeCount(rows, scope) {
      SumRemove(rows, id, ScopeWeight(scope));
    }
  }

  lemma InsertKeepsCapacity(limits: Limits, table: map<Id, Row>, id: Id, row: Row)
    requires WithinCapacity(limits, table) && !AtCapacity(limits, table, id.scope)
    requires id !in table && row.state.InProgress? && row.reservedBytes == limits.maxBytes
    ensures WithinCapacity(limits, table[id := row])
  {
    SumUpdate(table, id, row, LiveWeight);
    SumUpdate(table, id, row, ByteWeight);
    var next := table[id := row];
    forall scope ensures ScopeCount(next, scope) <= limits.maxEntriesPerScope {
      SumUpdate(table, id, row, ScopeWeight(scope));
      assert ScopeCount(table, scope) <= limits.maxEntriesPerScope;
    }
  }

  /**
   * `claim` keeps the ledger invariant. It changes at most its own row, and only to grant it; a
   * refused claim, a capacity refusal over a released tombstone included, changes nothing.
   */
  lemma ClaimKeepsLedger(limits: Limits, db: Db, input: Input, now: nat)
    requires DbOk(limits, db)
    ensures var (next, answer) := ClaimTx(limits, db, input, now);
            && DbOk(limits, next)
            && next.generation == db.generation && next.restorePending == db.restorePending
            && answer != Err(StaleGeneration)
            && (forall id :: id != input.RowId() ==> (id in next.rows <==> id in db.rows))
            && (forall id :: id != input.RowId() && id in db.rows ==> next.rows[id] == db.rows[id])
            && (answer != Ok(Fresh) ==> next == db)
            && (answer == Ok(Fresh) ==>
                  && !db.restorePending
                  && (input.RowId() in db.rows ==>
                       db.rows[input.RowId()].state.Released?
                         && input.operation == Some(db.rows[input.RowId()].operation))
                  && input.RowId() in next.rows
                  && next.rows[input.RowId()].state.InProgress?
                  && next.rows[input.RowId()].fingerprint == input.fingerprint)
            && (answer.Ok? && answer.value.Replay? ==>
                  && input.RowId() in db.rows
                  && db.rows[input.RowId()].state.Completed?
                  && db.rows[input.RowId()].state.response == answer.value.response
                  && db.rows[input.RowId()].fingerprint == input.fingerprint)
  {
    var id := input.RowId();
    var (next, answer) := ClaimTx(limits, db, input, now);
    if answer == Ok(Fresh) {
      var table := db.rows - {id};
      if id in db.rows {
        TombstoneWeighsNothing(limits, db.rows, id);
      } else {
        assert table == db.rows;
      }
      InsertKeepsCapacity(limits, table, id, NewRow(limits, db, input, now));
    }
  }

  /** `complete` keeps the invariant, never raises the byte total and settles only its own row. */
  lemma CompleteKeepsLedger(limits: Limits, db: Db, input: Input, response: Serialized, now: nat)
    requires DbOk(limits, db) && response.bytes <= limits.maxBytes
    ensures var (next, answer) := CompleteTx(db, input, response, now);
            && DbOk(limits, next)
            && answer != Err(StaleGeneration)
            && TotalBytes(next.rows) <= TotalBytes(db.rows)
            && next.generation == db.generation && next.restorePending == db.restorePending
            && next.rows.Keys == db.rows.Keys
            && (forall id :: id in db.rows && id != input.RowId() ==> next.rows[id] == db.rows[id])
            && (answer.Err? ==> next == db)
            && (answer.Ok? ==>
                  && input.RowId() in db.rows && db.rows[input.RowId()].fingerprint == input.fingerprint
                  && next.rows[input.RowId()].state.Completed?
                  && if db.rows[input.RowId()].state.InProgress?
                     then next.rows[input.RowId()]
                       == db.rows[input.RowId()].(state := Completed(now, response), responseBytes := response.bytes,
                         reservedBytes := 0)
                     else next == db)
  {
    var id := input.RowId();
    var (next, answer) := CompleteTx(db, input, response, now);
    if next != db {
      LighterRowKeepsCapacity(limits, db.rows, id, next.rows[id]);
    }
  }

  /** `abandon` keeps the invariant, never raises the byte total and leaves a bound tombstone. */
  lemma AbandonKeepsLedger(limits: Limits, db: Db, input: Input)
    requires DbOk(limits, db)
    ensures var (next, answer) := AbandonTx(db, input);
            && DbOk(limits, next)
            && answer != Err(StaleGeneration)
            && TotalBytes(next.rows) <= TotalBytes(db.rows)
            && next.generation == db.generation && next.restorePending == db.restorePending
            && next.rows.Keys == db.rows.Keys
            && (forall id :: id in db.rows && id != input.RowId() ==> next.rows[id] == db.rows[id])
            && (answer.Err? ==> next == db)
            && (answer.Ok? && input.RowId() in db.rows ==>
                  && next.rows[input.RowId()].state.Released?
                  && next.rows[input.RowId()].fingerprint == input.fingerprint
                  && (input.operation.Some? ==> next.rows[input.RowId()].operation == input.operation.value))
  {
    var id := input.RowId();
    var (next, answer) := AbandonTx(db, input);
    if next != db {
      LighterRowKeepsCapacity(limits, db.rows, id, next.rows[id]);
    }
  }

  /** Exactly when a claim is granted; deleting the tombstone first makes no room that was not there. */
  lemma GrantIsExact(limits: Limits, db: Db, input: Input, now: nat)
    requires DbOk(limits, db)
    ensures ClaimTx(limits, db, input, now).1 == Ok(Fresh) <==>
              && !db.restorePending && !AtCapacity(limits, db.rows, input.scope)
              && (input.RowId() in db.rows ==>
                    var row := db.rows[input.RowId()];
                    row.state.Released? && row.operation != "" && input.operation == Some(row.operation))
  {
    if input.RowId() in db.rows && db.rows[input.RowId()].state.Released? {
      TombstoneWeighsNothing(limits, db.rows, input.RowId());
    }
  }

  /** Once completed, a key replays its first response to the same request, and nothing settles it again. */
  lemma CompletedClaimReplays(
    limits: Limits, db: Db, input: Input, response: Serialized, now: nat, again: Input, other: Serialized, later: nat)
    requires DbOk(limits, db) && response.bytes <= limits.maxBytes && CompleteTx(db, input, response, now).1.Ok?
    requires again.RowId() == input.RowId()
    ensures var next, row := CompleteTx(db, input, response, now).0, db.rows[input.RowId()];
            var first := if row.state.Completed? then row.state.response else response;
            && ClaimTx(limits, next, again, later)
               == (next, if again.fingerprint == input.fingerprint then Ok(Replay(first)) else Err(OtherRequest))
            && (again.fingerprint == input.fingerprint ==>
                  && CompleteTx(next, again, other, later) == (next, Ok(()))
                  && AbandonTx(next, again) == (next, Err(NotInProgress)))
  {
    CompleteKeepsLedger(limits, db, input, response, now);
  }

  /**
   * A release gives back everything that its claim took, and leaves the key to the same operation alone:
   * that operation is granted it again, with any request, and every other one is refused.
   */
  lemma ReleaseUndoesClaim(limits: Limits, db: Db, input: Input, now: nat, again: Input, later: nat)
    requires DbOk(limits, db) && ValidInput(input) && input.operation.Some?
    requires ClaimTx(limits, db, input, now).1 == Ok(Fresh)
    requires again.RowId() == input.RowId()
    ensures var claimed := ClaimTx(limits, db, input, now).0;
            var released := AbandonTx(claimed, input).0;
            && AbandonTx(claimed, input).1.Ok?
            && EntryCount(released.rows) == EntryCount(db.rows) && TotalBytes(released.rows) == TotalBytes(db.rows)
            && (forall scope :: ScopeCount(released.rows, scope) == ScopeCount(db.rows, scope))
            && ClaimTx(limits, released, again, later).1
                 == if again.operation == input.operation then Ok(Fresh) else Err(OtherOperation)
  {
    var id := input.RowId();
    var claimed := ClaimTx(limits, db, input, now).0;
    var released := AbandonTx(claimed, input).0;
    ClaimKeepsLedger(limits, db, input, now);
    AbandonKeepsLedger(limits, claimed, input);
    GrantIsExact(limits, db, input, now);
    GrantIsExact(limits, released, again, later);
    TombstoneWeighsNothing(limits, released.rows, id);
    if id in db.rows { TombstoneWeighsNothing(limits, db.rows, id); }
    assert released.rows - {id} == db.rows - {id};
    assert id !in db.rows ==> db.rows - {id} == db.rows;
  }

  lemma EmptyWithinCapacity(limits: Limits)
    requires limits.Valid()
    ensures WithinCapacity(limits, map[])
  {
    var none: map<Id, Row> := map[];
    assert EntryCount(none) == 0 && TotalBytes(none) == 0;
    forall scope ensures ScopeCount(none, scope) == 0 {}
  }

  /** Opening, reverting and invalidating keep the invariant; the empty table is within capacity. */
  lemma GateKeepsLedger(limits: Limits, db: Db)
    requires limits.Valid() && DbOk(limits, db)
    ensures DbOk(limits, BeginTx(db).0) && DbOk(limits, RevertTx(db)) && DbOk(limits, InvalidateTx(db).0)
    ensures BeginTx(db).1.Ok? <==>
              !db.restorePending && forall id :: id in db.rows ==> !db.rows[id].state.InProgress?
    ensures InvalidateTx(db).1 == Err(GenerationOverflow) <==> db.generation >= 9_007_199_254_740_991
    ensures InvalidateTx(db).1.Ok? ==>
              InvalidateTx(db).0.rows == map[] && InvalidateTx(db).0.generation == db.generation + 1
                && !InvalidateTx(db).0.restorePending
  {
    EmptyWithinCapacity(limits);
  }

  /** While the flag is set no ledger transaction succeeds or changes anything. */
  lemma FlagRefusesEverything(limits: Limits, db: Db, input: Input, response: Serialized, now: nat)
    requires db.restorePending
    ensures ClaimTx(limits, db, input, now) == (db, Err(RestorePending))
    ensures CompleteTx(db, input, response, now) == (db, Err(RestorePending))
    ensures AbandonTx(db, input) == (db, Err(RestorePending))
    ensures BeginTx(db) == (db, Err(GateAlreadyHeld))
  {
  }

  // ----- the store

  /** One claim directory: the SQLite tables and the marker file beside them. */
  class FileBatchIdempotencyStore {
    const limits: Limits
    var rows: map<Id, Row>
    var generation: nat
    var restorePendingFlag: bool
    var marker: bool

    ghost function State(): Db reads this { Db(rows, generation, restorePendingFlag) }

    ghost predicate Valid() reads this { limits.Valid() && DbOk(limits, State()) }

    constructor (limits: Limits)
      requires limits.Valid()
      ensures Valid() && this.limits == limits
      ensures State() == Db(map[], 1, false) && !marker
    {
      this.limits := limits;
      rows, generation, restorePendingFlag, marker := map[], 1, false, false;
      new;
      EmptyWithinCapacity(limits);
    }

    predicate Pending() reads this { marker || restorePendingFlag }

    /** `SELECT COUNT(*), SUM(...) WHERE state <> 'released'`, and the same count for one scope. */
    method Totals(table: map<Id, Row>, scope: string) returns (entryCount: nat, totalBytes: nat, scopeCount: nat)
      ensures entryCount == EntryCount(table)
      ensures totalBytes == TotalBytes(table)
      ensures scopeCount == ScopeCount(table, scope)
    {
      entryCount, totalBytes, scopeCount := 0, 0, 0;
      var rest := table;
      while rest != map[]
        invariant entryCount + EntryCount(rest) == EntryCount(table)
        invariant totalBytes + TotalBytes(rest) == TotalBytes(table)
        invariant scopeCount + ScopeCount(rest, scope) == ScopeCount(table, scope)
        decreases |rest|
      {
        var id :| id in rest;
        SumRemove(rest, id, LiveWeight);
        SumRemove(rest, id, ByteWeight);
        SumRemove(rest, id, ScopeWeight(scope));
        DropShrinks(rest, id);
        var row := rest[id];
        if !row.state.Released? {
          entryCount := entryCount + 1;
          totalBytes := totalBytes + if row.state.InProgress? then row.reservedBytes else row.responseBytes;
          if id.scope == scope { scopeCount := scopeCount + 1; }
        }
        rest := rest - {id};
      }
    }

    method Claim(input: Input, now: nat) returns (answer: Answer<Claim>)
      requires Valid()
      modifies this
      ensures Valid() && marker == old(marker)
      ensures old(Pending()) ==> answer == Err(RestorePending) && State() == old(State())
      ensures !old(Pending()) && !ValidInput(input) ==> answer == Err(Malformed) && State() == old(State())
      ensures !old(Pending()) && ValidInput(input) ==> (State(), answer) == ClaimTx(limits, old(State()), input, now)
    {
      if Pending() { return Err(RestorePending); }
      if !ValidInput(input) { return Err(Malformed); }
      ClaimKeepsLedger(limits, State(), input, now);
      var id := input.RowId();
      var snapshot := rows;
      var existing := if id in rows then Some(rows[id]) else None;
      if existing.Some? {
        if existing.value.generation != generation { return Err(StaleGeneration); }
        if existing.value.state.Released? {
          if existing.value.operation == "" { return Err(ReleasedUnbound); }
          if input.operation != Some(existing.value.operation) { return Err(OtherOperation); }
          rows := rows - {id};
          existing := None;
        }
      }
      if existing.Some? {
        if existing.value.fingerprint != input.fingerprint { return Err(OtherRequest); }
        if existing.value.state.InProgress? { return Err(StillRunning); }
        return Ok(Replay(existing.value.state.response));
      }
      var entryCount, totalBytes, scopeCount := Totals(rows, input.scope);
      if entryCount >= limits.maxEntries
         || totalBytes + limits.maxBytes > limits.maxTotalBytes
         || scopeCount >= limits.maxEntriesPerScope {
        rows := snapshot;  // the transaction rolls back
        return Err(CapacityExhausted);
      }
      var operation := if input.operation.Some? then input.operation.value else "";
      rows := rows[id := Row(input.fingerprint, InProgress, now, 0, limits.maxBytes, operation, generation)];
      return Ok(Fresh);
    }

    method Complete(input: Input, response: Serialized, now: nat) returns (answer: Answer<()>)
      requires Valid()
      modifies this
      ensures Valid() && marker == old(marker)
      ensures old(Pending()) ==> answer == Err(RestorePending) && State() == old(State())
      ensures !old(Pending()) && !ValidInput(input) ==> answer == Err(Malformed) && State() == old(State())
      ensures !old(Pending()) && ValidInput(input) && response.bytes > limits.maxBytes ==>
                answer == Err(ResponseTooLarge) && State() == old(State())
      ensures !old(Pending()) && ValidInput(input) && response.bytes <= limits.maxBytes ==>
                (State(), answer) == CompleteTx(old(State()), input, response, now)
    {
      if Pending() { return Err(RestorePending); }
      if !ValidInput(input) { return Err(Malformed); }
      if response.bytes > limits.maxBytes { return Err(ResponseTooLarge); }
      CompleteKeepsLedger(limits, State(), input, response, now);
      var id := input.RowId();
      if id !in rows { return Err(NoClaim); }
      var existing := rows[id];
      if existing.generation != generation { return Err(StaleGeneration); }
      if existing.fingerprint != input.fingerprint { return Err(OtherRequest); }
      if existing.state.Completed? { return Ok(()); }
      if existing.state.Released? { return Err(AlreadyReleased); }
      rows :=
        rows[id := existing.(state := Completed(now, response), responseBytes := response.bytes, reservedBytes := 0)];
      return Ok(());
    }

    method Abandon(input: Input) returns (answer: Answer<()>)
      requires Valid()
      modifies this
      ensures Valid() && marker == old(marker)
      ensures old(Pending()) ==> answer == Err(RestorePending) && State() == old(State())
      ensures !old(Pending()) && !ValidInput(input) ==> answer == Err(Malformed) && State() == old(State())
      ensures !old(Pending()) && ValidInput(input) ==> (State(), answer) == AbandonTx(old(State()), input)
    {
      if Pending() { return Err(RestorePending); }
      if !ValidInput(input) { return Err(Malformed); }
      AbandonKeepsLedger(limits, State(), input);
      var id := input.RowId();
      if id !in rows { return Ok(()); }
      var existing := rows[id];
      if existing.generation != generation { return Err(StaleGeneration); }
      if existing.fingerprint != input.fingerprint { return Err(OtherRequest); }
      if existing.state.Released? {
        if existing.operation != (if input.operation.Some? then input.operation.value else "") {
          return Err(OtherOperation);
        }
        return Ok(());
      }
      if !existing.state.InProgress? { return Err(NotInProgress); }
      var operation := if input.operation.Some? then input.operation.value else existing.operation;
      rows := rows[id := existing.(state := Released, reservedBytes := 0, operation := operation)];
      return Ok(());
    }

    /** `markerFails` says that the marker cannot be written; `leftBehind` that its file stays anyway. */
    method BeginRestore(markerFails: bool, leftBehind: bool) returns (answer: Answer<()>)
      requires Valid()
      modifies this
      ensures Valid()
      ensures rows == old(rows) && generation == old(generation)
      ensures answer.Ok? <==> BeginTx(old(State())).1.Ok? && (old(marker) || !markerFails)
      ensures answer.Ok? ==> restorePendingFlag && marker && forall id :: id in rows ==> !rows[id].state.InProgress?
      ensures answer.Err? ==> restorePendingFlag == old(restorePendingFlag) && (old(marker) ==> marker)
      ensures answer.Err? && answer.error != MarkerFailed ==> marker == old(marker)
      ensures answer == Err(MarkerFailed) ==> marker == leftBehind
    {
      GateKeepsLedger(limits, State());
      if restorePendingFlag { return Err(GateAlreadyHeld); }
      if exists id :: id in rows && rows[id].state.InProgress? { return Err(MutationInProgress); }
      restorePendingFlag := true;
      if !marker {
        if markerFails {
          marker := leftBehind;
          if restorePendingFlag { restorePendingFlag := false; }
          return Err(MarkerFailed);
        }
        marker := true;
      }
      return Ok(());
    }

    method Invalidate() returns (answer: Answer<()>)
      requires Valid()
      modifies this
      ensures Valid() && marker == old(marker)
      ensures (State(), answer) == InvalidateTx(old(State()))
    {
      GateKeepsLedger(limits, State());
      var next := generation + 1;
      if next > MAX_SAFE_INTEGER { return Err(GenerationOverflow); }
      rows, generation, restorePendingFlag := map[], next, false;
      return Ok(());
    }

    /** The marker goes first; the flag keeps the gate shut until the claims are gone. */
    method CompleteRestore() returns (answer: Answer<()>)
      requires Valid()
      modifies this
      ensures Valid() && !marker
      ensures (State(), answer) == InvalidateTx(old(State()))
    {
      marker := false;
      answer := Invalidate();
    }
  }
}

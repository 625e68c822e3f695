/** What the callers of the claim ledger are answered, state by state, and what becomes of a keyed call. */
module BatchCalls {
  import opened Wrappers
  import opened Batch
  import opened Tables
  import opened BatchLedger
  import opened BatchProtocol

  // ----- what the aggregates count

  function LiveIds(rows: map<Id, Row>): set<Id> { set id | id in rows && !rows[id].state.Released? }

  function LiveIn(rows: map<Id, Row>, scope: string): set<Id> {
    set id | id in rows && !rows[id].state.Released? && id.scope == scope
  }

  lemma LiveWithout(rows: map<Id, Row>, id: Id, scope: string)
    ensures LiveIds(rows - {id}) == LiveIds(rows) - {id}
    ensures LiveIn(rows - {id}, scope) == LiveIn(rows, scope) - {id}
  {
  }

  lemma OneMore(ids: set<Id>, id: Id)
    ensures |ids| == |ids - {id}| + if id in ids then 1 else 0
  {
    if id in ids { assert ids == (ids - {id}) + {id}; } else { assert ids == ids - {id}; }
  }

  /** The two counts of the capacity query are the numbers of claims that are not released. */
  lemma {:induction false} CountsMean(rows: map<Id, Row>, scope: string)
    ensures EntryCount(rows) == |LiveIds(rows)| && ScopeCount(rows, scope) == |LiveIn(rows, scope)|
    decreases |rows|
  {
    if rows != map[] {
      var id :| id in rows;
      DropShrinks(rows, id);
      CountsMean(rows - {id}, scope);
      SumRemove(rows, id, LiveWeight);
      SumRemove(rows, id, ScopeWeight(scope));
      LiveWithout(rows, id, scope);
      OneMore(LiveIds(rows), id);
      OneMore(LiveIn(rows, scope), id);
    } else {
      assert LiveIds(rows) == {} && LiveIn(rows, scope) == {};
    }
  }

  // ----- what is accepted at all

  const DIGITS := "0123456789"
  const HEX_LETTERS := "abcdef"
  const LETTERS := "abcdefghijklmnopqrstuvwxyz"

  lemma DigitsAre(c: char)
    ensures '0' <= c <= '9' <==> c in DIGITS
  {
    if '0' <= c <= '9' { assert DIGITS[c as int - '0' as int] == c; }
  }

  lemma HexLettersAre(c: char)
    ensures 'a' <= c <= 'f' <==> c in HEX_LETTERS
  {
    if 'a' <= c <= 'f' { assert HEX_LETTERS[c as int - 'a' as int] == c; }
  }

  lemma LettersAre(c: char)
    ensures 'a' <= c <= 'z' <==> c in LETTERS
  {
    if 'a' <= c <= 'z' { assert LETTERS[c as int - 'a' as int] == c; }
  }

  /** A scope is a digest of 64 lower-case hexadecimal digits. */
  lemma DigestMeans(s: string)
    ensures IsHexDigest(s) <==> |s| == 64 && forall i :: 0 <= i < |s| ==> s[i] in DIGITS || s[i] in HEX_LETTERS
  {
    forall i | 0 <= i < |s|
      ensures 'a' <= s[i] <= 'f' || '0' <= s[i] <= '9' <==> s[i] in DIGITS || s[i] in HEX_LETTERS
    {
      DigitsAre(s[i]);
      HexLettersAre(s[i]);
    }
  }

  /** An operation label begins with a letter; up to fifteen letters, digits and underscores follow. */
  lemma LabelMeans(s: string)
    ensures IsOperationLabel(s)
       <==> && s != [] && |s| - 1 <= 15 && s[0] in LETTERS
            && forall i :: 1 <= i < |s| ==> s[i] in LETTERS || s[i] in DIGITS || s[i] in "_"
  {
    forall i | 0 <= i < |s|
      ensures 'a' <= s[i] <= 'z' <==> s[i] in LETTERS
      ensures '0' <= s[i] <= '9' <==> s[i] in DIGITS
    {
      DigitsAre(s[i]);
      LettersAre(s[i]);
    }
  }

  /** What a claim, a completion or a release must look like to be considered. */
  lemma InputMeans(input: Input)
    ensures ValidInput(input) <==>
              && IsHexDigest(input.scope) && input.key != [] && |input.key| <= 128
              && (input.operation == None || IsOperationLabel(input.operation.value))
  {
  }

  /** The limits a store is opened with: responses up to 2 MiB, up to 100,000 claims, up to 1 GiB in all. */
  lemma LimitsMean(limits: Limits)
    ensures limits.Valid() <==>
              && limits.maxBytes >= 1024 && limits.maxBytes <= 2_097_152
              && limits.maxEntries > 0 && limits.maxEntries <= 100_000
              && limits.maxEntriesPerScope > 0 && limits.maxEntriesPerScope <= limits.maxEntries
              && limits.maxTotalBytes >= limits.maxBytes && limits.maxTotalBytes <= 1_073_741_824
  {
  }

  // ----- claiming

  /** Room for one more claim of the scope. */
  ghost predicate Room(limits: Limits, rows: map<Id, Row>, scope: string) {
    && |LiveIds(rows)| < limits.maxEntries
    && |LiveIn(rows, scope)| < limits.maxEntriesPerScope
    && TotalBytes(rows) + limits.maxBytes <= limits.maxTotalBytes
  }

  /** The answer of a claim for every state that a sound ledger can be in. */
  lemma ClaimAnswers(limits: Limits, db: Db, input: Input, now: nat)
    requires DbOk(limits, db)
    ensures var answer, id := ClaimTx(limits, db, input, now).1, Id(input.scope, input.key);
            && (answer == Err(RestorePending) <==> db.restorePending)
            && (!db.restorePending && id in db.rows && !db.rows[id].state.Released? ==>
                  var row := db.rows[id];
                  && (answer == Err(OtherRequest) <==> row.fingerprint != input.fingerprint)
                  && (answer == Err(StillRunning) <==> row.state.InProgress? && row.fingerprint == input.fingerprint)
                  && (answer.Ok? <==> row.state.Completed? && row.fingerprint == input.fingerprint)
                  && (answer.Ok? ==> answer.value == Replay(row.state.response)))
            && (!db.restorePending && id in db.rows && db.rows[id].state.Released? ==>
                  var bound := db.rows[id].operation;
                  && (answer == Err(ReleasedUnbound) <==> bound == "")
                  && (answer == Err(OtherOperation) <==> bound != "" && input.operation != Some(bound)))
            && (answer == Err(CapacityExhausted) ==> !Room(limits, db.rows, input.scope))
            && (answer == Ok(Fresh) ==> Room(limits, db.rows, input.scope))
  {
    GrantIsExact(limits, db, input, now);
    CountsMean(db.rows, input.scope);
    if input.RowId() in db.rows && db.rows[input.RowId()].state.Released? {
      TombstoneWeighsNothing(limits, db.rows, input.RowId());
    }
  }

  /** A granted claim adds one row, which reserves the largest response and is bound to its operation. */
  lemma GrantedRow(limits: Limits, db: Db, input: Input, now: nat)
    requires DbOk(limits, db) && ClaimTx(limits, db, input, now).1 == Ok(Fresh)
    ensures var next, id := ClaimTx(limits, db, input, now).0, Id(input.scope, input.key);
            && LiveIds(next.rows) == LiveIds(db.rows) + {id} && id !in LiveIds(db.rows)
            && TotalBytes(next.rows) == TotalBytes(db.rows) + limits.maxBytes
            && id in next.rows && next.rows[id].createdAt == now
            && next.rows[id].operation == (if input.operation.Some? then input.operation.value else "")
  {
    var id := input.RowId();
    GrantIsExact(limits, db, input, now);
    if id in db.rows { TombstoneWeighsNothing(limits, db.rows, id); }
    var table := db.rows - {id};
    assert id !in db.rows ==> table == db.rows;
    SumUpdate(table, id, NewRow(limits, db, input, now), ByteWeight);
  }

  // ----- settling

  /** The answer of a completion; one that is accepted frees what the response leaves of its reservation. */
  lemma CompleteAnswers(limits: Limits, db: Db, input: Input, response: Serialized, now: nat)
    requires DbOk(limits, db) && response.bytes <= limits.maxBytes && !db.restorePending
    ensures var (next, answer) := CompleteTx(db, input, response, now);
            var id := Id(input.scope, input.key);
            && (answer == Err(NoClaim) <==> id !in db.rows)
            && (id in db.rows ==>
                  var row := db.rows[id];
                  && (answer == Err(OtherRequest) <==> row.fingerprint != input.fingerprint)
                  && (answer == Err(AlreadyReleased) <==>
                        row.fingerprint == input.fingerprint && row.state.Released?)
                  && (answer.Ok? <==> row.fingerprint == input.fingerprint && !row.state.Released?)
                  && (answer.Ok? && row.state.InProgress? ==>
                        && next.rows[id].state == Completed(now, response)
                        && TotalBytes(next.rows) == TotalBytes(db.rows) - limits.maxBytes + response.bytes))
  {
    var id := input.RowId();
    CompleteKeepsLedger(limits, db, input, response, now);
    if id in db.rows { SumUpdate(db.rows, id, CompleteTx(db, input, response, now).0.rows[id], ByteWeight); }
    assert CompleteTx(db, input, response, now).1.Ok? ==>
             CompleteTx(db, input, response, now).0.rows
             == db.rows[id := CompleteTx(db, input, response, now).0.rows[id]];
  }

  /** The answer of a release. */
  lemma AbandonAnswers(limits: Limits, db: Db, input: Input)
    requires DbOk(limits, db) && !db.restorePending
    ensures var (next, answer) := AbandonTx(db, input);
            var id := Id(input.scope, input.key);
            && (id !in db.rows ==> answer.Ok? && next == db)
            && (id in db.rows ==>
                  var row := db.rows[id];
                  && (answer == Err(OtherRequest) <==> row.fingerprint != input.fingerprint)
                  && (answer == Err(NotInProgress) <==> row.fingerprint == input.fingerprint && row.state.Completed?)
                  && (answer == Err(OtherOperation) <==>
                        && row.fingerprint == input.fingerprint && row.state.Released?
                        && row.operation != (if input.operation.Some? then input.operation.value else ""))
                  && (row.fingerprint == input.fingerprint && row.state.InProgress? ==>
                        && answer.Ok? && next.rows[id].state.Released?
                        && (input.operation.None? ==> next.rows[id].operation == row.operation))
                  && (answer.Ok? && row.state.Released? ==> next == db))
  {
    AbandonKeepsLedger(limits, db, input);
  }

  // ----- a keyed call from its claim to its retry

  /** The ledger after the call has done what its outcomes call for. */
  ghost function Settled(limits: Limits, claimed: Db, agent: Agent, results: seq<Outcome>, bytes: nat, now: nat): Db
    requires agent.BatchCall?
  {
    match FinishPhase(limits, agent.request, results, bytes)
    case AbandonCheck => AbandonTx(claimed, agent.ClaimInput()).0
    case CompleteCheck(response) => CompleteTx(claimed, agent.CompleteInput(), response, now).0
    case _ => claimed
  }

  lemma OperationsAreLabels(operation: Operation)
    ensures IsOperationLabel(operation.Name())
    ensures forall other: Operation :: other.Name() == operation.Name() ==> other == operation
  {
    assert operation.Store? ==> operation.Name()[0] == 's' && operation.Name()[1] == 't';
    assert operation.Search? ==> operation.Name()[0] == 's' && operation.Name()[1] == 'e';
    assert operation.Update? ==> operation.Name()[0] == 'u';
    assert operation.Delete? ==> operation.Name()[0] == 'd';
    assert operation.Export? ==> operation.Name()[0] == 'e';
  }

  /** The execution may be persisted: every requested item succeeded, and the response is small enough. */
  predicate Storable(limits: Limits, request: Request, results: seq<Outcome>, bytes: nat) {
    && (forall i :: 0 <= i < |results| ==> results[i].Succeeded? && |results[i].text| <= 2048)
    && 1 <= request.items <= 100 && bytes <= 2_097_152 && bytes <= limits.maxBytes
  }

  /** Every item failed with a code that proves that it wrote nothing. */
  predicate Harmless(results: seq<Outcome>) {
    results != []
    && forall i :: 0 <= i < |results| ==>
         results[i].Failed? && results[i].code in {NotFound, Conflict, InvalidInput}
  }

  lemma FinishMeans(limits: Limits, request: Request, results: seq<Outcome>, bytes: nat)
    requires Keyed(request) && |results| == request.items
    ensures FinishPhase(limits, request, results, bytes)
         == if Harmless(results) then AbandonCheck
            else if Storable(limits, request, results, bytes) then
              CompleteCheck(
                Serialized(BatchResult(request.operation, request.items, request.items, 0, results, Stored), bytes))
            else Ended(NotReplayable)
  {
    SettlementIsExclusive(request.operation, results);
    if !HasUnresolvedFailure(request.operation, results) {
      SummaryOfSuccess(request.operation, results);
      StoredExactlyWhen(Summarize(request.operation, results).(idempotency := Stored), request.operation, |results|);
    }
  }

  /**
   * What a retry of the same call is answered, once the first one has settled: its stored response if every
   * item succeeded and it may be persisted; another execution if every item failed harmlessly; otherwise the
   * claim stays in progress and no retry ever executes again.
   */
  lemma RetryIsDecidedByOutcomes(
    limits: Limits, db: Db, agent: Agent, now: nat, results: seq<Outcome>, bytes: nat, done: nat, later: nat)
    requires limits.Valid() && DbOk(limits, db) && agent.BatchCall? && Keyed(agent.request)
    requires |results| == agent.request.items && ValidInput(agent.ClaimInput())
    requires ClaimTx(limits, db, agent.ClaimInput(), now).1 == Ok(Fresh)
    ensures var claimed := ClaimTx(limits, db, agent.ClaimInput(), now).0;
            var settled := Settled(limits, claimed, agent, results, bytes, done);
            var operation := agent.request.operation;
            ClaimTx(limits, settled, agent.ClaimInput(), later).1
            == if Harmless(results) then Ok(Fresh)
               else if Storable(limits, agent.request, results, bytes) then
                 Ok(Replay(
                   Serialized(BatchResult(operation, |results|, |results|, 0, results, Stored), bytes)))
               else Err(StillRunning)
  {
    var input := agent.ClaimInput();
    var claimed := ClaimTx(limits, db, input, now).0;
    ClaimKeepsLedger(limits, db, input, now);
    FinishMeans(limits, agent.request, results, bytes);
    if Harmless(results) {
      ReleaseUndoesClaim(limits, db, input, now, input, later);
    } else if Storable(limits, agent.request, results, bytes) {
      var response := FinishPhase(limits, agent.request, results, bytes).response;
      CompletedClaimReplays(limits, claimed, agent.CompleteInput(), response, done, input, response, later);
    }
  }

  // ----- the gate and the replay of a call

  /** While marker or flag is there no call passes its check, whatever it was about to do. */
  lemma CheckMeans(w: World, pid: Pid)
    requires Enabled(w, CheckGate(pid))
    ensures var before, after := w.agents[pid].phase, Step(w, CheckGate(pid)).agents[pid].phase;
            && (w.marker || w.db.restorePending ==>
                  after == Ended(if before.ClaimCheck? then ClaimRefused(RestorePending) else NotReplayable))
            && (!w.marker && !w.db.restorePending ==>
                  && (before.ClaimCheck? ==> after == ClaimReady)
                  && (before.AbandonCheck? ==> after == AbandonReady)
                  && (before.CompleteCheck? ==> after == CompleteReady(before.response)))
  {
  }

  /** A replay is handed out exactly to a caller that is still authorized. */
  lemma ReplayNeedsAuthorization(w: World, pid: Pid, authorized: bool)
    requires Inv(w) && Enabled(w, FinishReplay(pid, authorized))
    ensures var before, after := w.agents[pid].phase, Step(w, FinishReplay(pid, authorized)).agents[pid].phase;
            after == Ended(if authorized then Ending.Replayed(before.generation, before.response)
                           else ReplayUnauthorized)
  {
    assert AgentOk(w, pid);
    var q :| IsBatch(w, q) && w.agents[q].RowId() == w.agents[pid].RowId()
      && w.agents[q].Digest() == w.agents[pid].Digest()
          && w.agents[q].grant == Granted(w.agents[pid].phase.generation, Kept(w.agents[pid].phase.response));
    assert AgentOk(w, q);
  }

  /** A call that has not passed its first check yet, or was refused there. */
  ghost predicate KeptOut(w: World, p: Pid) {
    p in w.agents && w.agents[p].BatchCall? ==>
      && w.agents[p].phase in {ClaimCheck, Ended(ClaimRefused(RestorePending)), Crashed}
      && w.agents[p].grant == NoGrant && w.agents[p].wrote == {}
  }

  /** As long as the marker file is there, no call that starts, or has only started, gets to the ledger. */
  lemma {:induction false} MarkerKeepsOut(worlds: seq<World>, actions: seq<Action>, from: nat, to: nat, p: Pid)
    requires Run(worlds, actions) && from <= to < |worlds| && KeptOut(worlds[from], p)
    requires forall i :: from <= i < to ==> worlds[i].marker
    ensures KeptOut(worlds[to], p)
    decreases |worlds| - from
  {
    if from < to {
      assert Enabled(worlds[from], actions[from]) && worlds[from + 1] == Step(worlds[from], actions[from]);
      MarkerKeepsOut(worlds, actions, from + 1, to, p);
    }
  }
}

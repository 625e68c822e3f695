/**
 * Keyed batches of many processes over one claim ledger, one atomic step at a time.
 *
 * A batch looks at the gate, claims, executes its items, and then completes, releases or leaves its
 * claim. A gate operator opens the gate, writes the marker, and later removes it and invalidates. A
 * crash may strike any process between any two of its steps.
 */
module BatchProtocol {
  import opened Wrappers
  import opened Batch
  import opened BatchLedger

  type Pid = nat

  /** How the execution a claim was granted for ended. `generation` is the ledger's at the grant. */
  datatype Settlement = Open | Kept(response: Serialized) | Dropped

  datatype Grant = NoGrant | Granted(generation: nat, settlement: Settlement)
  {
    function Settle(s: Settlement): Grant { if NoGrant? then this else Granted(generation, s) }
  }

  datatype Ending =
    | ClaimRefused(refusal: Refusal)
    | Replayed(generation: nat, response: Serialized)
    | ReplayUnauthorized
    | ReplayInvalid
    | StoredResponse(response: Serialized)
    | NotReplayable

  datatype Phase =
    | ClaimCheck | ClaimReady
    | ReplayCheck(generation: nat, response: Serialized)
    | Executing(results: seq<Outcome>)
    | AbandonCheck | AbandonReady
    | CompleteCheck(response: Serialized) | CompleteReady(response: Serialized)
    | Ended(ending: Ending)
    | Crashed

  datatype GatePhase = BeginReady | MarkerReady | RevertReady | Holding | InvalidateReady | Closed

  /** `wrote` records the ledger generations during which the call wrote memories. */
  datatype Agent =
    | BatchCall(scope: string, key: string, request: Request, phase: Phase, grant: Grant, wrote: set<nat>)
    | GateCall(gate: GatePhase)
  {
    function RowId(): Id requires BatchCall? { Id(scope, key) }

    function Digest(): Fingerprint requires BatchCall? { Fingerprint(scope, request) }

    function ClaimInput(): Input requires BatchCall? { Input(scope, key, Digest(), Some(request.operation.Name())) }

    /** `complete` is called without an operation. */
    function CompleteInput(): Input requires BatchCall? { Input(scope, key, Digest(), None) }
  }

  datatype World = World(limits: Limits, db: Db, marker: bool, agents: map<Pid, Agent>)
  {
    predicate Pending() { marker || db.restorePending }
  }

  ghost predicate Init(w: World) {
    w.limits.Valid() && w.db == Db(map[], 1, false) && !w.marker && w.agents == map[]
  }

  // ----- steps

  datatype Action =
    | StartBatch(pid: Pid, scope: string, key: string, request: Request)
    | CheckGate(pid: Pid)
    | ClaimCommit(pid: Pid, now: nat)
    | FinishReplay(pid: Pid, authorized: bool)
    | ExecuteItem(pid: Pid, outcome: Outcome, writes: bool)
    | FinishExecution(pid: Pid, bytes: nat)
    | AbandonCommit(pid: Pid)
    | CompleteCommit(pid: Pid, now: nat)
    | CrashAgent(pid: Pid)
    | StartBegin(pid: Pid)
    | BeginCommit(pid: Pid)
    | MarkerWritten(pid: Pid)
    | MarkerFailed(pid: Pid, leftBehind: bool)
    | RevertCommit(pid: Pid)
    | StartComplete(pid: Pid)
    | MarkerRemoved(pid: Pid)
    | StartInvalidate(pid: Pid)
    | InvalidateCommit(pid: Pid)

  predicate IsBatch(w: World, pid: Pid) { pid in w.agents && w.agents[pid].BatchCall? }

  /** A request that takes the keyed path. */
  predicate Keyed(request: Request) { request.operation.Mutating() && request.items >= 1 }

  predicate InGate(w: World, pid: Pid, gate: GatePhase) { pid in w.agents && w.agents[pid] == GateCall(gate) }

  /**
   * An item that fails with NOT_FOUND, CONFLICT or INVALID_INPUT is assumed to have written nothing;
   * any other item may have written.
   */
  ghost predicate Enabled(w: World, a: Action) {
    match a
    case StartBatch(pid, scope, key, request) =>
      pid !in w.agents && Keyed(request)
    case CheckGate(pid) =>
      IsBatch(w, pid)
        && (w.agents[pid].phase.ClaimCheck? || w.agents[pid].phase.AbandonCheck? || w.agents[pid].phase.CompleteCheck?)
    case ClaimCommit(pid, _) => IsBatch(w, pid) && w.agents[pid].phase.ClaimReady?
    case FinishReplay(pid, _) => IsBatch(w, pid) && w.agents[pid].phase.ReplayCheck?
    case ExecuteItem(pid, outcome, writes) =>
      && IsBatch(w, pid) && w.agents[pid].phase.Executing?
      && |w.agents[pid].phase.results| < w.agents[pid].request.items
      && (WroteNothing(outcome) ==> !writes)
    case FinishExecution(pid, _) =>
      && IsBatch(w, pid) && w.agents[pid].phase.Executing?
      && |w.agents[pid].phase.results| == w.agents[pid].request.items
    case AbandonCommit(pid) => IsBatch(w, pid) && w.agents[pid].phase.AbandonReady?
    case CompleteCommit(pid, _) => IsBatch(w, pid) && w.agents[pid].phase.CompleteReady?
    case CrashAgent(pid) =>
      pid in w.agents && !(IsBatch(w, pid) && (w.agents[pid].phase.Ended? || w.agents[pid].phase.Crashed?))
    case StartBegin(pid) => pid !in w.agents
    case BeginCommit(pid) => InGate(w, pid, BeginReady)
    case MarkerWritten(pid) => InGate(w, pid, MarkerReady)
    case MarkerFailed(pid, _) => InGate(w, pid, MarkerReady) && !w.marker
    case RevertCommit(pid) => InGate(w, pid, RevertReady)
    case StartComplete(pid) => pid !in w.agents
    case MarkerRemoved(pid) => InGate(w, pid, Holding)
    case StartInvalidate(pid) => pid !in w.agents
    case InvalidateCommit(pid) => InGate(w, pid, InvalidateReady)
  }

  function Move(w: World, pid: Pid, agent: Agent): World { w.(agents := w.agents[pid := agent]) }

  function MoveTo(w: World, pid: Pid, phase: Phase): World
    requires IsBatch(w, pid)
  {
    Move(w, pid, w.agents[pid].(phase := phase))
  }

  /** The gate check in front of every ledger transaction; a shut gate ends the call. */
  function GatedPhase(phase: Phase, pending: bool): Phase {
    match phase
    case ClaimCheck => if pending then Ended(ClaimRefused(RestorePending)) else ClaimReady
    case AbandonCheck => if pending then Ended(NotReplayable) else AbandonReady
    case CompleteCheck(response) => if pending then Ended(NotReplayable) else CompleteReady(response)
    case _ => phase
  }

  ghost function ClaimStep(w: World, pid: Pid, now: nat): World
    requires IsBatch(w, pid)
  {
    var agent := w.agents[pid];
    if !ValidInput(agent.ClaimInput()) then MoveTo(w, pid, Ended(ClaimRefused(Malformed)))
    else
      var (db, answer) := ClaimTx(w.limits, w.db, agent.ClaimInput(), now);
      match answer
      case Err(refusal) => MoveTo(w, pid, Ended(ClaimRefused(refusal)))
      case Ok(Replay(response)) => MoveTo(w, pid, ReplayCheck(w.db.generation, response))
      case Ok(Fresh) =>
        Move(w.(db := db), pid, agent.(phase := Executing([]), grant := Granted(w.db.generation, Open)))
  }

  /** A replay is still an authorization decision, and the stored response is validated again. */
  function ReplayPhase(agent: Agent, authorized: bool): Phase
    requires agent.BatchCall? && agent.phase.ReplayCheck?
  {
    if !authorized then Ended(ReplayUnauthorized)
    else if !IsBatchResult(agent.phase.response.value, agent.request.operation, agent.request.items)
      then Ended(ReplayInvalid)
    else Ended(Ending.Replayed(agent.phase.generation, agent.phase.response))
  }

  /** After the last item: release, leave in progress, or go on to persist the response. */
  function FinishPhase(limits: Limits, request: Request, results: seq<Outcome>, bytes: nat): Phase {
    if HasUnresolvedFailure(request.operation, results) then
      if ClaimCanBeReleased(request.operation, results) then AbandonCheck else Ended(NotReplayable)
    else
      var stored := Summarize(request.operation, results).(idempotency := Stored);
      if !IsBatchResult(stored, request.operation, request.items) then Ended(NotReplayable)
      else if bytes > MAX_RESPONSE_BYTES || bytes > limits.maxBytes then Ended(NotReplayable)
      else CompleteCheck(Serialized(stored, bytes))
  }

  /** A failed release is logged and swallowed; the batch fails either way. */
  function AbandonStep(w: World, pid: Pid): World
    requires IsBatch(w, pid)
  {
    var agent := w.agents[pid];
    var (db, answer) := AbandonTx(w.db, agent.ClaimInput());
    var grant := if answer.Ok? then agent.grant.Settle(Dropped) else agent.grant;
    Move(w.(db := db), pid, agent.(phase := Ended(NotReplayable), grant := grant))
  }

  function CompleteStep(w: World, pid: Pid, now: nat): World
    requires IsBatch(w, pid) && w.agents[pid].phase.CompleteReady?
  {
    var agent := w.agents[pid];
    var response := agent.phase.response;
    var (db, answer) := CompleteTx(w.db, agent.CompleteInput(), response, now);
    if answer.Ok? then
      Move(w.(db := db), pid,
        agent.(phase := Ended(StoredResponse(response)), grant := agent.grant.Settle(Kept(response))))
    else MoveTo(w, pid, Ended(NotReplayable))
  }

  function InvalidateStep(w: World, pid: Pid): World {
    var (db, answer) := InvalidateTx(w.db);
    if answer.Err? then Move(w, pid, GateCall(Closed))
    else Move(w.(db := db), pid, GateCall(Closed))
  }

  ghost function Step(w: World, a: Action): World
    requires Enabled(w, a)
  {
    match a
    case StartBatch(pid, scope, key, request) => Move(w, pid, BatchCall(scope, key, request, ClaimCheck, NoGrant, {}))
    case CheckGate(pid) => MoveTo(w, pid, GatedPhase(w.agents[pid].phase, w.Pending()))
    case ClaimCommit(pid, now) => ClaimStep(w, pid, now)
    case FinishReplay(pid, authorized) => MoveTo(w, pid, ReplayPhase(w.agents[pid], authorized))
    case ExecuteItem(pid, outcome, writes) =>
      var agent := w.agents[pid];
      Move(w, pid,
        agent.(phase := Executing(agent.phase.results + [outcome]),
          wrote := if writes then agent.wrote + {w.db.generation} else agent.wrote))
    case FinishExecution(pid, bytes) =>
      MoveTo(w, pid, FinishPhase(w.limits, w.agents[pid].request, w.agents[pid].phase.results, bytes))
    case AbandonCommit(pid) => AbandonStep(w, pid)
    case CompleteCommit(pid, now) => CompleteStep(w, pid, now)
    case CrashAgent(pid) => if IsBatch(w, pid) then MoveTo(w, pid, Crashed) else Move(w, pid, GateCall(Closed))
    case StartBegin(pid) => Move(w, pid, GateCall(BeginReady))
    case BeginCommit(pid) =>
      var (db, answer) := BeginTx(w.db);
      Move(w.(db := db), pid, GateCall(if answer.Ok? then MarkerReady else Closed))
    case MarkerWritten(pid) => Move(w.(marker := true), pid, GateCall(Closed))
    case MarkerFailed(pid, leftBehind) => Move(w.(marker := leftBehind), pid, GateCall(RevertReady))
    case RevertCommit(pid) => Move(w.(db := RevertTx(w.db)), pid, GateCall(Closed))
    case StartComplete(pid) => Move(w, pid, GateCall(Holding))
    case MarkerRemoved(pid) => Move(w.(marker := false), pid, GateCall(InvalidateReady))
    case StartInvalidate(pid) => Move(w, pid, GateCall(InvalidateReady))
    case InvalidateCommit(pid) => InvalidateStep(w, pid)
  }

  // ----- runs

  ghost predicate Run(worlds: seq<World>, actions: seq<Action>) {
    && |worlds| == |actions| + 1
    && Init(worlds[0])
    && forall i :: 0 <= i < |actions| ==> Enabled(worlds[i], actions[i]) && worlds[i + 1] == Step(worlds[i], actions[i])
  }

  /** No claim is in progress: what the database alone can tell. */
  ghost predicate Quiet(db: Db) {
    forall id :: id in db.rows ==> !db.rows[id].state.InProgress?
  }

  /** The call holds a claim under which it can still write, or still settle the claim. */
  ghost predicate MayAct(limits: Limits, agent: Agent)
    requires agent.BatchCall?
  {
    match agent.phase
    case Executing(results) =>
      |results| != agent.request.items || !FinishPhase(limits, agent.request, results, 0).Ended?
    case AbandonCheck => true
    case AbandonReady => true
    case CompleteCheck(_) => true
    case CompleteReady(_) => true
    case _ => false
  }

  /** No call is under way with a claim. Claims of crashed calls and of calls that gave up may be there. */
  ghost predicate Idle(w: World) {
    forall p :: IsBatch(w, p) ==> !MayAct(w.limits, w.agents[p])
  }

  /** Of the first `n` steps, every invalidation commits while no call is under way with a claim. */
  ghost predicate IdleInvalidations(worlds: seq<World>, actions: seq<Action>, n: nat)
    requires n < |worlds| == |actions| + 1
  {
    forall i :: 0 <= i < n && actions[i].InvalidateCommit? ==> Idle(worlds[i])
  }

  // ----- the invariant

  ghost predicate WasKept(w: World, id: Id, digest: Fingerprint, generation: nat, response: Serialized) {
    exists q :: IsBatch(w, q) && w.agents[q].RowId() == id && w.agents[q].Digest() == digest
             && w.agents[q].grant == Granted(generation, Kept(response))
  }

  ghost predicate GrantOk(w: World, agent: Agent)
    requires agent.BatchCall?
  {
    match agent.grant
    case NoGrant => agent.wrote == {}
    case Granted(generation, settlement) =>
      && generation <= w.db.generation
      && ValidInput(agent.ClaimInput())
      && agent.wrote <= {generation}
      && match settlement
         case Open =>
           generation == w.db.generation ==>
             && agent.RowId() in w.db.rows
             && w.db.rows[agent.RowId()].state.InProgress?
             && w.db.rows[agent.RowId()].fingerprint == agent.Digest()
         case Kept(response) =>
           && IsBatchResult(response.value, agent.request.operation, agent.request.items)
           && (generation == w.db.generation ==>
                 && agent.RowId() in w.db.rows
                 && w.db.rows[agent.RowId()].state.Completed?
                 && w.db.rows[agent.RowId()].state.response == response
                 && w.db.rows[agent.RowId()].fingerprint == agent.Digest())
         case Dropped => agent.wrote == {}
  }

  ghost predicate MayHaveWritten(results: seq<Outcome>) {
    exists i :: 0 <= i < |results| && !WroteNothing(results[i])
  }

  ghost predicate PhaseOk(w: World, agent: Agent)
    requires agent.BatchCall?
  {
    match agent.phase
    case ClaimCheck => agent.grant.NoGrant?
    case ClaimReady => agent.grant.NoGrant?
    case ReplayCheck(generation, response) =>
      agent.grant.NoGrant? && generation <= w.db.generation
        && WasKept(w, agent.RowId(), agent.Digest(), generation, response)
    case Executing(results) =>
      && agent.grant.Granted? && agent.grant.settlement.Open?
      && (MayAct(w.limits, agent) ==> agent.grant.generation == w.db.generation)
      && |results| <= agent.request.items && (agent.wrote != {} ==> MayHaveWritten(results))
    case AbandonCheck => agent.grant == Granted(w.db.generation, Open) && agent.wrote == {}
    case AbandonReady => agent.grant == Granted(w.db.generation, Open) && agent.wrote == {}
    case CompleteCheck(response) =>
      && agent.grant == Granted(w.db.generation, Open)
      && IsBatchResult(response.value, agent.request.operation, agent.request.items)
      && response.bytes <= w.limits.maxBytes
    case CompleteReady(response) =>
      && agent.grant == Granted(w.db.generation, Open)
      && IsBatchResult(response.value, agent.request.operation, agent.request.items)
      && response.bytes <= w.limits.maxBytes
    case Ended(ClaimRefused(_)) => agent.grant.NoGrant?
    case Ended(Replayed(generation, response)) =>
      agent.grant.NoGrant? && generation <= w.db.generation
        && WasKept(w, agent.RowId(), agent.Digest(), generation, response)
    case Ended(ReplayUnauthorized) => agent.grant.NoGrant?
    case Ended(ReplayInvalid) => false
    case Ended(StoredResponse(response)) => agent.grant.Granted? && agent.grant.settlement == Kept(response)
    case Ended(NotReplayable) => agent.grant.Granted? && !agent.grant.settlement.Kept?
    case Crashed => true
  }

  ghost predicate AgentFits(w: World, agent: Agent) {
    agent.BatchCall? ==> Keyed(agent.request) && GrantOk(w, agent) && PhaseOk(w, agent)
  }

  ghost predicate AgentOk(w: World, p: Pid)
    requires p in w.agents
  {
    AgentFits(w, w.agents[p])
  }

  ghost predicate SharedKey(w: World, p: Pid, q: Pid)
    requires IsBatch(w, p) && IsBatch(w, q)
  {
    && w.agents[p].RowId() == w.agents[q].RowId()
    && w.agents[p].grant.Granted? && w.agents[q].grant.Granted?
    && w.agents[p].grant.generation == w.agents[q].grant.generation
  }

  /** Two grants of one key in one generation: one of them was released. */
  ghost predicate OneHolder(w: World) {
    forall p, q :: IsBatch(w, p) && IsBatch(w, q) && p != q && SharedKey(w, p, q)
      ==> w.agents[p].grant.settlement.Dropped? || w.agents[q].grant.settlement.Dropped?
  }

  ghost predicate HeldOpen(w: World, id: Id) {
    exists q :: IsBatch(w, q) && w.agents[q].RowId() == id && w.agents[q].grant == Granted(w.db.generation, Open)
  }

  ghost predicate Backed(w: World, id: Id)
    requires id in w.db.rows
  {
    match w.db.rows[id].state
    case InProgress => HeldOpen(w, id)
    case Completed(_, response) => WasKept(w, id, w.db.rows[id].fingerprint, w.db.generation, response)
    case Released => true
  }

  /** Behind every unreleased row stands the execution it was granted to. */
  ghost predicate RowsBacked(w: World) {
    forall id :: id in w.db.rows ==> Backed(w, id)
  }

  ghost predicate Inv(w: World) {
    && w.limits.Valid()
    && DbOk(w.limits, w.db)
    && (forall p :: p in w.agents ==> AgentOk(w, p))
    && OneHolder(w)
    && RowsBacked(w)
  }

  /** `p` holds an unreleased grant of the current generation, so its row carries its claim. */
  ghost predicate Holds(w: World, p: Pid) {
    && IsBatch(w, p) && w.agents[p].grant.Granted?
    && w.agents[p].grant.generation == w.db.generation && !w.agents[p].grant.settlement.Dropped?
  }

  // ----- preservation

  /** Only `pid` moved, its identity and any kept response survive, and rows held by others did not change. */
  ghost predicate Framed(w: World, v: World, pid: Pid) {
    && v.limits == w.limits && v.db.generation == w.db.generation
    && v.agents.Keys == w.agents.Keys + {pid}
    && (forall q :: q in w.agents && q != pid ==> v.agents[q] == w.agents[q])
    && (IsBatch(w, pid) ==>
          && v.agents[pid].BatchCall?
          && v.agents[pid].RowId() == w.agents[pid].RowId() && v.agents[pid].Digest() == w.agents[pid].Digest()
          && (w.agents[pid].grant.Granted? && w.agents[pid].grant.settlement.Kept? ==>
               v.agents[pid].grant == w.agents[pid].grant))
    && (forall q :: q != pid && Holds(w, q) && w.agents[q].RowId() in w.db.rows ==>
          w.agents[q].RowId() in v.db.rows && v.db.rows[w.agents[q].RowId()] == w.db.rows[w.agents[q].RowId()])
  }

  lemma KeptSurvives(w: World, v: World, pid: Pid, id: Id, digest: Fingerprint, generation: nat, response: Serialized)
    requires Framed(w, v, pid) && WasKept(w, id, digest, generation, response)
    ensures WasKept(v, id, digest, generation, response)
  {
    var q :| IsBatch(w, q) && w.agents[q].RowId() == id && w.agents[q].Digest() == digest
          && w.agents[q].grant == Granted(generation, Kept(response));
    assert IsBatch(v, q) && v.agents[q].grant == Granted(generation, Kept(response));
  }

  lemma PhaseSurvives(w: World, v: World, pid: Pid, agent: Agent)
    requires Framed(w, v, pid) && agent.BatchCall? && PhaseOk(w, agent)
    ensures PhaseOk(v, agent)
  {
    if agent.phase.ReplayCheck? {
      KeptSurvives(w, v, pid, agent.RowId(), agent.Digest(), agent.phase.generation, agent.phase.response);
    } else if agent.phase.Ended? && agent.phase.ending.Replayed? {
      KeptSurvives(w, v, pid, agent.RowId(), agent.Digest(), agent.phase.ending.generation,
        agent.phase.ending.response);
    }
  }

  lemma OtherKeepsItsState(w: World, v: World, pid: Pid, q: Pid)
    requires Inv(w) && Framed(w, v, pid) && IsBatch(w, q) && q != pid
    ensures GrantOk(v, v.agents[q]) && PhaseOk(v, v.agents[q]) && AgentOk(v, q)
  {
    var agent := w.agents[q];
    assert AgentOk(w, q);
    assert Holds(w, q) ==> agent.RowId() in w.db.rows;
    PhaseSurvives(w, v, pid, agent);
  }

  lemma OthersKeepTheirState(w: World, v: World, pid: Pid)
    requires Inv(w) && Framed(w, v, pid)
    ensures forall q :: q in v.agents && q != pid ==> AgentOk(v, q)
  {
    forall q | q in v.agents && q != pid ensures AgentOk(v, q) {
      if w.agents[q].BatchCall? { OtherKeepsItsState(w, v, pid, q); }
    }
  }

  lemma BackingSurvives(w: World, v: World, pid: Pid, id: Id)
    requires Inv(w) && Framed(w, v, pid)
    requires id in w.db.rows && id in v.db.rows && v.db.rows[id] == w.db.rows[id]
    requires IsBatch(w, pid) && w.agents[pid].RowId() == id ==> v.agents[pid].grant == w.agents[pid].grant
    ensures Backed(v, id)
  {
    assert Backed(w, id);
    if w.db.rows[id].state.Completed? {
      KeptSurvives(w, v, pid, id, w.db.rows[id].fingerprint, w.db.generation, w.db.rows[id].state.response);
    } else if w.db.rows[id].state.InProgress? {
      var q :| IsBatch(w, q) && w.agents[q].RowId() == id && w.agents[q].grant == Granted(w.db.generation, Open);
      assert IsBatch(v, q) && v.agents[q].RowId() == id && v.agents[q].grant == w.agents[q].grant;
    }
  }

  lemma MovedAgentOk(w: World, v: World, pid: Pid, agent: Agent)
    requires Inv(w) && Framed(w, v, pid) && AgentFits(w, agent) && v.agents[pid] == agent && v.db.rows == w.db.rows
    ensures AgentOk(v, pid)
  {
    if agent.BatchCall? { PhaseSurvives(w, v, pid, agent); }
  }

  /** A step of `pid` to `agent` that leaves all rows and every grant alone, gate steps included. */
  lemma LocalMoveKeepsInv(w: World, pid: Pid, agent: Agent, restorePending: bool, marker: bool)
    requires Inv(w) && DbOk(w.limits, w.db.(restorePending := restorePending))
    requires AgentFits(w, agent)
    requires IsBatch(w, pid) ==>
               && agent.BatchCall? && agent.RowId() == w.agents[pid].RowId()
               && agent.Digest() == w.agents[pid].Digest() && agent.grant == w.agents[pid].grant
    requires !IsBatch(w, pid) && agent.BatchCall? ==> agent.grant.NoGrant?
    ensures Inv(Move(w.(db := w.db.(restorePending := restorePending), marker := marker), pid, agent))
  {
    var v := Move(w.(db := w.db.(restorePending := restorePending), marker := marker), pid, agent);
    OthersKeepTheirState(w, v, pid);
    MovedAgentOk(w, v, pid, agent);
    forall p: Pid, q: Pid | IsBatch(v, p) && IsBatch(v, q) && p != q && SharedKey(v, p, q)
      ensures v.agents[p].grant.settlement.Dropped? || v.agents[q].grant.settlement.Dropped?
    {
      assert IsBatch(w, p) && IsBatch(w, q) && SharedKey(w, p, q);
    }
    forall id | id in v.db.rows ensures Backed(v, id) {
      BackingSurvives(w, v, pid, id);
    }
  }

  /** A batch moves to another phase and nothing else happens. */
  lemma PhaseMoveKeepsInv(w: World, pid: Pid, phase: Phase)
    requires Inv(w) && IsBatch(w, pid)
    requires PhaseOk(w, w.agents[pid].(phase := phase))
    ensures Inv(MoveTo(w, pid, phase))
  {
    assert AgentOk(w, pid);
    LocalMoveKeepsInv(w, pid, w.agents[pid].(phase := phase), w.db.restorePending, w.marker);
    assert w.(db := w.db.(restorePending := w.db.restorePending), marker := w.marker) == w;
  }

  /** `v` differs from `w` in the row of `pid` only, and any response in that row is the one `pid` kept. */
  ghost predicate OwnRowOnly(w: World, v: World, pid: Pid)
    requires IsBatch(w, pid) && IsBatch(v, pid)
  {
    var id := w.agents[pid].RowId();
    && (forall other :: other != id ==> (other in v.db.rows <==> other in w.db.rows))
    && (forall other :: other != id && other in w.db.rows ==> v.db.rows[other] == w.db.rows[other])
    && (id in v.db.rows && v.db.rows[id].state.Completed? ==>
          && v.agents[pid].grant == Granted(v.db.generation, Kept(v.db.rows[id].state.response))
          && v.db.rows[id].fingerprint == v.agents[pid].Digest())
    && (id in v.db.rows && v.db.rows[id].state.InProgress? ==> v.agents[pid].grant == Granted(v.db.generation, Open))
  }

  /** A step by which `pid` takes or settles the claim of its key, which nobody else holds. */
  lemma OwnRowStepKeepsInv(w: World, v: World, pid: Pid)
    requires Inv(w) && Framed(w, v, pid) && DbOk(v.limits, v.db)
    requires IsBatch(w, pid) && IsBatch(v, pid) && OwnRowOnly(w, v, pid) && AgentOk(v, pid)
    requires v.agents[pid].grant.Granted? && v.agents[pid].grant.generation == w.db.generation
    requires forall q :: q != pid && Holds(w, q) ==> w.agents[q].RowId() != w.agents[pid].RowId()
    ensures Inv(v)
  {
    OthersKeepTheirState(w, v, pid);
    forall p: Pid, q: Pid | IsBatch(v, p) && IsBatch(v, q) && p != q && SharedKey(v, p, q)
      ensures v.agents[p].grant.settlement.Dropped? || v.agents[q].grant.settlement.Dropped?
    {
      if p != pid && q != pid {
        assert SharedKey(w, p, q);
      } else {
        assert !Holds(w, if p == pid then q else p);
      }
    }
    forall other | other in v.db.rows ensures Backed(v, other) {
      if other == w.agents[pid].RowId() {
        assert IsBatch(v, pid) && v.agents[pid].RowId() == other;
      } else {
        BackingSurvives(w, v, pid, other);
      }
    }
  }

  lemma FreshClaimKeepsInv(w: World, pid: Pid, db: Db)
    requires Inv(w) && IsBatch(w, pid) && w.agents[pid].phase.ClaimReady? && ValidInput(w.agents[pid].ClaimInput())
    requires DbOk(w.limits, db) && db.generation == w.db.generation
    requires var id := w.agents[pid].RowId();
             && (id in w.db.rows ==> w.db.rows[id].state.Released?)
             && id in db.rows && db.rows[id].state.InProgress? && db.rows[id].fingerprint == w.agents[pid].Digest()
             && (forall other :: other != id ==> (other in db.rows <==> other in w.db.rows))
             && (forall other :: other != id && other in w.db.rows ==> db.rows[other] == w.db.rows[other])
    ensures Inv(Move(w.(db := db), pid,
              w.agents[pid].(phase := Executing([]), grant := Granted(w.db.generation, Open))))
  {
    assert AgentOk(w, pid);
    forall q | q != pid && Holds(w, q) ensures w.agents[q].RowId() != w.agents[pid].RowId() { assert AgentOk(w, q); }
    OwnRowStepKeepsInv(w,
      Move(w.(db := db), pid, w.agents[pid].(phase := Executing([]), grant := Granted(w.db.generation, Open))), pid);
  }

  lemma ClaimKeepsInv(w: World, pid: Pid, now: nat)
    requires Inv(w) && Enabled(w, ClaimCommit(pid, now))
    ensures Inv(ClaimStep(w, pid, now))
  {
    var agent := w.agents[pid];
    assert AgentOk(w, pid);
    if !ValidInput(agent.ClaimInput()) {
      PhaseMoveKeepsInv(w, pid, Ended(ClaimRefused(Malformed)));
    } else {
      ClaimKeepsLedger(w.limits, w.db, agent.ClaimInput(), now);
      var (db, answer) := ClaimTx(w.limits, w.db, agent.ClaimInput(), now);
      match answer
      case Err(refusal) => PhaseMoveKeepsInv(w, pid, Ended(ClaimRefused(refusal)));
      case Ok(Replay(response)) => PhaseMoveKeepsInv(w, pid, ReplayCheck(w.db.generation, response));
      case Ok(Fresh) => FreshClaimKeepsInv(w, pid, db);
    }
  }

  /** Nobody else holds the key of a holder. */
  lemma SoleHolder(w: World, pid: Pid)
    requires Inv(w) && Holds(w, pid)
    ensures forall q :: q != pid && Holds(w, q) ==> w.agents[q].RowId() != w.agents[pid].RowId()
  {
    forall q | q != pid && Holds(w, q) ensures w.agents[q].RowId() != w.agents[pid].RowId() {
      assert SharedKey(w, pid, q) <==> w.agents[q].RowId() == w.agents[pid].RowId();
    }
  }

  lemma CompletedIsFramed(w: World, pid: Pid, now: nat)
    requires Inv(w) && Enabled(w, CompleteCommit(pid, now))
    requires CompleteTx(w.db, w.agents[pid].CompleteInput(), w.agents[pid].phase.response, now).1.Ok?
    ensures Framed(w, CompleteStep(w, pid, now), pid)
  {
    assert AgentOk(w, pid);
    SoleHolder(w, pid);
  }

  lemma CompletedFits(w: World, pid: Pid, now: nat)
    requires Inv(w) && Enabled(w, CompleteCommit(pid, now))
    requires CompleteTx(w.db, w.agents[pid].CompleteInput(), w.agents[pid].phase.response, now).1.Ok?
    ensures pid in CompleteStep(w, pid, now).agents && AgentOk(CompleteStep(w, pid, now), pid)
  {
    assert AgentOk(w, pid);
  }

  lemma CompletingHolds(w: World, pid: Pid, now: nat)
    requires Inv(w) && Enabled(w, CompleteCommit(pid, now))
    ensures Holds(w, pid)
  {
    assert AgentOk(w, pid);
  }

  lemma CompletedKeepsInv(w: World, pid: Pid, now: nat)
    requires Inv(w) && Enabled(w, CompleteCommit(pid, now))
    requires CompleteTx(w.db, w.agents[pid].CompleteInput(), w.agents[pid].phase.response, now).1.Ok?
    ensures Inv(CompleteStep(w, pid, now))
  {
    var agent := w.agents[pid];
    CompletedIsFramed(w, pid, now);
    CompletedFits(w, pid, now);
    CompletingHolds(w, pid, now);
    CompleteKeepsLedger(w.limits, w.db, agent.CompleteInput(), agent.phase.response, now);
    SoleHolder(w, pid);
    OwnRowStepKeepsInv(w, CompleteStep(w, pid, now), pid);
  }

  lemma CompleteKeepsInv(w: World, pid: Pid, now: nat)
    requires Inv(w) && Enabled(w, CompleteCommit(pid, now))
    ensures Inv(CompleteStep(w, pid, now))
  {
    var agent := w.agents[pid];
    assert AgentOk(w, pid);
    if CompleteTx(w.db, agent.CompleteInput(), agent.phase.response, now).1.Err? {
      PhaseMoveKeepsInv(w, pid, Ended(NotReplayable));
    } else {
      CompletedKeepsInv(w, pid, now);
    }
  }

  lemma ReleasedIsFramed(w: World, pid: Pid)
    requires Inv(w) && Enabled(w, AbandonCommit(pid)) && AbandonTx(w.db, w.agents[pid].ClaimInput()).1.Ok?
    ensures Framed(w, AbandonStep(w, pid), pid) && AgentOk(AbandonStep(w, pid), pid) && Holds(w, pid)
  {
    assert AgentOk(w, pid);
    SoleHolder(w, pid);
  }

  lemma ReleasedKeepsInv(w: World, pid: Pid)
    requires Inv(w) && Enabled(w, AbandonCommit(pid)) && AbandonTx(w.db, w.agents[pid].ClaimInput()).1.Ok?
    ensures Inv(AbandonStep(w, pid))
  {
    ReleasedIsFramed(w, pid);
    AbandonKeepsLedger(w.limits, w.db, w.agents[pid].ClaimInput());
    SoleHolder(w, pid);
    OwnRowStepKeepsInv(w, AbandonStep(w, pid), pid);
  }

  lemma AbandonKeepsInv(w: World, pid: Pid)
    requires Inv(w) && Enabled(w, AbandonCommit(pid))
    ensures Inv(AbandonStep(w, pid))
  {
    assert AgentOk(w, pid);
    if AbandonTx(w.db, w.agents[pid].ClaimInput()).1.Err? {
      PhaseMoveKeepsInv(w, pid, Ended(NotReplayable));
    } else {
      ReleasedKeepsInv(w, pid);
    }
  }

  /** Releasing is only reached by an execution whose items all wrote nothing. */
  lemma FinishExecutionKeepsInv(w: World, pid: Pid, bytes: nat)
    requires Inv(w) && Enabled(w, FinishExecution(pid, bytes))
    ensures Inv(Step(w, FinishExecution(pid, bytes)))
  {
    assert AgentOk(w, pid);
    PhaseMoveKeepsInv(w, pid, FinishPhase(w.limits, w.agents[pid].request, w.agents[pid].phase.results, bytes));
  }

  lemma ExecuteItemKeepsInv(w: World, pid: Pid, outcome: Outcome, writes: bool)
    requires Inv(w) && Enabled(w, ExecuteItem(pid, outcome, writes))
    ensures Inv(Step(w, ExecuteItem(pid, outcome, writes)))
  {
    var agent := w.agents[pid];
    assert AgentOk(w, pid);
    var before, after := agent.phase.results, agent.phase.results + [outcome];
    var next :=
      agent.(phase := Executing(after), wrote := if writes then agent.wrote + {w.db.generation} else agent.wrote);
    if next.wrote != {} {
      if agent.wrote != {} {
        var i :| 0 <= i < |before| && !WroteNothing(before[i]);
        assert after[i] == before[i];
      } else {
        assert after[|before|] == outcome;
      }
      assert MayHaveWritten(after);
    }
    LocalMoveKeepsInv(w, pid, next, w.db.restorePending, w.marker);
    assert w.(db := w.db.(restorePending := w.db.restorePending), marker := w.marker) == w;
  }

  /** The stored response of a replay was validated for the same request, so it validates again. */
  lemma FinishReplayKeepsInv(w: World, pid: Pid, authorized: bool)
    requires Inv(w) && Enabled(w, FinishReplay(pid, authorized))
    ensures Inv(Step(w, FinishReplay(pid, authorized)))
  {
    var agent := w.agents[pid];
    assert AgentOk(w, pid);
    var q :| IsBatch(w, q) && w.agents[q].RowId() == agent.RowId() && w.agents[q].Digest() == agent.Digest()
          && w.agents[q].grant == Granted(agent.phase.generation, Kept(agent.phase.response));
    assert AgentOk(w, q);
    PhaseMoveKeepsInv(w, pid, ReplayPhase(agent, authorized));
  }

  lemma KeptSurvivesInvalidate(w: World, pid: Pid, id: Id, digest: Fingerprint, generation: nat, response: Serialized)
    requires InGate(w, pid, InvalidateReady) && WasKept(w, id, digest, generation, response)
    ensures WasKept(InvalidateStep(w, pid), id, digest, generation, response)
  {
    var v := InvalidateStep(w, pid);
    var q :| IsBatch(w, q) && w.agents[q].RowId() == id && w.agents[q].Digest() == digest
          && w.agents[q].grant == Granted(generation, Kept(response));
    assert IsBatch(v, q) && v.agents[q] == w.agents[q];
  }

  /** An invalidation while no call is under way with a claim cuts no execution off from its row. */
  lemma InvalidateKeepsInv(w: World, pid: Pid)
    requires Inv(w) && Enabled(w, InvalidateCommit(pid)) && Idle(w)
    ensures Inv(InvalidateStep(w, pid))
  {
    var v := InvalidateStep(w, pid);
    GateKeepsLedger(w.limits, w.db);
    if v.db == w.db {
      LocalMoveKeepsInv(w, pid, GateCall(Closed), w.db.restorePending, w.marker);
      assert w.(db := w.db.(restorePending := w.db.restorePending), marker := w.marker) == w;
    } else {
      forall q | q in v.agents && q != pid ensures AgentOk(v, q) {
        assert AgentOk(w, q);
        var agent := w.agents[q];
        if agent.BatchCall? {
          if agent.phase.ReplayCheck? {
            KeptSurvivesInvalidate(w, pid, agent.RowId(), agent.Digest(), agent.phase.generation, agent.phase.response);
          } else if agent.phase.Ended? && agent.phase.ending.Replayed? {
            KeptSurvivesInvalidate(w, pid, agent.RowId(), agent.Digest(), agent.phase.ending.generation,
              agent.phase.ending.response);
          }
        }
      }
      forall p: Pid, q: Pid | IsBatch(v, p) && IsBatch(v, q) && p != q && SharedKey(v, p, q)
        ensures v.agents[p].grant.settlement.Dropped? || v.agents[q].grant.settlement.Dropped?
      {
        assert SharedKey(w, p, q);
      }
    }
  }

  lemma GateStepKeepsInv(w: World, pid: Pid, gate: GatePhase, restorePending: bool, marker: bool)
    requires Inv(w) && !IsBatch(w, pid) && DbOk(w.limits, w.db.(restorePending := restorePending))
    ensures Inv(Move(w.(db := w.db.(restorePending := restorePending), marker := marker), pid, GateCall(gate)))
  {
    LocalMoveKeepsInv(w, pid, GateCall(gate), restorePending, marker);
  }

  predicate GateAction(a: Action) {
    || a.StartBegin? || a.BeginCommit? || a.MarkerWritten? || a.MarkerFailed? || a.RevertCommit?
    || a.StartComplete? || a.MarkerRemoved? || a.StartInvalidate?
  }

  /** A gate action moves the flag, the marker and its own call, and nothing else. */
  lemma GateActionIsLocal(w: World, a: Action)
    requires Enabled(w, a) && GateAction(a)
    ensures var v := Step(w, a);
            && a.pid in v.agents && v.agents[a.pid].GateCall? && !IsBatch(w, a.pid)
            && v
                 == Move(w.(db := w.db.(restorePending := v.db.restorePending), marker := v.marker), a.pid,
                   v.agents[a.pid])
  {
  }

  lemma GateActionKeepsDbOk(w: World, a: Action)
    requires w.limits.Valid() && DbOk(w.limits, w.db) && Enabled(w, a) && GateAction(a)
    ensures DbOk(w.limits, w.db.(restorePending := Step(w, a).db.restorePending))
  {
    GateKeepsLedger(w.limits, w.db);
  }

  lemma GateActionKeepsInv(w: World, a: Action)
    requires Inv(w) && Enabled(w, a) && GateAction(a)
    ensures Inv(Step(w, a))
  {
    var v := Step(w, a);
    GateActionIsLocal(w, a);
    GateActionKeepsDbOk(w, a);
    GateStepKeepsInv(w, a.pid, v.agents[a.pid].gate, v.db.restorePending, v.marker);
  }

  lemma StartBatchKeepsInv(w: World, pid: Pid, scope: string, key: string, request: Request)
    requires Inv(w) && Enabled(w, StartBatch(pid, scope, key, request))
    ensures Inv(Move(w, pid, BatchCall(scope, key, request, ClaimCheck, NoGrant, {})))
  {
    LocalMoveKeepsInv(w, pid, BatchCall(scope, key, request, ClaimCheck, NoGrant, {}), w.db.restorePending, w.marker);
    assert w.(db := w.db.(restorePending := w.db.restorePending), marker := w.marker) == w;
  }

  lemma CrashKeepsInv(w: World, pid: Pid)
    requires Inv(w) && Enabled(w, CrashAgent(pid))
    ensures Inv(Step(w, CrashAgent(pid)))
  {
    if IsBatch(w, pid) {
      PhaseMoveKeepsInv(w, pid, Crashed);
    } else {
      GateStepKeepsInv(w, pid, Closed, w.db.restorePending, w.marker);
      assert w.(db := w.db.(restorePending := w.db.restorePending), marker := w.marker) == w;
    }
  }

  lemma StepKeepsInv(w: World, a: Action)
    requires Inv(w) && Enabled(w, a)
    requires a.InvalidateCommit? ==> Idle(w)
    ensures Inv(Step(w, a))
  {
    match a
    case StartBatch(pid, scope, key, request) => StartBatchKeepsInv(w, pid, scope, key, request);
    case CheckGate(pid) =>
      assert AgentOk(w, pid);
      PhaseMoveKeepsInv(w, pid, GatedPhase(w.agents[pid].phase, w.Pending()));
    case ClaimCommit(pid, now) => ClaimKeepsInv(w, pid, now);
    case FinishReplay(pid, authorized) => FinishReplayKeepsInv(w, pid, authorized);
    case ExecuteItem(pid, outcome, writes) => ExecuteItemKeepsInv(w, pid, outcome, writes);
    case FinishExecution(pid, bytes) => FinishExecutionKeepsInv(w, pid, bytes);
    case AbandonCommit(pid) => AbandonKeepsInv(w, pid);
    case CompleteCommit(pid, now) => CompleteKeepsInv(w, pid, now);
    case CrashAgent(pid) =>
      CrashKeepsInv(w, pid);
    case InvalidateCommit(pid) => InvalidateKeepsInv(w, pid);
    case _ => GateActionKeepsInv(w, a);
  }

  // ----- results over whole runs

  lemma {:induction false} RunKeepsInv(worlds: seq<World>, actions: seq<Action>, n: nat)
    requires Run(worlds, actions) && n < |worlds| && IdleInvalidations(worlds, actions, n)
    ensures Inv(worlds[n])
  {
    if n == 0 {
      EmptyWithinCapacity(worlds[0].limits);
    } else {
      RunKeepsInv(worlds, actions, n - 1);
      assert Enabled(worlds[n - 1], actions[n - 1]) && worlds[n - 1 + 1] == Step(worlds[n - 1], actions[n - 1]);
      StepKeepsInv(worlds[n - 1], actions[n - 1]);
    }
  }

  /**
   * At most once: between two invalidations at most one execution of a key writes. Two executions of
   * one key can both be granted in a generation only if one of them was released, having written
   * nothing.
   */
  lemma AtMostOneExecutionWrites(worlds: seq<World>, actions: seq<Action>, n: nat, p: Pid, q: Pid)
    requires Run(worlds, actions) && n < |worlds| && IdleInvalidations(worlds, actions, n)
    requires IsBatch(worlds[n], p) && IsBatch(worlds[n], q) && p != q
    requires worlds[n].agents[p].RowId() == worlds[n].agents[q].RowId()
    ensures worlds[n].agents[p].wrote !! worlds[n].agents[q].wrote
    ensures SharedKey(worlds[n], p, q) ==>
              || (worlds[n].agents[p].grant.settlement.Dropped? && worlds[n].agents[p].wrote == {})
              || (worlds[n].agents[q].grant.settlement.Dropped? && worlds[n].agents[q].wrote == {})
  {
    var w := worlds[n];
    RunKeepsInv(worlds, actions, n);
    assert AgentOk(w, p) && AgentOk(w, q);
    if w.agents[p].grant.Granted? && w.agents[q].grant.Granted? {
      assert SharedKey(w, p, q) <==> w.agents[p].grant.generation == w.agents[q].grant.generation;
    }
  }

  /** The call was answered with `response` for its key in `generation`: executed then, or replayed. */
  ghost predicate AnsweredWith(w: World, p: Pid, generation: nat, response: Serialized) {
    && IsBatch(w, p)
    && (|| w.agents[p].phase == Ended(Ending.Replayed(generation, response))
        || (w.agents[p].phase == Ended(StoredResponse(response)) && w.agents[p].grant.Granted?
           && w.agents[p].grant.generation == generation))
  }

  /** The execution behind an answer. */
  ghost function Execution(w: World, p: Pid, generation: nat, response: Serialized): (e: Pid)
    requires Inv(w) && AnsweredWith(w, p, generation, response)
    ensures IsBatch(w, e) && w.agents[e].RowId() == w.agents[p].RowId() && w.agents[e].Digest() == w.agents[p].Digest()
    ensures w.agents[e].grant == Granted(generation, Kept(response))
  {
    assert AgentOk(w, p);
    if w.agents[p].phase.ending.StoredResponse? then p
    else
      var e :| && IsBatch(w, e) && w.agents[e].RowId() == w.agents[p].RowId()
        && w.agents[e].Digest() == w.agents[p].Digest()
               && w.agents[e].grant == Granted(generation, Kept(response));
      e
  }

  /** Two answers for one key in one generation have the same execution behind them. */
  lemma AnswersAgree(w: World, p: Pid, q: Pid, generation: nat, mine: Serialized, other: Serialized)
    requires Inv(w) && AnsweredWith(w, p, generation, mine) && AnsweredWith(w, q, generation, other)
    requires w.agents[p].RowId() == w.agents[q].RowId()
    ensures mine == other && w.agents[p].request == w.agents[q].request
    ensures IsBatchResult(mine.value, w.agents[p].request.operation, w.agents[p].request.items)
    ensures exists e :: && IsBatch(w, e) && w.agents[e].grant == Granted(generation, Kept(mine))
                        && w.agents[e].RowId() == w.agents[p].RowId() && w.agents[e].request == w.agents[p].request
                        && forall d ::
                             IsBatch(w, d) && d != e && SharedKey(w, d, e) ==> w.agents[d].grant.settlement.Dropped?
  {
    assert AgentOk(w, p) && AgentOk(w, q);
    var e, d := Execution(w, p, generation, mine), Execution(w, q, generation, other);
    assert AgentOk(w, e);
    assert SharedKey(w, e, d);
  }

  /**
   * Replay agreement: all answers given for a key in one generation, the original and every replay,
   * are the same response to the same request, and exactly one completed execution stands behind them.
   * A stored response never fails its validation on replay.
   */
  lemma ReplaysAgree(
    worlds: seq<World>, actions: seq<Action>, n: nat, p: Pid, q: Pid, generation: nat, mine: Serialized,
    other: Serialized)
    requires Run(worlds, actions) && n < |worlds| && IdleInvalidations(worlds, actions, n)
    requires AnsweredWith(worlds[n], p, generation, mine) && AnsweredWith(worlds[n], q, generation, other)
    requires worlds[n].agents[p].RowId() == worlds[n].agents[q].RowId()
    ensures mine == other && worlds[n].agents[p].request == worlds[n].agents[q].request
    ensures IsBatchResult(mine.value, worlds[n].agents[p].request.operation, worlds[n].agents[p].request.items)
    ensures exists e :: && IsBatch(worlds[n], e) && worlds[n].agents[e].grant == Granted(generation, Kept(mine))
                        && worlds[n].agents[e].RowId() == worlds[n].agents[p].RowId()
                        && worlds[n].agents[e].request == worlds[n].agents[p].request
                        && forall d ::
                             IsBatch(worlds[n], d) && d != e && SharedKey(worlds[n], d, e) ==>
                               worlds[n].agents[d].grant.settlement.Dropped?
    ensures forall r :: IsBatch(worlds[n], r) ==> worlds[n].agents[r].phase != Ended(ReplayInvalid)
  {
    var w := worlds[n];
    RunKeepsInv(worlds, actions, n);
    AnswersAgree(w, p, q, generation, mine, other);
    forall r | IsBatch(w, r) ensures w.agents[r].phase != Ended(ReplayInvalid) { assert AgentOk(w, r); }
  }

  // ----- the ledger and its gate, in every run

  ghost predicate ResponseFits(phase: Phase, limits: Limits) {
    && (phase.CompleteCheck? ==> phase.response.bytes <= limits.maxBytes)
    && (phase.CompleteReady? ==> phase.response.bytes <= limits.maxBytes)
  }

  /** What the ledger keeps even when an invalidation cuts off a running execution. */
  ghost predicate LedgerInv(w: World) {
    w.limits.Valid() && DbOk(w.limits, w.db) && forall p :: IsBatch(w, p) ==> ResponseFits(w.agents[p].phase, w.limits)
  }

  lemma ClaimKeepsDbOk(w: World, pid: Pid, now: nat)
    requires LedgerInv(w) && Enabled(w, ClaimCommit(pid, now))
    ensures DbOk(w.limits, ClaimStep(w, pid, now).db) && ClaimStep(w, pid, now).limits == w.limits
  {
    ClaimKeepsLedger(w.limits, w.db, w.agents[pid].ClaimInput(), now);
  }

  lemma CompleteKeepsDbOk(w: World, pid: Pid, now: nat)
    requires LedgerInv(w) && Enabled(w, CompleteCommit(pid, now))
    ensures DbOk(w.limits, CompleteStep(w, pid, now).db) && CompleteStep(w, pid, now).limits == w.limits
  {
    assert ResponseFits(w.agents[pid].phase, w.limits);
    CompleteKeepsLedger(w.limits, w.db, w.agents[pid].CompleteInput(), w.agents[pid].phase.response, now);
  }

  lemma StepKeepsDbOk(w: World, a: Action)
    requires LedgerInv(w) && Enabled(w, a)
    ensures DbOk(w.limits, Step(w, a).db) && Step(w, a).limits == w.limits
  {
    GateKeepsLedger(w.limits, w.db);
    match a
    case ClaimCommit(pid, now) => ClaimKeepsDbOk(w, pid, now);
    case CompleteCommit(pid, now) => CompleteKeepsDbOk(w, pid, now);
    case AbandonCommit(pid) => AbandonKeepsLedger(w.limits, w.db, w.agents[pid].ClaimInput());
    case _ =>
  }

  lemma StepKeepsResponse(w: World, a: Action, p: Pid)
    requires LedgerInv(w) && Enabled(w, a) && IsBatch(Step(w, a), p)
    ensures ResponseFits(Step(w, a).agents[p].phase, w.limits)
  {
    if IsBatch(w, p) { assert ResponseFits(w.agents[p].phase, w.limits); }
  }

  lemma StepKeepsLedgerInv(w: World, a: Action)
    requires LedgerInv(w) && Enabled(w, a)
    ensures LedgerInv(Step(w, a)) && Step(w, a).limits == w.limits
  {
    StepKeepsDbOk(w, a);
    forall p | IsBatch(Step(w, a), p) ensures ResponseFits(Step(w, a).agents[p].phase, w.limits) {
      StepKeepsResponse(w, a, p);
    }
  }

  /**
   * In every reachable state of every run the capacity limits hold, every row carries the current
   * generation, and the database flag implies that no claim is in progress.
   */
  lemma {:induction false} LedgerHoldsInEveryRun(worlds: seq<World>, actions: seq<Action>, n: nat)
    requires Run(worlds, actions) && n < |worlds|
    ensures LedgerInv(worlds[n])
    ensures WithinCapacity(worlds[n].limits, worlds[n].db.rows)
    ensures forall id :: id in worlds[n].db.rows ==> worlds[n].db.rows[id].generation == worlds[n].db.generation
    ensures worlds[n].db.restorePending ==> Quiet(worlds[n].db)
  {
    if n == 0 {
      EmptyWithinCapacity(worlds[0].limits);
    } else {
      LedgerHoldsInEveryRun(worlds, actions, n - 1);
      assert Enabled(worlds[n - 1], actions[n - 1]) && worlds[n - 1 + 1] == Step(worlds[n - 1], actions[n - 1]);
      StepKeepsLedgerInv(worlds[n - 1], actions[n - 1]);
    }
  }

  lemma FlaggedStepLeavesLedger(w: World, a: Action)
    requires LedgerInv(w) && Enabled(w, a) && w.db.restorePending
    requires !a.InvalidateCommit? && !a.RevertCommit?
    ensures Step(w, a).db == w.db
  {
    match a
    case ClaimCommit(pid, now) =>
      FlagRefusesEverything(w.limits, w.db, w.agents[pid].ClaimInput(), Serialized(Summarize(Store, []), 0), now);
    case CompleteCommit(pid, now) =>
      FlagRefusesEverything(w.limits, w.db, w.agents[pid].CompleteInput(), w.agents[pid].phase.response, now);
    case AbandonCommit(pid) =>
      FlagRefusesEverything(w.limits, w.db, w.agents[pid].ClaimInput(), Serialized(Summarize(Store, []), 0), 0);
    case _ =>
  }

  /**
   * No `beginRestore` is between setting the flag and being done with the marker: nobody is left to revert
   * the flag.
   */
  ghost predicate NoneMayRevert(w: World) {
    forall p :: p in w.agents ==> !InGate(w, p, MarkerReady) && !InGate(w, p, RevertReady)
  }

  /** Nobody can come to that point while the flag is set. */
  lemma GatedStepKeepsGate(w: World, a: Action)
    requires LedgerInv(w) && Enabled(w, a) && w.db.restorePending && NoneMayRevert(w) && !a.InvalidateCommit?
    ensures Step(w, a).db == w.db && LedgerInv(Step(w, a)) && NoneMayRevert(Step(w, a))
  {
    FlaggedStepLeavesLedger(w, a);
    StepKeepsLedgerInv(w, a);
  }

  /**
   * Gate exclusion: once the flag is set and no `beginRestore` is left that may revert it, no claim,
   * completion or release changes the ledger until an invalidation commits, whoever crashes and whether or
   * not the marker file is there.
   */
  lemma {:induction false} ShutGateFreezesLedger(worlds: seq<World>, actions: seq<Action>, from: nat, to: nat)
    requires Run(worlds, actions) && from <= to < |worlds|
    requires worlds[from].db.restorePending && NoneMayRevert(worlds[from])
    requires forall i :: from <= i < to ==> !actions[i].InvalidateCommit?
    ensures worlds[to].db == worlds[from].db && Quiet(worlds[to].db)
    decreases |worlds| - from
  {
    LedgerHoldsInEveryRun(worlds, actions, from);
    if from < to {
      assert Enabled(worlds[from], actions[from]) && worlds[from + 1] == Step(worlds[from], actions[from]);
      GatedStepKeepsGate(worlds[from], actions[from]);
      ShutGateFreezesLedger(worlds, actions, from + 1, to);
    }
  }

  /** The ledger also stands still between any commit of `beginRestore` and the next invalidation or revert. */
  lemma {:induction false} UnrevertedGateFreezesLedger(worlds: seq<World>, actions: seq<Action>, from: nat, to: nat)
    requires Run(worlds, actions) && from <= to < |worlds|
    requires worlds[from].db.restorePending
    requires forall i :: from <= i < to ==> !actions[i].InvalidateCommit? && !actions[i].RevertCommit?
    ensures worlds[to].db == worlds[from].db && Quiet(worlds[to].db)
    decreases |worlds| - from
  {
    LedgerHoldsInEveryRun(worlds, actions, from);
    if from < to {
      assert Enabled(worlds[from], actions[from]) && worlds[from + 1] == Step(worlds[from], actions[from]);
      FlaggedStepLeavesLedger(worlds[from], actions[from]);
      UnrevertedGateFreezesLedger(worlds, actions, from + 1, to);
    }
  }

  /** A ledger without a claim in progress leaves no call under way with one. */
  lemma QuietMeansIdle(w: World)
    requires Inv(w) && Quiet(w.db)
    ensures Idle(w)
  {
    forall p | IsBatch(w, p) ensures !MayAct(w.limits, w.agents[p]) { assert AgentOk(w, p); }
  }

  /** What the database alone can tell is enough: invalidations of a quiet ledger are covered by the results above. */
  lemma {:induction false} QuietInvalidationsAreIdle(worlds: seq<World>, actions: seq<Action>, n: nat)
    requires Run(worlds, actions) && n < |worlds|
    requires forall i :: 0 <= i < n && actions[i].InvalidateCommit? ==> Quiet(worlds[i].db)
    ensures IdleInvalidations(worlds, actions, n)
  {
    if n > 0 {
      QuietInvalidationsAreIdle(worlds, actions, n - 1);
      RunKeepsInv(worlds, actions, n - 1);
      if actions[n - 1].InvalidateCommit? { QuietMeansIdle(worlds[n - 1]); }
    }
  }

  /** Invalidations that commit behind the database flag are covered too. */
  lemma FlaggedInvalidationsAreIdle(worlds: seq<World>, actions: seq<Action>, n: nat)
    requires Run(worlds, actions) && n < |worlds|
    requires forall i :: 0 <= i < n && actions[i].InvalidateCommit? ==> worlds[i].db.restorePending
    ensures IdleInvalidations(worlds, actions, n)
  {
    forall i | 0 <= i < n && actions[i].InvalidateCommit? ensures Quiet(worlds[i].db) {
      LedgerHoldsInEveryRun(worlds, actions, i);
    }
    QuietInvalidationsAreIdle(worlds, actions, n);
  }
}

/**
 * What an invalidation of the ledger may cut off: exactly when it is safe, and a run through the restore
 * gate in which it is not.
 */
module BatchInvalidation {
  import opened Wrappers
  import opened Batch
  import opened BatchLedger
  import opened BatchProtocol

  // ----- the property -----

  /** No two executions of one key write in the same generation. */
  ghost predicate AtMostOnce(w: World) {
    forall p, q :: IsBatch(w, p) && IsBatch(w, q) && p != q && w.agents[p].RowId() == w.agents[q].RowId() ==>
      w.agents[p].wrote !! w.agents[q].wrote
  }

  /** An execution granted in that generation, for the same key and request, kept this response. */
  ghost predicate Executed(w: World, p: Pid, generation: nat, response: Serialized)
    requires IsBatch(w, p)
  {
    exists e :: IsBatch(w, e) && w.agents[e].grant == Granted(generation, Kept(response))
             && w.agents[e].RowId() == w.agents[p].RowId() && w.agents[e].request == w.agents[p].request
  }

  ghost predicate AnswersExecuted(w: World) {
    forall p, generation, response :: AnsweredWith(w, p, generation, response) ==> Executed(w, p, generation, response)
  }

  ghost predicate Sound(w: World) { AtMostOnce(w) && AnswersExecuted(w) }

  lemma WritesAreDisjoint(w: World, p: Pid, q: Pid)
    requires Inv(w) && IsBatch(w, p) && IsBatch(w, q) && p != q && w.agents[p].RowId() == w.agents[q].RowId()
    ensures w.agents[p].wrote !! w.agents[q].wrote
  {
    assert AgentOk(w, p) && AgentOk(w, q);
    if w.agents[p].grant.Granted? && w.agents[q].grant.Granted? {
      assert SharedKey(w, p, q) <==> w.agents[p].grant.generation == w.agents[q].grant.generation;
    }
  }

  lemma InvIsSound(w: World)
    requires Inv(w)
    ensures Sound(w)
  {
    forall p, q | IsBatch(w, p) && IsBatch(w, q) && p != q && w.agents[p].RowId() == w.agents[q].RowId()
      ensures w.agents[p].wrote !! w.agents[q].wrote
    {
      WritesAreDisjoint(w, p, q);
    }
    forall p, generation, response | AnsweredWith(w, p, generation, response)
      ensures Executed(w, p, generation, response)
    {
      var e := Execution(w, p, generation, response);
    }
  }

  // ----- continuations -----

  /** `actions` lead from one world to another. */
  ghost predicate Leads(from: World, actions: seq<Action>, to: World)
    decreases |actions|
  {
    if actions == [] then from == to
    else Enabled(from, actions[0]) && Leads(Step(from, actions[0]), actions[1..], to)
  }

  lemma {:induction false} LeadsCompose(from: World, first: seq<Action>, mid: World, second: seq<Action>, to: World)
    requires Leads(from, first, mid) && Leads(mid, second, to)
    ensures Leads(from, first + second, to)
    decreases |first|
  {
    if first == [] {
      assert first + second == second;
    } else {
      LeadsCompose(Step(from, first[0]), first[1..], mid, second, to);
      assert (first + second)[1..] == first[1..] + second;
    }
  }

  /** No step invalidates, or sets out to. */
  ghost predicate Calm(actions: seq<Action>) {
    forall i :: 0 <= i < |actions| ==> !actions[i].InvalidateCommit? && !actions[i].StartInvalidate?
  }

  /** Some steps lead there without any invalidation. */
  ghost predicate Reaches(from: World, to: World) {
    exists actions :: Calm(actions) && Leads(from, actions, to)
  }

  lemma Stay(w: World)
    ensures Reaches(w, w)
  {
    assert Calm([]) && Leads(w, [], w);
  }

  lemma Then(from: World, w: World, a: Action)
    requires Reaches(from, w) && Enabled(w, a) && !a.InvalidateCommit? && !a.StartInvalidate?
    ensures Reaches(from, Step(w, a))
  {
    var actions :| Calm(actions) && Leads(from, actions, w);
    assert [a][1..] == [];
    assert Leads(w, [a], Step(w, a));
    LeadsCompose(from, actions, w, [a], Step(w, a));
    assert Calm(actions + [a]);
  }

  /** Every further invalidation finds no call under way with a claim. */
  ghost predicate LeadsIdly(from: World, actions: seq<Action>, to: World)
    decreases |actions|
  {
    if actions == [] then from == to
    else
      && Enabled(from, actions[0]) && (actions[0].InvalidateCommit? ==> Idle(from))
      && LeadsIdly(Step(from, actions[0]), actions[1..], to)
  }

  /** Some steps lead there, with such invalidations only. */
  ghost predicate ReachesIdly(from: World, to: World) { exists actions :: LeadsIdly(from, actions, to) }

  lemma {:induction false} CalmIsIdle(from: World, actions: seq<Action>, to: World)
    requires Calm(actions) && Leads(from, actions, to)
    ensures LeadsIdly(from, actions, to)
    decreases |actions|
  {
    if actions != [] {
      assert forall i :: 0 <= i < |actions| - 1 ==> actions[1..][i] == actions[i + 1];
      CalmIsIdle(Step(from, actions[0]), actions[1..], to);
    }
  }

  lemma {:induction false} IdleStepsKeepInv(from: World, actions: seq<Action>, to: World)
    requires Inv(from) && LeadsIdly(from, actions, to)
    ensures Inv(to)
    decreases |actions|
  {
    if actions != [] {
      StepKeepsInv(from, actions[0]);
      IdleStepsKeepInv(Step(from, actions[0]), actions[1..], to);
    }
  }

  lemma {:induction false} CalmKeepsInv(from: World, actions: seq<Action>, to: World)
    requires Inv(from) && Calm(actions) && Leads(from, actions, to)
    ensures Inv(to)
    decreases |actions|
  {
    CalmIsIdle(from, actions, to);
    IdleStepsKeepInv(from, actions, to);
  }

  // ----- what a call cut off from its claim can still do -----

  lemma {:induction false} UpperBound(pids: set<Pid>) returns (bound: Pid)
    ensures forall p :: p in pids ==> p < bound
  {
    if pids == {} {
      bound := 0;
    } else {
      var p :| p in pids;
      var rest := UpperBound(pids - {p});
      bound := if rest > p then rest else p + 1;
      forall q | q in pids ensures q < bound { assert q == p || q in pids - {p}; }
    }
  }

  /** The gate is open: a batch passes its check and no transaction is refused for it. */
  ghost predicate GateOpen(w: World) { !w.marker && !w.db.restorePending }

  /** Anyone can take the marker away. */
  lemma MarkerGoes(from: World, w: World) returns (v: World)
    requires Reaches(from, w)
    ensures Reaches(from, v) && v.limits == w.limits && v.db == w.db && !v.marker
    ensures forall p :: p in w.agents ==> p in v.agents && v.agents[p] == w.agents[p]
    ensures forall p :: IsBatch(v, p) ==> p in w.agents
  {
    var r := UpperBound(w.agents.Keys);
    Then(from, w, StartComplete(r));
    var w1 := Step(w, StartComplete(r));
    Then(from, w1, MarkerRemoved(r));
    v := Step(w1, MarkerRemoved(r));
  }

  /** The row of `p`'s key is not there, or was released by the operation of `p`. */
  ghost predicate Reclaimable(w: World, p: Pid)
    requires IsBatch(w, p)
  {
    var agent := w.agents[p];
    && GateOpen(w) && Keyed(agent.request) && ValidInput(agent.ClaimInput())
    && forall now :: ClaimTx(w.limits, w.db, agent.ClaimInput(), now).1 == Ok(Fresh)
  }

  /** A new call with the key and the request of `p`, at a phase of its own. */
  ghost function Twin(w: World, p: Pid, phase: Phase, grant: Grant, wrote: set<nat>): Agent
    requires IsBatch(w, p)
  {
    w.agents[p].(phase := phase, grant := grant, wrote := wrote)
  }

  lemma TwinReady(from: World, w: World, p: Pid) returns (v: World, r: Pid)
    requires Reaches(from, w) && IsBatch(w, p) && GateOpen(w) && Keyed(w.agents[p].request)
    ensures r !in w.agents && v == w.(agents := w.agents[r := Twin(w, p, ClaimReady, NoGrant, {})]) && Reaches(from, v)
  {
    r := UpperBound(w.agents.Keys);
    var agent := w.agents[p];
    var start := StartBatch(r, agent.scope, agent.key, agent.request);
    Then(from, w, start);
    var w1 := Step(w, start);
    Then(from, w1, CheckGate(r));
    v := Step(w1, CheckGate(r));
    assert v.agents == w.agents[r := Twin(w, p, ClaimReady, NoGrant, {})];
  }

  lemma ClaimLeavesGate(limits: Limits, db: Db, input: Input, now: nat)
    ensures var next := ClaimTx(limits, db, input, now).0;
            next.generation == db.generation && next.restorePending == db.restorePending
  {
  }

  /** A second call claims the key of `p`, and writes. */
  lemma TwinWrites(from: World, w: World, p: Pid) returns (v: World, r: Pid)
    requires Reaches(from, w) && IsBatch(w, p) && Reclaimable(w, p)
    ensures Reaches(from, v) && r !in w.agents && v.limits == w.limits && v.marker == w.marker
    ensures v.db == ClaimTx(w.limits, w.db, w.agents[p].ClaimInput(), 0).0
    ensures var twin := Twin(w, p, Executing([Succeeded("")]), Granted(w.db.generation, Open), {w.db.generation});
            v.agents == w.agents[r := twin]
  {
    var w1;
    w1, r := TwinReady(from, w, p);
    assert w1.agents[r].ClaimInput() == w.agents[p].ClaimInput();
    Then(from, w1, ClaimCommit(r, 0));
    var w2 := Step(w1, ClaimCommit(r, 0));
    assert w2.agents[r] == Twin(w, p, Executing([]), Granted(w.db.generation, Open), {});
    ClaimLeavesGate(w.limits, w.db, w.agents[p].ClaimInput(), 0);
    Then(from, w2, ExecuteItem(r, Succeeded(""), true));
    v := Step(w2, ExecuteItem(r, Succeeded(""), true));
    var none: seq<Outcome>, never: set<nat> := [], {};
    assert none + [Succeeded("")] == [Succeeded("")] && never + {w.db.generation} == {w.db.generation};
    var twin := Twin(w, p, Executing([Succeeded("")]), Granted(w.db.generation, Open), {w.db.generation});
    assert v.agents == w.agents[r := twin];
  }

  /** After an invalidation every key is free. */
  lemma EmptyLedgerGrants(w: World, p: Pid)
    requires w.limits.Valid() && w.db.rows == map[] && GateOpen(w)
    requires IsBatch(w, p) && Keyed(w.agents[p].request) && ValidInput(w.agents[p].ClaimInput())
    ensures Reclaimable(w, p)
  {
    var none: map<Id, Row> := map[];
    assert EntryCount(none) == 0 && TotalBytes(none) == 0 && ScopeCount(none, w.agents[p].scope) == 0;
  }

  lemma BothWrote(w: World, p: Pid, q: Pid, generation: nat)
    requires IsBatch(w, p) && IsBatch(w, q) && p != q && w.agents[p].RowId() == w.agents[q].RowId()
    requires generation in w.agents[p].wrote && generation in w.agents[q].wrote
    ensures !AtMostOnce(w)
  {
  }

  /** A call with an item left writes in the new generation, and so does a retry. */
  lemma ItemLeftWritesAgain(from: World, w: World, p: Pid) returns (v: World)
    requires Reaches(from, w) && IsBatch(w, p) && Reclaimable(w, p)
    requires w.agents[p].phase.Executing? && |w.agents[p].phase.results| < w.agents[p].request.items
    ensures Reaches(from, v) && !AtMostOnce(v)
  {
    var w1, r := TwinWrites(from, w, p);
    ClaimLeavesGate(w.limits, w.db, w.agents[p].ClaimInput(), 0);
    Then(from, w1, ExecuteItem(p, Succeeded(""), true));
    v := Step(w1, ExecuteItem(p, Succeeded(""), true));
    BothWrote(v, p, r, w.db.generation);
  }

  lemma ReleasedIsReclaimable(w: World, w1: World, w2: World, p: Pid)
    requires w.limits.Valid() && w.db.rows == map[] && GateOpen(w) && IsBatch(w, p) && Reclaimable(w, p)
    requires w1.limits == w.limits && w1.marker == w.marker
    requires w1.db == ClaimTx(w.limits, w.db, w.agents[p].ClaimInput(), 0).0
    requires IsBatch(w1, p) && w1.agents[p] == w.agents[p] && w2 == AbandonStep(w1, p)
    ensures IsBatch(w2, p) && w2.agents[p].ClaimInput() == w.agents[p].ClaimInput()
    ensures w2.db.generation == w.db.generation && w2.limits == w.limits && w2.marker == w.marker
    ensures Reclaimable(w2, p)
  {
    var input := w.agents[p].ClaimInput();
    EmptyWithinCapacity(w.limits);
    forall now ensures ClaimTx(w2.limits, w2.db, input, now).1 == Ok(Fresh) {
      ReleaseUndoesClaim(w.limits, w.db, input, 0, input, now);
    }
  }

  /** A stale release frees the key under the call that holds it now, and a third one writes. */
  lemma StaleReleaseAdmitsAnother(from: World, w: World, p: Pid) returns (v: World)
    requires Reaches(from, w) && IsBatch(w, p) && Reclaimable(w, p) && w.agents[p].phase.AbandonReady?
    requires w.db.rows == map[] && w.limits.Valid()
    ensures Reaches(from, v) && !AtMostOnce(v)
  {
    var w1, r := TwinWrites(from, w, p);
    var input := w.agents[p].ClaimInput();
    Then(from, w1, AbandonCommit(p));
    var w2 := Step(w1, AbandonCommit(p));
    ReleasedIsReclaimable(w, w1, w2, p);
    var s;
    v, s := TwinWrites(from, w2, p);
    assert w2.db.generation == w.db.generation;
    BothWrote(v, r, s, w.db.generation);
  }

  /** A stale completion settles the claim of the call that holds the key now. */
  lemma StaleCompletionSettles(from: World, w: World, p: Pid) returns (v: World, r: Pid)
    requires Reaches(from, w) && IsBatch(w, p) && Reclaimable(w, p) && w.agents[p].phase.CompleteReady?
    requires w.db.rows == map[]
    ensures Reaches(from, v) && r !in w.agents && GateOpen(v) && v.db.generation == w.db.generation
    ensures v.agents.Keys == w.agents.Keys + {r} && forall q :: q in w.agents && q != p ==> v.agents[q] == w.agents[q]
    ensures IsBatch(v, r) && v.agents[r].grant == Granted(w.db.generation, Open)
    ensures IsBatch(v, p) && v.agents[p].ClaimInput() == w.agents[p].ClaimInput()
    ensures v.agents[p].request == w.agents[p].request
    ensures v.agents[p].grant.Granted? ==>
              w.agents[p].grant.Granted? && v.agents[p].grant.generation == w.agents[p].grant.generation
    ensures ClaimTx(v.limits, v.db, v.agents[p].ClaimInput(), 0) == (v.db, Ok(Replay(w.agents[p].phase.response)))
  {
    var w1;
    w1, r := TwinWrites(from, w, p);
    Then(from, w1, CompleteCommit(p, 0));
    v := Step(w1, CompleteCommit(p, 0));
  }

  lemma ReplayIsAnswered(from: World, w: World, p: Pid, response: Serialized) returns (v: World, s: Pid)
    requires Reaches(from, w) && IsBatch(w, p) && GateOpen(w) && Keyed(w.agents[p].request)
    requires ValidInput(w.agents[p].ClaimInput())
    requires ClaimTx(w.limits, w.db, w.agents[p].ClaimInput(), 0) == (w.db, Ok(Replay(response)))
    requires IsBatchResult(response.value, w.agents[p].request.operation, w.agents[p].request.items)
    ensures Reaches(from, v) && s !in w.agents && AnsweredWith(v, s, w.db.generation, response)
    ensures v.agents == w.agents[s := Twin(w, p, Ended(Ending.Replayed(w.db.generation, response)), NoGrant, {})]
  {
    var w1;
    w1, s := TwinReady(from, w, p);
    assert w1.agents[s].ClaimInput() == w.agents[p].ClaimInput();
    Then(from, w1, ClaimCommit(s, 0));
    var w2 := Step(w1, ClaimCommit(s, 0));
    assert w2.agents[s].phase == ReplayCheck(w.db.generation, response);
    Then(from, w2, FinishReplay(s, true));
    v := Step(w2, FinishReplay(s, true));
    assert v.agents == w.agents[s := Twin(w, p, Ended(Ending.Replayed(w.db.generation, response)), NoGrant, {})];
  }

  /** A stale completion answers for the call that holds the key now: a replay repeats what nobody executed. */
  lemma StaleCompletionIsReplayed(from: World, w: World, p: Pid) returns (v: World)
    requires Reaches(from, w) && IsBatch(w, p) && Reclaimable(w, p) && w.agents[p].phase.CompleteReady?
    requires w.db.rows == map[]
    requires IsBatchResult(w.agents[p].phase.response.value, w.agents[p].request.operation, w.agents[p].request.items)
    requires forall q :: IsBatch(w, q) && w.agents[q].grant.Granted? ==> w.agents[q].grant.generation < w.db.generation
    ensures Reaches(from, v) && !AnswersExecuted(v)
  {
    var response := w.agents[p].phase.response;
    var w1, r := StaleCompletionSettles(from, w, p);
    var s;
    v, s := ReplayIsAnswered(from, w1, p, response);
    forall e | IsBatch(v, e) ensures v.agents[e].grant != Granted(w.db.generation, Kept(response)) {
      if e != p && e != r && e != s { assert v.agents[e] == w.agents[e]; }
    }
  }

  /** The last item is done: the call goes on to release or to complete. */
  lemma ItemsAreDone(from: World, w: World, p: Pid) returns (v: World)
    requires Reaches(from, w) && IsBatch(w, p) && w.agents[p].phase.Executing? && MayAct(w.limits, w.agents[p])
    requires |w.agents[p].phase.results| == w.agents[p].request.items
    ensures Reaches(from, v) && IsBatch(v, p) && v == MoveTo(w, p, v.agents[p].phase)
    ensures v.agents[p].phase.AbandonCheck? || v.agents[p].phase.CompleteCheck?
    ensures v.agents[p].phase.CompleteCheck? ==>
              IsBatchResult(v.agents[p].phase.response.value, v.agents[p].request.operation, v.agents[p].request.items)
  {
    Then(from, w, FinishExecution(p, 0));
    v := Step(w, FinishExecution(p, 0));
  }

  /** The phase behind an open gate. */
  function PastGate(phase: Phase): Phase { GatedPhase(phase, false) }

  lemma GateIsPassed(from: World, w: World, p: Pid) returns (v: World)
    requires Reaches(from, w) && IsBatch(w, p) && GateOpen(w)
    requires w.agents[p].phase.AbandonCheck? || w.agents[p].phase.CompleteCheck?
    ensures Reaches(from, v) && v == MoveTo(w, p, PastGate(w.agents[p].phase))
  {
    Then(from, w, CheckGate(p));
    v := Step(w, CheckGate(p));
  }

  /** A call whose items are done goes on to release or to complete. */
  lemma ComesToSettle(from: World, w: World, p: Pid) returns (v: World)
    requires Reaches(from, w) && IsBatch(w, p) && GateOpen(w)
    requires PhaseOk(w, w.agents[p].(grant := Granted(w.db.generation, Open)))
    requires MayAct(w.limits, w.agents[p])
    requires w.agents[p].phase.Executing? ==> |w.agents[p].phase.results| == w.agents[p].request.items
    ensures Reaches(from, v) && IsBatch(v, p) && v == MoveTo(w, p, v.agents[p].phase)
    ensures v.agents[p].phase.AbandonReady? || v.agents[p].phase.CompleteReady?
    ensures v.agents[p].phase.CompleteReady? ==>
              IsBatchResult(v.agents[p].phase.response.value, v.agents[p].request.operation, v.agents[p].request.items)
  {
    v := w;
    assert w.agents == w.agents[p := w.agents[p]];
    if v.agents[p].phase.Executing? { v := ItemsAreDone(from, v, p); }
    ghost var mid := v;
    if v.agents[p].phase.AbandonCheck? || v.agents[p].phase.CompleteCheck? { v := GateIsPassed(from, v, p); }
    assert mid.agents == w.agents[p := mid.agents[p]] && v.agents == w.agents[p := v.agents[p]];
  }

  /** After the invalidation and without the marker the key of a cut-off call is free. */
  lemma CutOff(w: World, pid: Pid, p: Pid) returns (v: World)
    requires Inv(w) && InGate(w, pid, InvalidateReady) && w.db.generation < MAX_SAFE_INTEGER
    requires IsBatch(w, p) && MayAct(w.limits, w.agents[p])
    ensures Reaches(InvalidateStep(w, pid), v) && v.limits == w.limits && v.db == Db(map[], w.db.generation + 1, false)
    ensures IsBatch(v, p) && v.agents[p] == w.agents[p] && Reclaimable(v, p)
    ensures forall q :: IsBatch(v, q) && v.agents[q].grant.Granted? ==> v.agents[q].grant.generation < v.db.generation
  {
    var cut := InvalidateStep(w, pid);
    Stay(cut);
    v := MarkerGoes(cut, cut);
    assert AgentOk(w, p);
    EmptyLedgerGrants(v, p);
    forall q | IsBatch(v, q) && v.agents[q].grant.Granted? ensures v.agents[q].grant.generation < v.db.generation {
      assert q in cut.agents && v.agents[q] == cut.agents[q] == w.agents[q];
      assert AgentOk(w, q);
    }
  }

  /** A call with an item left, cut off from its claim: the key can be written twice in the new generation. */
  lemma CutOffItemWrites(w: World, pid: Pid, p: Pid) returns (v: World)
    requires Inv(w) && InGate(w, pid, InvalidateReady) && w.db.generation < MAX_SAFE_INTEGER
    requires IsBatch(w, p) && w.agents[p].phase.Executing? && |w.agents[p].phase.results| < w.agents[p].request.items
    ensures Reaches(InvalidateStep(w, pid), v) && !AtMostOnce(v)
  {
    var w1 := CutOff(w, pid, p);
    v := ItemLeftWritesAgain(InvalidateStep(w, pid), w1, p);
  }

  lemma StaleSettles(from: World, w: World, ready: World, p: Pid) returns (v: World)
    requires Reaches(from, ready) && IsBatch(w, p) && Reclaimable(w, p) && w.limits.Valid() && w.db.rows == map[]
    requires IsBatch(ready, p) && ready == MoveTo(w, p, ready.agents[p].phase)
    requires ready.agents[p].phase.AbandonReady? || ready.agents[p].phase.CompleteReady?
    requires ready.agents[p].phase.CompleteReady? ==>
               IsBatchResult(ready.agents[p].phase.response.value, ready.agents[p].request.operation,
                 ready.agents[p].request.items)
    requires forall q :: IsBatch(w, q) && w.agents[q].grant.Granted? ==> w.agents[q].grant.generation < w.db.generation
    ensures Reaches(from, v) && !Sound(v)
  {
    assert ready.agents[p].ClaimInput() == w.agents[p].ClaimInput();
    assert Reclaimable(ready, p);
    if ready.agents[p].phase.AbandonReady? {
      v := StaleReleaseAdmitsAnother(from, ready, p);
    } else {
      v := StaleCompletionIsReplayed(from, ready, p);
    }
  }

  lemma CutOffIsUnsound(w: World, pid: Pid, p: Pid) returns (v: World)
    requires Inv(w) && InGate(w, pid, InvalidateReady) && w.db.generation < MAX_SAFE_INTEGER
    requires IsBatch(w, p) && MayAct(w.limits, w.agents[p])
    ensures Reaches(InvalidateStep(w, pid), v) && !Sound(v)
  {
    assert AgentOk(w, p);
    if w.agents[p].phase.Executing? && |w.agents[p].phase.results| < w.agents[p].request.items {
      v := CutOffItemWrites(w, pid, p);
    } else {
      var from := InvalidateStep(w, pid);
      var w1 := CutOff(w, pid, p);
      var w2 := ComesToSettle(from, w1, p);
      v := StaleSettles(from, w1, w2, p);
    }
  }

  /**
   * Exactly when an invalidation is safe: whatever happens afterwards, further invalidations that are safe
   * themselves included, keeps at most once and the agreement of the answers, if and only if no call is
   * under way with a claim that it can still write or settle under. Claims of crashed calls, and of calls
   * that gave up, may be invalidated.
   */
  lemma InvalidationSafeIffIdle(w: World, pid: Pid)
    requires Inv(w) && InGate(w, pid, InvalidateReady) && w.db.generation < MAX_SAFE_INTEGER
    ensures (forall v :: ReachesIdly(InvalidateStep(w, pid), v) ==> Sound(v)) <==> Idle(w)
  {
    if Idle(w) {
      InvalidateKeepsInv(w, pid);
      forall v | ReachesIdly(InvalidateStep(w, pid), v) ensures Sound(v) {
        var actions :| LeadsIdly(InvalidateStep(w, pid), actions, v);
        IdleStepsKeepInv(InvalidateStep(w, pid), actions, v);
        InvIsSound(v);
      }
    } else {
      var p :| IsBatch(w, p) && MayAct(w.limits, w.agents[p]);
      var v := CutOffIsUnsound(w, pid, p);
      var actions :| Calm(actions) && Leads(InvalidateStep(w, pid), actions, v);
      CalmIsIdle(InvalidateStep(w, pid), actions, v);
    }
  }

  // ----- the gate that is only a marker -----

  const DEMO_LIMITS := Limits(1024, 10, 10, 4096)

  function DemoScope(): (s: string)
    ensures IsHexDigest(s)
  {
    seq(64, _ => '0')
  }

  const DEMO_REQUEST := Request(Store, 1, "body")

  ghost function DemoStart(): World { World(DEMO_LIMITS, Db(map[], 1, false), false, map[]) }

  lemma Next(from: World, w: World, a: Action) returns (v: World)
    requires Reaches(from, w) && Enabled(w, a) && !a.InvalidateCommit? && !a.StartInvalidate?
    ensures Reaches(from, v) && v == Step(w, a)
  {
    Then(from, w, a);
    v := Step(w, a);
  }

  lemma BatchPassesGate() returns (w: World)
    ensures Reaches(DemoStart(), w)
    ensures w == DemoStart().(agents := map[0 := BatchCall(DemoScope(), "key", DEMO_REQUEST, ClaimReady, NoGrant, {})])
  {
    var start := DemoStart();
    Stay(start);
    w := Next(start, start, StartBatch(0, DemoScope(), "key", DEMO_REQUEST));
    w := Next(start, w, CheckGate(0));
    assert w.agents == map[0 := BatchCall(DemoScope(), "key", DEMO_REQUEST, ClaimReady, NoGrant, {})];
  }

  lemma RestoreBegins() returns (w: World)
    ensures Reaches(DemoStart(), w) && InGate(w, 1, MarkerReady) && 2 !in w.agents && 3 !in w.agents
    ensures w.db == DemoStart().db.(restorePending := true) && w.limits == DEMO_LIMITS && !w.marker
    ensures IsBatch(w, 0) && w.agents[0] == BatchCall(DemoScope(), "key", DEMO_REQUEST, ClaimReady, NoGrant, {})
  {
    var start := DemoStart();
    w := BatchPassesGate();
    w := Next(start, w, StartBegin(1));
    w := Next(start, w, BeginCommit(1));
  }

  /**
   * A batch passes its gate check; `beginRestore` sets the flag, its marker write fails after creating
   * the file, and the flag is reverted: the gate is now a marker without a flag.
   */
  lemma FailedBeginLeavesMarker() returns (w: World)
    ensures Reaches(DemoStart(), w) && w.db == DemoStart().db && w.limits == DEMO_LIMITS && w.marker && 2 !in w.agents
    ensures IsBatch(w, 0) && w.agents[0] == BatchCall(DemoScope(), "key", DEMO_REQUEST, ClaimReady, NoGrant, {})
  {
    var start := DemoStart();
    w := RestoreBegins();
    w := Next(start, w, Action.MarkerFailed(1, true));
    w := Next(start, w, RevertCommit(1));
  }

  /** The batch claims behind the marker, and `completeRestore` is about to invalidate. */
  lemma ClaimBehindMarker() returns (w: World)
    ensures Reaches(DemoStart(), w) && InGate(w, 2, InvalidateReady) && w.db.generation == 1
    ensures IsBatch(w, 0) && w.agents[0].phase == Executing([]) && w.agents[0].request.items == 1
  {
    var start := DemoStart();
    w := FailedBeginLeavesMarker();
    EmptyLedgerGrants(w.(marker := false), 0);
    w := Next(start, w, ClaimCommit(0, 0));
    w := Next(start, w, StartComplete(2));
    w := Next(start, w, MarkerRemoved(2));
  }

  lemma {:induction false} LeadsIsRun(before: seq<World>, done: seq<Action>, rest: seq<Action>, to: World)
    requires Run(before, done) && Leads(before[|done|], rest, to)
    ensures exists worlds :: Run(worlds, done + rest) && worlds[|done + rest|] == to
    decreases |rest|
  {
    if rest == [] {
      assert done + rest == done;
    } else {
      var next := Step(before[|done|], rest[0]);
      var worlds, actions := before + [next], done + [rest[0]];
      assert Run(worlds, actions) by {
        forall i | 0 <= i < |actions|
          ensures Enabled(worlds[i], actions[i]) && worlds[i + 1] == Step(worlds[i], actions[i])
        {
          if i < |done| { assert worlds[i] == before[i] && worlds[i + 1] == before[i + 1]; }
        }
      }
      LeadsIsRun(worlds, actions, rest[1..], to);
      assert actions + rest[1..] == done + rest;
    }
  }

  ghost predicate NoBareInvalidate(actions: seq<Action>) {
    forall i :: 0 <= i < |actions| ==> !actions[i].StartInvalidate?
  }

  /** A run up to one invalidation and on from there. */
  lemma RunThrough(start: World, w: World, pid: Pid, to: World)
    requires Init(start) && Reaches(start, w) && Enabled(w, InvalidateCommit(pid))
    requires Reaches(Step(w, InvalidateCommit(pid)), to)
    ensures exists worlds, actions :: Run(worlds, actions) && worlds[|actions|] == to && NoBareInvalidate(actions)
  {
    var a := InvalidateCommit(pid);
    var first :| Calm(first) && Leads(start, first, w);
    var last :| Calm(last) && Leads(Step(w, a), last, to);
    assert ([a] + last)[1..] == last;
    assert Leads(w, [a] + last, to);
    LeadsCompose(start, first, w, [a] + last, to);
    LeadsIsRun([start], [], first + ([a] + last), to);
    assert [] + (first + ([a] + last)) == first + ([a] + last);
    assert NoBareInvalidate(first + ([a] + last));
  }

  /**
   * `completeRestore` does not ask for the database flag. After a `beginRestore` whose marker write
   * failed halfway it drops a claim in progress, and one key is then written by two executions, though
   * no bare invalidation ever ran.
   */
  lemma MarkerOnlyGateAdmitsSecondWrite()
    ensures exists worlds, actions ::
              Run(worlds, actions) && !AtMostOnce(worlds[|actions|]) && NoBareInvalidate(actions)
  {
    var start := DemoStart();
    var w := ClaimBehindMarker();
    EmptyWithinCapacity(start.limits);
    var before :| Calm(before) && Leads(start, before, w);
    CalmKeepsInv(start, before, w);
    var v := CutOffItemWrites(w, 2, 0);
    RunThrough(start, w, 2, v);
  }
}

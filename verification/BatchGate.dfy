/**
 * How long the restore gate stays shut. A gate has no owner: whoever is left to revert the flag opens it,
 * and exactly then it can open before an invalidation.
 */
module BatchGate {
  import opened BatchLedger
  import opened BatchProtocol
  import opened BatchInvalidation

  ghost predicate Uninvalidated(actions: seq<Action>) {
    forall i :: 0 <= i < |actions| ==> !actions[i].InvalidateCommit?
  }

  /** Some steps lead there, and no invalidation commits on the way. */
  ghost predicate Continues(from: World, to: World) {
    exists actions :: Uninvalidated(actions) && Leads(from, actions, to)
  }

  lemma {:induction false} GateHolds(w: World, actions: seq<Action>, v: World)
    requires LedgerInv(w) && w.db.restorePending && NoneMayRevert(w) && Uninvalidated(actions) && Leads(w, actions, v)
    ensures v.db == w.db
    decreases |actions|
  {
    if actions != [] {
      GatedStepKeepsGate(w, actions[0]);
      assert forall i :: 0 <= i < |actions| - 1 ==> actions[1..][i] == actions[i + 1];
      GateHolds(Step(w, actions[0]), actions[1..], v);
    }
  }

  /** A `beginRestore` that is not done yet can still fail to write the marker, and reverts the flag. */
  lemma PendingRevertOpens(w: World, p: Pid) returns (v: World)
    requires w.db.restorePending && (InGate(w, p, MarkerReady) || InGate(w, p, RevertReady))
    ensures Reaches(w, v) && v.db == w.db.(restorePending := false) && !v.marker
  {
    Stay(w);
    var w1 := MarkerGoes(w, w);
    if InGate(w, p, MarkerReady) {
      var w2 := Next(w, w1, Action.MarkerFailed(p, false));
      v := Next(w, w2, RevertCommit(p));
    } else {
      v := Next(w, w1, RevertCommit(p));
    }
  }

  /**
   * Exactly how long a gate stays shut: until an invalidation commits, whatever else happens, if and only if
   * no `beginRestore` is left that may revert the flag. While one is left, the gate can open before.
   */
  lemma GateHoldsIffNoneMayRevert(w: World)
    requires LedgerInv(w) && w.db.restorePending
    ensures (forall v :: Continues(w, v) ==> v.db == w.db) <==> NoneMayRevert(w)
  {
    if NoneMayRevert(w) {
      forall v | Continues(w, v) ensures v.db == w.db {
        var actions :| Uninvalidated(actions) && Leads(w, actions, v);
        GateHolds(w, actions, v);
      }
    } else {
      var p :| p in w.agents && (InGate(w, p, MarkerReady) || InGate(w, p, RevertReady));
      var v := PendingRevertOpens(w, p);
      var actions :| Calm(actions) && Leads(w, actions, v);
      assert Uninvalidated(actions);
    }
  }

  // ----- a gate that another call opens -----

  /** A world that some run comes to. */
  ghost predicate Arises(w: World) {
    exists worlds, actions :: Run(worlds, actions) && worlds[|actions|] == w
  }

  /** One `beginRestore` set the flag and cannot write its marker; before it reverts, a restore is completed. */
  lemma RevertIsDelayed() returns (w: World)
    ensures Reaches(DemoStart(), w) && InGate(w, 2, InvalidateReady) && InGate(w, 1, RevertReady) && !w.marker
    ensures w.db == DemoStart().db.(restorePending := true) && w.limits == DEMO_LIMITS && 3 !in w.agents
    ensures IsBatch(w, 0) && w.agents[0] == BatchCall(DemoScope(), "key", DEMO_REQUEST, ClaimReady, NoGrant, {})
  {
    var start := DemoStart();
    w := RestoreBegins();
    w := Next(start, w, Action.MarkerFailed(1, false));
    w := Next(start, w, StartComplete(2));
    w := Next(start, w, MarkerRemoved(2));
  }

  /** A third call then shuts the gate: its `beginRestore` returns with flag and marker in place. */
  lemma GateIsShutAgain(w: World) returns (gated: World)
    requires InGate(w, 2, InvalidateReady) && InGate(w, 1, RevertReady) && !w.marker && 3 !in w.agents
    requires w.db == DemoStart().db.(restorePending := true) && w.limits == DEMO_LIMITS
    requires IsBatch(w, 0) && w.agents[0] == BatchCall(DemoScope(), "key", DEMO_REQUEST, ClaimReady, NoGrant, {})
    ensures Reaches(InvalidateStep(w, 2), gated) && gated.limits == DEMO_LIMITS
    ensures gated.db == Db(map[], 2, true) && gated.marker && InGate(gated, 3, Closed) && InGate(gated, 1, RevertReady)
    ensures IsBatch(gated, 0) && gated.agents[0] == w.agents[0]
  {
    var from := InvalidateStep(w, 2);
    Stay(from);
    gated := Next(from, from, StartBegin(3));
    gated := Next(from, gated, BeginCommit(3));
    gated := Next(from, gated, MarkerWritten(3));
  }

  /** The delayed revert opens the gate under its holder, and a batch that had passed its check claims. */
  lemma RevertAdmitsClaim(gated: World) returns (late: World)
    requires gated.limits == DEMO_LIMITS && gated.db == Db(map[], 2, true) && InGate(gated, 1, RevertReady)
    requires IsBatch(gated, 0)
    requires gated.agents[0] == BatchCall(DemoScope(), "key", DEMO_REQUEST, ClaimReady, NoGrant, {})
    ensures Reaches(gated, late) && !Quiet(late.db) && IsBatch(late, 0) && late.agents[0].phase.Executing?
  {
    Stay(gated);
    var reverted := Next(gated, gated, RevertCommit(1));
    EmptyLedgerGrants(reverted.(marker := false), 0);
    late := Next(gated, reverted, ClaimCommit(0, 0));
    assert late.db.rows[late.agents[0].RowId()].state.InProgress?;
  }

  /**
   * A gate has no owner. A `beginRestore` that returned with flag and marker in place is opened, without
   * any invalidation after it, by the delayed revert of an earlier one, and a claim is granted behind it.
   */
  lemma AnotherRevertOpensGate() returns (gated: World, late: World)
    ensures Arises(gated) && gated.db.restorePending && gated.marker && InGate(gated, 3, Closed)
    ensures Reaches(gated, late) && !Quiet(late.db) && IsBatch(late, 0) && late.agents[0].phase.Executing?
  {
    var w := RevertIsDelayed();
    gated := GateIsShutAgain(w);
    RunThrough(DemoStart(), w, 2, gated);
    late := RevertAdmitsClaim(gated);
  }
}

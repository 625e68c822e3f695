/** How the run of a claimed job may end, whatever other workers, leases and failing calls do meanwhile. */
module WorkerOutcomes {
  import opened Wrappers
  import opened JobLedger
  import opened LeaseProtocol

  /** A renewal of the run is refused by the store, or its call errs. */
  ghost predicate RenewalFails(backend: Backend, w: World, r: nat, action: Action, now: nat)
    requires In(w, r)
  {
    || (action.RenewalErrors? && action.r == r)
    || (action.Renewal? && action.r == r
        && Store(backend, w.jobs, Renew(w.runs[r].id, w.runs[r].owner, action.leaseMs), now).1 != Done(true))
  }

  /** Some renewal of the run fails on the way. */
  ghost predicate SomeRenewalFails(backend: Backend, w: World, r: nat, events: seq<Event>)
    requires In(w, r)
    decreases |events|
  {
    events != [] && Enabled(w, events[0].action) && (
      var next := Next(backend, w, events[0].action, events[0].now);
      || RenewalFails(backend, w, r, events[0].action, events[0].now)
      || (In(next, r) && SomeRenewalFails(backend, next, r, events[1..])))
  }

  /** No step takes a run away or changes whose it is. */
  lemma RunStays(backend: Backend, w: World, r: nat, action: Action, now: nat)
    requires In(w, r) && Enabled(w, action)
    ensures var next := Next(backend, w, action, now);
            && In(next, r) && next.runs[r].id == w.runs[r].id && next.runs[r].owner == w.runs[r].owner
            && (next.runs[r].lostLease <==> w.runs[r].lostLease || RenewalFails(backend, w, r, action, now))
  {
  }

  /** A run knows that it lost its lease exactly when one of its renewals failed. */
  lemma {:induction false} LostExactlyByFailedRenewal(
    backend: Backend, w: World, r: nat, events: seq<Event>, w': World)
    requires In(w, r) && Happens(backend, w, events, w')
    ensures In(w', r) && (w'.runs[r].lostLease <==> w.runs[r].lostLease || SomeRenewalFails(backend, w, r, events))
    decreases |events|
  {
    if events != [] {
      var next := Next(backend, w, events[0].action, events[0].now);
      RunStays(backend, w, r, events[0].action, events[0].now);
      LostExactlyByFailedRenewal(backend, next, r, events[1..], w');
    }
  }

  /** The run is past reporting completion, or will be when its handler is done. */
  predicate Doomed(run: Run) {
    !Reported(run) && !run.phase.Completing? && (run.phase.Handling? ==> run.lostLease)
  }

  lemma DoomedStepStays(backend: Backend, w: World, r: nat, action: Action, now: nat)
    requires In(w, r) && Enabled(w, action) && Doomed(w.runs[r])
    ensures In(Next(backend, w, action, now), r) && Doomed(Next(backend, w, action, now).runs[r])
  {
  }

  lemma {:induction false} DoomedStays(backend: Backend, w: World, r: nat, events: seq<Event>, w': World)
    requires In(w, r) && Doomed(w.runs[r]) && Happens(backend, w, events, w')
    ensures In(w', r) && Doomed(w'.runs[r])
    decreases |events|
  {
    if events != [] {
      DoomedStepStays(backend, w, r, events[0].action, events[0].now);
      DoomedStays(backend, Next(backend, w, events[0].action, events[0].now), r, events[1..], w');
    }
  }

  /** A run that lost its lease while its handler was at work never reports completion. */
  lemma LostLeaseNeverReports(backend: Backend, w: World, r: nat, events: seq<Event>, w': World)
    requires In(w, r) && w.runs[r].phase.Handling? && w.runs[r].lostLease && Happens(backend, w, events, w')
    ensures In(w', r) && !Reported(w'.runs[r])
  {
    DoomedStays(backend, w, r, events, w');
  }

  /**
   * So one refused or failing renewal while the handler is at work is enough, for either store: whatever
   * happens afterwards, the run never reports completion.
   */
  lemma FailedRenewalNeverReports(
    backend: Backend, w: World, r: nat, action: Action, now: nat, events: seq<Event>, w': World)
    requires In(w, r) && w.runs[r].phase.Handling? && Enabled(w, action) && RenewalFails(backend, w, r, action, now)
    requires Happens(backend, Next(backend, w, action, now), events, w')
    ensures In(w', r) && !Reported(w'.runs[r])
  {
    LostLeaseNeverReports(backend, Next(backend, w, action, now), r, events, w');
  }

  /** A run whose handler returned asks for its completion exactly if none of its renewals failed before. */
  lemma ReturnMeans(backend: Backend, w: World, r: nat, events: seq<Event>, w': World, now: nat)
    requires In(w, r) && w.runs[r].phase.Handling? && !w.runs[r].lostLease && Happens(backend, w, events, w')
    requires In(w', r) && w'.runs[r].phase.Handling?
    ensures Next(backend, w', HandlerReturns(r), now).runs[r].phase
         == if SomeRenewalFails(backend, w, r, events) then Settled(LostItsLease) else Completing
  {
    LostExactlyByFailedRenewal(backend, w, r, events, w');
  }

  /** The run is failing for this reason, or has failed for it. */
  predicate FailsAs(run: Run, errorLabel: string, cancelled: bool) {
    || run.phase == Failing(errorLabel, cancelled)
    || run.phase == Settled(if cancelled then WasCancelled else RanAndFailed)
  }

  lemma {:induction false} FailsOn(
    backend: Backend, w: World, r: nat, errorLabel: string, cancelled: bool, events: seq<Event>, w': World)
    requires In(w, r) && FailsAs(w.runs[r], errorLabel, cancelled) && Happens(backend, w, events, w')
    ensures In(w', r) && FailsAs(w'.runs[r], errorLabel, cancelled)
    decreases |events|
  {
    if events != [] {
      var next := Next(backend, w, events[0].action, events[0].now);
      assert In(next, r) && FailsAs(next.runs[r], errorLabel, cancelled);
      FailsOn(backend, next, r, errorLabel, cancelled, events[1..], w');
    }
  }

  /**
   * How a run ends that throws, in its handler or in its completing call: cancelled if its lease had been
   * lost by then, failed otherwise. An unreadable payload ends failed in any case.
   */
  lemma ThrowMeans(
    backend: Backend, w: World, r: nat, action: Action, now: nat, events: seq<Event>, w': World)
    requires Enabled(w, action) && Happens(backend, Next(backend, w, action, now), events, w')
    requires (action.HandlerThrows? || action.CompleteErrors? || action.PayloadIsInvalid?) && action.r == r
    ensures In(w, r) && In(w', r)
    ensures w'.runs[r].phase.Settled? ==>
              w'.runs[r].phase.outcome
              == if w.runs[r].lostLease && !action.PayloadIsInvalid? then WasCancelled else RanAndFailed
  {
    var next := Next(backend, w, action, now);
    var errorLabel := if action.PayloadIsInvalid? then "INVALID_PAYLOAD" else action.errorLabel;
    FailsOn(backend, next, r, errorLabel, w.runs[r].lostLease && !action.PayloadIsInvalid?, events, w');
  }

  /** The job is on record as failed for this reason, for another attempt at once or for good. */
  predicate GivenBack(before: Job, after: Job, errorLabel: string, now: nat) {
    && after.leaseOwner.None? && after.lastError == Some(errorLabel) && after.attempt == before.attempt
    && if before.attempt < before.maxAttempts then
         after.state.Retrying? && (after.runAfter.None? || after.runAfter.value <= now)
       else after.state.Failed? && after.completedAt == Some(now)
  }

  /** The run's job is given back if it is still the run's, and no other job changes. */
  ghost predicate OnlyGivesBack(w: World, w': World, r: nat, errorLabel: string, now: nat)
    requires In(w, r)
  {
    var id := w.runs[r].id;
    if OwnedBy(w.jobs, id, w.runs[r].owner) then
      id in w'.jobs && w'.jobs == w.jobs[id := w'.jobs[id]] && GivenBack(w.jobs[id], w'.jobs[id], errorLabel, now)
    else w'.jobs == w.jobs
  }

  /**
   * A failing run gives its job back under the label of its error, and a worker that stops under
   * LEASE_RELEASED; both without a delay, and only while the job is still theirs.
   */
  lemma FailureGivesBack(backend: Backend, events: seq<Event>, w: World, r: nat, now: nat)
    requires Happens(backend, START, events, w) && w.clock <= now && In(w, r) && !w.runs[r].phase.Settled?
    ensures w.runs[r].phase.Failing? ==>
              OnlyGivesBack(w, Next(backend, w, CallFail(r), now), r, w.runs[r].phase.errorLabel, now)
    ensures OnlyGivesBack(w, Next(backend, w, ReleaseLease(r), now), r, "LEASE_RELEASED", now)
  {
    RunKeeps(backend, START, events, w);
    var id := w.runs[r].id;
    if OwnedBy(w.jobs, id, w.runs[r].owner) { assert RecordOk(w.runs, id, Record(w, id), w.clock); }
  }
}

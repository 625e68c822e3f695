/**
 * Many workers against one job ledger: each `run` claims, renews, and completes or fails, while leases
 * expire and are reclaimed underneath it.
 */
module LeaseProtocol {
  import opened Wrappers
  import opened JobLedger

  datatype Outcome = RanToCompletion | RanAndFailed | LostItsLease | WasCancelled

  datatype Phase =
    | Handling
    | Completing
    | Failing(errorLabel: string, cancelled: bool)
    | Settled(outcome: Outcome)

  /** One call of `run`: the claimed job, the worker's owner name, and how far it got. */
  datatype Run = Run(id: JobId, owner: string, lostLease: bool, phase: Phase)

  /** `gone` keeps the last record of pruned jobs. */
  datatype World = World(jobs: Jobs, gone: Jobs, runs: seq<Run>, clock: nat)

  /**
   * A call that errs may still have been carried out: `committed` says so. A worker that dies with its call
   * is one that sees an error and takes no further step.
   */
  datatype Action =
    | Submit(input: EnqueueInput)
    | ClaimOne(options: ClaimOptions)
    | Renewal(r: nat, leaseMs: nat)
    | RenewalErrors(r: nat, leaseMs: nat, committed: bool)
    | HandlerReturns(r: nat)
    | HandlerThrows(r: nat, errorLabel: string)
    | PayloadIsInvalid(r: nat)
    | CallComplete(r: nat)
    | CompleteErrors(r: nat, errorLabel: string, committed: bool)
    | CallFail(r: nat)
    | FailErrors(r: nat, committed: bool)
    | ReleaseLease(r: nat)
    | Reclaim
    | PruneOld(olderThanMs: nat)

  predicate Known(w: World, id: JobId) { id in w.jobs || id in w.gone }

  function Record(w: World, id: JobId): Job
    requires Known(w, id)
  {
    if id in w.jobs then w.jobs[id] else w.gone[id]
  }

  predicate In(w: World, r: nat) { r < |w.runs| }

  predicate Enabled(w: World, action: Action) {
    match action
    case Submit(input) => !Known(w, input.jobId)
    case ClaimOne(options) => true
    case Renewal(r, _) => In(w, r) && !w.runs[r].phase.Settled?
    case RenewalErrors(r, _, _) => In(w, r) && !w.runs[r].phase.Settled?
    case HandlerReturns(r) => In(w, r) && w.runs[r].phase.Handling?
    case HandlerThrows(r, _) => In(w, r) && w.runs[r].phase.Handling?
    case PayloadIsInvalid(r) => In(w, r) && w.runs[r].phase.Handling?
    case CallComplete(r) => In(w, r) && w.runs[r].phase.Completing?
    case CompleteErrors(r, _, _) => In(w, r) && w.runs[r].phase.Completing?
    case CallFail(r) => In(w, r) && w.runs[r].phase.Failing?
    case FailErrors(r, _) => In(w, r) && w.runs[r].phase.Failing?
    case ReleaseLease(r) => In(w, r) && !w.runs[r].phase.Settled?
    case Reclaim => true
    case PruneOld(_) => true
  }

  /** The handler threw: cancelled if the run had been aborted, failed otherwise. */
  function Thrown(run: Run, errorLabel: string): Run {
    run.(phase := Failing(errorLabel, run.lostLease))
  }

  function GaveUp(run: Run): Run
    requires run.phase.Failing?
  {
    run.(phase := Settled(if run.phase.cancelled then WasCancelled else RanAndFailed))
  }

  /** The store after a call that may not have reached it. */
  ghost function Applied(backend: Backend, jobs: Jobs, op: Operation, now: nat, committed: bool): Jobs {
    if committed then Store(backend, jobs, op, now).0 else jobs
  }

  ghost function Next(backend: Backend, w: World, action: Action, now: nat): World
    requires Enabled(w, action)
  {
    match action
    case Submit(input) => w.(jobs := Store(backend, w.jobs, Enqueue(input), now).0, clock := now)
    case ClaimOne(options) =>
      var s := Store(backend, w.jobs, Claim(options), now);
      w.(jobs := s.0, clock := now,
         runs :=
           if s.1.Found? && s.1.job.Some? then w.runs + [Run(s.1.job.value.jobId, options.owner, false, Handling)]
           else w.runs)
    case Renewal(r, leaseMs) =>
      var run := w.runs[r];
      var s := Store(backend, w.jobs, Renew(run.id, run.owner, leaseMs), now);
      w.(jobs := s.0, clock := now, runs := w.runs[r := run.(lostLease := run.lostLease || s.1 != Done(true))])
    case RenewalErrors(r, leaseMs, committed) =>
      w.(jobs := Applied(backend, w.jobs, Renew(w.runs[r].id, w.runs[r].owner, leaseMs), now, committed), clock := now,
         runs := w.runs[r := w.runs[r].(lostLease := true)])
    case HandlerReturns(r) =>
      var run := w.runs[r];
      w.(clock := now, runs := w.runs[r := run.(phase := if run.lostLease then Settled(LostItsLease) else Completing)])
    case HandlerThrows(r, errorLabel) => w.(clock := now, runs := w.runs[r := Thrown(w.runs[r], errorLabel)])
    case PayloadIsInvalid(r) =>
      w.(clock := now, runs := w.runs[r := w.runs[r].(phase := Failing("INVALID_PAYLOAD", false))])
    case CallComplete(r) =>
      var run := w.runs[r];
      var s := Store(backend, w.jobs, Complete(run.id, run.owner), now);
      w.(jobs := s.0, clock := now,
         runs := w.runs[r := run.(phase := Settled(if s.1 == Done(true) then RanToCompletion else LostItsLease))])
    case CompleteErrors(r, errorLabel, committed) =>
      w.(jobs := Applied(backend, w.jobs, Complete(w.runs[r].id, w.runs[r].owner), now, committed), clock := now,
         runs := w.runs[r := Thrown(w.runs[r], errorLabel)])
    case CallFail(r) =>
      var run := w.runs[r];
      var s := Store(backend, w.jobs, Fail(run.id, run.owner, run.phase.errorLabel, 0), now);
      w.(jobs := s.0, clock := now, runs := w.runs[r := GaveUp(run)])
    case FailErrors(r, committed) =>
      var run := w.runs[r];
      w.(jobs := Applied(backend, w.jobs, Fail(run.id, run.owner, run.phase.errorLabel, 0), now, committed),
        clock := now,
         runs := w.runs[r := GaveUp(run)])
    case ReleaseLease(r) =>
      w.(jobs := Store(backend, w.jobs, Fail(w.runs[r].id, w.runs[r].owner, "LEASE_RELEASED", 0), now).0, clock := now)
    case Reclaim => w.(jobs := Store(backend, w.jobs, ReclaimExpired, now).0, clock := now)
    case PruneOld(olderThanMs) =>
      var kept := Store(backend, w.jobs, Prune(olderThanMs), now).0;
      w.(jobs := kept, gone := w.gone + (map id | id in w.jobs && id !in kept :: w.jobs[id]), clock := now)
  }

  // ----- counting -----

  function RunsOf(runs: seq<Run>, id: JobId): nat {
    if runs == [] then 0 else RunsOf(runs[..|runs| - 1], id) + if runs[|runs| - 1].id == id then 1 else 0
  }

  predicate Reported(run: Run) { run.phase == Settled(RanToCompletion) }

  /** How many runs of a job reported that it completed. */
  function CompletionsOf(runs: seq<Run>, id: JobId): nat {
    if runs == [] then 0
    else
      CompletionsOf(runs[..|runs| - 1], id)
      + if runs[|runs| - 1].id == id && Reported(runs[|runs| - 1]) then 1 else 0
  }

  /** The owner of the newest claim of a job. */
  function NewestOwner(runs: seq<Run>, id: JobId): Option<string> {
    if runs == [] then None
    else if runs[|runs| - 1].id == id then Some(runs[|runs| - 1].owner) else NewestOwner(runs[..|runs| - 1], id)
  }

  /** A run that moves on counts as before, except for its own report. */
  lemma {:induction false} MoveOn(runs: seq<Run>, r: nat, run: Run, id: JobId)
    requires r < |runs| && run.id == runs[r].id && run.owner == runs[r].owner && !Reported(runs[r])
    ensures RunsOf(runs[r := run], id) == RunsOf(runs, id) && NewestOwner(runs[r := run], id) == NewestOwner(runs, id)
    ensures CompletionsOf(runs[r := run], id)
              == CompletionsOf(runs, id) + if run.id == id && Reported(run) then 1 else 0
  {
    var n := |runs| - 1;
    if r < n {
      MoveOn(runs[..n], r, run, id);
      assert runs[r := run][..n] == runs[..n][r := run];
    } else {
      assert runs[r := run][..n] == runs[..n];
    }
  }

  lemma {:induction false} NoRunsYet(runs: seq<Run>, id: JobId)
    requires forall r :: 0 <= r < |runs| ==> runs[r].id != id
    ensures RunsOf(runs, id) == 0 && CompletionsOf(runs, id) == 0
  {
    if runs != [] { NoRunsYet(runs[..|runs| - 1], id); }
  }

  // ----- the invariant -----

  /**
   * A job has been claimed exactly `attempt` times, one run at most reported it completed and none before
   * it was, and while it has an owner, that is the owner of its newest claim.
   */
  ghost predicate RecordOk(runs: seq<Run>, id: JobId, job: Job, clock: nat) {
    && job.jobId == id && JobOk(job, clock)
    && RunsOf(runs, id) == job.attempt
    && CompletionsOf(runs, id) <= (if job.state.Completed? then 1 else 0)
    && (job.leaseOwner.Some? ==> NewestOwner(runs, id) == job.leaseOwner)
  }

  ghost predicate Inv(w: World) {
    && w.jobs.Keys !! w.gone.Keys
    && (forall id :: Known(w, id) ==> RecordOk(w.runs, id, Record(w, id), w.clock))
    && (forall id :: id in w.gone ==> Terminal(w.gone[id].state))
    && forall r :: 0 <= r < |w.runs| ==> Known(w, w.runs[r].id)
  }

  /** No terminal record changes, and no run reports on its job any more. */
  ghost predicate TerminalStays(w: World, w': World) {
    forall id :: Known(w, id) && Terminal(Record(w, id).state) ==>
      Known(w', id) && Record(w', id) == Record(w, id) && CompletionsOf(w'.runs, id) == CompletionsOf(w.runs, id)
  }

  /** A step that leaves the ledger alone and moves one run on without a report. */
  lemma RunMoves(w: World, r: nat, run: Run, now: nat)
    requires Inv(w) && w.clock <= now && r < |w.runs|
    requires run.id == w.runs[r].id && run.owner == w.runs[r].owner && !Reported(w.runs[r]) && !Reported(run)
    ensures var w' := w.(clock := now, runs := w.runs[r := run]); Inv(w') && TerminalStays(w, w')
  {
    var w' := w.(clock := now, runs := w.runs[r := run]);
    forall id ensures CompletionsOf(w'.runs, id) == CompletionsOf(w.runs, id) { MoveOn(w.runs, r, run, id); }
    forall id | Known(w', id) ensures RecordOk(w'.runs, id, Record(w', id), now) {
      assert RecordOk(w.runs, id, Record(w, id), w.clock);
      MoveOn(w.runs, r, run, id);
    }
  }

  /** A step that replaces one record of the ledger. */
  lemma RecordMoves(w: World, id: JobId, job: Job, runs: seq<Run>, now: nat)
    requires Inv(w) && w.clock <= now && id in w.jobs && !Terminal(w.jobs[id].state)
    requires RecordOk(runs, id, job, now)
    requires forall other :: other != id && Known(w, other) ==>
               && RunsOf(runs, other) == RunsOf(w.runs, other) && NewestOwner(runs, other) == NewestOwner(w.runs, other)
               && CompletionsOf(runs, other) == CompletionsOf(w.runs, other)
    requires forall r :: 0 <= r < |runs| ==> Known(w, runs[r].id)
    ensures var w' := w.(jobs := w.jobs[id := job], runs := runs, clock := now); Inv(w') && TerminalStays(w, w')
  {
    var w' := w.(jobs := w.jobs[id := job], runs := runs, clock := now);
    forall other | Known(w', other) ensures RecordOk(w'.runs, other, Record(w', other), now) {
      if other != id { assert RecordOk(w.runs, other, Record(w, other), w.clock); }
    }
  }

  lemma TimePasses(w: World, now: nat)
    requires Inv(w) && w.clock <= now
    ensures Inv(w.(clock := now)) && TerminalStays(w, w.(clock := now))
  {
    var w' := w.(clock := now);
    forall id | Known(w', id) ensures RecordOk(w'.runs, id, Record(w', id), now) {
      assert RecordOk(w.runs, id, Record(w, id), w.clock);
    }
  }

  lemma SubmitKeeps(backend: Backend, w: World, input: EnqueueInput, now: nat)
    requires Inv(w) && w.clock <= now && Enabled(w, Submit(input))
    ensures var w' := Next(backend, w, Submit(input), now); Inv(w') && TerminalStays(w, w')
  {
    var w' := Next(backend, w, Submit(input), now);
    NoRunsYet(w.runs, input.jobId);
    forall id | Known(w', id) ensures RecordOk(w'.runs, id, Record(w', id), now) {
      if id != input.jobId { assert RecordOk(w.runs, id, Record(w, id), w.clock); }
    }
  }

  lemma OneMoreRun(runs: seq<Run>, run: Run, id: JobId)
    requires !Reported(run)
    ensures RunsOf(runs + [run], id) == RunsOf(runs, id) + if run.id == id then 1 else 0
    ensures NewestOwner(runs + [run], id) == if run.id == id then Some(run.owner) else NewestOwner(runs, id)
    ensures CompletionsOf(runs + [run], id) == CompletionsOf(runs, id)
  {
    assert (runs + [run])[..|runs|] == runs;
  }

  lemma StartedIsOk(runs: seq<Run>, id: JobId, job: Job, options: ClaimOptions, clock: nat, now: nat)
    requires RecordOk(runs, id, job, clock) && clock <= now && Waiting(job) && Due(job, now)
    ensures RecordOk(runs + [Run(id, options.owner, false, Handling)], id,
              Started(job, now, options.owner, options.leaseMs), now)
  {
    OneMoreRun(runs, Run(id, options.owner, false, Handling), id);
  }

  lemma StartKeeps(w: World, id: JobId, options: ClaimOptions, now: nat)
    requires Inv(w) && w.clock <= now && id in w.jobs && Waiting(w.jobs[id]) && Due(w.jobs[id], now)
    ensures var w' := w.(jobs := w.jobs[id := Started(w.jobs[id], now, options.owner, options.leaseMs)],
                         runs := w.runs + [Run(id, options.owner, false, Handling)], clock := now);
            Inv(w') && TerminalStays(w, w')
  {
    var runs := w.runs + [Run(id, options.owner, false, Handling)];
    assert RecordOk(w.runs, id, Record(w, id), w.clock);
    StartedIsOk(w.runs, id, w.jobs[id], options, w.clock, now);
    forall other | other != id && Known(w, other)
      ensures RunsOf(runs, other) == RunsOf(w.runs, other) && NewestOwner(runs, other) == NewestOwner(w.runs, other)
      ensures CompletionsOf(runs, other) == CompletionsOf(w.runs, other)
    {
      OneMoreRun(w.runs, Run(id, options.owner, false, Handling), other);
    }
    RecordMoves(w, id, Started(w.jobs[id], now, options.owner, options.leaseMs), runs, now);
  }

  lemma ClaimKeeps(backend: Backend, w: World, options: ClaimOptions, now: nat)
    requires Inv(w) && w.clock <= now
    ensures var w' := Next(backend, w, ClaimOne(options), now); Inv(w') && TerminalStays(w, w')
  {
    var filter := if backend.Memory? then options else SqlFilter(options);
    var first := First(w.jobs, now, filter);
    if first.Some? {
      var id := first.value;
      assert IsFirst(w.jobs, now, filter, id);
      assert RecordOk(w.runs, id, Record(w, id), w.clock);
      StartKeeps(w, id, options, now);
    } else {
      assert Next(backend, w, ClaimOne(options), now) == w.(clock := now);
      TimePasses(w, now);
    }
  }

  /** Replacing the record of a run's job while the run moves on. */
  lemma RunAndRecordMove(w: World, r: nat, run: Run, job: Job, now: nat)
    requires Inv(w) && w.clock <= now && r < |w.runs| && !Reported(w.runs[r])
    requires run.id == w.runs[r].id && run.owner == w.runs[r].owner && OwnedBy(w.jobs, run.id, run.owner)
    requires job.jobId == run.id && JobOk(job, now) && job.attempt == w.jobs[run.id].attempt
    requires Reported(run) ==> job.state.Completed?
    requires job.leaseOwner.Some? ==> job.leaseOwner == Some(run.owner)
    ensures var w' := w.(jobs := w.jobs[run.id := job], runs := w.runs[r := run], clock := now);
            Inv(w') && TerminalStays(w, w')
  {
    assert RecordOk(w.runs, run.id, Record(w, run.id), w.clock);
    forall id ensures
      && RunsOf(w.runs[r := run], id) == RunsOf(w.runs, id)
      && NewestOwner(w.runs[r := run], id) == NewestOwner(w.runs, id)
      && CompletionsOf(w.runs[r := run], id)
           == CompletionsOf(w.runs, id) + if run.id == id && Reported(run) then 1 else 0
    {
      MoveOn(w.runs, r, run, id);
    }
    RecordMoves(w, run.id, job, w.runs[r := run], now);
  }

  /** A run moves on while its renewal is carried out or refused. */
  lemma RenewalKeeps(backend: Backend, w: World, r: nat, moved: Run, leaseMs: nat, now: nat)
    requires Inv(w) && w.clock <= now && r < |w.runs| && !Reported(w.runs[r]) && !Reported(moved)
    requires moved.id == w.runs[r].id && moved.owner == w.runs[r].owner
    ensures var w' :=
              w.(jobs := Store(backend, w.jobs, Renew(moved.id, moved.owner, leaseMs), now).0, clock := now,
                runs := w.runs[r := moved]);
            Inv(w') && TerminalStays(w, w')
  {
    if Store(backend, w.jobs, Renew(moved.id, moved.owner, leaseMs), now).1 == Done(true) {
      assert RecordOk(w.runs, moved.id, Record(w, moved.id), w.clock);
      RunAndRecordMove(w, r, moved, w.jobs[moved.id].(leaseExpiresAt := Some(now + leaseMs)), now);
    } else {
      RunMoves(w, r, moved, now);
    }
  }

  /** A run moves on while its completion is carried out or refused; it reports it only if it was carried out. */
  lemma CompleteKeeps(backend: Backend, w: World, r: nat, moved: Run, now: nat)
    requires Inv(w) && w.clock <= now && r < |w.runs| && !Reported(w.runs[r])
    requires moved.id == w.runs[r].id && moved.owner == w.runs[r].owner
    requires Reported(moved) ==> OwnedBy(w.jobs, moved.id, moved.owner)
    ensures var w' :=
              w.(jobs := Store(backend, w.jobs, Complete(moved.id, moved.owner), now).0, clock := now,
                runs := w.runs[r := moved]);
            Inv(w') && TerminalStays(w, w')
  {
    if OwnedBy(w.jobs, moved.id, moved.owner) {
      assert RecordOk(w.runs, moved.id, Record(w, moved.id), w.clock);
      RunAndRecordMove(w, r, moved, Finished(w.jobs[moved.id], now), now);
    } else {
      RunMoves(w, r, moved, now);
    }
  }

  /** Both stores give a failed job up the same way, for no delay. */
  function FailedBy(backend: Backend, job: Job, now: nat, errorLabel: string): Job {
    if backend.Memory? then FailedInMemory(job, now, errorLabel, 0) else FailedInSql(job, now, errorLabel, 0)
  }

  lemma FailKeeps(backend: Backend, w: World, r: nat, moved: Run, errorLabel: string, now: nat)
    requires Inv(w) && w.clock <= now && r < |w.runs| && !Reported(w.runs[r]) && !Reported(moved)
    requires moved.id == w.runs[r].id && moved.owner == w.runs[r].owner
    ensures var w' :=
              w.(jobs := Store(backend, w.jobs, Fail(moved.id, moved.owner, errorLabel, 0), now).0, clock := now,
                runs := w.runs[r := moved]);
            Inv(w') && TerminalStays(w, w')
  {
    if OwnedBy(w.jobs, moved.id, moved.owner) {
      assert RecordOk(w.runs, moved.id, Record(w, moved.id), w.clock);
      RunAndRecordMove(w, r, moved, FailedBy(backend, w.jobs[moved.id], now, errorLabel), now);
    } else {
      RunMoves(w, r, moved, now);
    }
  }

  lemma ReclaimKeeps(backend: Backend, w: World, now: nat)
    requires Inv(w) && w.clock <= now
    ensures var w' := Next(backend, w, Reclaim, now); Inv(w') && TerminalStays(w, w')
  {
    var w' := Next(backend, w, Reclaim, now);
    var ids := if backend.Memory? then Abandoned(w.jobs, now) else AbandonedRows(w.jobs, now);
    assert w'.jobs == Reclaimed(w.jobs, ids, now) && w'.jobs.Keys == w.jobs.Keys;
    forall id | Known(w', id) ensures RecordOk(w'.runs, id, Record(w', id), now) {
      assert RecordOk(w.runs, id, Record(w, id), w.clock);
    }
  }

  lemma PruneKeeps(backend: Backend, w: World, olderThanMs: nat, now: nat)
    requires Inv(w) && w.clock <= now
    ensures var w' := Next(backend, w, PruneOld(olderThanMs), now); Inv(w') && TerminalStays(w, w')
  {
    var w' := Next(backend, w, PruneOld(olderThanMs), now);
    forall id ensures Known(w', id) <==> Known(w, id) {}
    forall id | Known(w, id) ensures Record(w', id) == Record(w, id) {}
    forall id | Known(w', id) ensures RecordOk(w'.runs, id, Record(w', id), now) {
      assert RecordOk(w.runs, id, Record(w, id), w.clock);
    }
  }

  /** Every action of every worker, and of the ledger's upkeep, keeps the invariant and every terminal record. */
  lemma StepKeeps(backend: Backend, w: World, action: Action, now: nat)
    requires Inv(w) && w.clock <= now && Enabled(w, action)
    ensures Inv(Next(backend, w, action, now)) && TerminalStays(w, Next(backend, w, action, now))
  {
    match action
    case Submit(input) => SubmitKeeps(backend, w, input, now);
    case ClaimOne(options) => ClaimKeeps(backend, w, options, now);
    case Renewal(r, leaseMs) => RenewalKeeps(backend, w, r, Next(backend, w, action, now).runs[r], leaseMs, now);
    case RenewalErrors(r, leaseMs, committed) =>
      if committed {
        RenewalKeeps(backend, w, r, w.runs[r].(lostLease := true), leaseMs, now);
      } else {
        RunMoves(w, r, w.runs[r].(lostLease := true), now);
      }
    case HandlerReturns(r) =>
      RunMoves(w, r, w.runs[r].(phase := if w.runs[r].lostLease then Settled(LostItsLease) else Completing), now);
    case HandlerThrows(r, errorLabel) => RunMoves(w, r, Thrown(w.runs[r], errorLabel), now);
    case PayloadIsInvalid(r) => RunMoves(w, r, w.runs[r].(phase := Failing("INVALID_PAYLOAD", false)), now);
    case CallComplete(r) => CompleteKeeps(backend, w, r, Next(backend, w, action, now).runs[r], now);
    case CompleteErrors(r, errorLabel, committed) =>
      if committed {
        CompleteKeeps(backend, w, r, Thrown(w.runs[r], errorLabel), now);
      } else {
        RunMoves(w, r, Thrown(w.runs[r], errorLabel), now);
      }
    case CallFail(r) => FailKeeps(backend, w, r, GaveUp(w.runs[r]), w.runs[r].phase.errorLabel, now);
    case FailErrors(r, committed) =>
      if committed {
        FailKeeps(backend, w, r, GaveUp(w.runs[r]), w.runs[r].phase.errorLabel, now);
      } else {
        RunMoves(w, r, GaveUp(w.runs[r]), now);
      }
    case ReleaseLease(r) => {
      FailKeeps(backend, w, r, w.runs[r], "LEASE_RELEASED", now);
      assert w.runs[r := w.runs[r]] == w.runs;
    }
    case Reclaim => ReclaimKeeps(backend, w, now);
    case PruneOld(olderThanMs) => PruneKeeps(backend, w, olderThanMs, now);
  }

  // ----- whole runs -----

  datatype Event = Event(action: Action, now: nat)

  /** Any interleaving of any number of workers; a crashed worker just takes no further step. */
  ghost predicate Happens(backend: Backend, w: World, events: seq<Event>, w': World)
    decreases |events|
  {
    if events == [] then w' == w
    else
      && Enabled(w, events[0].action) && w.clock <= events[0].now
      && Happens(backend, Next(backend, w, events[0].action, events[0].now), events[1..], w')
  }

  lemma {:induction false} RunKeeps(backend: Backend, w: World, events: seq<Event>, w': World)
    requires Inv(w) && Happens(backend, w, events, w')
    ensures Inv(w') && TerminalStays(w, w')
    decreases |events|
  {
    if events != [] {
      var next := Next(backend, w, events[0].action, events[0].now);
      StepKeeps(backend, w, events[0].action, events[0].now);
      RunKeeps(backend, next, events[1..], w');
    }
  }

  const START: World := World(map[], map[], [], 0)

  /**
   * Lease safety: a job is claimed at most as often as its budget allows, it has an owner exactly while
   * it runs, and at most one run of any worker ever reports it completed, and only if its record says so.
   */
  lemma AtMostOneRunCompletes(backend: Backend, events: seq<Event>, w: World, id: JobId)
    requires Happens(backend, START, events, w)
    ensures !Known(w, id) ==> RunsOf(w.runs, id) == CompletionsOf(w.runs, id) == 0
    ensures Known(w, id) ==>
              var job := Record(w, id);
              && RunsOf(w.runs, id) == job.attempt <= Budget(job)
              && (job.state.Running? <==> job.leaseOwner.Some?)
              && CompletionsOf(w.runs, id) <= if job.state.Completed? then 1 else 0
  {
    RunKeeps(backend, START, events, w);
    if Known(w, id) { assert RecordOk(w.runs, id, Record(w, id), w.clock); } else { NoRunsYet(w.runs, id); }
  }

  /** Once completed, failed or cancelled, always so: whatever happens next leaves the record as it is. */
  lemma TerminalIsFinal(backend: Backend, before: seq<Event>, w: World, after: seq<Event>, w': World, id: JobId)
    requires Happens(backend, START, before, w) && Happens(backend, w, after, w')
    requires Known(w, id) && Terminal(Record(w, id).state)
    ensures Known(w', id) && Record(w', id) == Record(w, id)
    ensures RunsOf(w'.runs, id) == RunsOf(w.runs, id) && CompletionsOf(w'.runs, id) == CompletionsOf(w.runs, id)
  {
    RunKeeps(backend, START, before, w);
    RunKeeps(backend, w, after, w');
    assert RecordOk(w.runs, id, Record(w, id), w.clock) && RecordOk(w'.runs, id, Record(w', id), w'.clock);
  }

  /**
   * A run's completion is accepted exactly when the job is still running and its newest claim carries
   * the run's owner name. So a run whose job has been claimed again under another name is refused.
   */
  lemma CompletionNeedsNewestOwner(backend: Backend, events: seq<Event>, w: World, r: nat, now: nat)
    requires Happens(backend, START, events, w) && w.clock <= now && Enabled(w, CallComplete(r))
    ensures Reported(Next(backend, w, CallComplete(r), now).runs[r])
       <==> && w.runs[r].id in w.jobs && w.jobs[w.runs[r].id].state.Running?
            && NewestOwner(w.runs, w.runs[r].id) == Some(w.runs[r].owner)
  {
    RunKeeps(backend, START, events, w);
    assert RecordOk(w.runs, w.runs[r].id, Record(w, w.runs[r].id), w.clock);
  }

  lemma Prepend(backend: Backend, w: World, action: Action, now: nat, events: seq<Event>, w': World)
    requires Enabled(w, action) && w.clock <= now && Happens(backend, Next(backend, w, action, now), events, w')
    ensures Happens(backend, w, [Event(action, now)] + events, w')
  {
    assert ([Event(action, now)] + events)[1..] == events;
  }

  const DEMO_INPUT: EnqueueInput := EnqueueInput(7, None, "reindex", "{}", 2, 0)
  const DEMO_CLAIM: ClaimOptions := ClaimOptions("worker", 1000, None, None)

  /** A queued job, claimed, reclaimed, claimed again, and completed by the first run. */
  function DemoJob(k: nat): Job {
    var queued := NewJob(DEMO_INPUT, 0);
    var first := Started(queued, 0, "worker", 1000);
    var again := GivenUp(first, 1000);
    var second := Started(again, 1000, "worker", 1000);
    if k == 0 then queued else if k == 1 then first else if k == 2 then again else if k == 3 then second
      else Finished(second, 1000)
  }

  function DemoWorld(k: nat): World {
    var run := Run(7, "worker", false, Handling);
    if k == 0 then World(map[7 := DemoJob(0)], map[], [], 0)
    else if k == 1 then World(map[7 := DemoJob(1)], map[], [run], 0)
    else if k == 2 then World(map[7 := DemoJob(2)], map[], [run], 1000)
    else if k == 3 then World(map[7 := DemoJob(3)], map[], [run, run], 1000)
    else if k == 4 then World(map[7 := DemoJob(3)], map[], [run.(phase := Completing), run], 1000)
    else World(map[7 := DemoJob(4)], map[], [run.(phase := Settled(RanToCompletion)), run], 1000)
  }

  lemma DemoClaims(backend: Backend, w: World, job: Job, now: nat)
    requires w.jobs == map[7 := job] && job.jobId == 7 && Claimable(job, now, DEMO_CLAIM)
    ensures Next(backend, w, ClaimOne(DEMO_CLAIM), now)
         == World(map[7 := Started(job, now, "worker", 1000)], w.gone, w.runs + [Run(7, "worker", false, Handling)],
           now)
  {
    assert IsFirst(w.jobs, now, DEMO_CLAIM, 7);
    FirstIsUnique(w.jobs, now, DEMO_CLAIM, 7);
    assert w.jobs[7 := Started(job, now, "worker", 1000)] == map[7 := Started(job, now, "worker", 1000)];
  }

  lemma DemoReclaims(backend: Backend, w: World, job: Job, now: nat)
    requires w.jobs == map[7 := job] && job.state.Running? && Expired(job, now)
    ensures Next(backend, w, Reclaim, now) == w.(jobs := map[7 := GivenUp(job, now)], clock := now)
  {
    var ids := if backend.Memory? then Abandoned(w.jobs, now) else AbandonedRows(w.jobs, now);
    assert ids == {7};
    assert Reclaimed(w.jobs, ids, now) == map[7 := GivenUp(job, now)];
  }

  lemma DemoReports(backend: Backend)
    ensures Happens(backend, DemoWorld(3), [Event(HandlerReturns(0), 1000), Event(CallComplete(0), 1000)], DemoWorld(5))
  {
    var w3, w4, w5 := DemoWorld(3), DemoWorld(4), DemoWorld(5);
    assert Next(backend, w3, HandlerReturns(0), 1000) == w4;
    assert w4.jobs[7 := DemoJob(4)] == map[7 := DemoJob(4)];
    assert Next(backend, w4, CallComplete(0), 1000) == w5;
    Prepend(backend, w4, CallComplete(0), 1000, [], w5);
    assert [Event(CallComplete(0), 1000)] + [] == [Event(CallComplete(0), 1000)];
    Prepend(backend, w3, HandlerReturns(0), 1000, [Event(CallComplete(0), 1000)], w5);
    assert [Event(HandlerReturns(0), 1000)] + [Event(CallComplete(0), 1000)]
             == [Event(HandlerReturns(0), 1000), Event(CallComplete(0), 1000)];
  }

  lemma DemoSecondClaim(backend: Backend)
    ensures Next(backend, DemoWorld(2), ClaimOne(DEMO_CLAIM), 1000) == DemoWorld(3)
  {
    DemoClaims(backend, DemoWorld(2), DemoJob(2), 1000);
  }

  lemma DemoClaimedAgain(backend: Backend) returns (events: seq<Event>)
    ensures Happens(backend, DemoWorld(2), events, DemoWorld(5))
  {
    DemoReports(backend);
    DemoSecondClaim(backend);
    var rest := [Event(HandlerReturns(0), 1000), Event(CallComplete(0), 1000)];
    Prepend(backend, DemoWorld(2), ClaimOne(DEMO_CLAIM), 1000, rest, DemoWorld(5));
    events := [Event(ClaimOne(DEMO_CLAIM), 1000)] + rest;
  }

  lemma DemoReclaimed(backend: Backend) returns (events: seq<Event>)
    ensures Happens(backend, DemoWorld(1), events, DemoWorld(5))
  {
    var rest := DemoClaimedAgain(backend);
    DemoReclaims(backend, DemoWorld(1), DemoJob(1), 1000);
    Prepend(backend, DemoWorld(1), Reclaim, 1000, rest, DemoWorld(5));
    events := [Event(Reclaim, 1000)] + rest;
  }

  lemma DemoFirstClaim(backend: Backend)
    ensures Next(backend, DemoWorld(0), ClaimOne(DEMO_CLAIM), 0) == DemoWorld(1)
  {
    DemoClaims(backend, DemoWorld(0), DemoJob(0), 0);
    var run := Run(7, "worker", false, Handling);
    assert [] + [run] == [run];
    assert DemoJob(1) == Started(DemoJob(0), 0, "worker", 1000);
  }

  lemma DemoClaimed(backend: Backend) returns (events: seq<Event>)
    ensures Happens(backend, DemoWorld(0), events, DemoWorld(5))
  {
    var rest := DemoReclaimed(backend);
    DemoFirstClaim(backend);
    Prepend(backend, DemoWorld(0), ClaimOne(DEMO_CLAIM), 0, rest, DemoWorld(5));
    events := [Event(ClaimOne(DEMO_CLAIM), 0)] + rest;
  }

  /**
   * Owner names do not tell two claims of one worker apart: a run whose lease was reclaimed can report
   * completion while the same worker's newer run of the job is still going.
   */
  lemma StaleRunCanReport(backend: Backend) returns (events: seq<Event>, w: World)
    ensures Happens(backend, START, events, w)
    ensures |w.runs| == 2 && w.runs[0].id == w.runs[1].id && Reported(w.runs[0]) && w.runs[1].phase.Handling?
  {
    w := DemoWorld(5);
    var rest := DemoClaimed(backend);
    assert START.jobs[7 := DemoJob(0)] == map[7 := DemoJob(0)];
    Prepend(backend, START, Submit(DEMO_INPUT), 0, rest, w);
    events := [Event(Submit(DEMO_INPUT), 0)] + rest;
  }

  /** A completion may be on record though no run ever reports it: its worker died with the call. */
  lemma CompletionMayGoUnreported(backend: Backend) returns (events: seq<Event>, w: World)
    ensures Happens(backend, START, events, w)
    ensures Known(w, 7) && Record(w, 7).state.Completed? && CompletionsOf(w.runs, 7) == 0
  {
    var claimed, run := DemoWorld(1), Run(7, "worker", false, Handling);
    var w1 := claimed.(runs := [run.(phase := Completing)]);
    w := World(map[7 := Finished(DemoJob(1), 0)], map[], [run.(phase := Failing("IO_ERROR", false))], 0);
    var a, b := HandlerReturns(0), CompleteErrors(0, "IO_ERROR", true);
    assert Next(backend, claimed, a, 0) == w1;
    assert w1.jobs[7 := Finished(DemoJob(1), 0)] == w.jobs;
    assert Next(backend, w1, b, 0) == w;
    Prepend(backend, w1, b, 0, [], w);
    Prepend(backend, claimed, a, 0, [Event(b, 0)] + [], w);
    DemoFirstClaim(backend);
    var rest := [Event(a, 0)] + ([Event(b, 0)] + []);
    Prepend(backend, DemoWorld(0), ClaimOne(DEMO_CLAIM), 0, rest, w);
    assert START.jobs[7 := DemoJob(0)] == map[7 := DemoJob(0)];
    Prepend(backend, START, Submit(DEMO_INPUT), 0, [Event(ClaimOne(DEMO_CLAIM), 0)] + rest, w);
    events := [Event(Submit(DEMO_INPUT), 0)] + ([Event(ClaimOne(DEMO_CLAIM), 0)] + rest);
    assert w.runs[..0] == [];
  }
}

/** What the callers of either job store get, call by call. */
module JobCalls {
  import opened Wrappers
  import opened JobLedger

  /** Every job but this one is as it was. */
  ghost predicate OthersStay(jobs: Jobs, next: Jobs, id: JobId) {
    forall other :: other != id ==> (other in next <==> other in jobs) && (other in jobs ==> next[other] == jobs[other])
  }

  /** Nobody holds the job. */
  predicate Unowned(jobs: Jobs, id: JobId) { id in jobs && jobs[id].leaseOwner.None? }

  /** A claim asks for this type and tenant. An empty type list asks for no type in memory, for any in SQL. */
  predicate AsksFor(backend: Backend, options: ClaimOptions, kind: string, tenantId: Option<string>) {
    && (options.types.None? || kind in options.types.value || (backend.Sqlite? && options.types.value == []))
    && (options.tenantId.None? || tenantId == options.tenantId)
  }

  function FilterOf(backend: Backend, options: ClaimOptions): ClaimOptions {
    if backend.Memory? then options else SqlFilter(options)
  }

  /** A claim with these options may take the job. */
  predicate Offered(backend: Backend, job: Job, now: nat, options: ClaimOptions) {
    Claimable(job, now, FilterOf(backend, options))
  }

  /** What a job is about, which no call ever changes. */
  predicate SameWork(job: Job, next: Job) {
    && next.jobId == job.jobId && next.tenantId == job.tenantId && next.kind == job.kind && next.payload == job.payload
    && next.createdAt == job.createdAt && next.maxAttempts == job.maxAttempts
  }

  /** The owner's calls on a job. */
  predicate OwnerCall(op: Operation, id: JobId, owner: string) {
    match op
    case Complete(i, o) => i == id && o == owner
    case Fail(i, o, _, _) => i == id && o == owner
    case Renew(i, o, _) => i == id && o == owner
    case _ => false
  }

  /** A job that nobody holds can be settled or renewed by nobody. */
  lemma UnownedIsRefused(backend: Backend, jobs: Jobs, id: JobId, owner: string, op: Operation, now: nat)
    requires Unowned(jobs, id) && OwnerCall(op, id, owner)
    ensures Store(backend, jobs, op, now) == (jobs, Done(false))
  {
  }

  /**
   * A new job is the one that was handed in, and can be claimed exactly from the end of its delay on, by
   * whom asks for its type and tenant; only SQL refuses an id that is taken.
   */
  lemma EnqueueMeans(
    backend: Backend, jobs: Jobs, input: EnqueueInput, clock: nat, now: nat, options: ClaimOptions, later: nat)
    requires JobsOk(jobs, clock) && clock <= now <= later
    ensures var (next, answer) := Store(backend, jobs, Enqueue(input), now);
            && JobsOk(next, now)
            && (answer == Refused <==> backend.Sqlite? && input.jobId in jobs)
            && (answer == Refused ==> next == jobs)
            && (answer != Refused ==>
                  && answer == Id(input.jobId) && OthersStay(jobs, next, input.jobId) && Unowned(next, input.jobId)
                  && next[input.jobId].kind == input.kind && next[input.jobId].payload == input.payload
                  && next[input.jobId].tenantId == input.tenantId && next[input.jobId].maxAttempts == input.maxAttempts
                  && next[input.jobId].createdAt == now && next[input.jobId].attempt == 0
                  && next[input.jobId].startedAt.None? && next[input.jobId].lastError.None?
                  && (next[input.jobId].runAfter.None? <==> input.runAfterMs == 0)
                  && (Offered(backend, next[input.jobId], later, options) <==>
                        later >= now + input.runAfterMs && AsksFor(backend, options, input.kind, input.tenantId)))
  {
  }

  /** A look at a job changes nothing and shows its record, delay and all. */
  lemma GetMeans(backend: Backend, jobs: Jobs, id: JobId, now: nat)
    ensures var (next, answer) := Store(backend, jobs, Get(id), now);
            && next == jobs && answer.Found?
            && (answer.job.Some? <==> id in jobs)
            && (answer.job.Some? ==> answer.job.value == jobs[id])
  {
  }

  predicate LeaseIsOver(backend: Backend, job: Job, now: nat) {
    if backend.Memory? then AbandonedInMemory(job, now) else AbandonedInSql(job, now)
  }

  /** The job is its new owner's: no claim finds it, and it is given up exactly when the lease is over. */
  ghost predicate HandedOut(
    backend: Backend, jobs: Jobs, next: Jobs, id: JobId, options: ClaimOptions, now: nat, other: ClaimOptions,
    later: nat)
  {
    && id in jobs && OthersStay(jobs, next, id)
    && OwnedBy(next, id, options.owner) && next[id].attempt == jobs[id].attempt + 1
    && SameWork(jobs[id], next[id]) && next[id].lastError == jobs[id].lastError
    && next[id].startedAt == (if jobs[id].startedAt.Some? then jobs[id].startedAt else Some(now))
    && !Claimable(next[id], later, other)
    && (LeaseIsOver(backend, next[id], later) <==> later >= now + options.leaseMs)
  }

  lemma FirstIsHandedOut(
    backend: Backend, jobs: Jobs, options: ClaimOptions, clock: nat, now: nat, first: JobId, other: ClaimOptions,
    later: nat)
    requires JobsOk(jobs, clock) && clock <= now && IsFirst(jobs, now, FilterOf(backend, options), first)
    ensures var (next, answer) := Store(backend, jobs, Claim(options), now);
            && JobsOk(next, now) && first in next && answer == Found(Some(next[first])) && next[first].jobId == first
            && HandedOut(backend, jobs, next, first, options, now, other, later)
  {
    FirstIsUnique(jobs, now, FilterOf(backend, options), first);
    assert JobOk(jobs[first], clock);
  }

  /**
   * A claim finds nothing exactly when nothing can be claimed; what it finds it hands to its owner alone,
   * and neither a claim nor, before the lease runs out, a reclaim takes it away again.
   */
  lemma ClaimMeans(
    backend: Backend, jobs: Jobs, options: ClaimOptions, clock: nat, now: nat, other: ClaimOptions, later: nat)
    requires JobsOk(jobs, clock) && clock <= now
    ensures var (next, answer) := Store(backend, jobs, Claim(options), now);
            && JobsOk(next, now) && answer.Found?
            && (answer.job.None? <==> forall id :: id in jobs ==> !Offered(backend, jobs[id], now, options))
            && (answer.job.None? ==> next == jobs)
            && (answer.job.Some? ==>
                  && answer.job.value.jobId in next
                  && answer.job.value.jobId in jobs
                  && Offered(backend, jobs[answer.job.value.jobId], now, options)
                  && (forall id ::
                       id in jobs && id != answer.job.value.jobId && Offered(backend, jobs[id], now, options) ==>
                        || answer.job.value.createdAt < jobs[id].createdAt
                        || (answer.job.value.createdAt == jobs[id].createdAt && answer.job.value.jobId < id))
                  && answer.job.value == next[answer.job.value.jobId]
                  && HandedOut(backend, jobs, next, answer.job.value.jobId, options, now, other, later))
  {
    var filter := FilterOf(backend, options);
    if exists id :: id in jobs && Claimable(jobs[id], now, filter) {
      var first := FirstExists(jobs, now, filter, jobs.Keys);
      FirstIsHandedOut(backend, jobs, options, clock, now, first, other, later);
    } else {
      assert forall id :: !IsFirst(jobs, now, filter, id);
    }
  }

  /** Whose calls are accepted: exactly the owner of the running job. */
  ghost predicate Holds(jobs: Jobs, id: JobId, owner: string) {
    id in jobs && jobs[id].state.Running? && jobs[id].leaseOwner == Some(owner)
  }

  /** Exactly the owner completes its job; the job is then settled, and nobody holds it. */
  lemma CompleteMeans(backend: Backend, jobs: Jobs, id: JobId, owner: string, clock: nat, now: nat)
    requires JobsOk(jobs, clock) && clock <= now
    ensures var (next, answer) := Store(backend, jobs, Complete(id, owner), now);
            && JobsOk(next, now)
            && answer == Done(Holds(jobs, id, owner))
            && (!Holds(jobs, id, owner) ==> next == jobs)
            && (Holds(jobs, id, owner) ==>
                  && OthersStay(jobs, next, id) && Unowned(next, id) && next[id].state.Completed?
                  && next[id].completedAt == Some(now) && next[id].startedAt == jobs[id].startedAt
                  && SameWork(jobs[id], next[id]) && next[id].attempt == jobs[id].attempt
                  && next[id].lastError == jobs[id].lastError)
  {
    if id in jobs { assert JobOk(jobs[id], clock); }
  }

  /**
   * A failed attempt: nobody holds the job any more. With attempts left it can be claimed exactly from the
   * end of its retry delay on, whatever an earlier delay was; without, it is settled.
   */
  predicate AttemptFailed(
    backend: Backend, job: Job, next: Job, errorLabel: string, retryAfterMs: nat, now: nat, options: ClaimOptions,
    later: nat)
  {
    && next.leaseOwner.None? && next.lastError == Some(errorLabel)
    && SameWork(job, next) && next.attempt == job.attempt
    && (job.attempt < job.maxAttempts ==> next.state.Retrying? && next.completedAt.None?)
    && (job.attempt >= job.maxAttempts ==> next.state.Failed? && next.completedAt == Some(now))
    && (Offered(backend, next, later, options) <==>
          && job.attempt < job.maxAttempts && later >= now + retryAfterMs
          && AsksFor(backend, options, job.kind, job.tenantId))
  }

  lemma AttemptFails(
    backend: Backend, job: Job, errorLabel: string, retryAfterMs: nat, clock: nat, now: nat, options: ClaimOptions,
    later: nat)
    requires JobOk(job, clock) && job.leaseOwner.Some? && clock <= now <= later
    ensures var next := if backend.Memory? then FailedInMemory(job, now, errorLabel, retryAfterMs)
                        else FailedInSql(job, now, errorLabel, retryAfterMs);
            JobOk(next, now) && AttemptFailed(backend, job, next, errorLabel, retryAfterMs, now, options, later)
  {
  }

  /** Exactly the owner fails its job. */
  lemma FailMeans(
    backend: Backend, jobs: Jobs, id: JobId, owner: string, errorLabel: string, retryAfterMs: nat, clock: nat, now: nat,
    options: ClaimOptions, later: nat)
    requires JobsOk(jobs, clock) && clock <= now <= later
    ensures var (next, answer) := Store(backend, jobs, Fail(id, owner, errorLabel, retryAfterMs), now);
            && JobsOk(next, now)
            && answer == Done(Holds(jobs, id, owner))
            && (!Holds(jobs, id, owner) ==> next == jobs)
            && (Holds(jobs, id, owner) ==>
                  && OthersStay(jobs, next, id) && id in next
                  && AttemptFailed(backend, jobs[id], next[id], errorLabel, retryAfterMs, now, options, later))
  {
    if Holds(jobs, id, owner) { AttemptFails(backend, jobs[id], errorLabel, retryAfterMs, clock, now, options, later); }
  }

  /**
   * A renewal keeps reclaims away for exactly the new lease. Exactly the owner gets one; SQL also asks that
   * the old lease has not run out.
   */
  lemma RenewMeans(
    backend: Backend, jobs: Jobs, id: JobId, owner: string, leaseMs: nat, clock: nat, now: nat, later: nat)
    requires JobsOk(jobs, clock) && clock <= now
    ensures var (next, answer) := Store(backend, jobs, Renew(id, owner, leaseMs), now);
            var granted := Holds(jobs, id, owner) && (backend.Memory? || jobs[id].leaseExpiresAt.value > now);
            && JobsOk(next, now)
            && answer == Done(granted)
            && (!granted ==> next == jobs)
            && (granted ==>
                  && OthersStay(jobs, next, id) && Holds(next, id, owner) && SameWork(jobs[id], next[id])
                  && next[id].attempt == jobs[id].attempt && next[id].startedAt == jobs[id].startedAt
                  && (LeaseIsOver(backend, next[id], later) <==> later >= now + leaseMs))
  {
    if id in jobs { assert JobOk(jobs[id], clock); }
  }

  function OverIn(backend: Backend, jobs: Jobs, now: nat): set<JobId> {
    set id | id in jobs && LeaseIsOver(backend, jobs[id], now)
  }

  ghost predicate ReclaimedRight(backend: Backend, job: Job, next: Job, now: nat) {
    if LeaseIsOver(backend, job, now) then
      && next.leaseOwner.None? && JobOk(next, now) && next.attempt == job.attempt && SameWork(job, next)
      && next.startedAt == job.startedAt && next.lastError == job.lastError
      && if job.attempt < job.maxAttempts then next.state.Retrying? && next.completedAt.None? && Due(next, now)
         else next.state.Failed? && next.completedAt == Some(now)
    else next == job
  }

  /**
   * A reclaim takes exactly the jobs whose lease is over from their owners, for another attempt or for
   * good, and counts them; a second one at the same time finds nothing left.
   */
  lemma ReclaimMeans(backend: Backend, jobs: Jobs, clock: nat, now: nat)
    requires JobsOk(jobs, clock) && clock <= now
    ensures var (next, answer) := Store(backend, jobs, ReclaimExpired, now);
            && next.Keys == jobs.Keys && answer == Count(|OverIn(backend, jobs, now)|)
            && (forall id :: id in jobs ==> ReclaimedRight(backend, jobs[id], next[id], now))
            && OverIn(backend, next, now) == {}
  {
    var next := Store(backend, jobs, ReclaimExpired, now).0;
    var taken := if backend.Memory? then Abandoned(jobs, now) else AbandonedRows(jobs, now);
    assert OverIn(backend, jobs, now) == taken && next == Reclaimed(jobs, taken, now);
    forall id | id in jobs ensures ReclaimedRight(backend, jobs[id], next[id], now) { assert JobOk(jobs[id], clock); }
    forall id | id in next ensures !LeaseIsOver(backend, next[id], now) {
      assert ReclaimedRight(backend, jobs[id], next[id], now);
    }
  }

  /** The job was completed, failed or cancelled, and has been so for this long. */
  predicate SettledFor(job: Job, ms: nat, now: nat) {
    && (job.state.Completed? || job.state.Failed? || job.state.Cancelled?)
    && now >= ms + if job.completedAt.Some? then job.completedAt.value else job.createdAt
  }

  /** Every state has its own counter. */
  lemma StatsMean(jobs: Jobs)
    ensures var stats := StatsOf(jobs);
            && stats.queued == |set id | id in jobs && jobs[id].state.Queued?|
            && stats.running == |set id | id in jobs && jobs[id].state.Running?|
            && stats.retrying == |set id | id in jobs && jobs[id].state.Retrying?|
            && stats.failed == |set id | id in jobs && jobs[id].state.Failed?|
            && stats.completed == |set id | id in jobs && jobs[id].state.Completed?|
            && stats.cancelled == |set id | id in jobs && jobs[id].state.Cancelled?|
  {
    forall state ensures InState(jobs, state) == set id | id in jobs && jobs[id].state == state {}
    assert InState(jobs, Queued) == set id | id in jobs && jobs[id].state.Queued?;
    assert InState(jobs, Running) == set id | id in jobs && jobs[id].state.Running?;
    assert InState(jobs, Retrying) == set id | id in jobs && jobs[id].state.Retrying?;
    assert InState(jobs, Failed) == set id | id in jobs && jobs[id].state.Failed?;
    assert InState(jobs, Completed) == set id | id in jobs && jobs[id].state.Completed?;
    assert InState(jobs, Cancelled) == set id | id in jobs && jobs[id].state.Cancelled?;
  }

  /** Pruning removes settled jobs only, counts them, and is done after one call. */
  lemma PruneMeans(backend: Backend, jobs: Jobs, olderThanMs: nat, now: nat)
    ensures var (next, answer) := Store(backend, jobs, Prune(olderThanMs), now);
            && answer.Count? && |next| + answer.count == |jobs|
            && (forall id :: id in next <==> id in jobs && !SettledFor(jobs[id], olderThanMs, now))
            && (forall id :: id in next ==> next[id] == jobs[id])
            && (forall id :: id in jobs && !Terminal(jobs[id].state) ==> id in next)
            && Store(backend, next, Prune(olderThanMs), now) == (next, Count(0))
  {
    var settled := OldJobs(jobs, olderThanMs, now);
    var next := jobs - settled;
    assert next.Keys == jobs.Keys - settled && |next| == |next.Keys| && |jobs| == |jobs.Keys|;
    assert settled <= jobs.Keys;
    assert OldJobs(next, olderThanMs, now) == {} && next - {} == next;
  }
}

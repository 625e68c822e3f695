/** The durable job ledger: one interface, an in-memory and a SQLite implementation, step by step. */
module JobLedger {
  import opened Wrappers

  datatype JobState = Queued | Running | Completed | Failed | Retrying | Cancelled

  /** Job ids, by the order that both implementations sort them in. */
  type JobId = nat

  datatype Job = Job(
    jobId: JobId, tenantId: Option<string>, kind: string, payload: string, state: JobState,
    createdAt: nat, startedAt: Option<nat>, completedAt: Option<nat>, attempt: nat, maxAttempts: int,
    leaseOwner: Option<string>, leaseExpiresAt: Option<nat>, lastError: Option<string>, runAfter: Option<nat>)

  type Jobs = map<JobId, Job>

  datatype ClaimOptions = ClaimOptions(
    owner: string, leaseMs: nat, types: Option<seq<string>>, tenantId: Option<string>)

  datatype EnqueueInput = EnqueueInput(
    jobId: JobId, tenantId: Option<string>, kind: string, payload: string, maxAttempts: int, runAfterMs: nat)

  predicate Terminal(state: JobState) { state.Completed? || state.Failed? || state.Cancelled? }

  predicate Due(job: Job, now: nat) { job.runAfter.None? || job.runAfter.value <= now }

  predicate Waiting(job: Job) { job.state.Queued? || job.state.Retrying? }

  function NewJob(input: EnqueueInput, now: nat): Job {
    Job(input.jobId, input.tenantId, input.kind, input.payload, Queued, now, None, None, 0, input.maxAttempts,
      None, None, None, if input.runAfterMs > 0 then Some(now + input.runAfterMs) else None)
  }

  /** An absent type list means any type; so does an empty one in SQL, but not in memory. */
  predicate TypeAllowed(kind: string, types: Option<seq<string>>) { types.None? || kind in types.value }

  predicate Claimable(job: Job, now: nat, options: ClaimOptions) {
    && Waiting(job) && Due(job, now) && TypeAllowed(job.kind, options.types)
    && (options.tenantId.Some? ==> job.tenantId == options.tenantId)
  }

  predicate Before(a: Job, b: Job) { a.createdAt < b.createdAt || (a.createdAt == b.createdAt && a.jobId < b.jobId) }

  /** Oldest first, then by id. */
  ghost predicate IsFirst(jobs: Jobs, now: nat, options: ClaimOptions, id: JobId) {
    && id in jobs && Claimable(jobs[id], now, options)
    && forall other ::
         other in jobs && other != id && Claimable(jobs[other], now, options) ==> Before(jobs[id], jobs[other])
  }

  ghost function First(jobs: Jobs, now: nat, options: ClaimOptions): Option<JobId> {
    if exists id :: IsFirst(jobs, now, options, id) then var id :| IsFirst(jobs, now, options, id); Some(id) else None
  }

  lemma FirstIsUnique(jobs: Jobs, now: nat, options: ClaimOptions, id: JobId)
    requires IsFirst(jobs, now, options, id)
    ensures First(jobs, now, options) == Some(id)
  {
    var chosen := First(jobs, now, options).value;
    assert IsFirst(jobs, now, options, chosen);
    assert Before(jobs[id], jobs[chosen]) ==> !Before(jobs[chosen], jobs[id]);
  }

  function Started(job: Job, now: nat, owner: string, leaseMs: nat): Job {
    job.(state := Running, attempt := job.attempt + 1,
         startedAt := if job.startedAt.Some? then job.startedAt else Some(now),
         leaseOwner := Some(owner), leaseExpiresAt := Some(now + leaseMs))
  }

  function Finished(job: Job, now: nat): Job {
    job.(state := Completed, completedAt := Some(now), leaseOwner := None, leaseExpiresAt := None)
  }

  /** A failed or abandoned attempt: another one if the budget allows. */
  function GivenUp(job: Job, now: nat): Job {
    var retry := job.attempt < job.maxAttempts;
    job.(state := if retry then Retrying else Failed, completedAt := if retry then None else Some(now),
         leaseOwner := None, leaseExpiresAt := None)
  }

  predicate OwnedBy(jobs: Jobs, id: JobId, owner: string) { id in jobs && jobs[id].leaseOwner == Some(owner) }

  predicate Expired(job: Job, now: nat) { job.leaseExpiresAt.Some? && job.leaseExpiresAt.value <= now }

  datatype Stats = Stats(queued: nat, running: nat, retrying: nat, failed: nat, completed: nat, cancelled: nat)

  function InState(jobs: Jobs, state: JobState): set<JobId> { set id | id in jobs && jobs[id].state == state }

  function StatsOf(jobs: Jobs): Stats {
    Stats(|InState(jobs, Queued)|, |InState(jobs, Running)|, |InState(jobs, Retrying)|, |InState(jobs, Failed)|,
      |InState(jobs, Completed)|, |InState(jobs, Cancelled)|)
  }

  /** Settled for at least `olderThanMs`. */
  predicate Old(job: Job, olderThanMs: nat, now: nat) {
    Terminal(job.state) && now - (if job.completedAt.Some? then job.completedAt.value else job.createdAt) >= olderThanMs
  }

  function OldJobs(jobs: Jobs, olderThanMs: nat, now: nat): set<JobId> {
    set id | id in jobs && Old(jobs[id], olderThanMs, now)
  }

  datatype Operation =
    | Enqueue(input: EnqueueInput)
    | Claim(options: ClaimOptions)
    | Complete(id: JobId, owner: string)
    | Fail(id: JobId, owner: string, errorLabel: string, retryAfterMs: nat)
    | Renew(id: JobId, owner: string, leaseMs: nat)
    | ReclaimExpired
    | Get(id: JobId)
    | Prune(olderThanMs: nat)
    | ReadStats

  datatype Answer =
    | Id(id: JobId)
    | Refused
    | Found(job: Option<Job>)
    | Done(ok: bool)
    | Count(count: nat)
    | Totals(stats: Stats)

  /** A job without its delay. */
  function View(job: Job): Job { job.(runAfter := None) }

  /** What a caller sees who never looks at `runAfter`. */
  function Glance(answer: Answer): Answer {
    if answer.Found? && answer.job.Some? then Found(Some(View(answer.job.value))) else answer
  }

  function Seen(jobs: Jobs, id: JobId): Answer { Found(if id in jobs then Some(jobs[id]) else None) }

  ghost function ClaimFirst(jobs: Jobs, now: nat, options: ClaimOptions, filter: ClaimOptions): (Jobs, Answer) {
    match First(jobs, now, filter)
    case None => (jobs, Found(None))
    case Some(id) =>
      if id in jobs then
        var started := Started(jobs[id], now, options.owner, options.leaseMs);
        (jobs[id := started], Found(Some(started)))
      else (jobs, Found(None))
  }

  // ----- in memory -----

  function FailedInMemory(job: Job, now: nat, errorLabel: string, retryAfterMs: nat): Job {
    var next := GivenUp(job, now).(lastError := Some(errorLabel));
    if job.attempt < job.maxAttempts && retryAfterMs > 0 then next.(runAfter := Some(now + retryAfterMs)) else next
  }

  predicate AbandonedInMemory(job: Job, now: nat) { job.state.Running? && Expired(job, now) }

  function Abandoned(jobs: Jobs, now: nat): set<JobId> { set id | id in jobs && AbandonedInMemory(jobs[id], now) }

  function Reclaimed(jobs: Jobs, ids: set<JobId>, now: nat): Jobs {
    map id | id in jobs :: if id in ids then GivenUp(jobs[id], now) else jobs[id]
  }

  ghost function MemoryStep(jobs: Jobs, op: Operation, now: nat): (Jobs, Answer) {
    match op
    case Enqueue(input) => (jobs[input.jobId := NewJob(input, now)], Id(input.jobId))
    case Claim(options) => ClaimFirst(jobs, now, options, options)
    case Complete(id, owner) =>
      if OwnedBy(jobs, id, owner) then (jobs[id := Finished(jobs[id], now)], Done(true)) else (jobs, Done(false))
    case Fail(id, owner, errorLabel, retryAfterMs) =>
      if OwnedBy(jobs, id, owner) then (jobs[id := FailedInMemory(jobs[id], now, errorLabel, retryAfterMs)], Done(true))
      else (jobs, Done(false))
    case Renew(id, owner, leaseMs) =>
      if OwnedBy(jobs, id, owner) then (jobs[id := jobs[id].(leaseExpiresAt := Some(now + leaseMs))], Done(true))
      else (jobs, Done(false))
    case ReclaimExpired => (Reclaimed(jobs, Abandoned(jobs, now), now), Count(|Abandoned(jobs, now)|))
    case Get(id) => (jobs, Seen(jobs, id))
    case Prune(olderThanMs) => (jobs - OldJobs(jobs, olderThanMs, now), Count(|OldJobs(jobs, olderThanMs, now)|))
    case ReadStats => (jobs, Totals(StatsOf(jobs)))
  }

  // ----- SQLite -----

  function FailedInSql(job: Job, now: nat, errorLabel: string, retryAfterMs: nat): Job {
    GivenUp(job, now).(
      lastError := Some(errorLabel),
      runAfter := if job.attempt < job.maxAttempts && retryAfterMs > 0 then Some(now + retryAfterMs) else None)
  }

  /** A missing lease counts as expired in SQL. */
  predicate AbandonedInSql(job: Job, now: nat) {
    job.state.Running? && (job.leaseExpiresAt.None? || job.leaseExpiresAt.value <= now)
  }

  function AbandonedRows(rows: Jobs, now: nat): set<JobId> { set id | id in rows && AbandonedInSql(rows[id], now) }

  /** An empty `types` list adds no condition to the statement. */
  function SqlFilter(options: ClaimOptions): ClaimOptions {
    if options.types == Some([]) then options.(types := None) else options
  }

  ghost function SqlStep(rows: Jobs, op: Operation, now: nat): (Jobs, Answer) {
    match op
    case Enqueue(input) =>
      if input.jobId in rows then (rows, Refused) else (rows[input.jobId := NewJob(input, now)], Id(input.jobId))
    case Claim(options) => ClaimFirst(rows, now, options, SqlFilter(options))
    case Complete(id, owner) =>
      if OwnedBy(rows, id, owner) then (rows[id := Finished(rows[id], now)], Done(true)) else (rows, Done(false))
    case Fail(id, owner, errorLabel, retryAfterMs) =>
      if OwnedBy(rows, id, owner) then (rows[id := FailedInSql(rows[id], now, errorLabel, retryAfterMs)], Done(true))
      else (rows, Done(false))
    case Renew(id, owner, leaseMs) =>
      if OwnedBy(rows, id, owner) && rows[id].leaseExpiresAt.Some? && rows[id].leaseExpiresAt.value > now
      then (rows[id := rows[id].(leaseExpiresAt := Some(now + leaseMs))], Done(true))
      else (rows, Done(false))
    case ReclaimExpired => (Reclaimed(rows, AbandonedRows(rows, now), now), Count(|AbandonedRows(rows, now)|))
    case Get(id) => (rows, Seen(rows, id))
    case Prune(olderThanMs) => (rows - OldJobs(rows, olderThanMs, now), Count(|OldJobs(rows, olderThanMs, now)|))
    case ReadStats => (rows, Totals(StatsOf(rows)))
  }

  // ----- either of them -----

  datatype Backend = Memory | Sqlite

  ghost function Store(backend: Backend, jobs: Jobs, op: Operation, now: nat): (Jobs, Answer) {
    if backend.Memory? then MemoryStep(jobs, op, now) else SqlStep(jobs, op, now)
  }

  // ----- what every run keeps -----

  function Budget(job: Job): nat { if job.maxAttempts < 1 then 1 else job.maxAttempts }

  /** Exactly a running job has an owner and a lease, its delay is over, and no attempt exceeds the budget. */
  predicate JobOk(job: Job, clock: nat) {
    && (job.state.Running? <==> job.leaseOwner.Some?) && (job.state.Running? <==> job.leaseExpiresAt.Some?)
    && (job.state.Running? ==> Due(job, clock) && job.attempt >= 1)
    && (job.state.Queued? ==> job.attempt == 0)
    && (job.state.Retrying? ==> job.attempt < job.maxAttempts)
    && job.attempt <= Budget(job)
  }

  ghost predicate JobsOk(jobs: Jobs, clock: nat) {
    forall id :: id in jobs ==> jobs[id].jobId == id && JobOk(jobs[id], clock)
  }

  ghost predicate JobsAgree(a: Job, b: Job, clock: nat) {
    && View(a) == View(b)
    && (Terminal(a.state) || a.runAfter == b.runAfter || (Due(a, clock) && Due(b, clock)))
  }

  /** The two ledgers hold the same jobs, up to delays that no longer matter. */
  ghost predicate Related(jobs: Jobs, rows: Jobs, clock: nat) {
    && jobs.Keys == rows.Keys && JobsOk(jobs, clock) && JobsOk(rows, clock)
    && forall id :: id in jobs ==> JobsAgree(jobs[id], rows[id], clock)
  }

  /** Exactly where the two implementations part. */
  ghost predicate Diverges(rows: Jobs, op: Operation, now: nat) {
    match op
    case Enqueue(input) => input.jobId in rows
    case Claim(options) =>
      options.types == Some([]) && exists id :: id in rows && Claimable(rows[id], now, SqlFilter(options))
    case Renew(id, owner, leaseMs) => OwnedBy(rows, id, owner) && Expired(rows[id], now)
    case _ => false
  }

  lemma ClaimableAgree(a: Job, b: Job, clock: nat, now: nat, options: ClaimOptions)
    requires JobsAgree(a, b, clock) && clock <= now
    ensures Claimable(a, now, options) <==> Claimable(b, now, options)
  {
    assert View(a).state == View(b).state;
  }

  lemma FirstAgree(jobs: Jobs, rows: Jobs, clock: nat, now: nat, options: ClaimOptions)
    requires Related(jobs, rows, clock) && clock <= now
    ensures First(jobs, now, options) == First(rows, now, options)
  {
    forall id | id in jobs ensures Claimable(jobs[id], now, options) <==> Claimable(rows[id], now, options) {
      ClaimableAgree(jobs[id], rows[id], clock, now, options);
    }
    forall id ensures IsFirst(jobs, now, options, id) <==> IsFirst(rows, now, options, id) {
      assert forall i :: i in jobs ==> View(jobs[i]).createdAt == View(rows[i]).createdAt;
    }
    if exists id :: IsFirst(jobs, now, options, id) {
      var id :| IsFirst(jobs, now, options, id);
      FirstIsUnique(jobs, now, options, id);
      FirstIsUnique(rows, now, options, id);
    }
  }

  /** Something claimable means something first: the order is total and the ledger finite. */
  lemma {:induction false} FirstExists(jobs: Jobs, now: nat, options: ClaimOptions, ids: set<JobId>)
    returns (first: JobId)
    requires ids <= jobs.Keys && (exists id :: id in ids && Claimable(jobs[id], now, options))
    requires forall id :: id in jobs ==> jobs[id].jobId == id
    ensures first in ids && Claimable(jobs[first], now, options)
    ensures forall other ::
              other in ids && other != first && Claimable(jobs[other], now, options) ==>
                Before(jobs[first], jobs[other])
    decreases |ids|
  {
    var id :| id in ids && Claimable(jobs[id], now, options);
    var rest := ids - {id};
    if exists other :: other in rest && Claimable(jobs[other], now, options) {
      first := FirstExists(jobs, now, options, rest);
      if Before(jobs[id], jobs[first]) { first := id; }
    } else {
      first := id;
    }
  }
}

/**
 * The two job stores give the same answers exactly where `Diverges` says nothing else, once a caller
 * leaves `runAfter` aside; one that reads it sees besides the delays that only memory keeps.
 */
module JobEquivalence {
  import opened Wrappers
  import opened JobLedger

  lemma TimePasses(jobs: Jobs, rows: Jobs, clock: nat, now: nat)
    requires Related(jobs, rows, clock) && clock <= now
    ensures Related(jobs, rows, now)
  {
  }

  /** Replacing one job by agreeing ones keeps the relation. */
  lemma ReplaceBoth(jobs: Jobs, rows: Jobs, now: nat, id: JobId, a: Job, b: Job)
    requires Related(jobs, rows, now)
    requires a.jobId == b.jobId == id && JobOk(a, now) && JobOk(b, now) && JobsAgree(a, b, now)
    ensures Related(jobs[id := a], rows[id := b], now)
  {
  }

  lemma EnqueueAgrees(jobs: Jobs, rows: Jobs, input: EnqueueInput, now: nat)
    requires Related(jobs, rows, now)
    ensures var m, s := MemoryStep(jobs, Enqueue(input), now), SqlStep(rows, Enqueue(input), now);
            && (Glance(m.1) == Glance(s.1) <==> !Diverges(rows, Enqueue(input), now))
            && (!Diverges(rows, Enqueue(input), now) ==> Related(m.0, s.0, now))
  {
    ReplaceBoth(jobs, rows, now, input.jobId, NewJob(input, now), NewJob(input, now));
  }

  /** A claim starts agreeing jobs alike. */
  lemma StartAgrees(a: Job, b: Job, now: nat, options: ClaimOptions)
    requires JobsAgree(a, b, now) && JobOk(a, now) && JobOk(b, now) && Claimable(a, now, options)
    requires Claimable(b, now, options)
    ensures var x, y :=
              Started(a, now, options.owner, options.leaseMs), Started(b, now, options.owner, options.leaseMs);
            JobsAgree(x, y, now) && JobOk(x, now) && JobOk(y, now) && View(x) == View(y)
  {
    assert View(a) == View(b);
    assert View(Started(a, now, options.owner, options.leaseMs))
             == Started(View(a), now, options.owner, options.leaseMs);
    assert View(Started(b, now, options.owner, options.leaseMs))
             == Started(View(b), now, options.owner, options.leaseMs);
  }

  lemma ClaimFirstAgrees(jobs: Jobs, rows: Jobs, now: nat, options: ClaimOptions, filter: ClaimOptions)
    requires Related(jobs, rows, now)
    ensures var m, s := ClaimFirst(jobs, now, options, filter), ClaimFirst(rows, now, options, filter);
            Glance(m.1) == Glance(s.1) && Related(m.0, s.0, now)
  {
    FirstAgree(jobs, rows, now, now, filter);
    var first := First(jobs, now, filter);
    if first.Some? {
      var id := first.value;
      assert IsFirst(jobs, now, filter, id) && IsFirst(rows, now, filter, id);
      var a, b := jobs[id], rows[id];
      StartAgrees(a, b, now, filter.(owner := options.owner, leaseMs := options.leaseMs));
      ReplaceBoth(jobs, rows, now, id, Started(a, now, options.owner, options.leaseMs),
        Started(b, now, options.owner, options.leaseMs));
    }
  }

  lemma ClaimAgrees(jobs: Jobs, rows: Jobs, options: ClaimOptions, now: nat)
    requires Related(jobs, rows, now)
    ensures var m, s := MemoryStep(jobs, Claim(options), now), SqlStep(rows, Claim(options), now);
            && (Glance(m.1) == Glance(s.1) <==> !Diverges(rows, Claim(options), now))
            && (!Diverges(rows, Claim(options), now) ==> Related(m.0, s.0, now))
  {
    var filter := SqlFilter(options);
    ClaimFirstAgrees(jobs, rows, now, options, filter);
    if options.types == Some([]) {
      assert forall id :: id in jobs ==> !Claimable(jobs[id], now, options);
      assert First(jobs, now, options) == None;
      if exists id :: id in rows && Claimable(rows[id], now, filter) {
        var first := FirstExists(rows, now, filter, rows.Keys);
        FirstIsUnique(rows, now, filter, first);
      } else {
        assert forall id :: !IsFirst(rows, now, filter, id);
      }
    } else {
      assert filter == options;
    }
  }

  lemma OwnersAgree(jobs: Jobs, rows: Jobs, now: nat, id: JobId, owner: string)
    requires Related(jobs, rows, now)
    ensures OwnedBy(jobs, id, owner) <==> OwnedBy(rows, id, owner)
    ensures OwnedBy(jobs, id, owner) ==>
              && View(jobs[id]) == View(rows[id]) && jobs[id].state.Running? && rows[id].state.Running?
              && JobOk(jobs[id], now) && JobOk(rows[id], now) && jobs[id].jobId == rows[id].jobId == id
  {
    assert id in jobs ==>
             View(jobs[id]).leaseOwner == View(rows[id]).leaseOwner && View(jobs[id]).state == View(rows[id]).state;
  }

  lemma CompleteAgrees(jobs: Jobs, rows: Jobs, id: JobId, owner: string, now: nat)
    requires Related(jobs, rows, now)
    ensures var m, s := MemoryStep(jobs, Complete(id, owner), now), SqlStep(rows, Complete(id, owner), now);
            Glance(m.1) == Glance(s.1) && Related(m.0, s.0, now)
  {
    OwnersAgree(jobs, rows, now, id, owner);
    if OwnedBy(jobs, id, owner) {
      var a, b := jobs[id], rows[id];
      assert View(Finished(a, now)) == Finished(View(a), now) && View(Finished(b, now)) == Finished(View(b), now);
      ReplaceBoth(jobs, rows, now, id, Finished(a, now), Finished(b, now));
    }
  }

  /** A failure keeps the old delay in memory and clears it in SQL; by then it is over. */
  lemma FailedAgree(a: Job, b: Job, now: nat, errorLabel: string, retryAfterMs: nat)
    requires View(a) == View(b) && a.state.Running? && b.state.Running? && JobOk(a, now) && JobOk(b, now)
    ensures var x, y := FailedInMemory(a, now, errorLabel, retryAfterMs), FailedInSql(b, now, errorLabel, retryAfterMs);
            JobsAgree(x, y, now) && JobOk(x, now) && JobOk(y, now) && x.jobId == a.jobId && y.jobId == b.jobId
  {
    assert View(a).attempt == View(b).attempt && View(a).maxAttempts == View(b).maxAttempts;
    assert View(GivenUp(a, now).(lastError := Some(errorLabel)))
             == GivenUp(View(a), now).(lastError := Some(errorLabel));
    assert View(GivenUp(b, now).(lastError := Some(errorLabel)))
             == GivenUp(View(b), now).(lastError := Some(errorLabel));
  }

  lemma FailAgrees(jobs: Jobs, rows: Jobs, id: JobId, owner: string, errorLabel: string, retryAfterMs: nat, now: nat)
    requires Related(jobs, rows, now)
    ensures var op := Fail(id, owner, errorLabel, retryAfterMs);
            var m, s := MemoryStep(jobs, op, now), SqlStep(rows, op, now);
            Glance(m.1) == Glance(s.1) && Related(m.0, s.0, now)
  {
    OwnersAgree(jobs, rows, now, id, owner);
    if OwnedBy(jobs, id, owner) {
      FailedAgree(jobs[id], rows[id], now, errorLabel, retryAfterMs);
      ReplaceBoth(jobs, rows, now, id, FailedInMemory(jobs[id], now, errorLabel, retryAfterMs),
        FailedInSql(rows[id], now, errorLabel, retryAfterMs));
    }
  }

  lemma RenewedAgree(jobs: Jobs, rows: Jobs, id: JobId, owner: string, leaseMs: nat, now: nat)
    requires Related(jobs, rows, now) && OwnedBy(jobs, id, owner) && OwnedBy(rows, id, owner)
    ensures Related(
              jobs[id := jobs[id].(leaseExpiresAt := Some(now + leaseMs))],
              rows[id := rows[id].(leaseExpiresAt := Some(now + leaseMs))], now)
  {
    OwnersAgree(jobs, rows, now, id, owner);
    var a, b := jobs[id], rows[id];
    var x, y := a.(leaseExpiresAt := Some(now + leaseMs)), b.(leaseExpiresAt := Some(now + leaseMs));
    assert View(x) == View(a).(leaseExpiresAt := Some(now + leaseMs))
           && View(y) == View(b).(leaseExpiresAt := Some(now + leaseMs));
    ReplaceBoth(jobs, rows, now, id, x, y);
  }

  /** Only SQL refuses to renew a lease that has run out. */
  lemma RenewAgrees(jobs: Jobs, rows: Jobs, id: JobId, owner: string, leaseMs: nat, now: nat)
    requires Related(jobs, rows, now)
    ensures var op := Renew(id, owner, leaseMs);
            var m, s := MemoryStep(jobs, op, now), SqlStep(rows, op, now);
            && (Glance(m.1) == Glance(s.1) <==> !Diverges(rows, op, now))
            && (!Diverges(rows, op, now) ==> Related(m.0, s.0, now))
  {
    OwnersAgree(jobs, rows, now, id, owner);
    if OwnedBy(jobs, id, owner) { RenewedAgree(jobs, rows, id, owner, leaseMs, now); }
  }

  /** A running job always has a lease, so both give it up alike. */
  lemma GivenUpAgree(a: Job, b: Job, now: nat)
    requires JobsAgree(a, b, now) && JobOk(a, now) && JobOk(b, now) && a.jobId == b.jobId
    ensures AbandonedInMemory(a, now) <==> AbandonedInSql(b, now)
    ensures AbandonedInMemory(a, now) ==>
              var x, y := GivenUp(a, now), GivenUp(b, now);
              JobsAgree(x, y, now) && JobOk(x, now) && JobOk(y, now) && x.jobId == y.jobId == a.jobId
  {
    assert View(a).leaseExpiresAt == View(b).leaseExpiresAt && View(a).state == View(b).state;
    assert View(GivenUp(a, now)) == GivenUp(View(a), now) && View(GivenUp(b, now)) == GivenUp(View(b), now);
  }

  /** Giving the same jobs up keeps the relation, if it does for each of them. */
  lemma GiveBothUp(jobs: Jobs, rows: Jobs, ids: set<JobId>, now: nat)
    requires Related(jobs, rows, now)
    requires forall id :: id in jobs && id in ids ==> AbandonedInMemory(jobs[id], now)
    ensures Related(Reclaimed(jobs, ids, now), Reclaimed(rows, ids, now), now)
  {
    var m, s := Reclaimed(jobs, ids, now), Reclaimed(rows, ids, now);
    forall id | id in m
      ensures JobsAgree(m[id], s[id], now) && JobOk(m[id], now) && JobOk(s[id], now) && m[id].jobId == id
      ensures s[id].jobId == id
    {
      GivenUpAgree(jobs[id], rows[id], now);
    }
  }

  /** Because a running job always has a lease, both give up the same jobs. */
  lemma ReclaimAgrees(jobs: Jobs, rows: Jobs, now: nat)
    requires Related(jobs, rows, now)
    ensures var m, s := MemoryStep(jobs, ReclaimExpired, now), SqlStep(rows, ReclaimExpired, now);
            Glance(m.1) == Glance(s.1) && Related(m.0, s.0, now)
  {
    var ids := Abandoned(jobs, now);
    forall id | id in jobs ensures AbandonedInMemory(jobs[id], now) <==> AbandonedInSql(rows[id], now) {
      GivenUpAgree(jobs[id], rows[id], now);
    }
    assert ids == AbandonedRows(rows, now);
    GiveBothUp(jobs, rows, ids, now);
  }

  lemma PruneAgrees(jobs: Jobs, rows: Jobs, olderThanMs: nat, now: nat)
    requires Related(jobs, rows, now)
    ensures var m, s := MemoryStep(jobs, Prune(olderThanMs), now), SqlStep(rows, Prune(olderThanMs), now);
            Glance(m.1) == Glance(s.1) && Related(m.0, s.0, now)
  {
    forall id | id in jobs ensures Old(jobs[id], olderThanMs, now) <==> Old(rows[id], olderThanMs, now) {
      var a, b := View(jobs[id]), View(rows[id]);
      assert a.state == b.state && a.completedAt == b.completedAt && a.createdAt == b.createdAt;
    }
    assert OldJobs(jobs, olderThanMs, now) == OldJobs(rows, olderThanMs, now);
  }

  lemma StatsAgree(jobs: Jobs, rows: Jobs, now: nat)
    requires Related(jobs, rows, now)
    ensures StatsOf(jobs) == StatsOf(rows)
  {
    forall state ensures InState(jobs, state) == InState(rows, state) {
      forall id | id in jobs ensures jobs[id].state == rows[id].state {
        assert View(jobs[id]).state == View(rows[id]).state;
      }
    }
  }

  /**
   * One operation: the answers are equal but for `runAfter`, and the ledgers stay related, exactly when
   * it does not diverge.
   */
  lemma StepAgrees(jobs: Jobs, rows: Jobs, op: Operation, clock: nat, now: nat)
    requires Related(jobs, rows, clock) && clock <= now
    ensures Glance(MemoryStep(jobs, op, now).1) == Glance(SqlStep(rows, op, now).1) <==> !Diverges(rows, op, now)
    ensures !Diverges(rows, op, now) ==> Related(MemoryStep(jobs, op, now).0, SqlStep(rows, op, now).0, now)
  {
    TimePasses(jobs, rows, clock, now);
    match op
    case Enqueue(input) => EnqueueAgrees(jobs, rows, input, now);
    case Claim(options) => ClaimAgrees(jobs, rows, options, now);
    case Complete(id, owner) => CompleteAgrees(jobs, rows, id, owner, now);
    case Fail(id, owner, errorLabel, retryAfterMs) => FailAgrees(jobs, rows, id, owner, errorLabel, retryAfterMs, now);
    case Renew(id, owner, leaseMs) => RenewAgrees(jobs, rows, id, owner, leaseMs, now);
    case ReclaimExpired => ReclaimAgrees(jobs, rows, now);
    case Get(id) => { assert id in jobs ==> JobsAgree(jobs[id], rows[id], now); }
    case Prune(olderThanMs) => PruneAgrees(jobs, rows, olderThanMs, now);
    case ReadStats => StatsAgree(jobs, rows, now);
  }

  // ----- the delays -----

  predicate KeptBy(a: Job, b: Job, kept: bool) {
    if kept then a.runAfter.Some? && b.runAfter.None? else a.runAfter == b.runAfter
  }

  /** The jobs in `kept` have a delay in memory that SQL has cleared; the others have the same one. */
  ghost predicate DelaysDiffer(jobs: Jobs, rows: Jobs, kept: set<JobId>) {
    && jobs.Keys == rows.Keys
    && forall id :: id in jobs ==> KeptBy(jobs[id], rows[id], id in kept)
  }

  /** A failure without a new delay: memory keeps the old one, SQL clears it. */
  function KeptAfter(rows: Jobs, kept: set<JobId>, op: Operation): set<JobId> {
    match op
    case Enqueue(input) => kept - {input.jobId}
    case Fail(id, owner, _, retryAfterMs) =>
      if !OwnedBy(rows, id, owner) then kept
      else if rows[id].attempt < rows[id].maxAttempts && retryAfterMs > 0 then kept - {id}
      else if rows[id].runAfter.Some? then kept + {id}
      else kept
    case _ => kept
  }

  /** The answer shows a job whose delay only memory has kept. */
  ghost predicate ShowsKept(rows: Jobs, kept: set<JobId>, op: Operation, now: nat) {
    match op
    case Get(id) => id in rows && id in kept
    case Claim(options) => var first := First(rows, now, options); first.Some? && first.value in kept
    case _ => false
  }

  /** Replacing one job keeps the delays of the others. */
  lemma ReplaceDelays(jobs: Jobs, rows: Jobs, kept: set<JobId>, after: set<JobId>, id: JobId, a: Job, b: Job)
    requires DelaysDiffer(jobs, rows, kept) && KeptBy(a, b, id in after)
    requires forall other :: other != id ==> (other in kept <==> other in after)
    ensures DelaysDiffer(jobs[id := a], rows[id := b], after)
  {
  }

  lemma SameButDelay(a: Job, b: Job, kept: bool)
    requires View(a) == View(b) && KeptBy(a, b, kept)
    ensures a == b <==> !kept
  {
    assert a == View(a).(runAfter := a.runAfter) && b == View(b).(runAfter := b.runAfter);
  }

  lemma StartedInFull(jobs: Jobs, rows: Jobs, kept: set<JobId>, now: nat, options: ClaimOptions)
    requires Related(jobs, rows, now) && DelaysDiffer(jobs, rows, kept)
    ensures var m, s := ClaimFirst(jobs, now, options, options), ClaimFirst(rows, now, options, options);
            && (m.1 == s.1 <==> !ShowsKept(rows, kept, Claim(options), now))
            && DelaysDiffer(m.0, s.0, kept)
  {
    FirstAgree(jobs, rows, now, now, options);
    var first := First(jobs, now, options);
    if first.Some? {
      var id := first.value;
      assert IsFirst(jobs, now, options, id) && IsFirst(rows, now, options, id);
      var a, b := jobs[id], rows[id];
      assert KeptBy(a, b, id in kept) && JobsAgree(a, b, now) && JobOk(a, now) && JobOk(b, now);
      StartAgrees(a, b, now, options);
      var x, y := Started(a, now, options.owner, options.leaseMs), Started(b, now, options.owner, options.leaseMs);
      SameButDelay(x, y, id in kept);
      ReplaceDelays(jobs, rows, kept, kept, id, x, y);
    }
  }

  lemma NothingToClaim(jobs: Jobs, now: nat, options: ClaimOptions, filter: ClaimOptions)
    requires forall id :: id in jobs ==> !Claimable(jobs[id], now, filter)
    ensures First(jobs, now, filter) == None
    ensures ClaimFirst(jobs, now, options, filter) == (jobs, Found(None))
  {
    assert forall id :: !IsFirst(jobs, now, filter, id);
  }

  lemma ClaimNothingInFull(jobs: Jobs, rows: Jobs, options: ClaimOptions, now: nat)
    requires options.types == Some([]) && !Diverges(rows, Claim(options), now)
    ensures MemoryStep(jobs, Claim(options), now) == (jobs, Found(None))
    ensures SqlStep(rows, Claim(options), now) == (rows, Found(None))
    ensures First(rows, now, options) == None
  {
    NothingToClaim(jobs, now, options, options);
    NothingToClaim(rows, now, options, options);
    NothingToClaim(rows, now, options, SqlFilter(options));
  }

  lemma ClaimInFull(jobs: Jobs, rows: Jobs, kept: set<JobId>, options: ClaimOptions, now: nat)
    requires Related(jobs, rows, now) && DelaysDiffer(jobs, rows, kept) && !Diverges(rows, Claim(options), now)
    ensures var op := Claim(options);
            var m, s := MemoryStep(jobs, op, now), SqlStep(rows, op, now);
            DelaysDiffer(m.0, s.0, kept) && (m.1 == s.1 <==> !ShowsKept(rows, kept, op, now))
  {
    if options.types == Some([]) {
      ClaimNothingInFull(jobs, rows, options, now);
    } else {
      StartedInFull(jobs, rows, kept, now, options);
    }
  }

  lemma FailInFull(
    jobs: Jobs, rows: Jobs, kept: set<JobId>, id: JobId, owner: string, errorLabel: string, retryAfterMs: nat, now: nat)
    requires Related(jobs, rows, now) && DelaysDiffer(jobs, rows, kept)
    ensures var op := Fail(id, owner, errorLabel, retryAfterMs);
            DelaysDiffer(MemoryStep(jobs, op, now).0, SqlStep(rows, op, now).0, KeptAfter(rows, kept, op))
  {
    OwnersAgree(jobs, rows, now, id, owner);
    if OwnedBy(jobs, id, owner) {
      var a, b := jobs[id], rows[id];
      assert View(a).attempt == View(b).attempt && View(a).maxAttempts == View(b).maxAttempts
             && KeptBy(a, b, id in kept);
      ReplaceDelays(jobs, rows, kept, KeptAfter(rows, kept, Fail(id, owner, errorLabel, retryAfterMs)), id,
        FailedInMemory(a, now, errorLabel, retryAfterMs), FailedInSql(b, now, errorLabel, retryAfterMs));
    }
  }

  lemma ReclaimInFull(jobs: Jobs, rows: Jobs, kept: set<JobId>, now: nat)
    requires Related(jobs, rows, now) && DelaysDiffer(jobs, rows, kept)
    ensures DelaysDiffer(MemoryStep(jobs, ReclaimExpired, now).0, SqlStep(rows, ReclaimExpired, now).0, kept)
  {
    var m, s := MemoryStep(jobs, ReclaimExpired, now).0, SqlStep(rows, ReclaimExpired, now).0;
    forall id | id in m ensures KeptBy(m[id], s[id], id in kept) {
      assert m[id].runAfter == jobs[id].runAfter && s[id].runAfter == rows[id].runAfter;
    }
  }

  lemma CompleteInFull(jobs: Jobs, rows: Jobs, kept: set<JobId>, id: JobId, owner: string, now: nat)
    requires Related(jobs, rows, now) && DelaysDiffer(jobs, rows, kept)
    ensures DelaysDiffer(MemoryStep(jobs, Complete(id, owner), now).0, SqlStep(rows, Complete(id, owner), now).0, kept)
  {
    OwnersAgree(jobs, rows, now, id, owner);
    if OwnedBy(jobs, id, owner) {
      assert KeptBy(jobs[id], rows[id], id in kept);
      ReplaceDelays(jobs, rows, kept, kept, id, Finished(jobs[id], now), Finished(rows[id], now));
    }
  }

  lemma RenewInFull(jobs: Jobs, rows: Jobs, kept: set<JobId>, id: JobId, owner: string, leaseMs: nat, now: nat)
    requires Related(jobs, rows, now) && DelaysDiffer(jobs, rows, kept)
    requires !Diverges(rows, Renew(id, owner, leaseMs), now)
    ensures var op := Renew(id, owner, leaseMs);
            DelaysDiffer(MemoryStep(jobs, op, now).0, SqlStep(rows, op, now).0, kept)
  {
    OwnersAgree(jobs, rows, now, id, owner);
    if OwnedBy(jobs, id, owner) {
      var lease := Some(now + leaseMs);
      assert KeptBy(jobs[id], rows[id], id in kept) && rows[id].leaseExpiresAt.Some?;
      ReplaceDelays(jobs, rows, kept, kept, id, jobs[id].(leaseExpiresAt := lease), rows[id].(leaseExpiresAt := lease));
    }
  }

  lemma PruneInFull(jobs: Jobs, rows: Jobs, kept: set<JobId>, olderThanMs: nat, now: nat)
    requires Related(jobs, rows, now) && DelaysDiffer(jobs, rows, kept)
    ensures var op := Prune(olderThanMs);
            DelaysDiffer(MemoryStep(jobs, op, now).0, SqlStep(rows, op, now).0, kept)
  {
    PruneAgrees(jobs, rows, olderThanMs, now);
  }

  /** The delays after one operation that does not diverge. */
  lemma StepKeepsDelays(jobs: Jobs, rows: Jobs, kept: set<JobId>, op: Operation, now: nat)
    requires Related(jobs, rows, now) && DelaysDiffer(jobs, rows, kept) && !Diverges(rows, op, now)
    ensures DelaysDiffer(MemoryStep(jobs, op, now).0, SqlStep(rows, op, now).0, KeptAfter(rows, kept, op))
  {
    match op
    case Enqueue(input) =>
      ReplaceDelays(jobs, rows, kept, kept - {input.jobId}, input.jobId, NewJob(input, now), NewJob(input, now));
    case Claim(options) => ClaimInFull(jobs, rows, kept, options, now);
    case Complete(id, owner) => CompleteInFull(jobs, rows, kept, id, owner, now);
    case Fail(id, owner, errorLabel, retryAfterMs) =>
      FailInFull(jobs, rows, kept, id, owner, errorLabel, retryAfterMs, now);
    case Renew(id, owner, leaseMs) => RenewInFull(jobs, rows, kept, id, owner, leaseMs, now);
    case ReclaimExpired => ReclaimInFull(jobs, rows, kept, now);
    case Prune(olderThanMs) => PruneInFull(jobs, rows, kept, olderThanMs, now);
    case _ =>
  }

  /** Only `get` and `claim` show a job; every other answer is all that a caller sees of it. */
  lemma OtherAnswersShowNothing(jobs: Jobs, op: Operation, now: nat)
    requires !op.Get? && !op.Claim?
    ensures Glance(MemoryStep(jobs, op, now).1) == MemoryStep(jobs, op, now).1
    ensures Glance(SqlStep(jobs, op, now).1) == SqlStep(jobs, op, now).1
  {
  }

  /** One operation, delays included. */
  lemma StepAgreesInFull(jobs: Jobs, rows: Jobs, kept: set<JobId>, op: Operation, clock: nat, now: nat)
    requires Related(jobs, rows, clock) && DelaysDiffer(jobs, rows, kept) && clock <= now
    ensures MemoryStep(jobs, op, now).1 == SqlStep(rows, op, now).1
       <==> !Diverges(rows, op, now) && !ShowsKept(rows, kept, op, now)
    ensures !Diverges(rows, op, now) ==>
              DelaysDiffer(MemoryStep(jobs, op, now).0, SqlStep(rows, op, now).0, KeptAfter(rows, kept, op))
  {
    TimePasses(jobs, rows, clock, now);
    if !Diverges(rows, op, now) { StepKeepsDelays(jobs, rows, kept, op, now); }
    if op.Get? {
      if op.id in jobs {
        assert JobsAgree(jobs[op.id], rows[op.id], now) && KeptBy(jobs[op.id], rows[op.id], op.id in kept);
        SameButDelay(jobs[op.id], rows[op.id], op.id in kept);
      }
    } else if op.Claim? && !Diverges(rows, op, now) {
      ClaimInFull(jobs, rows, kept, op.options, now);
    } else if op.Claim? {
      ClaimAgrees(jobs, rows, op.options, now);
    } else {
      StepAgrees(jobs, rows, op, clock, now);
      OtherAnswersShowNothing(jobs, op, now);
      OtherAnswersShowNothing(rows, op, now);
    }
  }

  // ----- whole runs -----

  datatype Call = Call(op: Operation, now: nat)

  ghost predicate InOrder(calls: seq<Call>, clock: nat) {
    calls == [] || (clock <= calls[0].now && InOrder(calls[1..], calls[0].now))
  }

  ghost function MemoryAnswers(jobs: Jobs, calls: seq<Call>): (answers: seq<Answer>)
    ensures |answers| == |calls|
    decreases |calls|
  {
    if calls == [] then []
    else
      var next := MemoryStep(jobs, calls[0].op, calls[0].now);
      [next.1] + MemoryAnswers(next.0, calls[1..])
  }

  ghost function SqlAnswers(rows: Jobs, calls: seq<Call>): (answers: seq<Answer>)
    ensures |answers| == |calls|
    decreases |calls|
  {
    if calls == [] then []
    else
      var next := SqlStep(rows, calls[0].op, calls[0].now);
      [next.1] + SqlAnswers(next.0, calls[1..])
  }

  /** Some call of the run diverges in the state it meets. */
  ghost predicate SomeCallDiverges(rows: Jobs, calls: seq<Call>)
    decreases |calls|
  {
    calls != [] && (
      || Diverges(rows, calls[0].op, calls[0].now)
      || SomeCallDiverges(SqlStep(rows, calls[0].op, calls[0].now).0, calls[1..]))
  }

  /** Some call of the run diverges or shows a delay that only memory has kept. */
  ghost predicate SomeCallTells(rows: Jobs, kept: set<JobId>, calls: seq<Call>)
    decreases |calls|
  {
    calls != [] && (
      || Diverges(rows, calls[0].op, calls[0].now)
      || ShowsKept(rows, kept, calls[0].op, calls[0].now)
      || SomeCallTells(SqlStep(rows, calls[0].op, calls[0].now).0, KeptAfter(rows, kept, calls[0].op), calls[1..]))
  }

  function Glances(answers: seq<Answer>): (seen: seq<Answer>)
    ensures |seen| == |answers|
  {
    if answers == [] then [] else [Glance(answers[0])] + Glances(answers[1..])
  }

  lemma ConsEqual<T>(x: T, xs: seq<T>, y: T, ys: seq<T>)
    ensures [x] + xs == [y] + ys <==> x == y && xs == ys
    ensures ([x] + xs)[0] == x && ([x] + xs)[1..] == xs
  {
    assert ([x] + xs)[0] == x && ([y] + ys)[0] == y;
    assert ([x] + xs)[1..] == xs && ([y] + ys)[1..] == ys;
  }

  /**
   * Whatever is called, in whatever order: a caller that never looks at `runAfter` can tell the two
   * stores apart iff some call diverges.
   */
  lemma {:induction false} RunsAgree(jobs: Jobs, rows: Jobs, calls: seq<Call>, clock: nat)
    requires Related(jobs, rows, clock) && InOrder(calls, clock)
    ensures Glances(MemoryAnswers(jobs, calls)) == Glances(SqlAnswers(rows, calls)) <==> !SomeCallDiverges(rows, calls)
    decreases |calls|
  {
    if calls != [] {
      var op, now := calls[0].op, calls[0].now;
      var m, s := MemoryStep(jobs, op, now), SqlStep(rows, op, now);
      StepAgrees(jobs, rows, op, clock, now);
      var rest, restRows := MemoryAnswers(m.0, calls[1..]), SqlAnswers(s.0, calls[1..]);
      ConsEqual(m.1, rest, s.1, restRows);
      ConsEqual(s.1, restRows, m.1, rest);
      ConsEqual(Glance(m.1), Glances(rest), Glance(s.1), Glances(restRows));
      if !Diverges(rows, op, now) { RunsAgree(m.0, s.0, calls[1..], now); }
    }
  }

  /** A caller that reads `runAfter` can tell them apart iff some call diverges or shows a kept delay. */
  lemma {:induction false} RunsAgreeInFull(jobs: Jobs, rows: Jobs, kept: set<JobId>, calls: seq<Call>, clock: nat)
    requires Related(jobs, rows, clock) && DelaysDiffer(jobs, rows, kept) && InOrder(calls, clock)
    ensures MemoryAnswers(jobs, calls) == SqlAnswers(rows, calls) <==> !SomeCallTells(rows, kept, calls)
    decreases |calls|
  {
    if calls != [] {
      var op, now := calls[0].op, calls[0].now;
      var m, s := MemoryStep(jobs, op, now), SqlStep(rows, op, now);
      StepAgrees(jobs, rows, op, clock, now);
      StepAgreesInFull(jobs, rows, kept, op, clock, now);
      ConsEqual(m.1, MemoryAnswers(m.0, calls[1..]), s.1, SqlAnswers(s.0, calls[1..]));
      if !Diverges(rows, op, now) { RunsAgreeInFull(m.0, s.0, KeptAfter(rows, kept, op), calls[1..], now); }
    }
  }

  /** From two new stores, without and with the delays. */
  lemma NewStoresAgree(calls: seq<Call>)
    requires InOrder(calls, 0)
    ensures Glances(MemoryAnswers(map[], calls)) == Glances(SqlAnswers(map[], calls))
       <==> !SomeCallDiverges(map[], calls)
    ensures MemoryAnswers(map[], calls) == SqlAnswers(map[], calls) <==> !SomeCallTells(map[], {}, calls)
  {
    RunsAgree(map[], map[], calls, 0);
    RunsAgreeInFull(map[], map[], {}, calls, 0);
  }

  /** The calls on one job whose delay has run out: claimed, failed without a new delay, looked at. */
  function DelayedCalls(input: EnqueueInput, claim: ClaimOptions, errorLabel: string): seq<Call> {
    var later := input.runAfterMs;
    [Call(Enqueue(input), 0), Call(Claim(claim), later), Call(Fail(input.jobId, claim.owner, errorLabel, 0), later),
     Call(Get(input.jobId), later)]
  }

  lemma OnlyJobIsFirst(job: Job, now: nat, options: ClaimOptions)
    requires Claimable(job, now, options)
    ensures First(map[job.jobId := job], now, options) == Some(job.jobId)
  {
    FirstIsUnique(map[job.jobId := job], now, options, job.jobId);
  }

  /** Such calls never diverge, and yet the full answers differ. */
  lemma KeptDelayShows(input: EnqueueInput, claim: ClaimOptions, errorLabel: string)
    requires input.runAfterMs > 0 && claim.types.None? && claim.tenantId.None?
    ensures var calls := DelayedCalls(input, claim, errorLabel);
            && !SomeCallDiverges(map[], calls)
            && MemoryAnswers(map[], calls) != SqlAnswers(map[], calls)
  {
    var calls, later, id := DelayedCalls(input, claim, errorLabel), input.runAfterMs, input.jobId;
    var job := NewJob(input, 0);
    OnlyJobIsFirst(job, later, claim);
    var started := Started(job, later, claim.owner, claim.leaseMs);
    var rows1, rows2 := map[id := job], map[id := started];
    var rows3 := map[id := FailedInSql(started, later, errorLabel, 0)];
    assert map[][id := job] == rows1 && rows1[id := started] == rows2 && rows2[id := rows3[id]] == rows3;
    assert calls[1..][1..] == calls[2..] && calls[2..][1..] == calls[3..] && calls[3..][1..] == [];
    assert SomeCallTells(rows3, {id}, calls[3..]) && !SomeCallDiverges(rows3, calls[3..]);
    assert SomeCallTells(rows2, {}, calls[2..]) && !SomeCallDiverges(rows2, calls[2..]);
    assert SomeCallTells(rows1, {}, calls[1..]) && !SomeCallDiverges(rows1, calls[1..]);
    assert SqlStep(map[], calls[0].op, 0).0 == rows1 && KeptAfter(map[], {}, calls[0].op) == {};
    assert SomeCallTells(map[], {}, calls) && !SomeCallDiverges(map[], calls);
    assert InOrder(calls[3..], later) && InOrder(calls[2..], later) && InOrder(calls[1..], 0);
    NewStoresAgree(calls);
  }
}

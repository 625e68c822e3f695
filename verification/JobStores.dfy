/** The two stores as objects; every call is one step of the ledger. */
module JobStores {
  import opened Wrappers
  import opened JobLedger

  /** The first claimable job: oldest, then smallest id. */
  method SelectFirst(jobs: Jobs, now: nat, options: ClaimOptions) returns (first: Option<JobId>)
    requires forall id :: id in jobs ==> jobs[id].jobId == id
    ensures first == First(jobs, now, options)
  {
    first := None;
    var pending := jobs.Keys;
    while pending != {}
      invariant pending <= jobs.Keys
      invariant first.None? ==> forall id :: id in jobs && id !in pending ==> !Claimable(jobs[id], now, options)
      invariant first.Some? ==> first.value in jobs && Claimable(jobs[first.value], now, options)
      invariant first.Some? ==> forall id ::
                  id in jobs && id !in pending && id != first.value && Claimable(jobs[id], now, options) ==>
                    Before(jobs[first.value], jobs[id])
    {
      var id :| id in pending;
      pending := pending - {id};
      if Claimable(jobs[id], now, options) && (first.None? || Before(jobs[id], jobs[first.value])) {
        first := Some(id);
      }
    }
    if first.Some? {
      FirstIsUnique(jobs, now, options, first.value);
    } else {
      assert forall id :: !IsFirst(jobs, now, options, id);
    }
  }

  lemma CountVisited(ids: set<JobId>, pending: set<JobId>, id: JobId)
    requires id in pending
    ensures |ids - (pending - {id})| == |ids - pending| + if id in ids then 1 else 0
  {
    if id in ids {
      assert ids - (pending - {id}) == (ids - pending) + {id};
    } else {
      assert ids - (pending - {id}) == ids - pending;
    }
  }

  lemma ReclaimVisited(before: Jobs, abandoned: set<JobId>, pending: set<JobId>, id: JobId, now: nat)
    requires id in pending && pending <= before.Keys
    ensures var visited, next :=
              Reclaimed(before, abandoned - pending, now), Reclaimed(before, abandoned - (pending - {id}), now);
            && id in visited && visited[id] == before[id]
            && next == if id in abandoned then visited[id := GivenUp(before[id], now)] else visited
  {
  }

  lemma PruneVisited(before: Jobs, settled: set<JobId>, pending: set<JobId>, id: JobId)
    requires id in pending && pending <= before.Keys
    ensures var visited := before - (settled - pending);
            && id in visited && visited[id] == before[id]
            && before - (settled - (pending - {id})) == if id in settled then visited - {id} else visited
  {
  }

  lemma InStateWithout(jobs: Jobs, gone: set<JobId>, state: JobState)
    ensures InState(jobs - gone, state) == InState(jobs, state) - gone
  {
  }

  /** One more job counts once, under its own state. */
  lemma CountOne(jobs: Jobs, pending: set<JobId>, id: JobId)
    requires id in pending && pending <= jobs.Keys
    ensures forall state ::
              |InState(jobs - (pending - {id}), state)|
                == |InState(jobs - pending, state)| + if jobs[id].state == state then 1 else 0
  {
    forall state
      ensures |InState(jobs - (pending - {id}), state)|
                == |InState(jobs - pending, state)| + if jobs[id].state == state then 1 else 0
    {
      InStateWithout(jobs, pending, state);
      InStateWithout(jobs, pending - {id}, state);
      CountVisited(InState(jobs, state), pending, id);
    }
  }

  class InMemoryJobStore {
    var jobs: Jobs

    constructor ()
      ensures jobs == map[]
    {
      jobs := map[];
    }

    ghost predicate Valid() reads this { forall id :: id in jobs ==> jobs[id].jobId == id }

    /** A second job with the same id replaces the first. */
    method Enqueue(input: EnqueueInput, now: nat) returns (answer: Answer)
      requires Valid()
      modifies this
      ensures Valid() && (jobs, answer) == MemoryStep(old(jobs), Operation.Enqueue(input), now)
    {
      jobs := jobs[input.jobId := NewJob(input, now)];
      answer := Id(input.jobId);
    }

    method Claim(options: ClaimOptions, now: nat) returns (answer: Answer)
      requires Valid()
      modifies this
      ensures Valid() && (jobs, answer) == MemoryStep(old(jobs), Operation.Claim(options), now)
    {
      var candidate := SelectFirst(jobs, now, options);
      if candidate.None? { return Found(None); }
      var claimed := Started(jobs[candidate.value], now, options.owner, options.leaseMs);
      jobs := jobs[candidate.value := claimed];
      answer := Found(Some(claimed));
    }

    method Complete(id: JobId, owner: string, now: nat) returns (answer: Answer)
      requires Valid()
      modifies this
      ensures Valid() && (jobs, answer) == MemoryStep(old(jobs), Operation.Complete(id, owner), now)
    {
      if id !in jobs || jobs[id].leaseOwner != Some(owner) { return Done(false); }
      jobs := jobs[id := Finished(jobs[id], now)];
      answer := Done(true);
    }

    method Fail(id: JobId, owner: string, errorLabel: string, retryAfterMs: nat, now: nat) returns (answer: Answer)
      requires Valid()
      modifies this
      ensures Valid()
      ensures (jobs, answer) == MemoryStep(old(jobs), Operation.Fail(id, owner, errorLabel, retryAfterMs), now)
    {
      if id !in jobs || jobs[id].leaseOwner != Some(owner) { return Done(false); }
      jobs := jobs[id := FailedInMemory(jobs[id], now, errorLabel, retryAfterMs)];
      answer := Done(true);
    }

    method Renew(id: JobId, owner: string, leaseMs: nat, now: nat) returns (answer: Answer)
      requires Valid()
      modifies this
      ensures Valid() && (jobs, answer) == MemoryStep(old(jobs), Operation.Renew(id, owner, leaseMs), now)
    {
      if id !in jobs || jobs[id].leaseOwner != Some(owner) { return Done(false); }
      jobs := jobs[id := jobs[id].(leaseExpiresAt := Some(now + leaseMs))];
      answer := Done(true);
    }

    method ReclaimExpired(now: nat) returns (answer: Answer)
      requires Valid()
      modifies this
      ensures Valid() && (jobs, answer) == MemoryStep(old(jobs), Operation.ReclaimExpired, now)
    {
      ghost var before, abandoned := jobs, Abandoned(jobs, now);
      assert Reclaimed(jobs, {}, now) == jobs && abandoned - jobs.Keys == {};
      var pending, reclaimed := jobs.Keys, 0;
      while pending != {}
        invariant pending <= before.Keys
        invariant jobs == Reclaimed(before, abandoned - pending, now)
        invariant reclaimed == |abandoned - pending|
      {
        var id :| id in pending;
        CountVisited(abandoned, pending, id);
        ReclaimVisited(before, abandoned, pending, id, now);
        pending := pending - {id};
        var job := jobs[id];
        if job.state.Running? && job.leaseExpiresAt.Some? && job.leaseExpiresAt.value <= now {
          jobs := jobs[id := GivenUp(job, now)];
          reclaimed := reclaimed + 1;
        }
      }
      assert abandoned - {} == abandoned;
      answer := Count(reclaimed);
    }

    method Get(id: JobId, ghost now: nat) returns (job: Option<Job>)
      ensures MemoryStep(jobs, Operation.Get(id), now) == (jobs, Found(job))
    {
      job := if id in jobs then Some(jobs[id]) else None;
    }

    method Prune(olderThanMs: nat, now: nat) returns (answer: Answer)
      requires Valid()
      modifies this
      ensures Valid() && (jobs, answer) == MemoryStep(old(jobs), Operation.Prune(olderThanMs), now)
    {
      ghost var before, settled := jobs, OldJobs(jobs, olderThanMs, now);
      assert settled - jobs.Keys == {} && jobs - {} == jobs;
      var pending, removed := jobs.Keys, 0;
      while pending != {}
        invariant pending <= before.Keys
        invariant jobs == before - (settled - pending)
        invariant removed == |settled - pending|
      {
        var id :| id in pending;
        CountVisited(settled, pending, id);
        PruneVisited(before, settled, pending, id);
        pending := pending - {id};
        if Old(jobs[id], olderThanMs, now) {
          jobs := jobs - {id};
          removed := removed + 1;
        }
      }
      assert settled - {} == settled;
      answer := Count(removed);
    }

    method ReadStats() returns (stats: Stats)
      ensures stats == StatsOf(jobs)
    {
      stats := Stats(0, 0, 0, 0, 0, 0);
      var pending := jobs.Keys;
      while pending != {}
        invariant pending <= jobs.Keys
        invariant stats == StatsOf(jobs - pending)
      {
        var id :| id in pending;
        var rest := pending - {id};
        CountOne(jobs, pending, id);
        var state := jobs[id].state;
        stats := match state
          case Queued => stats.(queued := stats.queued + 1)
          case Running => stats.(running := stats.running + 1)
          case Retrying => stats.(retrying := stats.retrying + 1)
          case Failed => stats.(failed := stats.failed + 1)
          case Completed => stats.(completed := stats.completed + 1)
          case Cancelled => stats.(cancelled := stats.cancelled + 1);
        pending := rest;
      }
      assert jobs - {} == jobs;
    }
  }

  /** The store over a table; each method is one statement. */
  class SqliteJobStore {
    var rows: Jobs

    constructor ()
      ensures rows == map[]
    {
      rows := map[];
    }

    ghost predicate Valid() reads this { forall id :: id in rows ==> rows[id].jobId == id }

    /** The primary key refuses a second job with the same id. */
    method Enqueue(input: EnqueueInput, now: nat) returns (answer: Answer)
      requires Valid()
      modifies this
      ensures Valid() && (rows, answer) == SqlStep(old(rows), Operation.Enqueue(input), now)
    {
      if input.jobId in rows { return Refused; }
      rows := rows[input.jobId := NewJob(input, now)];
      answer := Id(input.jobId);
    }

    method Claim(options: ClaimOptions, now: nat) returns (answer: Answer)
      requires Valid()
      modifies this
      ensures Valid() && (rows, answer) == SqlStep(old(rows), Operation.Claim(options), now)
    {
      var selected := SelectFirst(rows, now, SqlFilter(options));
      if selected.None? { return Found(None); }
      rows := rows[selected.value := Started(rows[selected.value], now, options.owner, options.leaseMs)];
      answer := Found(Some(rows[selected.value]));
    }

    method Complete(id: JobId, owner: string, now: nat) returns (answer: Answer)
      requires Valid()
      modifies this
      ensures Valid() && (rows, answer) == SqlStep(old(rows), Operation.Complete(id, owner), now)
    {
      var changes := if OwnedBy(rows, id, owner) then 1 else 0;
      if changes == 1 { rows := rows[id := Finished(rows[id], now)]; }
      answer := Done(changes == 1);
    }

    method Fail(id: JobId, owner: string, errorLabel: string, retryAfterMs: nat, now: nat) returns (answer: Answer)
      requires Valid()
      modifies this
      ensures Valid() && (rows, answer) == SqlStep(old(rows), Operation.Fail(id, owner, errorLabel, retryAfterMs), now)
    {
      var changes := if OwnedBy(rows, id, owner) then 1 else 0;
      if changes == 1 { rows := rows[id := FailedInSql(rows[id], now, errorLabel, retryAfterMs)]; }
      answer := Done(changes == 1);
    }

    method Renew(id: JobId, owner: string, leaseMs: nat, now: nat) returns (answer: Answer)
      requires Valid()
      modifies this
      ensures Valid() && (rows, answer) == SqlStep(old(rows), Operation.Renew(id, owner, leaseMs), now)
    {
      if OwnedBy(rows, id, owner) && rows[id].leaseExpiresAt.Some? && rows[id].leaseExpiresAt.value > now {
        rows := rows[id := rows[id].(leaseExpiresAt := Some(now + leaseMs))];
        return Done(true);
      }
      answer := Done(false);
    }

    method ReclaimExpired(now: nat) returns (answer: Answer)
      requires Valid()
      modifies this
      ensures Valid() && (rows, answer) == SqlStep(old(rows), Operation.ReclaimExpired, now)
    {
      var abandoned := AbandonedRows(rows, now);
      rows := Reclaimed(rows, abandoned, now);
      answer := Count(|abandoned|);
    }

    method Get(id: JobId, ghost now: nat) returns (job: Option<Job>)
      ensures SqlStep(rows, Operation.Get(id), now) == (rows, Found(job))
    {
      job := if id in rows then Some(rows[id]) else None;
    }

    method Prune(olderThanMs: nat, now: nat) returns (answer: Answer)
      requires Valid()
      modifies this
      ensures Valid() && (rows, answer) == SqlStep(old(rows), Operation.Prune(olderThanMs), now)
    {
      var removed := OldJobs(rows, olderThanMs, now);
      rows := rows - removed;
      answer := Count(|removed|);
    }
  }
}

/**
 * The bounded in-process job queue. Every synchronous stretch between two awaits is a method, so that
 * every interleaving of handlers, retries, drains and a shutdown is a sequence of calls.
 */
module JobQueue {
  import opened Wrappers
  import opened Tables

  type JobId = nat

  datatype Outcome = Completed | Failed | Cancelled

  /** Where `execute` stands for a job. */
  datatype Place = Waiting | InHandler | InRetryWait | Finishing | Gone

  datatype Job = Job(place: Place, attempts: nat, aborted: bool, outcome: Option<Outcome>)

  datatype Refusal = QueueClosed | NoHandler | QueueFull | AlreadyRegistered

  predicate InPool(place: Place) { place.InHandler? || place.InRetryWait? || place.Finishing? }

  /** Attempts stay within the budget, and a job has an outcome exactly once it is finishing or gone. */
  ghost predicate JobOk(job: Job, maxAttempts: nat) {
    && job.attempts <= maxAttempts
    && (job.outcome.Some? <==> job.place.Finishing? || job.place.Gone?)
    && (job.place.Waiting? ==> job.attempts == 0 && !job.aborted)
    && (job.place.InHandler? ==> job.attempts >= 1)
    && (job.place.InRetryWait? ==> 1 <= job.attempts < maxAttempts)
  }

  ghost predicate NoDuplicates(queue: seq<JobId>) {
    queue == [] || (queue[0] !in queue[1..] && NoDuplicates(queue[1..]))
  }

  lemma {:induction false} JoinLast(queue: seq<JobId>, id: JobId)
    requires NoDuplicates(queue) && id !in queue
    ensures NoDuplicates(queue + [id])
  {
    if queue != [] {
      JoinLast(queue[1..], id);
      assert (queue + [id])[1..] == queue[1..] + [id];
    }
  }

  /** A job that is not where the queue and the pool say, or whose result was not resolved as often as it has one. */
  ghost predicate Misplaced(
    id: JobId, queue: seq<JobId>, running: set<JobId>, jobs: map<JobId, Job>, resolutions: map<JobId, nat>,
    maxAttempts: nat, closed: bool)
  {
    || (id in queue && !(id in jobs && jobs[id].place.Waiting?))
    || (id in running && !(id in jobs && InPool(jobs[id].place)))
    || (id in jobs && !(
          && JobOk(jobs[id], maxAttempts)
          && id in resolutions && resolutions[id] == (if jobs[id].outcome.Some? then 1 else 0)
          && (jobs[id].place.Waiting? ==> id in queue) && (InPool(jobs[id].place) ==> id in running)
          && (closed && InPool(jobs[id].place) && jobs[id].outcome.None? ==> jobs[id].aborted)))
  }

  ghost function AllMisplaced(
    queue: seq<JobId>, running: set<JobId>, jobs: map<JobId, Job>, resolutions: map<JobId, nat>, maxAttempts: nat,
    closed: bool): iset<JobId>
  {
    iset id | Misplaced(id, queue, running, jobs, resolutions, maxAttempts, closed)
  }

  /** How many continuations a job may still take. */
  function StepsLeft(job: Job, maxAttempts: nat): nat {
    var more := if job.attempts < maxAttempts then maxAttempts - job.attempts else 0;
    match job.place
    case Waiting => 2 * maxAttempts + 2
    case InHandler => 2 * more + 2
    case InRetryWait => 2 * more + 1
    case Finishing => 1
    case Gone => 0
  }

  /** How many continuations all jobs together may still take. */
  ghost function Work(jobs: map<JobId, Job>, maxAttempts: nat): nat {
    Sum(jobs, (id: JobId, job: Job) => StepsLeft(job, maxAttempts))
  }

  lemma WorkOf(jobs: map<JobId, Job>, id: JobId, next: Job, maxAttempts: nat)
    requires id in jobs
    ensures Work(jobs[id := next], maxAttempts)
              == Work(jobs, maxAttempts) - StepsLeft(jobs[id], maxAttempts) + StepsLeft(next, maxAttempts)
  {
    SumUpdate(jobs, id, next, (i: JobId, job: Job) => StepsLeft(job, maxAttempts));
  }

  lemma {:induction false} GoneWorkNothing(jobs: map<JobId, Job>, maxAttempts: nat)
    requires forall id :: id in jobs ==> jobs[id].place.Gone?
    ensures Work(jobs, maxAttempts) == 0
    decreases |jobs|
  {
    if jobs != map[] {
      var id :| id in jobs;
      DropShrinks(jobs, id);
      SumRemove(jobs, id, (i: JobId, job: Job) => StepsLeft(job, maxAttempts));
      GoneWorkNothing(jobs - {id}, maxAttempts);
    }
  }

  lemma OneWorks(jobs: map<JobId, Job>, id: JobId, maxAttempts: nat)
    requires id in jobs
    ensures StepsLeft(jobs[id], maxAttempts) <= Work(jobs, maxAttempts)
  {
    SumRemove(jobs, id, (i: JobId, job: Job) => StepsLeft(job, maxAttempts));
  }

  lemma {:induction false} Distinct(line: seq<JobId>)
    requires NoDuplicates(line)
    ensures forall i, j :: 0 <= i < j < |line| ==> line[i] != line[j]
  {
    if line != [] {
      Distinct(line[1..]);
      forall i, j | 0 <= i < j < |line| ensures line[i] != line[j] {
        if i == 0 {
          assert line[j] == line[1..][j - 1];
        } else {
          assert line[i] == line[1..][i - 1] && line[j] == line[1..][j - 1];
        }
      }
    }
  }

  /** The first `n` of the line have entered their handler for the first time. */
  function Started(jobs: map<JobId, Job>, line: seq<JobId>, n: nat): map<JobId, Job>
    requires n <= |line|
  {
    if n == 0 then jobs else Started(jobs, line, n - 1)[line[n - 1] := Job(InHandler, 1, false, None)]
  }

  /** Entering the pool is progress. */
  lemma {:induction false} StartingWorks(jobs: map<JobId, Job>, line: seq<JobId>, n: nat, maxAttempts: nat)
    requires n <= |line| && maxAttempts >= 1 && NoDuplicates(line)
    requires forall i :: 0 <= i < n ==> line[i] in jobs && jobs[line[i]].place.Waiting?
    ensures Started(jobs, line, n).Keys == jobs.Keys
    ensures Work(Started(jobs, line, n), maxAttempts) + n <= Work(jobs, maxAttempts)
    ensures forall i :: n <= i < |line| && line[i] in jobs ==> Started(jobs, line, n)[line[i]] == jobs[line[i]]
  {
    if n > 0 {
      StartingWorks(jobs, line, n - 1, maxAttempts);
      WorkOf(Started(jobs, line, n - 1), line[n - 1], Job(InHandler, 1, false, None), maxAttempts);
      Distinct(line);
    }
  }

  const CANCELLED: Job := Job(Gone, 0, true, Some(Cancelled))

  function CancelAll(jobs: map<JobId, Job>, queued: seq<JobId>): map<JobId, Job>
    decreases |queued|
  {
    if queued == [] then jobs else CancelAll(jobs[queued[0] := CANCELLED], queued[1..])
  }

  ghost function ResolveAll(counts: map<JobId, nat>, queued: seq<JobId>): map<JobId, nat>
    requires forall id :: id in queued ==> id in counts
    decreases |queued|
  {
    if queued == [] then counts else ResolveAll(counts[queued[0] := counts[queued[0]] + 1], queued[1..])
  }

  /** Every queued job is cancelled, and its result resolved once more. */
  lemma {:induction false} CancelMeans(jobs: map<JobId, Job>, counts: map<JobId, nat>, queued: seq<JobId>)
    requires NoDuplicates(queued) && jobs.Keys == counts.Keys && forall id :: id in queued ==> id in jobs
    ensures CancelAll(jobs, queued).Keys == ResolveAll(counts, queued).Keys == jobs.Keys
    ensures forall id :: id in jobs ==> CancelAll(jobs, queued)[id] == if id in queued then CANCELLED else jobs[id]
    ensures forall id :: id in jobs ==> ResolveAll(counts, queued)[id] == counts[id] + if id in queued then 1 else 0
    decreases |queued|
  {
    if queued != [] {
      var first, rest := queued[0], queued[1..];
      CancelMeans(jobs[first := CANCELLED], counts[first := counts[first] + 1], rest);
      assert queued == [first] + rest;
    }
  }

  /** What a shutdown makes of the jobs. */
  function Shut(jobs: map<JobId, Job>): map<JobId, Job> {
    map id | id in jobs ::
      if jobs[id].place.Waiting? then CANCELLED else if InPool(jobs[id].place) then jobs[id].(aborted := true)
        else jobs[id]
  }

  /** A shutdown cancels every waiting job at once, aborts every job in the pool, and touches no other. */
  lemma ShutMeans(jobs: map<JobId, Job>, id: JobId)
    requires id in jobs
    ensures id in Shut(jobs)
    ensures var before, after := jobs[id], Shut(jobs)[id];
            && (before.place.Waiting? ==>
                  after.place.Gone? && after.outcome == Some(Cancelled) && after.aborted && after.attempts == 0)
            && (InPool(before.place) ==>
                  && after.aborted && after.place == before.place && after.attempts == before.attempts
                  && after.outcome == before.outcome)
            && (before.place.Gone? ==> after == before)
  {
  }

  lemma QueuedAreKnown(
    queue: seq<JobId>, running: set<JobId>, jobs: map<JobId, Job>, resolutions: map<JobId, nat>, maxAttempts: nat)
    requires forall id :: !Misplaced(id, queue, running, jobs, resolutions, maxAttempts, false)
    ensures (forall id :: id in queue ==> id in jobs) && running <= jobs.Keys
  {
    forall id | id in queue || id in running ensures id in jobs {
      assert !Misplaced(id, queue, running, jobs, resolutions, maxAttempts, false);
    }
  }

  lemma Stops(
    queue: seq<JobId>, running: set<JobId>, jobs: map<JobId, Job>, resolutions: map<JobId, nat>,
    jobs': map<JobId, Job>, resolutions': map<JobId, nat>, maxAttempts: nat)
    requires forall id :: !Misplaced(id, queue, running, jobs, resolutions, maxAttempts, false)
    requires jobs'.Keys == resolutions'.Keys == jobs.Keys
    requires forall id :: id in jobs ==>
               jobs'[id] == if id in queue then (if id in running then CANCELLED.(aborted := true) else CANCELLED)
                            else if id in running then jobs[id].(aborted := true) else jobs[id]
    requires forall id ::
               id in jobs ==> id in resolutions && resolutions'[id] == resolutions[id] + if id in queue then 1 else 0
    ensures jobs' == Shut(jobs)
    ensures AllMisplaced([], running, jobs', resolutions', maxAttempts, true) == iset{}
  {
    forall id | id in jobs ensures jobs'[id] == Shut(jobs)[id] {
      assert !Misplaced(id, queue, running, jobs, resolutions, maxAttempts, false);
    }
    forall id ensures !Misplaced(id, [], running, jobs', resolutions', maxAttempts, true) {
      assert !Misplaced(id, queue, running, jobs, resolutions, maxAttempts, false);
    }
  }

  function Ended(job: Job, outcome: Outcome): Job { job.(place := Finishing, outcome := Some(outcome)) }

  /** How many waiting jobs a pump admits. */
  function Admitted(closed: bool, waiting: nat, free: int): nat {
    if closed || free <= 0 then 0 else if waiting < free then waiting else free
  }

  /** Moving one job on leaves the others in place. */
  lemma MovesOn(
    queue: seq<JobId>, running: set<JobId>, jobs: map<JobId, Job>, resolutions: map<JobId, nat>,
    queue': seq<JobId>, running': set<JobId>, jobs': map<JobId, Job>, resolutions': map<JobId, nat>,
    maxAttempts: nat, closed: bool, id: JobId)
    requires AllMisplaced(queue, running, jobs, resolutions, maxAttempts, closed) == iset{}
    requires !Misplaced(id, queue', running', jobs', resolutions', maxAttempts, closed)
    requires forall other ::
               other != id ==> (other in queue' <==> other in queue) && (other in running' <==> other in running)
    requires forall other :: other != id ==> (other in jobs' <==> other in jobs)
    requires forall other :: other != id && other in jobs ==> jobs'[other] == jobs[other]
    requires forall other ::
               other != id && other in resolutions ==>
                 other in resolutions' && resolutions'[other] == resolutions[other]
    ensures AllMisplaced(queue', running', jobs', resolutions', maxAttempts, closed) == iset{}
  {
    forall other ensures !Misplaced(other, queue', running', jobs', resolutions', maxAttempts, closed) {
      assert other !in AllMisplaced(queue, running, jobs, resolutions, maxAttempts, closed);
    }
  }

  class JobQueue {
    const concurrency: nat
    const maxQueue: nat
    const maxAttempts: nat
    var handlers: set<string>
    var queue: seq<JobId>
    var running: set<JobId>
    var drainWaiters: set<nat>
    var closed: bool
    /** Every job ever accepted. */
    var jobs: map<JobId, Job>
    /** How often each job's result was resolved. */
    ghost var resolutions: map<JobId, nat>

    ghost predicate Settling()
      reads this
    {
      && concurrency >= 1 && maxQueue >= 1 && maxAttempts >= 1
      && |running| <= concurrency && |queue| <= maxQueue && NoDuplicates(queue)
      && (closed ==> queue == []) && resolutions.Keys == jobs.Keys
      && AllMisplaced(queue, running, jobs, resolutions, maxAttempts, closed) == iset{}
    }

    lemma WellPlaced(id: JobId)
      requires Settling()
      ensures !Misplaced(id, queue, running, jobs, resolutions, maxAttempts, closed)
    {
      assert id !in AllMisplaced(queue, running, jobs, resolutions, maxAttempts, closed);
    }

    /** What holds between any two continuations. */
    ghost predicate Valid()
      reads this
    {
      && Settling()
      && (!closed && queue != [] ==> |running| == concurrency)
      && (queue == [] && running == {} ==> drainWaiters == {})
    }

    constructor (concurrency: nat, maxQueue: nat, maxAttempts: nat)
      requires concurrency >= 1 && maxQueue >= 1 && maxAttempts >= 1
      ensures Valid() && !closed && jobs == map[] && drainWaiters == {}
      ensures this.concurrency == concurrency && this.maxQueue == maxQueue && this.maxAttempts == maxAttempts
    {
      this.concurrency, this.maxQueue, this.maxAttempts := concurrency, maxQueue, maxAttempts;
      handlers, queue, running, drainWaiters, closed, jobs, resolutions := {}, [], {}, {}, false, map[], map[];
    }

    method Register(kind: string) returns (refusal: Option<Refusal>)
      requires Valid()
      modifies this`handlers
      ensures Valid()
      ensures refusal
                == if closed then Some(QueueClosed) else if kind in old(handlers) then Some(AlreadyRegistered) else None
      ensures handlers == if refusal.None? then old(handlers) + {kind} else old(handlers)
    {
      if closed { return Some(QueueClosed); }
      if kind in handlers { return Some(AlreadyRegistered); }
      handlers := handlers + {kind};
      refusal := None;
    }

    /** Releases everyone who waits for an empty queue and pool, if that is what there is. */
    method NotifyDrain() returns (released: set<nat>)
      modifies this`drainWaiters
      ensures queue == [] && running == {} ==> released == old(drainWaiters) && drainWaiters == {}
      ensures !(queue == [] && running == {}) ==> released == {} && drainWaiters == old(drainWaiters)
    {
      if queue != [] || running != {} { return {}; }
      released := drainWaiters;
      drainWaiters := {};
    }

    /** The first waiting job enters the pool and its handler. */
    method StartNext()
      requires Settling() && !closed && |running| < concurrency && queue != []
      modifies this`queue, this`running, this`jobs
      ensures Settling() && queue == old(queue)[1..] && running == old(running) + {old(queue)[0]}
      ensures |running| == |old(running)| + 1
      ensures jobs == old(jobs)[old(queue)[0] := Job(InHandler, 1, false, None)]
    {
      var id := queue[0];
      WellPlaced(id);
      ghost var before, line, pool := jobs, queue, running;
      queue := queue[1..];
      running := running + {id};
      jobs := jobs[id := jobs[id].(place := InHandler, attempts := 1)];
      MovesOn(line, pool, before, resolutions, queue, running, jobs, resolutions, maxAttempts, closed, id);
    }

    lemma LineWaits()
      requires Settling()
      ensures forall i :: 0 <= i < |queue| ==> queue[i] in jobs && jobs[queue[i]].place.Waiting?
    {
      forall i | 0 <= i < |queue| ensures queue[i] in jobs && jobs[queue[i]].place.Waiting? { WellPlaced(queue[i]); }
    }

    /** Fills the pool from the front of the queue. */
    method Fill()
      requires Settling()
      modifies this`queue, this`running, this`jobs
      ensures Settling() && (!closed && queue != [] ==> |running| == concurrency)
      ensures var n := Admitted(closed, |old(queue)|, concurrency - |old(running)|);
              queue == old(queue)[n..] && jobs == Started(old(jobs), old(queue), n) && |running| == |old(running)| + n
    {
      ghost var before, entered := queue, 0;
      while !closed && |running| < concurrency && queue != []
        invariant Settling() && entered <= |before| && queue == before[entered..]
        invariant jobs == Started(old(jobs), before, entered)
        invariant |running| == |old(running)| + entered
        decreases |queue|
      {
        StartNext();
        entered := entered + 1;
      }
    }

    /** Fills the pool, and then looks at the drain waiters. */
    method Pump() returns (released: set<nat>)
      requires Settling()
      modifies this`queue, this`running, this`jobs, this`drainWaiters
      ensures Valid()
      ensures var n := Admitted(closed, |old(queue)|, concurrency - |old(running)|);
              queue == old(queue)[n..] && jobs == Started(old(jobs), old(queue), n) && |running| == |old(running)| + n
      ensures Work(jobs, maxAttempts) <= Work(old(jobs), maxAttempts)
      ensures released == if queue == [] && running == {} then old(drainWaiters) else {}
      ensures drainWaiters == old(drainWaiters) - released
    {
      LineWaits();
      StartingWorks(jobs, queue, Admitted(closed, |queue|, concurrency - |running|), maxAttempts);
      Fill();
      released := NotifyDrain();
      assert drainWaiters == old(drainWaiters) - released;
    }

    /** A new job joins the line. */
    method Accept(id: JobId)
      requires Valid() && id !in jobs && !closed && |queue| < maxQueue
      modifies this`queue, this`jobs, this`resolutions
      ensures Settling() && queue == old(queue) + [id] && jobs == old(jobs)[id := Job(Waiting, 0, false, None)]
    {
      WellPlaced(id);
      JoinLast(queue, id);
      ghost var line, before, counts := queue, jobs, resolutions;
      queue := queue + [id];
      jobs := jobs[id := Job(Waiting, 0, false, None)];
      resolutions := resolutions[id := 0];
      MovesOn(line, running, before, counts, queue, running, jobs, resolutions, maxAttempts, closed, id);
    }

    method Enqueue(kind: string, id: JobId) returns (refusal: Option<Refusal>, released: set<nat>)
      requires Valid() && id !in jobs
      modifies this
      ensures Valid() && closed == old(closed) && handlers == old(handlers)
      ensures refusal == if closed then Some(QueueClosed) else if kind !in handlers then Some(NoHandler)
                         else if |old(queue)| >= maxQueue then Some(QueueFull) else None
      ensures refusal.Some? ==> queue == old(queue) && running == old(running) && jobs == old(jobs) && released == {}
      ensures refusal.None? ==>
                var line := old(queue) + [id];
                var n := Admitted(closed, |line|, concurrency - |old(running)|);
                && queue == line[n..] && jobs == Started(old(jobs)[id := Job(Waiting, 0, false, None)], line, n)
    {
      released := {};
      if closed { return Some(QueueClosed), {}; }
      if kind !in handlers { return Some(NoHandler), {}; }
      if |queue| >= maxQueue { return Some(QueueFull), {}; }
      Accept(id);
      released := Pump();
      refusal := None;
    }

    /** A job in the pool takes its next step; its result is resolved if it now has an outcome. */
    method Step(id: JobId, next: Job)
      requires Valid() && id in jobs && InPool(jobs[id].place) && jobs[id].outcome.None?
      requires JobOk(next, maxAttempts) && InPool(next.place) && next.aborted == jobs[id].aborted
      requires StepsLeft(next, maxAttempts) < StepsLeft(jobs[id], maxAttempts)
      modifies this`jobs, this`resolutions
      ensures Valid() && jobs == old(jobs)[id := next] && Work(jobs, maxAttempts) < Work(old(jobs), maxAttempts)
    {
      WellPlaced(id);
      WorkOf(jobs, id, next, maxAttempts);
      ghost var before, counts := jobs, resolutions;
      jobs := jobs[id := next];
      if next.outcome.Some? { resolutions := resolutions[id := resolutions[id] + 1]; }
      MovesOn(queue, running, before, counts, queue, running, jobs, resolutions, maxAttempts, closed, id);
    }

    /** The handler's promise resolves: completed, or cancelled when the job was aborted meanwhile. */
    method HandlerReturns(id: JobId)
      requires Valid() && id in jobs && jobs[id].place.InHandler?
      modifies this`jobs, this`resolutions
      ensures Valid() && Work(jobs, maxAttempts) < Work(old(jobs), maxAttempts)
      ensures jobs == old(jobs)[id := Ended(old(jobs)[id], if old(jobs)[id].aborted then Cancelled else Completed)]
    {
      WellPlaced(id);
      Step(id, Ended(jobs[id], if jobs[id].aborted then Cancelled else Completed));
    }

    /** The handler's promise rejects: cancelled, failed for good, or waiting for another attempt. */
    method HandlerThrows(id: JobId)
      requires Valid() && id in jobs && jobs[id].place.InHandler?
      modifies this`jobs, this`resolutions
      ensures Valid() && Work(jobs, maxAttempts) < Work(old(jobs), maxAttempts)
      ensures var job := old(jobs)[id];
              jobs == old(jobs)[id :=
                if job.aborted then Ended(job, Cancelled)
                else if job.attempts >= maxAttempts then Ended(job, Failed)
                else job.(place := InRetryWait)]
    {
      WellPlaced(id);
      var job := jobs[id];
      if job.aborted {
        Step(id, Ended(job, Cancelled));
      } else if job.attempts >= maxAttempts {
        Step(id, Ended(job, Failed));
      } else {
        Step(id, job.(place := InRetryWait));
      }
    }

    /** The retry delay ends, or is cut short by an abort. */
    method RetryWaitEnds(id: JobId)
      requires Valid() && id in jobs && jobs[id].place.InRetryWait?
      modifies this`jobs, this`resolutions
      ensures Valid() && Work(jobs, maxAttempts) < Work(old(jobs), maxAttempts)
      ensures var job := old(jobs)[id];
              jobs == old(jobs)[id :=
                if job.aborted then Ended(job, Cancelled) else job.(place := InHandler, attempts := job.attempts + 1)]
    {
      WellPlaced(id);
      var job := jobs[id];
      if job.aborted {
        Step(id, Ended(job, Cancelled));
      } else {
        Step(id, job.(place := InHandler, attempts := job.attempts + 1));
      }
    }

    /** A finished job leaves the pool. */
    method Vacate(id: JobId)
      requires Valid() && id in jobs && jobs[id].place.Finishing?
      modifies this`running, this`jobs
      ensures Settling() && running == old(running) - {id} && |running| == |old(running)| - 1
      ensures id in old(running) && jobs == old(jobs)[id := old(jobs)[id].(place := Gone)]
      ensures Work(jobs, maxAttempts) < Work(old(jobs), maxAttempts)
    {
      WellPlaced(id);
      WorkOf(jobs, id, jobs[id].(place := Gone), maxAttempts);
      ghost var before, pool := jobs, running;
      running := running - {id};
      jobs := jobs[id := jobs[id].(place := Gone)];
      MovesOn(queue, pool, before, resolutions, queue, running, jobs, resolutions, maxAttempts, closed, id);
    }

    /** Looks at the drain waiters, and then an open queue fills the pool again. */
    method Refill() returns (released: set<nat>)
      requires Settling()
      modifies this`queue, this`running, this`jobs, this`drainWaiters
      ensures Valid() && Work(jobs, maxAttempts) <= Work(old(jobs), maxAttempts)
      ensures var n := Admitted(closed, |old(queue)|, concurrency - |old(running)|);
              queue == old(queue)[n..] && jobs == Started(old(jobs), old(queue), n) && |running| == |old(running)| + n
      ensures released == if old(queue) == [] && old(running) == {} then old(drainWaiters) else {}
    {
      released := NotifyDrain();
      if !closed {
        var more := Pump();
        released := released + more;
      }
    }

    /** `execute` is over: the job leaves the pool, and an open queue refills it. */
    method Leave(id: JobId) returns (released: set<nat>)
      requires Valid() && id in jobs && jobs[id].place.Finishing?
      modifies this`queue, this`running, this`jobs, this`drainWaiters
      ensures Valid() && Work(jobs, maxAttempts) < Work(old(jobs), maxAttempts)
      ensures released == if old(queue) == [] && old(running) == {id} then old(drainWaiters) else {}
      ensures var n := Admitted(closed, |old(queue)|, concurrency - |old(running)| + 1);
              && |running| == |old(running)| - 1 + n && queue == old(queue)[n..]
              && jobs == Started(old(jobs)[id := old(jobs)[id].(place := Gone)], old(queue), n)
    {
      Vacate(id);
      assert running == {} <==> old(running) == {id};
      released := Refill();
    }

    /** An empty queue and pool: every job ever accepted has settled exactly once, and nobody still waits. */
    lemma DrainedMeansSettled()
      requires Valid() && queue == [] && running == {}
      ensures drainWaiters == {}
      ensures forall id :: id in jobs ==> jobs[id].place.Gone? && jobs[id].outcome.Some? && resolutions[id] == 1
    {
      forall id | id in jobs ensures jobs[id].place.Gone? && jobs[id].outcome.Some? && resolutions[id] == 1 {
        WellPlaced(id);
      }
    }

    /** Short of an empty queue and pool some continuation is due; no work left means just that. */
    lemma WorkIsDue()
      requires Valid()
      ensures Work(jobs, maxAttempts) == 0 <==> queue == [] && running == {}
      ensures !(queue == [] && running == {}) ==> running != {}
      ensures forall id :: id in running ==> id in jobs && InPool(jobs[id].place)
    {
      forall id | id in running ensures id in jobs && InPool(jobs[id].place) { WellPlaced(id); }
      if running != {} {
        var id :| id in running;
        OneWorks(jobs, id, maxAttempts);
      } else {
        DrainedMeansSettled();
        GoneWorkNothing(jobs, maxAttempts);
      }
    }

    /** A job of the pool continues, wherever it stands; `throws`: its handler rejects. */
    method Continue(id: JobId, throws: bool)
      requires Valid() && id in jobs && InPool(jobs[id].place)
      modifies this`queue, this`running, this`jobs, this`drainWaiters, this`resolutions
      ensures Valid() && Work(jobs, maxAttempts) < Work(old(jobs), maxAttempts)
      ensures |running| >= |old(running)| - 1
    {
      match jobs[id].place
      case InHandler => if throws { HandlerThrows(id); } else { HandlerReturns(id); }
      case InRetryWait => RetryWaitEnds(id);
      case Finishing => var _ := Leave(id);
    }

    /**
     * While nothing is enqueued: whichever job continues next, and however its handler ends, the queue is
     * empty and every job settled after at least as many continuations as jobs were in the pool, and at most
     * as many as there was work.
     */
    method RunDown() returns (continuations: nat)
      requires Valid()
      modifies this`queue, this`running, this`jobs, this`drainWaiters, this`resolutions
      ensures Valid() && queue == [] && running == {} && drainWaiters == {}
      ensures |old(running)| <= continuations <= Work(old(jobs), maxAttempts)
    {
      continuations := 0;
      WorkIsDue();
      while running != {}
        invariant Valid() && continuations + Work(jobs, maxAttempts) <= Work(old(jobs), maxAttempts)
        invariant continuations + |running| >= |old(running)|
        invariant forall id :: id in running ==> id in jobs && InPool(jobs[id].place)
        decreases Work(jobs, maxAttempts)
      {
        var id :| id in running;
        var throws: bool := *;
        Continue(id, throws);
        continuations := continuations + 1;
        WorkIsDue();
      }
    }

    /** Once closed, whatever is not settled yet will be cancelled. */
    lemma ClosedCancels(id: JobId)
      requires Valid() && closed && id in jobs && jobs[id].outcome.None?
      ensures id in running && jobs[id].aborted
    {
      WellPlaced(id);
    }

    /** True when there is nothing to wait for; otherwise the caller is among the waiters. */
    method Drain(waiter: nat) returns (immediate: bool)
      requires Valid()
      modifies this`drainWaiters
      ensures Valid() && immediate == (queue == [] && running == {})
      ensures drainWaiters == if immediate then old(drainWaiters) else old(drainWaiters) + {waiter}
    {
      immediate := queue == [] && running == {};
      if !immediate { drainWaiters := drainWaiters + {waiter}; }
    }

    /** `queue.splice(0)`, and every job of it cancelled. */
    method CancelWaiting()
      requires resolutions.Keys == jobs.Keys && forall id :: id in queue ==> id in jobs
      modifies this`queue, this`jobs, this`resolutions
      ensures queue == [] && jobs == CancelAll(old(jobs), old(queue))
      ensures resolutions == ResolveAll(old(resolutions), old(queue))
    {
      var queued := queue;
      queue := [];
      var k := 0;
      assert queued[0..] == queued;
      while k < |queued|
        invariant k <= |queued| && queue == [] && resolutions.Keys == old(resolutions).Keys
        invariant CancelAll(jobs, queued[k..]) == CancelAll(old(jobs), queued)
        invariant ResolveAll(resolutions, queued[k..]) == ResolveAll(old(resolutions), queued)
      {
        var id := queued[k];
        assert queued[k..][0] == id && queued[k..][1..] == queued[k + 1..];
        jobs := jobs[id := CANCELLED];
        resolutions := resolutions[id := resolutions[id] + 1];
        k := k + 1;
      }
    }

    /** Every job in the pool is aborted. */
    method AbortRunning()
      requires running <= jobs.Keys
      modifies this`jobs
      ensures jobs.Keys == old(jobs).Keys
      ensures forall id ::
                id in jobs ==> jobs[id] == if id in running then old(jobs)[id].(aborted := true) else old(jobs)[id]
    {
      var pending := running;
      while pending != {}
        invariant pending <= running && jobs.Keys == old(jobs).Keys
        invariant forall id :: id in jobs ==>
                    jobs[id]
                      == if id in running && id !in pending then old(jobs)[id].(aborted := true) else old(jobs)[id]
      {
        var id :| id in pending;
        pending := pending - {id};
        jobs := jobs[id := jobs[id].(aborted := true)];
      }
    }

    /**
     * Stops accepting work: waiting jobs are cancelled at once, jobs in the pool are aborted, and the
     * caller waits for the pool to empty. A second shutdown only waits.
     */
    method Shutdown(waiter: nat) returns (immediate: bool)
      requires Valid()
      modifies this
      ensures Valid() && closed && queue == [] && running == old(running) && immediate == (running == {})
      ensures jobs == if old(closed) then old(jobs) else Shut(old(jobs))
      ensures drainWaiters == if immediate then old(drainWaiters) else old(drainWaiters) + {waiter}
    {
      if !closed {
        ghost var before, line, counts := jobs, queue, resolutions;
        forall id ensures !Misplaced(id, queue, running, jobs, resolutions, maxAttempts, false) { WellPlaced(id); }
        QueuedAreKnown(queue, running, jobs, resolutions, maxAttempts);
        CancelMeans(jobs, resolutions, queue);
        CancelWaiting();
        AbortRunning();
        Stops(line, running, before, counts, jobs, resolutions, maxAttempts);
        closed := true;
      }
      immediate := Drain(waiter);
    }
  }
}

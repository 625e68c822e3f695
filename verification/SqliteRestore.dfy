/**
 * Restoring a SQLite backup by same-directory renames under a journal, and the reconciler that
 * finishes or undoes a restore a crash interrupted.
 *
 * A rename, an unlink and a journal write are each one atomic, durable step. The class performs them
 * on the directory and records every durable state in `trail`; a crash leaves the directory in any
 * one of them.
 */
module SqliteRestore {
  import opened Wrappers

  /** A database file. `intact`: it passes the integrity, schema version and table checks. */
  datatype Image = Image(data: string, intact: bool, size: nat)
  {
    predicate Verifies(maxBytes: nat) { intact && size <= maxBytes }
  }

  const DEFAULT_MAX_BYTES := 1024 * 1024 * 1024

  datatype Phase = Prepared | PreviousMoved

  /** `beside`: the rollback path it names lies in the directory of the target. */
  datatype Journal = Journal(phase: Phase, beside: bool)

  /**
   * `temp` and `rollback` are the files at the two paths the journal names. `staged` is the copy a
   * running restore makes under a fresh random name, which no journal names yet.
   */
  datatype Disk = Disk(
    target: Option<Image>,
    staged: Option<Image>,
    temp: Option<Image>,
    rollback: Option<Image>,
    journal: Option<Journal>)

  /**
   * Where the previous database is to be kept, and the file found there; the default lies beside the
   * target. The journal of an earlier restore may name this path or another one.
   */
  datatype RollbackPlace = Beside(found: Option<Image>) | Elsewhere(found: Option<Image>) | AtTarget
  {
    function Kept(): Option<Image> { if AtTarget? then None else found }
  }

  datatype Options = Options(maxBytes: Option<nat>, overwrite: bool, keepPrevious: bool, rollbackPlace: RollbackPlace)
  {
    function Cap(): nat { if maxBytes.Some? then maxBytes.value else DEFAULT_MAX_BYTES }
  }

  /** The forward steps of a restore that may fail. */
  datatype RestoreStep =
    | CopyBackup | VerifyStaged | SyncStaged | WriteJournal | MovePrevious | MarkMoved | Publish | SyncDirectory
    | VerifyPublished | RemoveJournal

  datatype RestoreError =
    | CapOutOfRange | BackupInvalid | TargetExists | ActiveSidecar | PathsNotDistinct | RollbackExists
    | StepFailed(step: RestoreStep)

  datatype ReconcileAction = Nothing | KeptTarget | PublishedStaged | RestoredPrevious

  datatype ReconcileError = JournalRefused | NotVerified | NoRecoverableDatabase

  // ----- the checks before the first write

  function Refusal(d: Disk, source: Image, options: Options, sidecar: bool): Option<RestoreError> {
    if options.Cap() < 1024 then Some(CapOutOfRange)
    else if !source.Verifies(options.Cap()) then Some(BackupInvalid)
    else if d.target.Some? && !options.overwrite then Some(TargetExists)
    else if sidecar then Some(ActiveSidecar)
    else if options.keepPrevious && d.target.Some? && options.rollbackPlace.AtTarget? then Some(PathsNotDistinct)
    else if options.keepPrevious && d.target.Some? && options.rollbackPlace.Kept().Some? && !options.overwrite then
      Some(RollbackExists)
    else None
  }

  /** The largest backup the call accepts: the caller's cap, or 1 GiB. */
  function Largest(options: Options): nat { if options.maxBytes.Some? then options.maxBytes.value else 1_073_741_824 }

  /**
   * The call refuses exactly for these reasons, and reports the first of them. An occupied rollback path is
   * none: who gets that far has agreed to overwriting, and the file there is replaced.
   */
  lemma RefusalMeans(d: Disk, source: Image, options: Options, sidecar: bool)
    ensures var refusal, accepted :=
              Refusal(d, source, options, sidecar), source.intact && source.size <= Largest(options);
            && (refusal == Some(CapOutOfRange) <==> Largest(options) < 1024)
            && (refusal == Some(BackupInvalid) <==> Largest(options) >= 1024 && !accepted)
            && (refusal == Some(TargetExists) <==>
                  Largest(options) >= 1024 && accepted && d.target.Some? && !options.overwrite)
            && (Largest(options) >= 1024 && accepted && (d.target.None? || options.overwrite) ==>
                  && (refusal == Some(ActiveSidecar) <==> sidecar)
                  && (refusal == Some(PathsNotDistinct) <==>
                        !sidecar && options.keepPrevious && d.target.Some? && options.rollbackPlace == AtTarget)
                  && (refusal.None? <==>
                        !sidecar && !(options.keepPrevious && d.target.Some? && options.rollbackPlace == AtTarget))
                  && refusal != Some(RollbackExists))
  {
  }

  // ----- the durable states each procedure passes through

  function Final(d: Disk, trail: seq<Disk>): Disk { if trail == [] then d else trail[|trail| - 1] }

  lemma FinalConcat(d: Disk, first: seq<Disk>, second: seq<Disk>)
    ensures Final(d, first + second) == Final(Final(d, first), second)
  {
  }

  /** The error handler: drop the restore's own copy, put the previous database back, drop any journal. */
  function HandlerTrail(d: Disk, keep: bool, journaled: bool, previousMoved: bool, renameBackFails: bool): seq<Disk> {
    var h1 := if journaled then d.(temp := None) else d.(staged := None);
    var h2 :=
      if previousMoved && h1.target.None? && !renameBackFails then h1.(target := h1.rollback, rollback := None)
      else h1;
    [h1, h2] + if keep then [h2.(journal := None)] else []
  }

  lemma TrailsJoin(d: Disk, trail: seq<Disk>, first: seq<Disk>, second: seq<Disk>)
    ensures trail + first + second == trail + (first + second)
    ensures Final(d, first + second) == Final(Final(d, first), second)
  {
    FinalConcat(d, first, second);
  }

  /** How far the forward part of a restore got; `journaled`: its own journal has been written. */
  datatype Progress = Progress(states: seq<Disk>, failed: bool, journaled: bool, previousMoved: bool)

  /** Staging: `torn` is the copy while it is being written; `fault` is the forward step that fails. */
  function StageForward(d: Disk, source: Image, torn: Image, fault: Option<RestoreStep>): Progress {
    var d1 := d.(staged := Some(torn));
    if fault == Some(CopyBackup) then Progress([d1], true, false, false)
    else
      var failed := fault == Some(VerifyStaged) || fault == Some(SyncStaged);
      Progress([d1, d.(staged := Some(source))], failed, false, false)
  }

  /** The restore's own journal replaces the one of an earlier restore and names the staged copy. */
  function Journalled(d: Disk, place: RollbackPlace): Disk {
    d.(journal := Some(Journal(Prepared, place.Beside?)), temp := d.staged, staged := None, rollback := place.Kept())
  }

  /** Moving the previous database away, between the two journal writes. */
  function MoveForward(d: Disk, place: RollbackPlace, fault: Option<RestoreStep>): Progress {
    var d1 := Journalled(d, place);
    var d2 := d1.(target := None, rollback := d1.target);
    if fault == Some(WriteJournal) then Progress([], true, false, false)
    else if fault == Some(MovePrevious) then Progress([d1], true, true, false)
    else if fault == Some(MarkMoved) then Progress([d1, d2], true, true, true)
    else Progress([d1, d2, d2.(journal := Some(Journal(PreviousMoved, place.Beside?)))], false, true, true)
  }

  /** Publishing the staged copy; a journalled restore then verifies it and drops the journal. */
  function PublishForward(d: Disk, keep: bool, fault: Option<RestoreStep>): Progress {
    var d1 := if keep then d.(target := d.temp, temp := None) else d.(target := d.staged, staged := None);
    if fault == Some(Publish) then Progress([], true, keep, keep)
    else if fault == Some(SyncDirectory) then Progress([d1], true, keep, keep)
    else if !keep then Progress([d1], false, keep, keep)
    else if fault == Some(VerifyPublished) || fault == Some(RemoveJournal) then Progress([d1], true, keep, keep)
    else Progress([d1, d1.(journal := None)], false, keep, keep)
  }

  /** From the staged copy on: move the previous database away if it is to be kept, then publish. */
  function AfterStaging(d: Disk, keep: bool, place: RollbackPlace, fault: Option<RestoreStep>): Progress {
    var moved := if keep then MoveForward(d, place, fault) else Progress([], false, false, false);
    if moved.failed then moved
    else
      var published := PublishForward(Final(d, moved.states), keep, fault);
      published.(states := moved.states + published.states)
  }

  function Forward(d: Disk, source: Image, torn: Image, options: Options, fault: Option<RestoreStep>): Progress {
    var keep := options.keepPrevious && d.target.Some?;
    var staged := StageForward(d, source, torn, fault);
    if staged.failed then staged
    else
      var after := AfterStaging(Final(d, staged.states), keep, options.rollbackPlace, fault);
      after.(states := staged.states + after.states)
  }

  lemma FailureHasCause(d: Disk, source: Image, torn: Image, options: Options, fault: Option<RestoreStep>)
    ensures Forward(d, source, torn, options, fault).failed ==> fault.Some?
  {
  }

  /** The error handler as it runs after the given forward part. */
  function HandlerAfter(d: Disk, keep: bool, forward: Progress, renameBackFails: bool): seq<Disk> {
    HandlerTrail(Final(d, forward.states), keep, forward.journaled, forward.previousMoved, renameBackFails)
  }

  function RestoreTrail(
    d: Disk, source: Image, torn: Image, options: Options, fault: Option<RestoreStep>, renameBackFails: bool): seq<Disk>
  {
    var keep := options.keepPrevious && d.target.Some?;
    var forward := Forward(d, source, torn, options, fault);
    forward.states + if forward.failed then HandlerAfter(d, keep, forward, renameBackFails) else []
  }

  /** The states of one uninterrupted reconciliation, and its answer. Presence is read once, at the start. */
  function ReconcileTrail(d: Disk): (seq<Disk>, Result<ReconcileAction, ReconcileError>) {
    if d.journal.None? then ([], Ok(Nothing))
    else if !d.journal.value.beside then ([], Err(JournalRefused))
    else if d.target.Some? && !(d.journal.value.phase.Prepared? && d.rollback.None?) then
      if !d.target.value.Verifies(DEFAULT_MAX_BYTES) then ([], Err(NotVerified))
      else ([d.(temp := None), d.(temp := None, journal := None)], Ok(KeptTarget))
    else
      var moved := if d.target.Some? then d.(target := None, rollback := d.target) else d;
      var prefix := if d.target.Some? then [moved] else [];
      if d.temp.Some? then
        if !d.temp.value.Verifies(DEFAULT_MAX_BYTES) then (prefix, Err(NotVerified))
        else
          var published := moved.(target := d.temp, temp := None);
          (prefix + [published, published.(journal := None)], Ok(PublishedStaged))
      else if d.rollback.Some? then
        if !d.rollback.value.Verifies(DEFAULT_MAX_BYTES) then (prefix, Err(NotVerified))
        else
          var restored := moved.(target := d.rollback, rollback := None);
          (prefix + [restored, restored.(journal := None)], Ok(RestoredPrevious))
      else (prefix, Err(NoRecoverableDatabase))
  }

  /** The directory after one uninterrupted reconciliation. */
  function Reconciled(d: Disk): Disk { Final(d, ReconcileTrail(d).0) }

  // ----- the directory

  class RecoveryDirectory {
    var target: Option<Image>
    var staged: Option<Image>
    var temp: Option<Image>
    var rollback: Option<Image>
    var journal: Option<Journal>
    ghost var trail: seq<Disk>

    ghost function State(): Disk reads this { Disk(target, staged, temp, rollback, journal) }

    ghost method Record()
      modifies this`trail
      ensures trail == old(trail) + [State()]
    {
      trail := trail + [State()];
    }

    method Stage(source: Image, torn: Image, fault: Option<RestoreStep>) returns (failed: bool)
      modifies this
      ensures var p := StageForward(old(State()), source, torn, fault);
              trail == old(trail) + p.states && State() == Final(old(State()), p.states) && failed == p.failed
    {
      staged := Some(torn);
      Record();
      if fault == Some(CopyBackup) { return true; }
      staged := Some(source);
      Record();
      return fault == Some(VerifyStaged) || fault == Some(SyncStaged);
    }

    method MovePreviousAway(place: RollbackPlace, fault: Option<RestoreStep>)
      returns (failed: bool, journaled: bool, previousMoved: bool)
      modifies this
      ensures var p := MoveForward(old(State()), place, fault);
              && trail == old(trail) + p.states && State() == Final(old(State()), p.states)
              && failed == p.failed && journaled == p.journaled && previousMoved == p.previousMoved
    {
      if fault == Some(WriteJournal) { return true, false, false; }
      journal, temp, staged, rollback := Some(Journal(Prepared, place.Beside?)), staged, None, place.Kept();
      Record();
      if fault == Some(MovePrevious) { return true, true, false; }
      target, rollback := None, target;
      Record();
      if fault == Some(MarkMoved) { return true, true, true; }
      journal := Some(Journal(PreviousMoved, place.Beside?));
      Record();
      return false, true, true;
    }

    method PublishStaged(keep: bool, fault: Option<RestoreStep>) returns (failed: bool)
      modifies this
      ensures var p := PublishForward(old(State()), keep, fault);
              trail == old(trail) + p.states && State() == Final(old(State()), p.states) && failed == p.failed
    {
      if fault == Some(Publish) { return true; }
      if keep { target, temp := temp, None; } else { target, staged := staged, None; }
      Record();
      if fault == Some(SyncDirectory) { return true; }
      if keep {
        if fault == Some(VerifyPublished) || fault == Some(RemoveJournal) { return true; }
        journal := None;
        Record();
      }
      return false;
    }

    method HandleFailure(keep: bool, journaled: bool, previousMoved: bool, renameBackFails: bool)
      modifies this
      ensures var passed := HandlerTrail(old(State()), keep, journaled, previousMoved, renameBackFails);
              trail == old(trail) + passed && State() == Final(old(State()), passed)
    {
      if journaled { temp := None; } else { staged := None; }
      Record();
      if previousMoved && target.None? && !renameBackFails {
        target, rollback := rollback, None;
      }
      Record();
      if keep {
        journal := None;
        Record();
      }
    }

    method MoveAndPublish(keep: bool, place: RollbackPlace, fault: Option<RestoreStep>)
      returns (failed: bool, journaled: bool, previousMoved: bool)
      modifies this
      ensures var p := AfterStaging(old(State()), keep, place, fault);
              && trail == old(trail) + p.states && State() == Final(old(State()), p.states)
              && failed == p.failed && journaled == p.journaled && previousMoved == p.previousMoved
    {
      ghost var start, moved := State(), Progress([], false, false, false);
      if keep {
        moved := MoveForward(start, place, fault);
        failed, journaled, previousMoved := MovePreviousAway(place, fault);
        if failed { return true, journaled, previousMoved; }
      }
      assert trail == old(trail) + moved.states;
      ghost var published := PublishForward(State(), keep, fault);
      FinalConcat(start, moved.states, published.states);
      failed := PublishStaged(keep, fault);
      assert trail == old(trail) + (moved.states + published.states);
      return failed, keep, keep;
    }

    /** The guarded body of the restore: it stops at the first failing step. */
    method RunForward(source: Image, torn: Image, options: Options, fault: Option<RestoreStep>)
      returns (failed: bool, journaled: bool, previousMoved: bool)
      modifies this
      ensures var p := Forward(old(State()), source, torn, options, fault);
              && trail == old(trail) + p.states && State() == Final(old(State()), p.states)
              && failed == p.failed && journaled == p.journaled && previousMoved == p.previousMoved
    {
      ghost var start, before := State(), trail;
      var keep := options.keepPrevious && target.Some?;
      failed := Stage(source, torn, fault);
      ghost var first := StageForward(start, source, torn, fault);
      if failed { return true, false, false; }
      ghost var after := AfterStaging(State(), keep, options.rollbackPlace, fault);
      failed, journaled, previousMoved := MoveAndPublish(keep, options.rollbackPlace, fault);
      TrailsJoin(start, before, first.states, after.states);
    }

    /** The body with its error handler. */
    method RunGuarded(source: Image, torn: Image, options: Options, fault: Option<RestoreStep>, renameBackFails: bool)
      returns (failed: bool)
      modifies this
      ensures var passed := RestoreTrail(old(State()), source, torn, options, fault, renameBackFails);
              trail == old(trail) + passed && State() == Final(old(State()), passed)
      ensures failed == Forward(old(State()), source, torn, options, fault).failed
    {
      ghost var start, forward := State(), Forward(State(), source, torn, options, fault);
      var keep := options.keepPrevious && target.Some?;
      var journaled, previousMoved;
      failed, journaled, previousMoved := RunForward(source, torn, options, fault);
      if failed {
        FinalConcat(start, forward.states, HandlerAfter(start, keep, forward, renameBackFails));
        HandleFailure(keep, journaled, previousMoved, renameBackFails);
      }
    }

    method RestoreSqliteBackup(
      source: Image, torn: Image, options: Options, sidecar: bool, fault: Option<RestoreStep>, renameBackFails: bool)
      returns (answer: Result<bool, RestoreError>)
      modifies this
      ensures Refusal(old(State()), source, options, sidecar).Some? ==>
                answer == Err(Refusal(old(State()), source, options, sidecar).value)
                && State() == old(State()) && trail == old(trail)
      ensures Refusal(old(State()), source, options, sidecar).None? ==>
                && trail == old(trail) + RestoreTrail(old(State()), source, torn, options, fault, renameBackFails)
                && State()
                     == Final(old(State()), RestoreTrail(old(State()), source, torn, options, fault, renameBackFails))
                && (answer.Ok? <==> !Forward(old(State()), source, torn, options, fault).failed)
      ensures answer.Ok? ==> answer.value == (options.keepPrevious && old(target).Some?)
      ensures answer.Err? && answer.error.StepFailed? ==> fault == Some(answer.error.step)
    {
      var maxBytes := options.Cap();
      if maxBytes < 1024 { return Err(CapOutOfRange); }
      if !source.Verifies(maxBytes) { return Err(BackupInvalid); }
      var targetExists := target.Some?;
      if targetExists && !options.overwrite { return Err(TargetExists); }
      if sidecar { return Err(ActiveSidecar); }
      var keep := options.keepPrevious && targetExists;
      if keep && options.rollbackPlace.AtTarget? { return Err(PathsNotDistinct); }
      if keep && options.rollbackPlace.Kept().Some? && !options.overwrite { return Err(RollbackExists); }
      FailureHasCause(State(), source, torn, options, fault);
      var failed := RunGuarded(source, torn, options, fault, renameBackFails);
      return if failed then Err(StepFailed(fault.value)) else Ok(keep);
    }

    method ReconcileSqliteRestore() returns (answer: Result<ReconcileAction, ReconcileError>)
      modifies this
      ensures trail == old(trail) + ReconcileTrail(old(State())).0 && answer == ReconcileTrail(old(State())).1
      ensures State() == Reconciled(old(State()))
      ensures answer.Ok? ==> journal == None
    {
      if journal.None? { return Ok(Nothing); }
      if !journal.value.beside { return Err(JournalRefused); }
      var targetExists := target.Some?;
      var tempExists := temp.Some?;
      var rollbackExists := rollback.Some?;
      if targetExists && journal.value.phase.Prepared? {
        if rollbackExists {
          if !target.value.Verifies(DEFAULT_MAX_BYTES) { return Err(NotVerified); }
          temp := None;
          Record();
          journal := None;
          Record();
          return Ok(KeptTarget);
        }
        target, rollback := None, target;
        Record();
        targetExists := false;
      }
      if targetExists {
        if !target.value.Verifies(DEFAULT_MAX_BYTES) { return Err(NotVerified); }
        temp := None;
        Record();
        journal := None;
        Record();
        return Ok(KeptTarget);
      }
      if tempExists {
        if !temp.value.Verifies(DEFAULT_MAX_BYTES) { return Err(NotVerified); }
        target, temp := temp, None;
        Record();
        journal := None;
        Record();
        return Ok(PublishedStaged);
      }
      if rollbackExists {
        if !rollback.value.Verifies(DEFAULT_MAX_BYTES) { return Err(NotVerified); }
        target, rollback := rollback, None;
        Record();
        journal := None;
        Record();
        return Ok(RestoredPrevious);
      }
      return Err(NoRecoverableDatabase);
    }
  }

  // ----- what is reported

  /** A failing step is reported if and only if the restore comes to that step. */
  lemma FailsExactlyAt(start: Disk, source: Image, torn: Image, options: Options, fault: Option<RestoreStep>)
    ensures Forward(start, source, torn, options, fault).failed <==>
              && fault.Some?
              && (|| (options.keepPrevious && start.target.Some?)
                  || fault.value in {CopyBackup, VerifyStaged, SyncStaged, Publish, SyncDirectory})
  {
    if fault.Some? {
      match fault.value
      case CopyBackup => case VerifyStaged => case SyncStaged => case WriteJournal => case MovePrevious =>
      case MarkMoved => case Publish => case SyncDirectory => case VerifyPublished => case RemoveJournal =>
    }
  }

  /** What a reconciliation answers, and whose file is at the target when it reports success. */
  lemma ReconcileReports(d: Disk)
    ensures var (end, answer) := (Reconciled(d), ReconcileTrail(d).1);
            && (d.journal.None? <==> answer == Ok(Nothing))
            && (d.journal.None? ==> end == d)
            && (d.journal.Some? ==>
                  var prepared := d.journal.value.phase == Prepared;
                  var takesTarget := d.target.Some? && (!prepared || d.rollback.Some?);
                  var file := if takesTarget then d.target else if d.temp.Some? then d.temp else d.rollback;
                  && (answer == Err(JournalRefused) <==> !d.journal.value.beside)
                  && (d.journal.value.beside ==>
                        && (answer == Err(NoRecoverableDatabase) <==> file.None?)
                        && (answer == Err(NotVerified) <==>
                              file.Some? && !(file.value.intact && file.value.size <= 1_073_741_824))
                        && (answer == Ok(KeptTarget) ==> takesTarget)
                        && (answer == Ok(PublishedStaged) ==> !takesTarget && d.temp.Some?)
                        && (answer == Ok(RestoredPrevious) ==> !takesTarget && d.temp.None?)
                        && (answer.Ok? ==> end.target == file && end.temp.None? && end.journal.None?)
                        && (answer == Ok(KeptTarget) ==> end.rollback == d.rollback)))
  {
  }

  // ----- what reconciliations settle on

  /** A state a crash may leave behind: the start or any durable state passed. */
  ghost predicate CrashPoint(start: Disk, trail: seq<Disk>, d: Disk) { d == start || d in trail }

  /** Reconciliation attempts, each cut off anywhere, run to an error, or completed. */
  ghost predicate Attempts(ds: seq<Disk>) {
    forall i :: 0 <= i < |ds| - 1 ==> CrashPoint(ds[i], ReconcileTrail(ds[i]).0, ds[i + 1])
  }

  predicate InPhase(d: Disk, phase: Phase) { d.journal.Some? && d.journal.value.phase == phase }

  /** The image a reconciliation settles on. */
  function Chosen(d: Disk): Option<Image> {
    if d.target.Some? && !(InPhase(d, Prepared) && d.rollback.None?) then d.target
    else if d.temp.Some? then d.temp
    else if d.target.Some? then d.target
    else d.rollback
  }

  /** The journal can be settled: its paths are accepted and the chosen image verifies. */
  predicate CanSettle(d: Disk)
    requires d.journal.Some?
  {
    d.journal.value.beside && Chosen(d).Some? && Chosen(d).value.Verifies(DEFAULT_MAX_BYTES)
  }

  /** The state in which the first attempt only moves the target away and reports an error. */
  predicate NeedsSecondAttempt(d: Disk) {
    InPhase(d, Prepared) && d.target.Some? && d.temp.None? && d.rollback.None?
  }

  /**
   * Two uninterrupted attempts settle any journal exactly when the rollback path lies beside the
   * target and the image they choose verifies under the default size cap; one attempt is enough
   * exactly when, besides, the directory is not in the state that needs the second one.
   */
  lemma TwoAttemptsSettle(d: Disk)
    requires d.journal.Some?
    ensures Reconciled(Reconciled(d)).journal.None? <==> CanSettle(d)
    ensures Reconciled(d).journal.None? <==> CanSettle(d) && !NeedsSecondAttempt(d)
    ensures CanSettle(d) ==> Reconciled(Reconciled(d)).target == Chosen(d)
  {
  }

  /** No crash point of an attempt changes the choice, and only a verified choice drops the journal. */
  lemma AttemptKeepsChoice(start: Disk, d: Disk)
    requires start.journal.Some? && CrashPoint(start, ReconcileTrail(start).0, d)
    ensures d.journal.Some? ==> Chosen(d) == Chosen(start) && (CanSettle(d) <==> CanSettle(start))
    ensures d.journal.None? ==> d.target == Chosen(start) && CanSettle(start)
  {
  }

  /**
   * The first state alone decides the outcome: attempts that are cut off anywhere, in any number, can
   * only settle on the image chosen there, and only if it verifies.
   */
  lemma {:induction false} AttemptsKeepChoice(ds: seq<Disk>, n: nat)
    requires Attempts(ds) && n < |ds| && ds[0].journal.Some?
    ensures ds[n].journal.Some? ==> Chosen(ds[n]) == Chosen(ds[0]) && (CanSettle(ds[n]) <==> CanSettle(ds[0]))
    ensures ds[n].journal.None? ==> ds[n].target == Chosen(ds[0]) && CanSettle(ds[0])
  {
    if n > 0 {
      AttemptsKeepChoice(ds, n - 1);
      assert CrashPoint(ds[n - 1], ReconcileTrail(ds[n - 1]).0, ds[n - 1 + 1]);
      if ds[n - 1].journal.Some? { AttemptKeepsChoice(ds[n - 1], ds[n]); }
    }
  }

  /** If the rollback path lies elsewhere, every attempt refuses the journal and leaves everything as it is. */
  lemma {:induction false} ElsewhereNeverSettles(ds: seq<Disk>, n: nat)
    requires Attempts(ds) && n < |ds| && ds[0].journal.Some? && !ds[0].journal.value.beside
    ensures ds[n] == ds[0] && ReconcileTrail(ds[n]).1 == Err(JournalRefused)
  {
    if n > 0 {
      ElsewhereNeverSettles(ds, n - 1);
      assert CrashPoint(ds[n - 1], ReconcileTrail(ds[n - 1]).0, ds[n - 1 + 1]);
    }
  }

  // ----- crash safety

  /** Where a journalled restore may be, at any crash point of it or of any reconciliation after it. */
  ghost predicate Recoverable(d: Disk, previous: Image, next: Image) {
    if d.journal.None? then d.target == Some(previous) || d.target == Some(next)
    else
      && (d.temp == None || d.temp == Some(next))
      && (|| (d.target == Some(previous) && d.journal.value.phase.Prepared?)
          || (d.target == Some(previous) && d.temp == None && d.rollback == None)
          || (d.target == Some(next) && d.temp == None && d.rollback == Some(previous))
          || (d.target == None && d.rollback == Some(previous)))
  }

  /** Nothing but the restore's own copy differs from the start. */
  ghost predicate Untouched(start: Disk, d: Disk) { d.(staged := start.staged) == start }

  /** One of the three files is the whole previous or the whole new database. */
  ghost predicate HoldsDatabase(d: Disk, previous: Image, next: Image) {
    exists image :: (image == previous || image == next)
                 && (d.target == Some(image) || d.temp == Some(image) || d.rollback == Some(image))
  }

  /** Before the restore's own journal is written nothing has changed; from there on all is recoverable. */
  ghost predicate Restoring(start: Disk, place: RollbackPlace, next: Image, d: Disk)
    requires start.target.Some?
  {
    || Untouched(start, d)
    || (Recoverable(d, start.target.value, next) && (d.journal.Some? ==> d.journal.value.beside == place.Beside?))
  }

  ghost predicate AllRestoring(start: Disk, place: RollbackPlace, next: Image, states: seq<Disk>)
    requires start.target.Some?
  {
    forall i :: 0 <= i < |states| ==> Restoring(start, place, next, states[i])
  }

  /** Where the forward part of a journalled restore stands when it ends or fails. */
  function ForwardEnd(d: Disk, source: Image, torn: Image, place: RollbackPlace, fault: Option<RestoreStep>): Disk {
    var prepared := Some(Journal(Prepared, place.Beside?));
    var moved := Some(Journal(PreviousMoved, place.Beside?));
    match fault
    case Some(CopyBackup) => d.(staged := Some(torn))
    case Some(VerifyStaged) => d.(staged := Some(source))
    case Some(SyncStaged) => d.(staged := Some(source))
    case Some(WriteJournal) => d.(staged := Some(source))
    case Some(MovePrevious) => Disk(d.target, None, Some(source), place.Kept(), prepared)
    case Some(MarkMoved) => Disk(None, None, Some(source), d.target, prepared)
    case Some(Publish) => Disk(None, None, Some(source), d.target, moved)
    case Some(_) => Disk(Some(source), None, None, d.target, moved)
    case None => Disk(Some(source), None, None, d.target, None)
  }

  predicate FailsAfterPublication(step: RestoreStep) {
    step.SyncDirectory? || step.VerifyPublished? || step.RemoveJournal?
  }

  predicate FailsAfterMove(step: RestoreStep) { step.MarkMoved? || step.Publish? || FailsAfterPublication(step) }

  predicate FailsAfterJournal(step: RestoreStep) { step.MovePrevious? || FailsAfterMove(step) }

  lemma ForwardRestores(d: Disk, source: Image, torn: Image, options: Options, fault: Option<RestoreStep>)
    requires d.target.Some? && options.keepPrevious
    ensures var p := Forward(d, source, torn, options, fault);
            && AllRestoring(d, options.rollbackPlace, source, p.states)
            && Final(d, p.states) == ForwardEnd(d, source, torn, options.rollbackPlace, fault)
            && p.failed == fault.Some?
  {
    var staged := StageForward(d, source, torn, fault);
    if !staged.failed {
      var d1 := Final(d, staged.states);
      var moved := MoveForward(d1, options.rollbackPlace, fault);
      FinalConcat(d, staged.states, moved.states);
      if !moved.failed {
        var published := PublishForward(Final(d1, moved.states), true, fault);
        FinalConcat(d, staged.states + moved.states, published.states);
      }
    }
  }

  lemma ForwardFlags(d: Disk, source: Image, torn: Image, options: Options, fault: RestoreStep)
    requires d.target.Some? && options.keepPrevious
    ensures var p := Forward(d, source, torn, options, Some(fault));
            (p.previousMoved <==> FailsAfterMove(fault)) && (p.journaled <==> FailsAfterJournal(fault))
  {
  }

  /** The error handler starts where the forward part failed and keeps the directory recoverable. */
  lemma HandlerRestores(d: Disk, source: Image, torn: Image, place: RollbackPlace, fault: RestoreStep)
    requires d.target.Some?
    ensures var end := ForwardEnd(d, source, torn, place, Some(fault));
            var passed := HandlerTrail(end, true, FailsAfterJournal(fault), FailsAfterMove(fault), false);
            AllRestoring(d, place, source, passed)
  {
    match fault
    case CopyBackup => case VerifyStaged => case SyncStaged => case WriteJournal => case MovePrevious =>
    case MarkMoved => case Publish => case SyncDirectory => case VerifyPublished => case RemoveJournal =>
  }

  /** Every crash point of a restore, its error handler included, is untouched or recoverable. */
  lemma RestoreStaysRecoverable(
    start: Disk, source: Image, torn: Image, options: Options, fault: Option<RestoreStep>, d: Disk)
    requires start.target.Some? && options.keepPrevious
    requires CrashPoint(start, RestoreTrail(start, source, torn, options, fault, false), d)
    ensures Restoring(start, options.rollbackPlace, source, d)
    ensures start.journal.None? ==> Recoverable(d, start.target.value, source)
  {
    if d != start {
      var forward := Forward(start, source, torn, options, fault);
      ForwardRestores(start, source, torn, options, fault);
      if fault.Some? {
        ForwardFlags(start, source, torn, options, fault.value);
        HandlerRestores(start, source, torn, options.rollbackPlace, fault.value);
      }
      var trail := RestoreTrail(start, source, torn, options, fault, false);
      var i :| 0 <= i < |trail| && trail[i] == d;
      if i < |forward.states| { assert d == forward.states[i]; }
    }
  }

  lemma ReconcileStaysRecoverable(start: Disk, previous: Image, next: Image, d: Disk)
    requires Recoverable(start, previous, next)
    requires CrashPoint(start, ReconcileTrail(start).0, d)
    ensures Recoverable(d, previous, next)
    ensures d.journal.Some? ==> start.journal.Some? && d.journal.value.beside == start.journal.value.beside
  {
  }

  lemma RecoverableChoice(d: Disk, previous: Image, next: Image)
    requires Recoverable(d, previous, next)
    ensures Chosen(d) == Some(previous) || Chosen(d) == Some(next)
    ensures HoldsDatabase(d, previous, next)
  {
    assert d.target == Some(previous) || d.target == Some(next) || d.rollback == Some(previous);
  }

  /** Whatever the journal of an earlier restore makes of it, the database at the target is not lost. */
  lemma {:induction false} AttemptsHoldTarget(ds: seq<Disk>, n: nat, image: Image)
    requires Attempts(ds) && n < |ds| && ds[0].target == Some(image)
    ensures ds[n].target == Some(image) || ds[n].rollback == Some(image)
  {
    if n > 0 {
      AttemptsHoldTarget(ds, n - 1, image);
      assert CrashPoint(ds[n - 1], ReconcileTrail(ds[n - 1]).0, ds[n - 1 + 1]);
    }
  }

  lemma {:induction false} AttemptsStayRecoverable(ds: seq<Disk>, n: nat, previous: Image, next: Image)
    requires Attempts(ds) && n < |ds| && Recoverable(ds[0], previous, next)
    ensures Recoverable(ds[n], previous, next)
    ensures ds[n].journal.Some? ==> ds[0].journal.Some? && ds[n].journal.value.beside == ds[0].journal.value.beside
  {
    if n > 0 {
      AttemptsStayRecoverable(ds, n - 1, previous, next);
      assert CrashPoint(ds[n - 1], ReconcileTrail(ds[n - 1]).0, ds[n - 1 + 1]);
      ReconcileStaysRecoverable(ds[n - 1], previous, next, ds[n]);
    }
  }

  /** If neither image verifies, no number of attempts ever settles the restore. */
  lemma {:induction false} UnverifiedNeverSettles(ds: seq<Disk>, previous: Image, next: Image, n: nat)
    requires Attempts(ds) && n < |ds| && Recoverable(ds[0], previous, next)
    requires ds[0].journal.Some? && !previous.Verifies(DEFAULT_MAX_BYTES) && !next.Verifies(DEFAULT_MAX_BYTES)
    ensures ds[n].journal.Some? && Recoverable(ds[n], previous, next)
  {
    RecoverableChoice(ds[0], previous, next);
    AttemptsKeepChoice(ds, n);
    AttemptsStayRecoverable(ds, n, previous, next);
  }

  /**
   * Crash safety of a restore that keeps the previous database: crash the restore or its error
   * handler anywhere, then reconcile any number of times, crashing anywhere. Some file always holds
   * the whole previous or the whole new database. Once the restore's own journal is written, or if
   * there was none before, this is so: if the rollback path lies beside the target and both databases
   * verify, at most two uninterrupted attempts leave one of them at the target and the journal gone; if
   * it lies elsewhere, a journal that a crash left behind stays for ever.
   */
  lemma CrashSafety(
    start: Disk, source: Image, torn: Image, options: Options, fault: Option<RestoreStep>, ds: seq<Disk>, n: nat)
    requires start.target.Some? && options.keepPrevious
    requires n < |ds| && Attempts(ds)
    requires CrashPoint(start, RestoreTrail(start, source, torn, options, fault, false), ds[0])
    ensures HoldsDatabase(ds[n], start.target.value, source)
    ensures start.journal.None? || !Untouched(start, ds[0]) ==>
              && Recoverable(ds[n], start.target.value, source)
              && (ds[n].journal.Some? ==> ds[n].journal.value.beside == options.rollbackPlace.Beside?)
              && (start.target.value.Verifies(DEFAULT_MAX_BYTES) && source.Verifies(DEFAULT_MAX_BYTES)
                  && options.rollbackPlace.Beside? ==>
                    var settled := Reconciled(Reconciled(ds[n]));
                    settled.journal.None? && (settled.target == start.target || settled.target == Some(source)))
    ensures ds[0].journal.Some? && !ds[0].journal.value.beside ==> ds[n] == ds[0]
  {
    var previous := start.target.value;
    RestoreStaysRecoverable(start, source, torn, options, fault, ds[0]);
    if ds[0].journal.Some? && !ds[0].journal.value.beside { ElsewhereNeverSettles(ds, n); }
    if Recoverable(ds[0], previous, source) {
      AttemptsStayRecoverable(ds, n, previous, source);
      RecoverableChoice(ds[n], previous, source);
      if ds[n].journal.Some? { TwoAttemptsSettle(ds[n]); }
    } else {
      AttemptsHoldTarget(ds, n, previous);
    }
  }

  /** The forward part never shows the state that needs a second attempt: its staged copy is still there. */
  lemma ForwardKeepsCopy(d: Disk, source: Image, torn: Image, options: Options, fault: Option<RestoreStep>)
    requires d.target.Some? && d.journal.None? && options.keepPrevious
    ensures var states := Forward(d, source, torn, options, fault).states;
            forall i :: 0 <= i < |states| ==> !NeedsSecondAttempt(states[i])
  {
    var staged := StageForward(d, source, torn, fault);
    if !staged.failed {
      var d1 := Final(d, staged.states);
      var moved := MoveForward(d1, options.rollbackPlace, fault);
      FinalConcat(d, staged.states, moved.states);
    }
  }

  /** The handler states after a failing step that show the state that needs a second attempt. */
  lemma HandlerNeedsSecondAttempt(
    d: Disk, source: Image, torn: Image, place: RollbackPlace, fault: RestoreStep, renameBackFails: bool)
    requires d.target.Some? && d.journal.None?
    ensures var end := ForwardEnd(d, source, torn, place, Some(fault));
            var handled := HandlerTrail(end, true, FailsAfterJournal(fault), FailsAfterMove(fault), renameBackFails);
            var needed := (fault.MovePrevious? && place.Kept().None?) || (fault.MarkMoved? && !renameBackFails);
            && |handled| == 3 && (NeedsSecondAttempt(handled[1]) <==> needed)
            && (NeedsSecondAttempt(handled[0]) ==> needed) && !NeedsSecondAttempt(handled[2])
  {
  }

  /**
   * A crash leaves the state that needs the second attempt exactly when the error handler had dropped
   * the staged copy and had the previous database in place, with nothing at the rollback path.
   */
  lemma SecondAttemptIsNeededWhen(
    start: Disk, source: Image, torn: Image, options: Options, fault: Option<RestoreStep>, renameBackFails: bool)
    requires start.target.Some? && start.journal.None? && options.keepPrevious
    ensures var trail := RestoreTrail(start, source, torn, options, fault, renameBackFails);
            (exists d :: d in trail && NeedsSecondAttempt(d)) <==>
              || (fault == Some(MovePrevious) && options.rollbackPlace.Kept().None?)
              || (fault == Some(MarkMoved) && !renameBackFails)
  {
    var forward := Forward(start, source, torn, options, fault);
    var trail := RestoreTrail(start, source, torn, options, fault, renameBackFails);
    ForwardRestores(start, source, torn, options, fault);
    ForwardKeepsCopy(start, source, torn, options, fault);
    if fault.Some? {
      ForwardFlags(start, source, torn, options, fault.value);
      var handled := HandlerAfter(start, true, forward, renameBackFails);
      HandlerNeedsSecondAttempt(start, source, torn, options.rollbackPlace, fault.value, renameBackFails);
      assert trail[|forward.states| + 1] == handled[1];
    }
    forall i | 0 <= i < |forward.states| ensures !NeedsSecondAttempt(trail[i]) {
      assert trail[i] == forward.states[i];
    }
  }

  /**
   * There the first attempt moves the only database away and reports that none is recoverable; the
   * second one puts it back.
   */
  lemma SecondAttemptPutsBack(d: Disk)
    requires NeedsSecondAttempt(d) && d.journal.value.beside && d.target.value.Verifies(DEFAULT_MAX_BYTES)
    ensures ReconcileTrail(d).1 == Err(NoRecoverableDatabase)
    ensures Reconciled(d).target.None? && Reconciled(d).rollback == d.target
    ensures ReconcileTrail(Reconciled(d)).1 == Ok(RestoredPrevious)
    ensures Reconciled(Reconciled(d)) == d.(journal := None)
  {
  }

  // ----- restores that keep nothing

  /** The target is untouched or published, and nothing else has changed. */
  ghost predicate PlainState(start: Disk, source: Image, d: Disk) {
    && (d.target == start.target || d.target == Some(source))
    && d.temp == start.temp && d.rollback == start.rollback && d.journal == start.journal
  }

  ghost predicate AllPlain(start: Disk, source: Image, states: seq<Disk>) {
    forall i :: 0 <= i < |states| ==> PlainState(start, source, states[i])
  }

  lemma PlainConcat(start: Disk, source: Image, first: seq<Disk>, second: seq<Disk>)
    requires AllPlain(start, source, first) && AllPlain(start, source, second)
    ensures AllPlain(start, source, first + second)
  {
  }

  lemma PlainStaging(start: Disk, source: Image, torn: Image, fault: Option<RestoreStep>)
    ensures var p := StageForward(start, source, torn, fault);
            AllPlain(start, source, p.states) && PlainState(start, source, Final(start, p.states))
            && !p.journaled && !p.previousMoved
    ensures var p := StageForward(start, source, torn, fault);
            !p.failed ==> Final(start, p.states) == start.(staged := Some(source))
  {
  }

  lemma NothingToMove(d: Disk, place: RollbackPlace, fault: Option<RestoreStep>)
    ensures AfterStaging(d, false, place, fault) == PublishForward(d, false, fault)
  {
    var published := PublishForward(d, false, fault).states;
    assert [] + published == published;
  }

  lemma PlainPublish(start: Disk, source: Image, fault: Option<RestoreStep>)
    ensures var d := start.(staged := Some(source));
            var p := PublishForward(d, false, fault);
            AllPlain(start, source, p.states) && PlainState(start, source, Final(d, p.states))
            && !p.journaled && !p.previousMoved
  {
  }

  lemma PlainPublishing(start: Disk, source: Image, place: RollbackPlace, fault: Option<RestoreStep>)
    ensures var d := start.(staged := Some(source));
            var p := AfterStaging(d, false, place, fault);
            AllPlain(start, source, p.states) && PlainState(start, source, Final(d, p.states))
            && !p.journaled && !p.previousMoved
  {
    NothingToMove(start.(staged := Some(source)), place, fault);
    PlainPublish(start, source, fault);
  }

  lemma PlainForward(start: Disk, source: Image, torn: Image, options: Options, fault: Option<RestoreStep>)
    requires !(options.keepPrevious && start.target.Some?)
    ensures var p := Forward(start, source, torn, options, fault);
            AllPlain(start, source, p.states) && PlainState(start, source, Final(start, p.states))
            && !p.journaled && !p.previousMoved
  {
    var staged := StageForward(start, source, torn, fault);
    PlainStaging(start, source, torn, fault);
    if !staged.failed {
      var d, place := start.(staged := Some(source)), options.rollbackPlace;
      PlainPublishing(start, source, place, fault);
      PlainConcat(start, source, staged.states, AfterStaging(d, false, place, fault).states);
      FinalConcat(start, staged.states, AfterStaging(d, false, place, fault).states);
    }
  }

  /** A restore that keeps nothing is atomic: at every crash point the target is untouched or published. */
  lemma PlainRestoreIsAtomic(
    start: Disk, source: Image, torn: Image, options: Options, fault: Option<RestoreStep>, renameBackFails: bool,
    d: Disk)
    requires !(options.keepPrevious && start.target.Some?)
    requires CrashPoint(start, RestoreTrail(start, source, torn, options, fault, renameBackFails), d)
    ensures d.target == start.target || d.target == Some(source)
    ensures d.temp == start.temp && d.rollback == start.rollback && d.journal == start.journal
  {
    if d != start {
      var forward := Forward(start, source, torn, options, fault);
      PlainForward(start, source, torn, options, fault);
      var trail := RestoreTrail(start, source, torn, options, fault, renameBackFails);
      var i :| 0 <= i < |trail| && trail[i] == d;
      if i < |forward.states| { assert d == forward.states[i]; }
      assert PlainState(start, source, d);
    }
  }

  /** A finished restore that keeps nothing: the new database exactly if it came to publishing it. */
  lemma FinishedPlainRestore(
    start: Disk, source: Image, torn: Image, options: Options, fault: Option<RestoreStep>, renameBackFails: bool)
    requires !(options.keepPrevious && start.target.Some?)
    ensures var end := Final(start, RestoreTrail(start, source, torn, options, fault, renameBackFails));
            && end.staged.None?
            && end.target == if fault.Some? && fault.value in {CopyBackup, VerifyStaged, SyncStaged, Publish}
                             then start.target else Some(source)
  {
    var forward := Forward(start, source, torn, options, fault);
    FinalConcat(start, forward.states, HandlerAfter(start, false, forward, renameBackFails));
  }

  // ----- the journal of an earlier restore

  /** A plain restore that succeeds leaves the journal of an earlier restore and its files as they were. */
  lemma PlainRestoreEnd(start: Disk, source: Image, torn: Image, options: Options)
    requires !(options.keepPrevious && start.target.Some?)
    ensures var end := Final(start, RestoreTrail(start, source, torn, options, None, false));
            end == start.(target := Some(source), staged := None)
  {
  }

  /** The journals that lead away from the database at the target. */
  predicate LeadsAway(d: Disk)
    requires d.journal.Some? && d.target.Some?
  {
    && d.journal.value.beside && InPhase(d, Prepared) && d.rollback.None?
    && !(Chosen(d) == d.target && d.target.value.Verifies(DEFAULT_MAX_BYTES))
  }

  /**
   * A restore that keeps nothing never looks for an earlier journal. The next two reconciliations undo
   * it exactly when that journal is `prepared`, names a rollback path beside the target with no file
   * there, and either its staged copy is present and not the restored database, or the restored
   * database does not verify under the default size cap.
   */
  lemma ForgottenJournalUndoes(start: Disk, source: Image, torn: Image, options: Options)
    requires !(options.keepPrevious && start.target.Some?) && start.journal.Some?
    ensures var end := Final(start, RestoreTrail(start, source, torn, options, None, false));
            && end.journal == start.journal && end.target == Some(source)
            && (Reconciled(Reconciled(end)).target == Some(source) <==> !LeadsAway(end))
            && (LeadsAway(end) <==>
                  && start.journal.value.beside && InPhase(start, Prepared) && start.rollback.None?
                  && ((start.temp.Some? && start.temp != Some(source)) || !source.Verifies(DEFAULT_MAX_BYTES)))
  {
    PlainRestoreEnd(start, source, torn, options);
  }

  /**
   * A run: a restore of `first` crashes right after its journal is written; a plain restore of
   * `second` succeeds; the next reconciliation moves `second` away and publishes `first`.
   */
  lemma ForgottenJournalRun(previous: Image, first: Image, second: Image, torn: Image)
    returns (start: Disk, interrupted: Disk, restored: Disk)
    requires first.Verifies(DEFAULT_MAX_BYTES) && second.Verifies(DEFAULT_MAX_BYTES) && first != second
    ensures start == Disk(Some(previous), None, None, None, None)
    ensures interrupted in RestoreTrail(start, first, torn, Options(None, true, true, Beside(None)), None, false)
    ensures var plain := Options(None, true, false, Beside(None));
            && Refusal(interrupted, second, plain, false).None?
            && restored == Final(interrupted, RestoreTrail(interrupted, second, torn, plain, None, false))
    ensures restored.target == Some(second)
    ensures ReconcileTrail(restored).1 == Ok(PublishedStaged)
    ensures Reconciled(restored) == Disk(Some(first), None, None, Some(second), None)
  {
    start := Disk(Some(previous), None, None, None, None);
    var keeping, plain := Options(None, true, true, Beside(None)), Options(None, true, false, Beside(None));
    interrupted := Journalled(start.(staged := Some(first)), Beside(None));
    assert RestoreTrail(start, first, torn, keeping, None, false)[2] == interrupted;
    PlainRestoreEnd(interrupted, second, torn, plain);
    restored := interrupted.(target := Some(second));
  }

  /**
   * The outcome of a finished restore that keeps the previous database. A failed one leaves the
   * previous database in place, unless it failed after publication; the one exception is a handler
   * whose own rename fails after the previous database was moved, which leaves no target and no journal.
   * No journal is left, not even an earlier one, whose staged copy may stay behind.
   */
  lemma FinishedRestore(
    start: Disk, source: Image, torn: Image, options: Options, fault: Option<RestoreStep>, renameBackFails: bool)
    requires start.target.Some? && options.keepPrevious
    ensures var end := Final(start, RestoreTrail(start, source, torn, options, fault, renameBackFails));
            && end.journal.None? && end.staged.None?
            && end.temp == (if fault.Some? && !FailsAfterJournal(fault.value) then start.temp else None)
            && (fault.None? ==> end.target == Some(source) && end.rollback == start.target)
            && (end.target.None? <==> renameBackFails && (fault == Some(MarkMoved) || fault == Some(Publish)))
            && (end.target.None? ==> end.rollback == start.target && Reconciled(end) == end)
            && (end.target.Some? && fault.Some? ==>
                  end.target == if FailsAfterPublication(fault.value) then Some(source) else start.target)
  {
    var forward := Forward(start, source, torn, options, fault);
    ForwardRestores(start, source, torn, options, fault);
    if fault.Some? {
      ForwardFlags(start, source, torn, options, fault.value);
      FinalConcat(start, forward.states, HandlerAfter(start, true, forward, renameBackFails));
    }
  }
}

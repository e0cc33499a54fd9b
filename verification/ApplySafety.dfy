// What every run of the protocol keeps, through failed writes, failed reloads, failed
// rollbacks, lost audit writes and crashes.
module ApplySafety {
  import opened Wrappers
  import opened Domain
  import opened ApplyProtocol

  // What a configuration text means to its user: U is any abstraction that merging a
  // compiled preview leaves alone.
  ghost predicate KeepsUser<U(!new)>(env: Env, strip: string -> U) {
    forall text, p :: Produced(env, p) && env.merge(text, p).Some? ==> strip(env.merge(text, p).value) == strip(text)
  }

  ghost predicate Produced(env: Env, p: Preview) {
    exists snapshot :: env.compile(snapshot) == Some(p)
  }

  // ---- what the lock holder knows, one table at a time ----

  function IdOf(pc: Pc): Option<string> {
    match pc
    case Idle => None
    case Drafted(id, _, _) => Some(id)
    case HaveOriginal(id, _, _) => Some(id)
    case Failing(id, _, _) => Some(id)
    case _ => Some(pc.job.id)
  }

  predicate HasJob(pc: Pc) {
    !pc.Idle? && !pc.Drafted? && !pc.HaveOriginal? && !pc.Failing?
  }

  // Its own audit row is still a draft.
  ghost predicate OwnsDraft(compilations: map<string, CompilationRow>, pc: Pc) {
    IdOf(pc).Some? ==> IdOf(pc).value in compilations && compilations[IdOf(pc).value].status == Draft
  }

  // The original can be found again, and the audit says so.
  ghost predicate Secured(env: Env, backups: map<string, string>, rollbacks: map<string, RollbackRow>, job: Job) {
    && job.id in backups && backups[job.id] == job.original
    && job.id in rollbacks
    && rollbacks[job.id].priorHash == env.hash(job.original)
    && rollbacks[job.id].candidateHash == env.hash(job.candidate)
  }

  ghost predicate Prepared(env: Env, backups: map<string, string>, rollbacks: map<string, RollbackRow>, pc: Pc) {
    && (pc.Drafted? || pc.HaveOriginal? ==> pc.id !in rollbacks)
    && (pc.Merged? || pc.BackedUp? ==> pc.job.id !in rollbacks)
    && (pc.BackedUp? ==> pc.job.id in backups && backups[pc.job.id] == pc.job.original)
    && (HasJob(pc) && !pc.Merged? && !pc.BackedUp? ==> Secured(env, backups, rollbacks, pc.job))
    && (pc.Ready? || pc.Written? || pc.Reloaded? || pc.Probed? ==> rollbacks[pc.job.id].status == NotNeeded)
  }

  // Both configurations of a job belong to the same user.
  ghost predicate SameUser<U(!new)>(env: Env, strip: string -> U, user: U, pc: Pc) {
    && (pc.Drafted? || pc.HaveOriginal? ==> Produced(env, pc.preview))
    && (HasJob(pc) ==> strip(pc.job.original) == user && strip(pc.job.candidate) == user)
  }

  // Which of the two contents the file has.
  predicate FileKnown(config: string, pc: Pc) {
    match pc
    case Idle => true
    case Drafted(_, _, start) => config == start
    case HaveOriginal(_, _, start) => config == start
    case Failing(_, _, start) => config == start
    case Merged(job) => config == job.original
    case BackedUp(job) => config == job.original
    case Ready(job) => config == job.original
    case Written(job) => config == job.candidate
    case Reloaded(job) => config == job.candidate
    case Probed(job) => config == job.candidate
    case RestoredFile(job) => config == job.original
    case RestoredKernel(job) => config == job.original
    case RollbackAudited(job) => config == job.original
    case _ => config == pc.job.original || config == pc.job.candidate
  }

  ghost predicate EndsWith(calls: seq<Call>, tail: seq<Call>) {
    |tail| <= |calls| && calls[|calls| - |tail|..] == tail
  }

  // What the kernel runs, and what it answered last.
  ghost predicate KernelKnown(running: string, calls: seq<Call>, pc: Pc) {
    match pc
    case Reloaded(job) => running == job.candidate && EndsWith(calls, [Reload(job.candidate, true)])
    case Probed(job) => running == job.candidate && EndsWith(calls, [Reload(job.candidate, true), Probe(true)])
    case RestoredKernel(job) => running == job.original && EndsWith(calls, [Reload(job.original, true)])
    case RollbackAudited(job) => running == job.original && EndsWith(calls, [Reload(job.original, true)])
    case _ => true
  }

  // Every rollback row, of finished, failed and crashed applications alike, has its
  // backup, with the hash it records.
  ghost predicate BackupsFound(env: Env, w: World) {
    forall id :: id in w.rollbacks ==>
      id in w.compilations && id in w.backups && env.hash(w.backups[id]) == w.rollbacks[id].priorHash
  }

  ghost predicate Invariant<U(!new)>(env: Env, strip: string -> U, user: U, s: State) {
    && strip(s.world.config) == user
    && BackupsFound(env, s.world)
    && OwnsDraft(s.world.compilations, s.pc)
    && Prepared(env, s.world.backups, s.world.rollbacks, s.pc)
    && SameUser(env, strip, user, s.pc)
    && FileKnown(s.world.config, s.pc)
    && KernelKnown(s.world.running, s.world.calls, s.pc)
  }

  // ---- it is kept ----

  lemma IdleKeeps<U(!new)>(env: Env, strip: string -> U, user: U, s: State)
    requires Invariant(env, strip, user, s)
    ensures Invariant(env, strip, user, State(s.world, Idle))
  {
  }

  lemma InsertKeeps<U(!new)>(env: Env, strip: string -> U, user: U, s: State, id: string, row: CompilationRow, fault: Fault)
    requires Invariant(env, strip, user, s)
    ensures Invariant(env, strip, user, State(Insert(s.world, id, row, fault), s.pc))
  {
  }

  lemma CompleteKeeps<U(!new)>(env: Env, strip: string -> U, user: U, s: State, id: string, status: Status, hash: string, fault: Fault)
    requires Invariant(env, strip, user, s)
    ensures Invariant(env, strip, user, State(Complete(s.world, id, status, hash, fault), Idle))
  {
  }

  lemma BeginKeeps<U(!new)>(env: Env, strip: string -> U, user: U, s: State, snapshot: Snapshot, p: Preview, id: string, fault: Fault)
    requires Invariant(env, strip, user, s) && env.compile(snapshot) == Some(p) && Inserted(s.world, id, fault)
    ensures Invariant(env, strip, user,
      State(Insert(s.world, id, CompilationRow(Draft, p.contentHash, false), fault), Drafted(id, p, s.world.config)))
  {
    assert id !in s.world.rollbacks;
  }

  lemma OutsideKeeps<U(!new)>(env: Env, strip: string -> U, user: U, s: State, a: Action)
    requires Invariant(env, strip, user, s) && StepOutside(env, s, a).Some?
    ensures Invariant(env, strip, user, StepOutside(env, s, a).value)
  {
    match a {
      case Crash => IdleKeeps(env, strip, user, s);
      case Validate(snapshot, id, fault) =>
        var p := env.compile(snapshot);
        InsertKeeps(env, strip, user, s, id,
          if p.None? then CompilationRow(Failed, "", false) else CompilationRow(Validated, p.value.contentHash, false), fault);
      case RecordFailure(_, id, fault) => InsertKeeps(env, strip, user, s, id, CompilationRow(Failed, "", false), fault);
      case Begin(snapshot, id, fault) =>
        var p := env.compile(snapshot).value;
        InsertKeeps(env, strip, user, s, id, CompilationRow(Draft, p.contentHash, false), fault);
        if Inserted(s.world, id, fault) {
          BeginKeeps(env, strip, user, s, snapshot, p, id, fault);
        }
      case _ =>
    }
  }

  lemma BackupKeeps<U(!new)>(env: Env, strip: string -> U, user: U, s: State, job: Job, fault: Fault)
    requires Invariant(env, strip, user, s) && s.pc == Merged(job)
    ensures var w := WriteBackup(s.world, job.id, job.original, fault);
      && (fault.Fine? ==> Invariant(env, strip, user, State(w, BackedUp(job))))
      && Invariant(env, strip, user, State(w, Failing(job.id, job.overlayHash, job.original)))
  {
    assert job.id !in s.world.rollbacks;
  }

  lemma AuditKeeps<U(!new)>(env: Env, strip: string -> U, user: U, s: State, job: Job, fault: Fault)
    requires Invariant(env, strip, user, s) && s.pc == BackedUp(job)
    ensures var w := InsertRollback(env, s.world, job, fault);
      && (fault.Fine? ==> Invariant(env, strip, user, State(w, Ready(job))))
      && Invariant(env, strip, user, State(w, Failing(job.id, job.overlayHash, job.original)))
  {
    assert job.id !in s.world.rollbacks;
  }

  lemma GiveUpKeeps<U(!new)>(env: Env, strip: string -> U, user: U, s: State, id: string, hash: string, start: string)
    requires Invariant(env, strip, user, s) && IdOf(s.pc) == Some(id) && s.world.config == start
    ensures Invariant(env, strip, user, State(s.world, Failing(id, hash, start)))
  {
  }

  lemma MergeKeeps<U(!new)>(env: Env, strip: string -> U, user: U, s: State, job: Job, p: Preview)
    requires KeepsUser(env, strip) && Invariant(env, strip, user, s)
    requires s.pc == HaveOriginal(job.id, p, job.original) && env.merge(job.original, p) == Some(job.candidate)
    ensures Invariant(env, strip, user, State(s.world, Merged(job)))
  {
    assert strip(env.merge(job.original, p).value) == strip(job.original);
  }

  lemma PrepareKeeps<U(!new)>(env: Env, strip: string -> U, user: U, s: State, a: Action)
    requires KeepsUser(env, strip) && Invariant(env, strip, user, s) && StepPrepare(env, s, a).Some?
    ensures Invariant(env, strip, user, StepPrepare(env, s, a).value)
  {
    match s.pc {
      case Drafted(id, p, start) => GiveUpKeeps(env, strip, user, s, id, p.contentHash, start);
      case HaveOriginal(id, p, start) =>
        GiveUpKeeps(env, strip, user, s, id, p.contentHash, start);
        if env.merge(start, p).Some? {
          MergeKeeps(env, strip, user, s, Job(id, p.contentHash, start, env.merge(start, p).value), p);
        }
      case Merged(job) => BackupKeeps(env, strip, user, s, job, a.fault);
      case BackedUp(job) =>
        GiveUpKeeps(env, strip, user, s, job.id, job.overlayHash, job.original);
        AuditKeeps(env, strip, user, s, job, a.fault);
      case Failing(id, hash, _) => CompleteKeeps(env, strip, user, s, id, Failed, hash, a.fault);
      case _ =>
    }
  }

  lemma WriteKeeps<U(!new)>(env: Env, strip: string -> U, user: U, s: State, job: Job, fault: Fault)
    requires Invariant(env, strip, user, s) && s.pc == Ready(job)
    ensures var w := WriteConfig(s.world, job.candidate, fault);
      && (fault.Fine? ==> Invariant(env, strip, user, State(w, Written(job))))
      && Invariant(env, strip, user, State(w, Restoring(job)))
  {
  }

  lemma ReloadKeeps<U(!new)>(env: Env, strip: string -> U, user: U, s: State, job: Job, ok: bool, effective: bool)
    requires Invariant(env, strip, user, s) && s.pc == Written(job)
    ensures var w := ReloadConfig(s.world, ok, effective);
      && (ok ==> Invariant(env, strip, user, State(w, Reloaded(job))))
      && Invariant(env, strip, user, State(w, Restoring(job)))
  {
    EndsWithMore(s.world.calls, [], Reload(job.candidate, true));
  }

  lemma ProbeKeeps<U(!new)>(env: Env, strip: string -> U, user: U, s: State, job: Job, ok: bool)
    requires Invariant(env, strip, user, s) && s.pc == Reloaded(job)
    ensures var w := s.world.(calls := s.world.calls + [Probe(ok)]);
      && (ok ==> Invariant(env, strip, user, State(w, Probed(job))))
      && Invariant(env, strip, user, State(w, Restoring(job)))
  {
    EndsWithMore(s.world.calls, [Reload(job.candidate, true)], Probe(ok));
  }

  lemma EndsWithMore(calls: seq<Call>, tail: seq<Call>, call: Call)
    requires EndsWith(calls, tail)
    ensures EndsWith(calls + [call], tail + [call])
  {
    var n := |calls| - |tail|;
    assert (calls + [call])[n..] == calls[n..] + [call];
  }

  lemma CommitKeeps<U(!new)>(env: Env, strip: string -> U, user: U, s: State, a: Action)
    requires Invariant(env, strip, user, s) && StepCommit(env, s, a).Some?
    ensures Invariant(env, strip, user, StepCommit(env, s, a).value)
  {
    match s.pc {
      case Ready(job) => WriteKeeps(env, strip, user, s, job, a.fault);
      case Written(job) => ReloadKeeps(env, strip, user, s, job, a.ok, a.effective);
      case Reloaded(job) => ProbeKeeps(env, strip, user, s, job, a.ok);
      case Probed(job) => CompleteKeeps(env, strip, user, s, job.id, Applied, env.hash(job.candidate), a.fault);
      case _ =>
    }
  }

  lemma RestoreKeeps<U(!new)>(env: Env, strip: string -> U, user: U, s: State, a: Action)
    requires Invariant(env, strip, user, s) && StepRestore(env, s, a).Some?
    ensures Invariant(env, strip, user, StepRestore(env, s, a).value)
  {
  }

  lemma SettleKeeps<U(!new)>(env: Env, strip: string -> U, user: U, s: State, a: Action)
    requires Invariant(env, strip, user, s) && StepSettle(env, s, a).Some?
    ensures Invariant(env, strip, user, StepSettle(env, s, a).value)
  {
    match s.pc {
      case RestoredKernel(job) => SettledRowKeeps(env, strip, user, s, job, Restored, a.fault, RollbackAudited(job));
      case RollbackAudited(job) => CompleteKeeps(env, strip, user, s, job.id, RolledBack, env.hash(job.candidate), a.fault);
      case Broken(job) => SettledRowKeeps(env, strip, user, s, job, RollbackFailed, a.fault, BrokenAudited(job));
      case BrokenAudited(job) => CompleteKeeps(env, strip, user, s, job.id, Failed, env.hash(job.candidate), a.fault);
      case _ =>
    }
  }

  lemma SettledRowKeeps<U(!new)>(env: Env, strip: string -> U, user: U, s: State, job: Job, status: RollbackStatus, fault: Fault, next: Pc)
    requires Invariant(env, strip, user, s)
    requires (s.pc == RestoredKernel(job) && next == RollbackAudited(job)) || (s.pc == Broken(job) && next == BrokenAudited(job))
    ensures Invariant(env, strip, user, State(CompleteRollback(s.world, job.id, status, fault), next))
  {
  }

  lemma DoKeeps<U(!new)>(env: Env, strip: string -> U, user: U, s: State, a: Action)
    requires KeepsUser(env, strip)
    requires Invariant(env, strip, user, s) && Do(env, s, a).Some?
    ensures Invariant(env, strip, user, Do(env, s, a).value)
  {
    if a.Crash? || a.Validate? || a.RecordFailure? || a.Begin? {
      OutsideKeeps(env, strip, user, s, a);
    } else if a.Read? || a.Merge? || a.Backup? || a.AuditRollback? || a.CompleteFailed? {
      PrepareKeeps(env, strip, user, s, a);
    } else if a.WriteCandidate? || a.ReloadCandidate? || a.ProbeCandidate? || a.CompleteApplied? {
      CommitKeeps(env, strip, user, s, a);
    } else if a.AuditRestored? || a.CompleteRolledBack? || a.AuditBroken? || a.CompleteBroken? {
      SettleKeeps(env, strip, user, s, a);
    } else {
      RestoreKeeps(env, strip, user, s, a);
    }
  }

  // A fresh start: nobody holds the lock; audit tables of earlier processes are kept.
  ghost predicate Initial(env: Env, s: State) {
    s.pc.Idle? && BackupsFound(env, s.world)
  }

  lemma {:induction false} RunKeepsInvariant<U(!new)>(env: Env, strip: string -> U, s: State, actions: seq<Action>)
    requires KeepsUser(env, strip)
    requires Initial(env, s) && Run(env, s, actions).Some?
    ensures Invariant(env, strip, strip(s.world.config), Run(env, s, actions).value)
  {
    if actions != [] {
      RunKeepsInvariant(env, strip, s, actions[..|actions| - 1]);
      DoKeeps(env, strip, strip(s.world.config), Run(env, s, actions[..|actions| - 1]).value, actions[|actions| - 1]);
    }
  }

  // ---- what the user sees ----

  // Through any run, whatever failed in it, the file with its managed entries stripped is
  // the file the run started with, stripped; and every intermediate state is such a run.
  lemma UserPartNeverChanges<U(!new)>(env: Env, strip: string -> U, s: State, actions: seq<Action>)
    requires KeepsUser(env, strip)
    requires Initial(env, s) && Run(env, s, actions).Some?
    ensures strip(Run(env, s, actions).value.world.config) == strip(s.world.config)
  {
    RunKeepsInvariant(env, strip, s, actions);
  }

  // While an application is under way, a file that differs from the content it started
  // from is covered: the backup holds exactly that content, and a rollback row with its
  // hash and the candidate's exists. A crash keeps the world, so this holds after one too.
  ghost predicate Covered(env: Env, s: State) {
    match IdOf(s.pc)
    case None => true
    case Some(id) =>
      var start := StartOf(s.pc);
      s.world.config != start ==>
        && id in s.world.backups && s.world.backups[id] == start
        && id in s.world.rollbacks && s.world.rollbacks[id].priorHash == env.hash(start)
        && HasJob(s.pc) && s.world.config == s.pc.job.candidate
        && s.world.rollbacks[id].candidateHash == env.hash(s.world.config)
  }

  function StartOf(pc: Pc): string
    requires !pc.Idle?
  {
    if HasJob(pc) then pc.job.original else pc.start
  }

  lemma EveryStateCovered<U(!new)>(env: Env, strip: string -> U, s: State, actions: seq<Action>)
    requires KeepsUser(env, strip)
    requires Initial(env, s) && Run(env, s, actions).Some?
    ensures Covered(env, Run(env, s, actions).value)
    ensures BackupsFound(env, Run(env, s, actions).value.world)
  {
    RunKeepsInvariant(env, strip, s, actions);
  }

  // ---- statuses tell the truth ----

  predicate StatusChanges(w: World, w': World, id: string) {
    id in w'.compilations && (id !in w.compilations || w.compilations[id].status != w'.compilations[id].status)
  }

  // What a row's new status claims about the world at that moment.
  ghost predicate Truthful(env: Env, w: World, id: string) {
    id in w.compilations &&
    match w.compilations[id].status
    case Applied =>
      && w.compilations[id].appliedAt
      && w.compilations[id].hash == env.hash(w.config)
      && w.running == w.config
      && EndsWith(w.calls, [Reload(w.config, true), Probe(true)])
      && id in w.rollbacks && w.rollbacks[id].status == NotNeeded
    case RolledBack =>
      && id in w.backups && w.backups[id] == w.config
      && id in w.rollbacks && w.rollbacks[id].priorHash == env.hash(w.config)
      && w.running == w.config
      && EndsWith(w.calls, [Reload(w.config, true)])
    case _ => !w.compilations[id].appliedAt
  }

  // In every step of every run: a row that changes status was a draft (or new), and what
  // the new status claims is true of the file, the kernel and the audit.
  lemma StatusesTellTheTruth<U(!new)>(env: Env, strip: string -> U, s: State, actions: seq<Action>, id: string)
    requires KeepsUser(env, strip)
    requires Initial(env, s) && actions != [] && Run(env, s, actions).Some?
    requires StatusChanges(Run(env, s, actions[..|actions| - 1]).value.world, Run(env, s, actions).value.world, id)
    ensures var before, after := Run(env, s, actions[..|actions| - 1]).value.world, Run(env, s, actions).value.world;
      && (if id in before.compilations then before.compilations[id].status == Draft
          else after.compilations[id].status in {Draft, Validated, Failed})
      && Truthful(env, after, id)
  {
    var before, a := Run(env, s, actions[..|actions| - 1]).value, actions[|actions| - 1];
    RunKeepsInvariant(env, strip, s, actions[..|actions| - 1]);
    StepTellsTheTruth(env, strip, strip(s.world.config), before, a, id);
  }

  lemma StepTellsTheTruth<U(!new)>(env: Env, strip: string -> U, user: U, s: State, a: Action, id: string)
    requires Invariant(env, strip, user, s) && Do(env, s, a).Some?
    requires StatusChanges(s.world, Do(env, s, a).value.world, id)
    ensures if id in s.world.compilations then s.world.compilations[id].status == Draft
      else Do(env, s, a).value.world.compilations[id].status in {Draft, Validated, Failed}
    ensures Truthful(env, Do(env, s, a).value.world, id)
  {
    match a {
      case CompleteApplied(_) =>
      case CompleteRolledBack(_) =>
      case CompleteFailed(_) =>
      case CompleteBroken(_) =>
      case _ => NoOtherStatus(env, s, a, id);
    }
  }

  // Every other step leaves the statuses, except that it may add a new row.
  lemma NoOtherStatus(env: Env, s: State, a: Action, id: string)
    requires Do(env, s, a).Some?
    requires !a.CompleteApplied? && !a.CompleteRolledBack? && !a.CompleteFailed? && !a.CompleteBroken?
    requires StatusChanges(s.world, Do(env, s, a).value.world, id)
    ensures id !in s.world.compilations
    ensures var row := Do(env, s, a).value.world.compilations[id]; row.status in {Draft, Validated, Failed} && !row.appliedAt
  {
  }

  // Where a row's new status comes from: a draft from the start of an application, whose
  // canvas compiles; validated from a dry run of a canvas that compiles; failed from a
  // canvas that does not, or from a draft whose application failed; applied and rolled back
  // from their own last steps. A row never gets two.
  ghost predicate HasCause(env: Env, w: World, a: Action, w': World, id: string) {
    id in w'.compilations &&
    var row := w'.compilations[id];
    match row.status
    case Draft => id !in w.compilations && a.Begin? && a.id == id && env.compile(a.snapshot).Some? && !row.appliedAt
    case Validated => id !in w.compilations && a.Validate? && a.id == id && env.compile(a.snapshot).Some? && !row.appliedAt
    case Failed =>
      !row.appliedAt &&
      if id in w.compilations then a.CompleteFailed? || a.CompleteBroken?
      else (a.Validate? || a.RecordFailure?) && a.id == id && env.compile(a.snapshot).None?
    case Applied => id in w.compilations && a.CompleteApplied?
    case RolledBack => id in w.compilations && a.CompleteRolledBack?
  }

  lemma EveryStatusHasCause(env: Env, s: State, a: Action, id: string)
    requires Do(env, s, a).Some? && StatusChanges(s.world, Do(env, s, a).value.world, id)
    ensures HasCause(env, s.world, a, Do(env, s, a).value.world, id)
  {
  }

  // The last step of an application, unless it is lost, gives its draft the status of that
  // step and the hash it settles on.
  lemma LastStepSettles(env: Env, s: State, a: Action)
    requires Do(env, s, a).Some? && IdOf(s.pc).Some? && IdOf(s.pc).value in s.world.compilations
    ensures var id, after := IdOf(s.pc).value, Do(env, s, a).value.world;
      && id in after.compilations
      && (a.CompleteFailed? && !a.fault.LostBefore? ==> after.compilations[id] == CompilationRow(Failed, s.pc.overlayHash, false))
      && (a.CompleteBroken? && !a.fault.LostBefore? ==> after.compilations[id] == CompilationRow(Failed, env.hash(s.pc.job.candidate), false))
      && (a.CompleteRolledBack? && !a.fault.LostBefore? ==>
            after.compilations[id] == CompilationRow(RolledBack, env.hash(s.pc.job.candidate), false))
      && (a.CompleteApplied? && !a.fault.LostBefore? ==> after.compilations[id] == CompilationRow(Applied, env.hash(s.pc.job.candidate), true))
  {
  }

  // Once out of draft, a row keeps its status through every later run.
  lemma {:induction false} StatusIsFinal<U(!new)>(env: Env, strip: string -> U, user: U, s: State, actions: seq<Action>, id: string)
    requires KeepsUser(env, strip)
    requires Invariant(env, strip, user, s) && Run(env, s, actions).Some?
    requires id in s.world.compilations && s.world.compilations[id].status != Draft
    ensures Invariant(env, strip, user, Run(env, s, actions).value)
    ensures id in Run(env, s, actions).value.world.compilations
    ensures Run(env, s, actions).value.world.compilations[id].status == s.world.compilations[id].status
  {
    if actions != [] {
      var front, a := actions[..|actions| - 1], actions[|actions| - 1];
      StatusIsFinal(env, strip, user, s, front, id);
      var before := Run(env, s, front).value;
      DoKeeps(env, strip, user, before, a);
      RowsStay(env, before, a, id);
      if StatusChanges(before.world, Run(env, s, actions).value.world, id) {
        StepTellsTheTruth(env, strip, user, before, a, id);
      }
    }
  }

  lemma RowsStay(env: Env, s: State, a: Action, id: string)
    requires Do(env, s, a).Some? && id in s.world.compilations
    ensures id in Do(env, s, a).value.world.compilations
  {
  }

  // When an application ends, crashes included, the file is its original or its
  // candidate; without a job it is what it was.
  lemma EndLeavesOneOfTwo<U(!new)>(env: Env, strip: string -> U, user: U, s: State, a: Action)
    requires Invariant(env, strip, user, s) && Do(env, s, a).Some?
    requires !s.pc.Idle? && Do(env, s, a).value.pc.Idle?
    ensures var config := Do(env, s, a).value.world.config;
      config == StartOf(s.pc) || (HasJob(s.pc) && config == s.pc.job.candidate)
  {
    EndingWritesNothing(env, s, a);
    assert FileKnown(s.world.config, s.pc);
  }

  lemma EndingWritesNothing(env: Env, s: State, a: Action)
    requires Do(env, s, a).Some? && !s.pc.Idle? && Do(env, s, a).value.pc.Idle?
    ensures Do(env, s, a).value.world.config == s.world.config
  {
  }
}

// Applying a canvas as a protocol: every step the service takes between two changes of
// the outside world, every way a step can fail, a crash at any point, and validations
// that run without the lock. The lock admits one application at a time, so the holder's
// progress is a single program counter.
module ApplyProtocol {
  import opened Wrappers
  import opened Domain

  // What the service computes with: compilation, merging and hashing.
  datatype Env = Env(
    compile: Snapshot -> Option<Preview>,
    merge: (string, Preview) -> Option<string>,
    hash: string -> string)

  datatype Status = Draft | Validated | Applied | Failed | RolledBack

  datatype RollbackStatus = NotNeeded | Restored | RollbackFailed

  datatype CompilationRow = CompilationRow(status: Status, hash: string, appliedAt: bool)

  datatype RollbackRow = RollbackRow(priorHash: string, candidateHash: string, status: RollbackStatus)

  // What the kernel has been asked: a reload of the file's content, or a health probe.
  datatype Call = Reload(content: string, ok: bool) | Probe(ok: bool)

  // The configuration file, the backups, the audit tables (rollback rows by compilation)
  // and the kernel.
  datatype World = World(
    config: string,
    backups: map<string, string>,
    compilations: map<string, CompilationRow>,
    rollbacks: map<string, RollbackRow>,
    running: string,
    calls: seq<Call>)

  datatype Job = Job(id: string, overlayHash: string, original: string, candidate: string)

  datatype Pc =
    | Idle
    | Drafted(id: string, preview: Preview, start: string)
    | HaveOriginal(id: string, preview: Preview, start: string)
    | Merged(job: Job)
    | BackedUp(job: Job)
    | Ready(job: Job)
    | Written(job: Job)
    | Reloaded(job: Job)
    | Probed(job: Job)
    | Failing(id: string, overlayHash: string, start: string)
    | Restoring(job: Job)
    | RestoredFile(job: Job)
    | RestoredKernel(job: Job)
    | RollbackAudited(job: Job)
    | Broken(job: Job)
    | BrokenAudited(job: Job)

  datatype State = State(world: World, pc: Pc)

  // A step that writes can fail before or after taking effect.
  datatype Fault = Fine | LostBefore | LostAfter

  datatype Action =
    | Crash
    | Validate(snapshot: Snapshot, id: string, fault: Fault)
    | RecordFailure(snapshot: Snapshot, id: string, fault: Fault)
    | Begin(snapshot: Snapshot, id: string, fault: Fault)
    | Read(ok: bool)
    | Merge
    | Backup(fault: Fault)
    | AuditRollback(idOk: bool, fault: Fault)
    | WriteCandidate(fault: Fault)
    | ReloadCandidate(ok: bool, effective: bool)
    | ProbeCandidate(ok: bool)
    | CompleteApplied(fault: Fault)
    | CompleteFailed(fault: Fault)
    | RestoreFile(fault: Fault)
    | RestoreKernel(ok: bool, effective: bool)
    | AuditRestored(fault: Fault)
    | CompleteRolledBack(fault: Fault)
    | AuditBroken(fault: Fault)
    | CompleteBroken(fault: Fault)

  // ---- effects on the world ----

  // Inserting under a taken primary key fails.
  function Insert(w: World, id: string, row: CompilationRow, fault: Fault): World {
    if id in w.compilations || fault.LostBefore? then w else w.(compilations := w.compilations[id := row])
  }

  predicate Inserted(w: World, id: string, fault: Fault) {
    id !in w.compilations && fault.Fine?
  }

  function Complete(w: World, id: string, status: Status, hash: string, fault: Fault): World {
    if id !in w.compilations || fault.LostBefore? then w
    else w.(compilations := w.compilations[id := CompilationRow(status, hash, status.Applied?)])
  }

  function CompleteRollback(w: World, id: string, status: RollbackStatus, fault: Fault): World {
    if id !in w.rollbacks || fault.LostBefore? then w
    else w.(rollbacks := w.rollbacks[id := w.rollbacks[id].(status := status)])
  }

  function WriteConfig(w: World, content: string, fault: Fault): World {
    if fault.LostBefore? then w else w.(config := content)
  }

  function WriteBackup(w: World, id: string, content: string, fault: Fault): World {
    if fault.LostBefore? then w else w.(backups := w.backups[id := content])
  }

  // A reload reads the file; a failed one may still have taken effect.
  function ReloadConfig(w: World, ok: bool, effective: bool): World {
    w.(calls := w.calls + [Reload(w.config, ok)], running := if ok || effective then w.config else w.running)
  }

  function InsertRollback(env: Env, w: World, job: Job, fault: Fault): World {
    if job.id in w.rollbacks || fault.LostBefore? then w
    else w.(rollbacks := w.rollbacks[job.id := RollbackRow(env.hash(job.original), env.hash(job.candidate), NotNeeded)])
  }

  // ---- one step ----

  // Steps that need no lock, and the entry of Apply.
  function StepOutside(env: Env, s: State, a: Action): Option<State> {
    var w := s.world;
    match a
    case Crash => Some(State(w, Idle))
    case Validate(snapshot, id, fault) =>
      (match env.compile(snapshot)
       case None => Some(State(Insert(w, id, CompilationRow(Failed, "", false), fault), s.pc))
       case Some(p) => Some(State(Insert(w, id, CompilationRow(Validated, p.contentHash, false), fault), s.pc)))
    case RecordFailure(snapshot, id, fault) =>
      if s.pc.Idle? && env.compile(snapshot).None?
      then Some(State(Insert(w, id, CompilationRow(Failed, "", false), fault), Idle)) else None
    case Begin(snapshot, id, fault) =>
      (match env.compile(snapshot)
       case Some(p) =>
         if !s.pc.Idle? then None
         else
           var w' := Insert(w, id, CompilationRow(Draft, p.contentHash, false), fault);
           Some(State(w', if Inserted(w, id, fault) then Drafted(id, p, w.config) else Idle))
       case None => None)
    case _ => None
  }

  // From the draft to the point where the file may be written.
  function StepPrepare(env: Env, s: State, a: Action): Option<State> {
    var w := s.world;
    match (s.pc, a)
    case (Drafted(id, p, start), Read(ok)) =>
      Some(State(w, if ok then HaveOriginal(id, p, w.config) else Failing(id, p.contentHash, start)))
    case (HaveOriginal(id, p, start), Merge) =>
      (match env.merge(start, p)
       case Some(candidate) => Some(State(w, Merged(Job(id, p.contentHash, start, candidate))))
       case None => Some(State(w, Failing(id, p.contentHash, start))))
    case (Merged(job), Backup(fault)) =>
      var w' := WriteBackup(w, job.id, job.original, fault);
      Some(State(w', if fault.Fine? then BackedUp(job) else Failing(job.id, job.overlayHash, job.original)))
    case (BackedUp(job), AuditRollback(idOk, fault)) =>
      if !idOk then Some(State(w, Failing(job.id, job.overlayHash, job.original)))
      else
        var w' := InsertRollback(env, w, job, fault);
        var ok := job.id !in w.rollbacks && fault.Fine?;
        Some(State(w', if ok then Ready(job) else Failing(job.id, job.overlayHash, job.original)))
    case (Failing(id, hash, start), CompleteFailed(fault)) =>
      Some(State(Complete(w, id, Failed, hash, fault), Idle))
    case _ => None
  }

  // Writing, reloading and probing the candidate.
  function StepCommit(env: Env, s: State, a: Action): Option<State> {
    var w := s.world;
    match (s.pc, a)
    case (Ready(job), WriteCandidate(fault)) =>
      Some(State(WriteConfig(w, job.candidate, fault), if fault.Fine? then Written(job) else Restoring(job)))
    case (Written(job), ReloadCandidate(ok, effective)) =>
      Some(State(ReloadConfig(w, ok, effective), if ok then Reloaded(job) else Restoring(job)))
    case (Reloaded(job), ProbeCandidate(ok)) =>
      Some(State(w.(calls := w.calls + [Probe(ok)]), if ok then Probed(job) else Restoring(job)))
    case (Probed(job), CompleteApplied(fault)) =>
      Some(State(Complete(w, job.id, Applied, env.hash(job.candidate), fault), Idle))
    case _ => None
  }

  // Compensation.
  function StepRestore(env: Env, s: State, a: Action): Option<State> {
    var w := s.world;
    match (s.pc, a)
    case (Restoring(job), RestoreFile(fault)) =>
      Some(State(WriteConfig(w, job.original, fault), if fault.Fine? then RestoredFile(job) else Broken(job)))
    case (RestoredFile(job), RestoreKernel(ok, effective)) =>
      Some(State(ReloadConfig(w, ok, effective), if ok then RestoredKernel(job) else Broken(job)))
    case _ => None
  }

  // Recording how the compensation went.
  function StepSettle(env: Env, s: State, a: Action): Option<State> {
    var w := s.world;
    match (s.pc, a)
    case (RestoredKernel(job), AuditRestored(fault)) =>
      Some(State(CompleteRollback(w, job.id, Restored, fault), RollbackAudited(job)))
    case (RollbackAudited(job), CompleteRolledBack(fault)) =>
      Some(State(Complete(w, job.id, RolledBack, env.hash(job.candidate), fault), Idle))
    case (Broken(job), AuditBroken(fault)) =>
      Some(State(CompleteRollback(w, job.id, RollbackFailed, fault), BrokenAudited(job)))
    case (BrokenAudited(job), CompleteBroken(fault)) =>
      Some(State(Complete(w, job.id, Failed, env.hash(job.candidate), fault), Idle))
    case _ => None
  }

  // The step an action takes, if it is enabled.
  function Do(env: Env, s: State, a: Action): Option<State> {
    match a
    case Crash => StepOutside(env, s, a)
    case Validate(_, _, _) => StepOutside(env, s, a)
    case RecordFailure(_, _, _) => StepOutside(env, s, a)
    case Begin(_, _, _) => StepOutside(env, s, a)
    case Read(_) => StepPrepare(env, s, a)
    case Merge => StepPrepare(env, s, a)
    case Backup(_) => StepPrepare(env, s, a)
    case AuditRollback(_, _) => StepPrepare(env, s, a)
    case CompleteFailed(_) => StepPrepare(env, s, a)
    case WriteCandidate(_) => StepCommit(env, s, a)
    case ReloadCandidate(_, _) => StepCommit(env, s, a)
    case ProbeCandidate(_) => StepCommit(env, s, a)
    case CompleteApplied(_) => StepCommit(env, s, a)
    case RestoreFile(_) => StepRestore(env, s, a)
    case RestoreKernel(_, _) => StepRestore(env, s, a)
    case AuditRestored(_) => StepSettle(env, s, a)
    case CompleteRolledBack(_) => StepSettle(env, s, a)
    case AuditBroken(_) => StepSettle(env, s, a)
    case CompleteBroken(_) => StepSettle(env, s, a)
  }

  // The state a sequence of actions leads to, if each is enabled in turn.
  function Run(env: Env, s: State, actions: seq<Action>): Option<State> {
    if actions == [] then Some(s)
    else match Run(env, s, actions[..|actions| - 1])
      case None => None
      case Some(before) => Do(env, before, actions[|actions| - 1])
  }
}

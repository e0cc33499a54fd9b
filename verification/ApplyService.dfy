// The application service as the program runs it, verified to be a run of the protocol.
module ApplyService {
  import opened Wrappers
  import opened Domain
  import opened ApplyProtocol

  // How each fallible operation of one call turns out.
  datatype Faults = Faults(
    idOk: bool, id: string, create: Fault,
    readOk: bool, backup: Fault, rollbackIdOk: bool, auditRollback: Fault,
    write: Fault, reloadOk: bool, reloadEffective: bool, probeOk: bool, complete: Fault,
    restoreWrite: Fault, restoreOk: bool, restoreEffective: bool,
    auditRestored: Fault, completeRolledBack: Fault, auditBroken: Fault, completeBroken: Fault, completeFailed: Fault)

  // What the caller is told: success or an error, the row's status as far as the service
  // knows it, and the rollback row's.
  datatype ApplyResult = ApplyResult(ok: bool, status: Option<Status>, rollback: Option<RollbackStatus>)

  // The actions lead from start to s.
  ghost predicate RunsTo(env: Env, start: State, actions: seq<Action>, s: State) {
    forall xs {:trigger Named(xs)} :: xs == actions ==> Run(env, start, xs) == Some(s)
  }

  lemma RunsToIsRun(env: Env, start: State, actions: seq<Action>, s: State)
    requires RunsTo(env, start, actions, s)
    ensures Run(env, start, actions) == Some(s)
  {
    assert Named(actions);
  }

  class AuditStore {
    var compilations: map<string, CompilationRow>
    var rollbacks: map<string, RollbackRow>

    constructor ()
      ensures compilations == map[] && rollbacks == map[]
    {
      compilations, rollbacks := map[], map[];
    }

    method CreateCompilation(id: string, row: CompilationRow, fault: Fault) returns (ok: bool)
      modifies this`compilations
      ensures ok == (id !in old(compilations) && fault.Fine?)
      ensures compilations == if id in old(compilations) || fault.LostBefore? then old(compilations) else old(compilations)[id := row]
    {
      if id !in compilations && !fault.LostBefore? {
        compilations, ok := compilations[id := row], fault.Fine?;
      } else {
        ok := false;
      }
    }

    method CompleteCompilation(id: string, status: Status, hash: string, fault: Fault) returns (ok: bool)
      modifies this`compilations
      ensures ok == (id in old(compilations) && fault.Fine?)
      ensures compilations == if id !in old(compilations) || fault.LostBefore? then old(compilations)
        else old(compilations)[id := CompilationRow(status, hash, status.Applied?)]
    {
      if id in compilations && !fault.LostBefore? {
        compilations, ok := compilations[id := CompilationRow(status, hash, status.Applied?)], fault.Fine?;
      } else {
        ok := false;
      }
    }

    method CreateCompilationRollback(id: string, row: RollbackRow, fault: Fault) returns (ok: bool)
      modifies this`rollbacks
      ensures ok == (id !in old(rollbacks) && fault.Fine?)
      ensures rollbacks == if id in old(rollbacks) || fault.LostBefore? then old(rollbacks) else old(rollbacks)[id := row]
    {
      if id !in rollbacks && !fault.LostBefore? {
        rollbacks, ok := rollbacks[id := row], fault.Fine?;
      } else {
        ok := false;
      }
    }

    method CompleteCompilationRollback(id: string, status: RollbackStatus, fault: Fault) returns (ok: bool)
      modifies this`rollbacks
      ensures ok == (id in old(rollbacks) && fault.Fine?)
      ensures rollbacks == if id !in old(rollbacks) || fault.LostBefore? then old(rollbacks)
        else old(rollbacks)[id := old(rollbacks)[id].(status := status)]
    {
      if id in rollbacks && !fault.LostBefore? {
        rollbacks, ok := rollbacks[id := rollbacks[id].(status := status)], fault.Fine?;
      } else {
        ok := false;
      }
    }
  }

  class Service {
    const env: Env
    const audit: AuditStore
    var config: string
    var backups: map<string, string>
    var running: string
    var calls: seq<Call>
    // The run of the protocol this object has performed.
    ghost const start: State
    ghost var pc: Pc
    ghost var actions: seq<Action>

    ghost function Now(): World
      reads this, audit
    {
      World(config, backups, audit.compilations, audit.rollbacks, running, calls)
    }

    ghost predicate Valid()
      reads this, audit
    {
      RunsTo(env, start, actions, State(Now(), pc))
    }

    // A process starts over the files and the audit of earlier ones.
    constructor (env: Env, audit: AuditStore, config: string, backups: map<string, string>, running: string)
      ensures Valid() && pc == Idle && actions == []
      ensures this.env == env && this.audit == audit && this.config == config && this.running == running
      ensures start == State(World(config, backups, audit.compilations, audit.rollbacks, running, []), Idle)
    {
      this.env, this.audit := env, audit;
      this.config, this.backups, this.running, this.calls := config, backups, running, [];
      this.start := State(World(config, backups, audit.compilations, audit.rollbacks, running, []), Idle);
      this.pc, this.actions := Idle, [];
      new;
      assert Run(env, start, actions) == Some(State(Now(), pc));
    }

    // Accounts for a change just made as one step of the protocol.
    ghost method Account(before: State, a: Action, after: Pc)
      requires RunsTo(env, start, actions, before)
      requires Do(env, before, a) == Some(State(Now(), after))
      modifies this`pc, this`actions
      ensures Valid() && pc == after && actions == old(actions) + [a]
    {
      assert Named(actions);
      assert (actions + [a])[..|actions|] == actions;
      actions, pc := actions + [a], after;
      assert Run(env, start, actions) == Some(State(Now(), pc));
    }

    // ---- one operation, one step ----

    method CreateDraft(snapshot: Snapshot, id: string, preview: Preview, fault: Fault) returns (ok: bool)
      requires Valid() && pc == Idle && env.compile(snapshot) == Some(preview)
      modifies this`pc, this`actions, audit`compilations
      ensures Valid() && old(actions) <= actions
      ensures ok == (id !in old(audit.compilations) && fault.Fine?)
      ensures audit.compilations == if id in old(audit.compilations) || fault.LostBefore? then old(audit.compilations)
        else old(audit.compilations)[id := CompilationRow(Draft, preview.contentHash, false)]
      ensures pc == if ok then Drafted(id, preview, config) else Idle
    {
      ghost var before := State(Now(), pc);
      ok := audit.CreateCompilation(id, CompilationRow(Draft, preview.contentHash, false), fault);
      Account(before, Begin(snapshot, id, fault), if ok then Drafted(id, preview, config) else Idle);
    }

    method ReadOriginal(id: string, preview: Preview, ok: bool) returns (original: string)
      requires Valid() && pc == Drafted(id, preview, config)
      modifies this`pc, this`actions
      ensures Valid() && old(actions) <= actions && original == config
      ensures pc == if ok then HaveOriginal(id, preview, config) else Failing(id, preview.contentHash, config)
    {
      original := config;
      Account(State(Now(), pc), Read(ok), if ok then HaveOriginal(id, preview, config) else Failing(id, preview.contentHash, config));
    }

    method MergeOverlay(id: string, preview: Preview, original: string) returns (candidate: Option<string>)
      requires Valid() && pc == HaveOriginal(id, preview, original)
      modifies this`pc, this`actions
      ensures Valid() && old(actions) <= actions && candidate == env.merge(original, preview)
      ensures pc == if candidate.Some? then Merged(Job(id, preview.contentHash, original, candidate.value)) else Failing(id, preview.contentHash, original)
    {
      candidate := env.merge(original, preview);
      Account(State(Now(), pc), Merge,
        if candidate.Some? then Merged(Job(id, preview.contentHash, original, candidate.value)) else Failing(id, preview.contentHash, original));
    }

    method WriteBackup(job: Job, fault: Fault) returns (ok: bool)
      requires Valid() && pc == Merged(job)
      modifies this`pc, this`actions, this`backups
      ensures Valid() && old(actions) <= actions && ok == fault.Fine?
      ensures backups == if fault.LostBefore? then old(backups) else old(backups)[job.id := job.original]
      ensures pc == if ok then BackedUp(job) else Failing(job.id, job.overlayHash, job.original)
    {
      ghost var before := State(Now(), pc);
      if !fault.LostBefore? {
        backups := backups[job.id := job.original];
      }
      ok := fault.Fine?;
      Account(before, Backup(fault), if ok then BackedUp(job) else Failing(job.id, job.overlayHash, job.original));
    }

    method CreateRollback(job: Job, idOk: bool, fault: Fault) returns (ok: bool)
      requires Valid() && pc == BackedUp(job)
      modifies this`pc, this`actions, audit`rollbacks
      ensures Valid() && old(actions) <= actions
      ensures ok == (idOk && job.id !in old(audit.rollbacks) && fault.Fine?)
      ensures audit.rollbacks == if !idOk || job.id in old(audit.rollbacks) || fault.LostBefore? then old(audit.rollbacks)
        else old(audit.rollbacks)[job.id := RollbackRow(env.hash(job.original), env.hash(job.candidate), NotNeeded)]
      ensures pc == if ok then Ready(job) else Failing(job.id, job.overlayHash, job.original)
    {
      ghost var before := State(Now(), pc);
      ok := false;
      if idOk {
        ok := audit.CreateCompilationRollback(job.id, RollbackRow(env.hash(job.original), env.hash(job.candidate), NotNeeded), fault);
      }
      Account(before, AuditRollback(idOk, fault), if ok then Ready(job) else Failing(job.id, job.overlayHash, job.original));
    }

    // The atomic write: a temporary file renamed over the configuration.
    method AtomicWriteConfig(job: Job, content: string, fault: Fault) returns (ok: bool)
      requires Valid()
      requires (pc == Ready(job) && content == job.candidate) || (pc == Restoring(job) && content == job.original)
      modifies this`pc, this`actions, this`config
      ensures Valid() && old(actions) <= actions && ok == fault.Fine?
      ensures config == if fault.LostBefore? then old(config) else content
      ensures old(pc).Ready? ==> pc == if ok then Written(job) else Restoring(job)
      ensures old(pc).Restoring? ==> pc == if ok then RestoredFile(job) else Broken(job)
    {
      ghost var before := State(Now(), pc);
      if !fault.LostBefore? {
        config := content;
      }
      ok := fault.Fine?;
      if before.pc.Ready? {
        Account(before, WriteCandidate(fault), if ok then Written(job) else Restoring(job));
      } else {
        Account(before, RestoreFile(fault), if ok then RestoredFile(job) else Broken(job));
      }
    }

    method ReloadConfig(job: Job, ok: bool, effective: bool)
      requires Valid() && (pc == Written(job) || pc == RestoredFile(job))
      modifies this`pc, this`actions, this`calls, this`running
      ensures Valid() && old(actions) <= actions
      ensures running == if ok || effective then config else old(running)
      ensures calls == old(calls) + [Reload(config, ok)]
      ensures old(pc).Written? ==> pc == if ok then Reloaded(job) else Restoring(job)
      ensures old(pc).RestoredFile? ==> pc == if ok then RestoredKernel(job) else Broken(job)
    {
      ghost var before := State(Now(), pc);
      calls := calls + [Reload(config, ok)];
      if ok || effective {
        running := config;
      }
      if before.pc.Written? {
        Account(before, ReloadCandidate(ok, effective), if ok then Reloaded(job) else Restoring(job));
      } else {
        Account(before, RestoreKernel(ok, effective), if ok then RestoredKernel(job) else Broken(job));
      }
    }

    method ProbeKernel(job: Job, ok: bool)
      requires Valid() && pc == Reloaded(job)
      modifies this`pc, this`actions, this`calls
      ensures Valid() && old(actions) <= actions && pc == if ok then Probed(job) else Restoring(job)
      ensures calls == old(calls) + [Probe(ok)]
    {
      ghost var before := State(Now(), pc);
      calls := calls + [Probe(ok)];
      Account(before, ProbeCandidate(ok), if ok then Probed(job) else Restoring(job));
    }

    // The last write of each path: the final status of the row.
    method CompleteRow(id: string, hash: string, status: Status, fault: Fault, ghost a: Action) returns (ok: bool)
      requires Valid()
      requires Do(env, State(Now(), pc), a) == Some(State(ApplyProtocol.Complete(Now(), id, status, hash, fault), Idle))
      modifies this`pc, this`actions, audit`compilations
      ensures Valid() && pc == Idle && old(actions) <= actions
      ensures ok == (id in old(audit.compilations) && fault.Fine?)
      ensures audit.compilations == if id !in old(audit.compilations) then old(audit.compilations)
        else old(audit.compilations)[id := Settled(old(audit.compilations)[id], status, hash, fault)]
    {
      ghost var before := State(Now(), pc);
      ok := audit.CompleteCompilation(id, status, hash, fault);
      Account(before, a, Idle);
    }

    method CompleteRollbackRow(job: Job, status: RollbackStatus, fault: Fault) returns (ok: bool)
      requires Valid()
      requires (pc == RestoredKernel(job) && status == Restored) || (pc == Broken(job) && status == RollbackFailed)
      modifies this`pc, this`actions, audit`rollbacks
      ensures Valid() && old(actions) <= actions
      ensures pc == if status == Restored then RollbackAudited(job) else BrokenAudited(job)
      ensures ok == (job.id in old(audit.rollbacks) && fault.Fine?)
      ensures audit.rollbacks == if job.id !in old(audit.rollbacks) then old(audit.rollbacks)
        else old(audit.rollbacks)[job.id := SettledRollback(old(audit.rollbacks)[job.id], status, fault)]
    {
      ghost var before := State(Now(), pc);
      ok := audit.CompleteCompilationRollback(job.id, status, fault);
      if status == Restored {
        Account(before, AuditRestored(fault), RollbackAudited(job));
      } else {
        Account(before, AuditBroken(fault), BrokenAudited(job));
      }
    }

    // ---- the procedures of the service ----

    // Failure before the file was touched.
    method FailWithoutRollback(id: string, overlayHash: string, ghost original: string, f: Faults) returns (r: ApplyResult)
      requires Valid() && pc == Failing(id, overlayHash, original) && id in audit.compilations
      modifies this`pc, this`actions, audit`compilations
      ensures Valid() && pc == Idle && old(actions) <= actions
      ensures r == ApplyResult(false, Some(if f.completeFailed.Fine? then Failed else Draft), None)
      ensures audit.compilations == old(audit.compilations)[id := Settled(old(audit.compilations)[id], Failed, overlayHash, f.completeFailed)]
    {
      var ok := CompleteRow(id, overlayHash, Failed, f.completeFailed, CompleteFailed(f.completeFailed));
      r := ApplyResult(false, Some(if ok then Failed else Draft), None);
    }

    // The rollback itself failed.
    method CompleteRollbackFailure(job: Job, f: Faults) returns (r: ApplyResult)
      requires Valid() && pc == Broken(job) && job.id in audit.compilations && job.id in audit.rollbacks
      modifies this`pc, this`actions, audit
      ensures Valid() && pc == Idle && old(actions) <= actions
      ensures (Now(), r) == BrokenOutcome(env, old(Now()), job, f)
    {
      var rollbackOk := CompleteRollbackRow(job, RollbackFailed, f.auditBroken);
      var ok := CompleteRow(job.id, env.hash(job.candidate), Failed, f.completeBroken, CompleteBroken(f.completeBroken));
      r := ApplyResult(false, Some(if ok then Failed else Draft), Some(if rollbackOk then RollbackFailed else NotNeeded));
    }

    // Compensation after the file may have been written.
    method FailWithRollback(job: Job, f: Faults) returns (r: ApplyResult)
      requires Valid() && pc == Restoring(job) && job.id in audit.compilations && job.id in audit.rollbacks
      modifies this`pc, this`actions, this`config, this`calls, this`running, audit
      ensures Valid() && pc == Idle && old(actions) <= actions
      ensures (Now(), r) == UndoOutcome(env, old(Now()), job, f)
    {
      var written := AtomicWriteConfig(job, job.original, f.restoreWrite);
      if !written {
        r := CompleteRollbackFailure(job, f);
        return;
      }
      ReloadConfig(job, f.restoreOk, f.restoreEffective);
      if !f.restoreOk {
        r := CompleteRollbackFailure(job, f);
        return;
      }
      r := SettleRollback(job, f);
    }

    method SettleRollback(job: Job, f: Faults) returns (r: ApplyResult)
      requires Valid() && pc == RestoredKernel(job) && job.id in audit.compilations && job.id in audit.rollbacks
      modifies this`pc, this`actions, audit
      ensures Valid() && pc == Idle && old(actions) <= actions
      ensures (Now(), r) == RestoredOutcome(env, old(Now()), job, f)
    {
      var rollbackOk := CompleteRollbackRow(job, Restored, f.auditRestored);
      var ok := CompleteRow(job.id, env.hash(job.candidate), RolledBack, f.completeRolledBack, CompleteRolledBack(f.completeRolledBack));
      r := ApplyResult(false, Some(if ok then RolledBack else Draft), Some(if rollbackOk then Restored else NotNeeded));
    }

    // Write, reload, probe, and record success, or compensate.
    method Commit(job: Job, f: Faults) returns (r: ApplyResult)
      requires Valid() && pc == Ready(job) && config == job.original && job.id in audit.compilations && job.id in audit.rollbacks
      modifies this`pc, this`actions, this`config, this`calls, this`running, audit
      ensures Valid() && pc == Idle && old(actions) <= actions
      ensures (Now(), r) == CommitOutcome(env, old(Now()), job, f)
    {
      var installed := Install(job, f);
      if !installed {
        r := FailWithRollback(job, f);
        return;
      }
      var completed := CompleteRow(job.id, env.hash(job.candidate), Applied, f.complete, CompleteApplied(f.complete));
      r := if completed then ApplyResult(true, Some(Applied), Some(NotNeeded)) else ApplyResult(false, None, None);
      assert audit.rollbacks == audit.rollbacks[job.id := audit.rollbacks[job.id]];
    }

    // The candidate is written, accepted and found alive, or it has to be undone.
    method Install(job: Job, f: Faults) returns (ok: bool)
      requires Valid() && pc == Ready(job) && config == job.original
      modifies this`pc, this`actions, this`config, this`calls, this`running
      ensures Valid() && old(actions) <= actions
      ensures ok == Committed(f) && pc == if ok then Probed(job) else Restoring(job)
      ensures Now() == InstallOutcome(old(Now()), job, f)
    {
      ok := AtomicWriteConfig(job, job.candidate, f.write);
      if !ok {
        return;
      }
      ReloadConfig(job, f.reloadOk, f.reloadEffective);
      if !f.reloadOk {
        return false;
      }
      ProbeKernel(job, f.probeOk);
      ok := f.probeOk;
    }

    method Apply(snapshot: Snapshot, f: Faults) returns (r: ApplyResult)
      requires Valid() && pc == Idle
      modifies this, audit
      // The whole call is a run of the protocol.
      ensures Valid() && pc == Idle && old(actions) <= actions
      // The file, the backups, both audit tables, the kernel and the reply, in every case,
      // and what that says.
      ensures (Now(), r) == Outcome(env, old(Now()), snapshot, f)
      ensures Reports(env, old(Now()), snapshot, f, Now(), r) && Stores(env, old(Now()), snapshot, f, Now())
    {
      OutcomeMeans(env, Now(), snapshot, f);
      var compiled := env.compile(snapshot);
      if compiled.None? {
        r := RecordFailure(snapshot, f);
        return;
      }
      var preview := compiled.value;
      if !f.idOk {
        return ApplyResult(false, None, None);
      }
      var created := CreateDraft(snapshot, f.id, preview, f.create);
      if !created {
        return ApplyResult(false, None, None);
      }
      r := ApplyDraft(preview, f);
    }

    // From the draft to the end of the application.
    method ApplyDraft(preview: Preview, f: Faults) returns (r: ApplyResult)
      requires Valid() && pc == Drafted(f.id, preview, config) && f.id in audit.compilations
      modifies this, audit
      ensures Valid() && pc == Idle && old(actions) <= actions
      ensures (Now(), r) == DraftOutcome(env, old(Now()), preview, f)
    {
      var original := ReadOriginal(f.id, preview, f.readOk);
      if !f.readOk {
        r := FailWithoutRollback(f.id, preview.contentHash, original, f);
        return;
      }
      var candidate := MergeOverlay(f.id, preview, original);
      if candidate.None? {
        r := FailWithoutRollback(f.id, preview.contentHash, original, f);
        return;
      }
      r := Proceed(Job(f.id, preview.contentHash, original, candidate.value), f);
    }

    // From a candidate to the end of the application.
    method Proceed(job: Job, f: Faults) returns (r: ApplyResult)
      requires Valid() && pc == Merged(job) && config == job.original && job.id in audit.compilations
      modifies this, audit
      ensures Valid() && pc == Idle && old(actions) <= actions
      ensures (Now(), r) == JobOutcome(env, old(Now()), job, f)
    {
      var prepared := Prepare(job, f);
      if !prepared {
        r := FailWithoutRollback(job.id, job.overlayHash, job.original, f);
        return;
      }
      r := Commit(job, f);
    }

    // Backup and rollback row, before the file may be touched.
    method Prepare(job: Job, f: Faults) returns (ok: bool)
      requires Valid() && pc == Merged(job)
      modifies this`pc, this`actions, this`backups, audit`rollbacks
      ensures Valid() && old(actions) <= actions
      ensures ok == (f.backup.Fine? && f.rollbackIdOk && job.id !in old(audit.rollbacks) && f.auditRollback.Fine?)
      ensures Now() == PrepareOutcome(env, old(Now()), job, f)
      ensures pc == if ok then Ready(job) else Failing(job.id, job.overlayHash, job.original)
    {
      ok := WriteBackup(job, f.backup);
      if ok {
        ok := CreateRollback(job, f.rollbackIdOk, f.auditRollback);
      }
    }

    // A dry run takes no lock and touches nothing but the audit: a row under a fresh id.
    method Validate(snapshot: Snapshot, id: string, fault: Fault) returns (ok: bool)
      requires Valid()
      modifies this`actions, this`pc, audit`compilations
      ensures Valid() && pc == old(pc) && old(actions) <= actions
      ensures ok <==> env.compile(snapshot).Some? && id !in old(audit.compilations) && fault.Fine?
      ensures audit.compilations == if id in old(audit.compilations) || fault.LostBefore? then old(audit.compilations)
        else old(audit.compilations)[id := match env.compile(snapshot)
                                           case None => CompilationRow(Failed, "", false)
                                           case Some(p) => CompilationRow(Validated, p.contentHash, false)]
    {
      ghost var before := State(Now(), pc);
      var preview := env.compile(snapshot);
      if preview.None? {
        var recorded := audit.CreateCompilation(id, CompilationRow(Failed, "", false), fault);
        ok := false;
      } else {
        ok := audit.CreateCompilation(id, CompilationRow(Validated, preview.value.contentHash, false), fault);
      }
      Account(before, ApplyProtocol.Action.Validate(snapshot, id, fault), pc);
    }

    // A canvas that does not compile is recorded, and nothing else happens.
    method RecordFailure(snapshot: Snapshot, f: Faults) returns (r: ApplyResult)
      requires Valid() && pc == Idle && env.compile(snapshot).None?
      modifies this`pc, this`actions, audit`compilations
      ensures Valid() && pc == Idle && old(actions) <= actions
      ensures r == ApplyResult(false, Some(Failed), None)
      ensures audit.compilations == if !f.idOk || f.id in old(audit.compilations) || f.create.LostBefore? then old(audit.compilations)
        else old(audit.compilations)[f.id := CompilationRow(Failed, "", false)]
    {
      if f.idOk {
        ghost var before := State(Now(), pc);
        var ok := audit.CreateCompilation(f.id, CompilationRow(Failed, "", false), f.create);
        Account(before, ApplyProtocol.Action.RecordFailure(snapshot, f.id, f.create), Idle);
      }
      r := ApplyResult(false, Some(Failed), None);
    }
  }

  // ---- what an application comes to, case by case ----

  function Settled(row: CompilationRow, status: Status, hash: string, fault: Fault): CompilationRow {
    if fault.LostBefore? then row else CompilationRow(status, hash, status.Applied?)
  }

  function SettledRollback(row: RollbackRow, status: RollbackStatus, fault: Fault): RollbackRow {
    if fault.LostBefore? then row else row.(status := status)
  }

  // The audit rows of a job, settled.
  function SettleRows(w: World, id: string, row: CompilationRow, rollback: RollbackRow): World {
    w.(compilations := w.compilations[id := row], rollbacks := w.rollbacks[id := rollback])
  }

  // The kernel is asked to load the content that is now in the file.
  function AfterReload(w: World, content: string, ok: bool, effective: bool): World {
    w.(running := if ok || effective then content else w.running, calls := w.calls + [Reload(content, ok)])
  }

  // A rollback that failed: the application and its rollback are recorded as failed.
  function BrokenOutcome(env: Env, w: World, job: Job, f: Faults): (World, ApplyResult)
    requires job.id in w.compilations && job.id in w.rollbacks
  {
    (SettleRows(w, job.id, Settled(w.compilations[job.id], Failed, env.hash(job.candidate), f.completeBroken),
                SettledRollback(w.rollbacks[job.id], RollbackFailed, f.auditBroken)),
     ApplyResult(false, Some(if f.completeBroken.Fine? then Failed else Draft), Some(if f.auditBroken.Fine? then RollbackFailed else NotNeeded)))
  }

  function RestoredOutcome(env: Env, w: World, job: Job, f: Faults): (World, ApplyResult)
    requires job.id in w.compilations && job.id in w.rollbacks
  {
    (SettleRows(w, job.id, Settled(w.compilations[job.id], RolledBack, env.hash(job.candidate), f.completeRolledBack),
                SettledRollback(w.rollbacks[job.id], Restored, f.auditRestored)),
     ApplyResult(false, Some(if f.completeRolledBack.Fine? then RolledBack else Draft), Some(if f.auditRestored.Fine? then Restored else NotNeeded)))
  }

  // Writing the original back and reloading it.
  function UndoOutcome(env: Env, w: World, job: Job, f: Faults): (World, ApplyResult)
    requires job.id in w.compilations && job.id in w.rollbacks
  {
    var written := if f.restoreWrite.LostBefore? then w else w.(config := job.original);
    if !f.restoreWrite.Fine? then BrokenOutcome(env, written, job, f)
    else
      var reloaded := AfterReload(written, job.original, f.restoreOk, f.restoreEffective);
      if f.restoreOk then RestoredOutcome(env, reloaded, job, f) else BrokenOutcome(env, reloaded, job, f)
  }

  // Writing, reloading and probing the candidate, up to the first failure.
  function InstallOutcome(w: World, job: Job, f: Faults): World {
    var written := if f.write.LostBefore? then w else w.(config := job.candidate);
    if !f.write.Fine? then written
    else
      var reloaded := AfterReload(written, job.candidate, f.reloadOk, f.reloadEffective);
      if f.reloadOk then reloaded.(calls := reloaded.calls + [Probe(f.probeOk)]) else reloaded
  }

  function CommitOutcome(env: Env, w: World, job: Job, f: Faults): (World, ApplyResult)
    requires job.id in w.compilations && job.id in w.rollbacks
  {
    var installed := InstallOutcome(w, job, f);
    if Committed(f) then
      (SettleRows(installed, job.id, Settled(w.compilations[job.id], Applied, env.hash(job.candidate), f.complete), w.rollbacks[job.id]),
       if f.complete.Fine? then ApplyResult(true, Some(Applied), Some(NotNeeded)) else ApplyResult(false, None, None))
    else UndoOutcome(env, installed, job, f)
  }

  // The backup, and the rollback row if the backup was written.
  function PrepareOutcome(env: Env, w: World, job: Job, f: Faults): World {
    var backed := if f.backup.LostBefore? then w else w.(backups := w.backups[job.id := job.original]);
    if !f.backup.Fine? || !f.rollbackIdOk || job.id in w.rollbacks || f.auditRollback.LostBefore? then backed
    else backed.(rollbacks := backed.rollbacks[job.id := RollbackRow(env.hash(job.original), env.hash(job.candidate), NotNeeded)])
  }

  // A failure before the file was touched.
  function FailedOutcome(w: World, id: string, hash: string, f: Faults): (World, ApplyResult)
    requires id in w.compilations
  {
    (w.(compilations := w.compilations[id := Settled(w.compilations[id], Failed, hash, f.completeFailed)]),
     ApplyResult(false, Some(if f.completeFailed.Fine? then Failed else Draft), None))
  }

  function JobOutcome(env: Env, w: World, job: Job, f: Faults): (World, ApplyResult)
    requires job.id in w.compilations
  {
    var prepared := PrepareOutcome(env, w, job, f);
    if f.backup.Fine? && f.rollbackIdOk && job.id !in w.rollbacks && f.auditRollback.Fine?
    then CommitOutcome(env, prepared, job, f)
    else FailedOutcome(prepared, job.id, job.overlayHash, f)
  }

  function DraftOutcome(env: Env, w: World, p: Preview, f: Faults): (World, ApplyResult)
    requires f.id in w.compilations
  {
    if !f.readOk || env.merge(w.config, p).None? then FailedOutcome(w, f.id, p.contentHash, f)
    else JobOutcome(env, w, Job(f.id, p.contentHash, w.config, env.merge(w.config, p).value), f)
  }

  // A new audit row, unless its id is taken or the write is lost.
  function AfterInsert(w: World, id: string, row: CompilationRow, fault: Fault): World {
    if id in w.compilations || fault.LostBefore? then w else w.(compilations := w.compilations[id := row])
  }

  function Outcome(env: Env, w: World, snapshot: Snapshot, f: Faults): (World, ApplyResult) {
    match env.compile(snapshot)
    case None =>
      (if f.idOk then AfterInsert(w, f.id, CompilationRow(Failed, "", false), f.create) else w, ApplyResult(false, Some(Failed), None))
    case Some(p) =>
      if !f.idOk then (w, ApplyResult(false, None, None))
      else
        var drafted := AfterInsert(w, f.id, CompilationRow(Draft, p.contentHash, false), f.create);
        if f.id in w.compilations || !f.create.Fine? then (drafted, ApplyResult(false, None, None))
        else DraftOutcome(env, drafted, p, f)
  }

  // ---- what that says ----

  // Up to the draft: the application has its audit row.
  predicate Created(env: Env, w: World, snapshot: Snapshot, f: Faults) {
    env.compile(snapshot).Some? && f.idOk && f.id !in w.compilations && f.create.Fine?
  }

  // The reply, and the file and the kernel.
  ghost predicate Reports(env: Env, w: World, snapshot: Snapshot, f: Faults, after: World, r: ApplyResult) {
    var prepared := PreparedBy(env, w, snapshot, f);
    // Success is the applied status, and the candidate in file and kernel.
    && (r.ok <==> prepared && Committed(f) && f.complete.Fine?)
    && (r.ok <==> r.status == Some(Applied))
    && (r.ok ==> after.running == after.config)
    // Rolled back is reported exactly if the undoing succeeded and was recorded.
    && (r.status == Some(RolledBack) <==> prepared && !Committed(f) && UndoneBy(f))
    && (r.status == Some(RolledBack) ==> after.config == w.config && after.running == w.config)
    // Failed is reported for a canvas that does not compile, and for a recorded failure.
    && (r.status == Some(Failed) <==>
          || env.compile(snapshot).None?
          || (Created(env, w, snapshot, f) && !prepared && f.completeFailed.Fine?)
          || (prepared && !Committed(f) && !(f.restoreWrite.Fine? && f.restoreOk) && f.completeBroken.Fine?))
    // No status is reported without a row, or when a success could not be recorded.
    && (r.status == None <==>
          env.compile(snapshot).Some? && (!Created(env, w, snapshot, f) || (prepared && Committed(f) && !f.complete.Fine?)))
    && r.status != Some(Validated)
    // The rollback's status.
    && (r.rollback == Some(Restored) <==> prepared && !Committed(f) && f.restoreWrite.Fine? && f.restoreOk && f.auditRestored.Fine?)
    && (r.rollback == Some(RollbackFailed) <==> prepared && !Committed(f) && !(f.restoreWrite.Fine? && f.restoreOk) && f.auditBroken.Fine?)
    && (r.rollback == None <==> !prepared || (Committed(f) && !f.complete.Fine?))
    // The file in every case, and when an error leaves the candidate there.
    && after.config == (if prepared then FinalConfig(JobFor(env, w, snapshot, f), f) else w.config)
    && (prepared ==>
          var job := JobFor(env, w, snapshot, f);
          job.candidate != job.original ==> (!r.ok && after.config == job.candidate <==> LeftLive(f)))
  }

  predicate OthersStay<V(==)>(before: map<string, V>, after: map<string, V>, id: string) {
    before - {id} == after - {id}
  }

  lemma UpdateIsLocal<V>(m: map<string, V>, id: string, v: V, again: V)
    ensures OthersStay(m, m, id) && OthersStay(m, m[id := v], id)
    ensures m[id := v][id := again] == m[id := again]
  {
  }

  // The application's rows and its backup.
  ghost predicate Stores(env: Env, w: World, snapshot: Snapshot, f: Faults, after: World) {
    var prepared, id := PreparedBy(env, w, snapshot, f), f.id;
    // Nobody else's.
    && OthersStay(w.compilations, after.compilations, id)
    && OthersStay(w.rollbacks, after.rollbacks, id)
    && OthersStay(w.backups, after.backups, id)
    && (Created(env, w, snapshot, f) ==>
          && id in after.compilations
          && after.compilations[id] == StoredRow(env, w, snapshot, f))
    && (prepared ==>
          var job := JobFor(env, w, snapshot, f);
          && id in after.backups && after.backups[id] == w.config
          && id in after.rollbacks
          && after.rollbacks[id].priorHash == env.hash(w.config) && after.rollbacks[id].candidateHash == env.hash(job.candidate)
          && after.rollbacks[id].status == StoredRollback(f))
    && (env.compile(snapshot).None? && f.idOk && id !in w.compilations && !f.create.LostBefore? ==>
          id in after.compilations && after.compilations[id] == CompilationRow(Failed, "", false))
  }

  // The row an application that was created leaves.
  function StoredRow(env: Env, w: World, snapshot: Snapshot, f: Faults): CompilationRow
    requires Created(env, w, snapshot, f)
  {
    var overlay := env.compile(snapshot).value.contentHash;
    var draft := CompilationRow(Draft, overlay, false);
    if !PreparedBy(env, w, snapshot, f) then
      if f.completeFailed.LostBefore? then draft else CompilationRow(Failed, overlay, false)
    else CommittedRow(env, draft, JobFor(env, w, snapshot, f), f)
  }

  function StoredRollback(f: Faults): RollbackStatus {
    if Committed(f) then NotNeeded
    else if f.restoreWrite.Fine? && f.restoreOk then if f.auditRestored.LostBefore? then NotNeeded else Restored
    else if f.auditBroken.LostBefore? then NotNeeded else RollbackFailed
  }

  // The same for a job that is ready to be written.
  lemma CommitMeans(env: Env, w: World, job: Job, f: Faults)
    requires job.id in w.compilations && job.id in w.rollbacks && w.config == job.original
    requires w.rollbacks[job.id].status == NotNeeded
    ensures var (after, r) := CommitOutcome(env, w, job, f);
      && after.config == FinalConfig(job, f) && after.backups == w.backups
      && after.compilations == w.compilations[job.id := CommittedRow(env, w.compilations[job.id], job, f)]
      && after.rollbacks == w.rollbacks[job.id := w.rollbacks[job.id].(status := StoredRollback(f))]
      && r == CommitReply(f)
      && (Committed(f) ==> after.running == job.candidate)
      && (!Committed(f) && f.restoreWrite.Fine? && f.restoreOk ==> after.running == job.original)
  {
    InstallMeans(w, job, f);
    var installed := InstallOutcome(w, job, f);
    if !Committed(f) {
      UndoMeans(env, installed, job, f);
    } else {
      assert w.rollbacks[job.id].(status := NotNeeded) == w.rollbacks[job.id];
    }
  }

  lemma InstallMeans(w: World, job: Job, f: Faults)
    ensures var after := InstallOutcome(w, job, f);
      && after.config == (if f.write.LostBefore? then w.config else job.candidate)
      && after.compilations == w.compilations && after.rollbacks == w.rollbacks && after.backups == w.backups
      && (Committed(f) ==> after.running == job.candidate)
  {
  }

  lemma UndoMeans(env: Env, w: World, job: Job, f: Faults)
    requires job.id in w.compilations && job.id in w.rollbacks && !Committed(f) && w.rollbacks[job.id].status == NotNeeded
    ensures var (after, r) := UndoOutcome(env, w, job, f);
      && after.config == (if f.restoreWrite.LostBefore? then w.config else job.original) && after.backups == w.backups
      && after.compilations == w.compilations[job.id := CommittedRow(env, w.compilations[job.id], job, f)]
      && after.rollbacks == w.rollbacks[job.id := w.rollbacks[job.id].(status := StoredRollback(f))]
      && r == CommitReply(f)
      && (f.restoreWrite.Fine? && f.restoreOk ==> after.running == job.original)
  {
    assert w.rollbacks[job.id].(status := NotNeeded) == w.rollbacks[job.id];
  }

  function CommittedRow(env: Env, draft: CompilationRow, job: Job, f: Faults): CompilationRow {
    var hash := env.hash(job.candidate);
    if Committed(f) then if f.complete.LostBefore? then draft else CompilationRow(Applied, hash, true)
    else if f.restoreWrite.Fine? && f.restoreOk then
      if f.completeRolledBack.LostBefore? then draft else CompilationRow(RolledBack, hash, false)
    else if f.completeBroken.LostBefore? then draft else CompilationRow(Failed, hash, false)
  }

  function CommitReply(f: Faults): ApplyResult {
    if Committed(f) then if f.complete.Fine? then ApplyResult(true, Some(Applied), Some(NotNeeded)) else ApplyResult(false, None, None)
    else if f.restoreWrite.Fine? && f.restoreOk then
      ApplyResult(false, Some(if f.completeRolledBack.Fine? then RolledBack else Draft), Some(if f.auditRestored.Fine? then Restored else NotNeeded))
    else
      ApplyResult(false, Some(if f.completeBroken.Fine? then Failed else Draft), Some(if f.auditBroken.Fine? then RollbackFailed else NotNeeded))
  }

  // The world in which a prepared application starts to write.
  function ReadyWorld(env: Env, w: World, snapshot: Snapshot, f: Faults): World
    requires PreparedBy(env, w, snapshot, f)
  {
    var job := JobFor(env, w, snapshot, f);
    w.(compilations := w.compilations[f.id := CompilationRow(Draft, job.overlayHash, false)],
       backups := w.backups[f.id := w.config],
       rollbacks := w.rollbacks[f.id := RollbackRow(env.hash(w.config), env.hash(job.candidate), NotNeeded)])
  }

  lemma PreparedOutcome(env: Env, w: World, snapshot: Snapshot, f: Faults)
    requires PreparedBy(env, w, snapshot, f)
    ensures Outcome(env, w, snapshot, f) == CommitOutcome(env, ReadyWorld(env, w, snapshot, f), JobFor(env, w, snapshot, f), f)
  {
  }

  lemma PreparedMeans(env: Env, w: World, snapshot: Snapshot, f: Faults)
    requires PreparedBy(env, w, snapshot, f)
    ensures var (after, r) := Outcome(env, w, snapshot, f);
      Reports(env, w, snapshot, f, after, r) && Stores(env, w, snapshot, f, after)
  {
    var job, ready, id := JobFor(env, w, snapshot, f), ReadyWorld(env, w, snapshot, f), f.id;
    PreparedOutcome(env, w, snapshot, f);
    CommitMeans(env, ready, job, f);
    var row := ready.compilations[id];
    var rollback := ready.rollbacks[id];
    UpdateIsLocal(w.compilations, id, row, CommittedRow(env, row, job, f));
    UpdateIsLocal(w.compilations, id, CommittedRow(env, row, job, f), row);
    UpdateIsLocal(w.rollbacks, id, rollback, rollback.(status := StoredRollback(f)));
    UpdateIsLocal(w.rollbacks, id, rollback.(status := StoredRollback(f)), rollback);
    UpdateIsLocal(w.backups, id, w.config, w.config);
  }

  // A created application that fails before its file may be written.
  lemma FailedMeans(env: Env, w: World, snapshot: Snapshot, f: Faults)
    requires Created(env, w, snapshot, f) && !PreparedBy(env, w, snapshot, f)
    ensures var overlay, (after, r) := env.compile(snapshot).value.contentHash, Outcome(env, w, snapshot, f);
      && after.config == w.config
      && r == ApplyResult(false, Some(if f.completeFailed.Fine? then Failed else Draft), None)
      && after.compilations == w.compilations[f.id :=
           if f.completeFailed.LostBefore? then CompilationRow(Draft, overlay, false) else CompilationRow(Failed, overlay, false)]
      && OthersStay(w.rollbacks, after.rollbacks, f.id) && OthersStay(w.backups, after.backups, f.id)
  {
    var p := env.compile(snapshot).value;
    var drafted := w.(compilations := w.compilations[f.id := CompilationRow(Draft, p.contentHash, false)]);
    UpdateIsLocal(w.compilations, f.id, CompilationRow(Draft, p.contentHash, false), CompilationRow(Failed, p.contentHash, false));
    UpdateIsLocal(w.backups, f.id, w.config, w.config);
    assert OthersStay(w.rollbacks, w.rollbacks, f.id);
    if f.readOk && env.merge(w.config, p).Some? {
      var job := Job(f.id, p.contentHash, w.config, env.merge(w.config, p).value);
      var row := RollbackRow(env.hash(job.original), env.hash(job.candidate), NotNeeded);
      UpdateIsLocal(w.rollbacks, f.id, row, row);
      assert Outcome(env, w, snapshot, f) == FailedOutcome(PrepareOutcome(env, drafted, job, f), f.id, p.contentHash, f);
    } else {
      assert Outcome(env, w, snapshot, f) == FailedOutcome(drafted, f.id, p.contentHash, f);
    }
  }

  lemma UncreatedMeans(env: Env, w: World, snapshot: Snapshot, f: Faults)
    requires !Created(env, w, snapshot, f)
    ensures var (after, r) := Outcome(env, w, snapshot, f);
      Reports(env, w, snapshot, f, after, r) && Stores(env, w, snapshot, f, after)
  {
    assert !PreparedBy(env, w, snapshot, f);
    var p := env.compile(snapshot);
    var row := CompilationRow(if p.None? then Failed else Draft, if p.None? then "" else p.value.contentHash, false);
    UpdateIsLocal(w.compilations, f.id, row, row);
  }

  lemma OutcomeMeans(env: Env, w: World, snapshot: Snapshot, f: Faults)
    ensures var (after, r) := Outcome(env, w, snapshot, f);
      Reports(env, w, snapshot, f, after, r) && Stores(env, w, snapshot, f, after)
  {
    if PreparedBy(env, w, snapshot, f) {
      PreparedMeans(env, w, snapshot, f);
    } else if Created(env, w, snapshot, f) {
      FailedMeans(env, w, snapshot, f);
      var p := env.compile(snapshot).value;
      UpdateIsLocal(w.compilations, f.id, CompilationRow(Draft, p.contentHash, false), CompilationRow(Failed, p.contentHash, false));
      UpdateIsLocal(w.compilations, f.id, CompilationRow(Failed, p.contentHash, false), CompilationRow(Draft, p.contentHash, false));
    } else {
      UncreatedMeans(env, w, snapshot, f);
    }
  }

  // The candidate was written, accepted and found alive.
  predicate Committed(f: Faults) {
    f.write.Fine? && f.reloadOk && f.probeOk
  }

  // The last audit write fails, or a candidate that reached the file cannot be undone.
  predicate LeftLive(f: Faults) {
    if Committed(f) then !f.complete.Fine? else f.restoreWrite.LostBefore? && !f.write.LostBefore?
  }

  // Both happen: any faults up to the write, continued by a lost audit write, or by a
  // refused reload and a lost restoring write.
  lemma ErrorsLeaveCandidateLive(env: Env, w: World, snapshot: Snapshot, f: Faults)
    requires PreparedBy(env, w, snapshot, f)
    ensures var lostAudit := f.(write := Fine, reloadOk := true, probeOk := true, complete := LostBefore);
      && PreparedBy(env, w, snapshot, lostAudit) && Committed(lostAudit) && LeftLive(lostAudit)
      && FinalConfig(JobFor(env, w, snapshot, lostAudit), lostAudit) == JobFor(env, w, snapshot, f).candidate
    ensures var lostUndo := f.(write := Fine, reloadOk := false, restoreWrite := LostBefore);
      && PreparedBy(env, w, snapshot, lostUndo) && !Committed(lostUndo) && LeftLive(lostUndo)
      && FinalConfig(JobFor(env, w, snapshot, lostUndo), lostUndo) == JobFor(env, w, snapshot, f).candidate
  {
  }

  // The original is written back, accepted again, and so recorded.
  predicate UndoneBy(f: Faults) {
    f.restoreWrite.Fine? && f.restoreOk && f.completeRolledBack.Fine?
  }

  // Everything before the first write of the file succeeds.
  predicate PreparedBy(env: Env, w: World, snapshot: Snapshot, f: Faults) {
    && env.compile(snapshot).Some?
    && f.idOk && f.id !in w.compilations && f.create.Fine? && f.readOk
    && env.merge(w.config, env.compile(snapshot).value).Some?
    && f.backup.Fine? && f.rollbackIdOk && f.id !in w.rollbacks && f.auditRollback.Fine?
  }

  function JobFor(env: Env, w: World, snapshot: Snapshot, f: Faults): Job
    requires PreparedBy(env, w, snapshot, f)
  {
    var p := env.compile(snapshot).value;
    Job(f.id, p.contentHash, w.config, env.merge(w.config, p).value)
  }

  // The file after a prepared application: the candidate if it was committed, and
  // otherwise the original, unless it could not be written back over the candidate.
  function FinalConfig(job: Job, f: Faults): string {
    if Committed(f) then job.candidate
    else if f.restoreWrite.LostBefore? && !f.write.LostBefore? then job.candidate
    else job.original
  }
}

/** The invariant of one run's file, and what any call can and cannot do to it. */
module RunInvariant {
  import opened Models
  import opened RunFiles
  import opened Audit

  predicate LeaseShape(row: RunRow) {
    && (row.status.Running? || row.status.Waiting? <==> row.owner.Some?)
    && (row.owner.Some? <==> row.expires.Some?)
    && (row.status.Pending? <==> row.fence == 0)
    && row.attempt == row.fence
  }

  ghost predicate LedgerShape(f: RunFile) {
    forall key :: key in f.effects ==>
      && 1 <= f.effects[key].fence <= f.row.fence
      && (f.effects[key].status.Unknown? ==> f.effects[key].fence < f.row.fence)
      && (f.effects[key].status.Started? || f.effects[key].status.Unknown? ==> f.effects[key].error.None?)
  }

  ghost predicate CheckpointShape(f: RunFile) {
    forall i :: 0 <= i < |f.checkpoints| ==>
      f.checkpoints[i].sequence == i + 1 && f.checkpoints[i].runId == f.row.id
  }

  ghost predicate Inv(f: RunFile) {
    LeaseShape(f.row) && LedgerShape(f) && CheckpointShape(f) && LogRebuilds(f)
  }

  /** Sequence numbers count the checkpoints, so the latest one is the last one recorded. */
  lemma {:induction false} SequencesCount(rows: seq<Checkpoint>)
    requires forall i :: 0 <= i < |rows| ==> rows[i].sequence == i + 1
    ensures MaxSequence(rows) == |rows|
    ensures LatestOf(rows) == if |rows| == 0 then None else Some(rows[|rows| - 1])
  {
    if |rows| > 0 {
      SequencesCount(rows[..|rows| - 1]);
    }
  }

  lemma NewFileInv(id: string, task: TaskSpec, now: real)
    ensures Inv(NewFile(id, task, now))
  {
    var f := NewFile(id, task, now);
    assert f.log == [] + [Event(RunCreated("queued"), now)];
    AuditAppend([], f.log[0]);
  }

  lemma GrantKeepsInv(f: RunFile, owner: string, seconds: real, now: real)
    requires Inv(f) && (f.row.status.Pending? || f.row.status.Running?)
    ensures Inv(Grant(f, owner, seconds, now).file)
  {
    AuditAppend(f.log, Event(GrantEvent(f.row, owner), now));
  }

  lemma TransitionKeepsInv(f: RunFile, lease: Lease, write: Write, now: real)
    requires Inv(f) && Live(f.row, lease, now) && write.Transition?
    ensures Inv(Perform(f, lease, write, now).file)
  {
    if write.target in f.row.status.Successors() {
      var stage := NextStage(f.row, write.nextStage);
      AuditAppend(f.log, Event(RunTransitioned(f.row.status, write.target, stage, write.error), now));
    }
  }

  lemma RenewKeepsInv(f: RunFile, lease: Lease, seconds: real, now: real)
    requires Inv(f) && Live(f.row, lease, now)
    ensures Inv(DoRenew(f, lease, seconds, now).file)
  {
    AuditAppend(f.log, Event(LeaseRenewed(lease.owner, lease.fence), now));
  }

  lemma AdvanceKeepsInv(f: RunFile, lease: Lease, stage: string, evidence: Option<Document>, now: real)
    requires Inv(f) && Live(f.row, lease, now)
    ensures Inv(DoAdvance(f, stage, evidence, now).file)
  {
    AuditAppend(f.log, Event(StageStarted(stage, ShownEvidence(evidence)), now));
  }

  lemma RecordKeepsInv(f: RunFile, lease: Lease, write: Write, now: real)
    requires Inv(f) && Live(f.row, lease, now) && write.Record?
    ensures Inv(Perform(f, lease, write, now).file)
  {
    var g := Perform(f, lease, write, now).file;
    SequencesCount(f.checkpoints);
    AuditAppend(f.log, g.log[|f.log|]);
  }

  lemma EffectChangeKeepsInv(f: RunFile, key: string, effect: Effect, kind: EventKind, audited: EffectStatus, now: real)
    requires Inv(f) && 1 <= effect.fence <= f.row.fence
    requires effect.status.Unknown? ==> effect.fence < f.row.fence
    requires effect.status.Started? || effect.status.Unknown? ==> effect.error.None?
    requires StatusAgrees(audited, effect.status)
    requires var view := AuditLog(f.log).view;
      AuditEvent(view, kind, now) == Good(view.(effects := view.effects[key := audited]))
    ensures Inv(Logged(f.(effects := f.effects[key := effect]), kind, now))
  {
    AuditAppend(f.log, Event(kind, now));
  }

  lemma BeginKeepsInv(f: RunFile, lease: Lease, key: string, name: string, request: Request, now: real)
    requires Inv(f) && Live(f.row, lease, now)
    ensures Inv(DoBegin(f, lease, key, name, request, now).file)
  {
    var view := AuditLog(f.log).view;
    assert key in f.effects <==> key in view.effects;
    if key !in f.effects {
      EffectChangeKeepsInv(f, key, NewEffect(name, request, lease.fence, now), EffectStarted(key, name), Started, now);
    } else {
      var effect := f.effects[key];
      if effect.status.Started? && effect.fence != lease.fence {
        EffectChangeKeepsInv(f, key, effect.(status := Unknown, updatedAt := now),
                             EffectBecameUnknown(key, effect.fence), Unknown, now);
      }
    }
  }

  lemma FinishKeepsInv(f: RunFile, lease: Lease, key: string, succeeded: bool, result: Option<Document>,
                       error: Option<string>, now: real)
    requires Inv(f) && Live(f.row, lease, now)
    ensures Inv(DoFinish(f, lease, key, succeeded, result, error, now).file)
  {
    var step := DoFinish(f, lease, key, succeeded, result, error, now);
    if step.outcome.Resolved? {
      assert key in AuditLog(f.log).view.effects;
      EffectChangeKeepsInv(f, key, step.outcome.effect, EffectFinished(key, Verdict(succeeded)), Verdict(succeeded),
                           now);
    }
  }

  lemma ReconcileKeepsInv(f: RunFile, lease: Lease, key: string, succeeded: bool, evidence: Document, now: real)
    requires Inv(f) && Live(f.row, lease, now) && !evidence.EmptyObject?
    ensures Inv(DoReconcile(f, lease, key, succeeded, evidence, now).file)
  {
    var step := DoReconcile(f, lease, key, succeeded, evidence, now);
    if step.outcome.Resolved? {
      assert key in AuditLog(f.log).view.effects;
      EffectChangeKeepsInv(f, key, step.outcome.effect, EffectReconciled(key, Verdict(succeeded), evidence),
                           Verdict(succeeded), now);
    }
  }

  /** Every call keeps the invariant, whatever its arguments and its clock reading. */
  lemma NextKeepsInv(f: RunFile, call: Call, now: real)
    requires Inv(f)
    ensures Inv(Next(f, call, now).file)
  {
    match call
    case Claim(owner, seconds) =>
      if Claimable(f.row, now) {
        GrantKeepsInv(f, owner, seconds, now);
      }
    case Acquire(owner, seconds) =>
      if f.row.status.Pending? || f.row.status.Running? {
        GrantKeepsInv(f, owner, seconds, now);
      }
    case Guarded(lease, write) =>
      if Live(f.row, lease, now) && !BadArguments(write) {
        match write {
          case Record(_, _, _, _) => RecordKeepsInv(f, lease, write, now);
          case Begin(key, name, request) => BeginKeepsInv(f, lease, key, name, request, now);
          case Finish(key, succeeded, result, error) => FinishKeepsInv(f, lease, key, succeeded, result, error, now);
          case Reconcile(key, succeeded, evidence) => ReconcileKeepsInv(f, lease, key, succeeded, evidence, now);
          case Transition(_, _, _, _) => TransitionKeepsInv(f, lease, write, now);
          case Renew(seconds) => RenewKeepsInv(f, lease, seconds, now);
          case Advance(stage, attached) => AdvanceKeepsInv(f, lease, stage, attached, now);
        }
      }
    case Elsewhere =>
  }

  /** The call tries to begin an effect that an older fence left started. */
  predicate BeginsOrphan(f: RunFile, call: Call, now: real) {
    && call.Guarded? && call.write.Begin? && Live(f.row, call.lease, now)
    && call.write.key in f.effects
    && var effect := f.effects[call.write.key];
    && effect.status.Started? && effect.fence != call.lease.fence
    && effect.name == call.write.name && effect.requestHash == HashOf(call.write.request)
  }

  /** A refused call leaves no trace, with one exception: a refusal to begin an orphaned effect
      marks that effect unknown and logs it. */
  lemma RefusalsRollBack(f: RunFile, call: Call, now: real)
    requires Next(f, call, now).outcome.Rejected?
    ensures var g := Next(f, call, now).file;
      if BeginsOrphan(f, call, now) then
        var key, effect := call.write.key, f.effects[call.write.key];
        && Next(f, call, now).outcome == Rejected(NeedsReconciliation)
        && g != f
        && g == f.(effects := f.effects[key := effect.(status := Unknown, updatedAt := now)],
                   log := f.log + [Event(EffectBecameUnknown(key, effect.fence), now)])
      else g == f
  {
    if BeginsOrphan(f, call, now) {
      assert |Next(f, call, now).file.log| == |f.log| + 1;
    }
  }

  /** The lease shape makes the missing-expiry failure of `acquire_run` unreachable. */
  lemma NeverTypeError(f: RunFile, call: Call, now: real)
    requires Inv(f)
    ensures Next(f, call, now).outcome != Rejected(TypeError)
  {
  }

  /** The call writes the ledger entry of `key`. */
  predicate Touches(call: Call, key: string) {
    && call.Guarded?
    && (call.write.Begin? || call.write.Finish? || call.write.Reconcile?)
    && call.write.key == key
  }

  lemma OtherCallsLeaveTheEffect(f: RunFile, call: Call, now: real, key: string)
    requires !Touches(call, key)
    ensures var g := Next(f, call, now).file;
      (key in g.effects <==> key in f.effects) && (key in f.effects ==> g.effects[key] == f.effects[key])
  {
  }

  // What the log does not tell

  /** Two grants that differ only in lease length leave the same log, so no replay can rebuild the
      lease expiry. */
  lemma LogForgetsExpiry(f: RunFile, owner: string, seconds: real, seconds': real, now: real)
    requires seconds != seconds'
    ensures var (g, h) := (Grant(f, owner, seconds, now).file, Grant(f, owner, seconds', now).file);
      g.log == h.log && g.row.expires != h.row.expires
  {
    var (g, h) := (Grant(f, owner, seconds, now).file, Grant(f, owner, seconds', now).file);
    assert g.row.expires.value - h.row.expires.value == seconds - seconds';
  }

  /** The log lags behind the ledger: it reads failed while the effect is started again. */
  ghost predicate Lags(f: RunFile, key: string)
    requires LogRebuilds(f) && key in f.effects
  {
    AuditLog(f.log).view.effects[key] != f.effects[key].status
  }

  predicate Retries(f: RunFile, call: Call, now: real, key: string) {
    && call.Guarded? && call.write.Begin? && call.write.key == key && Live(f.row, call.lease, now)
    && key in f.effects && f.effects[key].status.Failed?
    && f.effects[key].name == call.write.name && f.effects[key].requestHash == HashOf(call.write.request)
  }

  /** How the effect of a key may change with the log: an added event either reports the new status of the
      effect or leaves it alone, and without an event only a retry changes it. */
  ghost predicate Reports(f: RunFile, g: RunFile, key: string, retried: bool)
    requires key in f.effects
  {
    && key in g.effects
    && (g.log == f.log ==> (g.effects[key] != f.effects[key] ==> retried))
    && (retried ==> g.log == f.log && g.effects[key].status.Started?)
    && (g.log != f.log ==>
          && |g.log| == |f.log| + 1 && g.log == f.log + [g.log[|f.log|]]
          && var kind := g.log[|f.log|].kind;
          if IsEffectEvent(kind) && kind.key == key
          then g.effects[key].status == Reported(kind) && g.effects[key] != f.effects[key]
          else g.effects[key] == f.effects[key])
  }

  lemma BeginsReport(f: RunFile, lease: Lease, write: Write, now: real, key: string)
    requires key in f.effects && write.Begin? && Live(f.row, lease, now)
    ensures Reports(f, DoBegin(f, lease, write.key, write.name, write.request, now).file, key,
                    Retries(f, Guarded(lease, write), now, key))
  {
  }

  lemma ResolutionsReport(f: RunFile, lease: Lease, write: Write, now: real, key: string)
    requires key in f.effects && (write.Finish? || write.Reconcile?)
    ensures Reports(f, Perform(f, lease, write, now).file, key, false)
  {
  }

  lemma OtherWritesReport(f: RunFile, lease: Lease, write: Write, now: real, key: string)
    requires key in f.effects && !write.Begin? && !write.Finish? && !write.Reconcile?
    ensures Reports(f, Perform(f, lease, write, now).file, key, false)
  {
  }

  lemma GrantsReport(f: RunFile, call: Call, now: real, key: string)
    requires key in f.effects && !call.Guarded?
    ensures Reports(f, Next(f, call, now).file, key, false)
  {
  }

  /** A call that adds an event either leaves the ledger alone or reports the new status of the one
      effect it changed; the only silent change is a retry. */
  lemma CallsReportEffects(f: RunFile, call: Call, now: real, key: string)
    requires key in f.effects
    ensures Reports(f, Next(f, call, now).file, key, Retries(f, call, now, key))
  {
    hide Reports, Perform, DoBegin;
    match call
    case Guarded(lease, write) =>
      if BadArguments(write) || !Live(f.row, lease, now) {
        NothingReports(f, key);
      } else if write.Begin? {
        BeginsReport(f, lease, write, now, key);
        BeginIsPerformed(f, lease, write, now);
      } else if write.Finish? || write.Reconcile? {
        ResolutionsReport(f, lease, write, now, key);
      } else {
        OtherWritesReport(f, lease, write, now, key);
      }
    case _ => GrantsReport(f, call, now, key);
  }

  lemma BeginIsPerformed(f: RunFile, lease: Lease, write: Write, now: real)
    requires write.Begin?
    ensures Perform(f, lease, write, now) == DoBegin(f, lease, write.key, write.name, write.request, now)
  {
  }

  lemma NothingReports(f: RunFile, key: string)
    requires key in f.effects
    ensures Reports(f, f, key, false)
  {
  }

  /** A retry of a failed effect is the only call that makes the log lag; any later change of that
      effect brings the two together again. */
  lemma OnlyRetriesMakeTheLogLag(f: RunFile, call: Call, now: real, key: string)
    requires Inv(f) && key in f.effects
    ensures var g := Next(f, call, now).file;
      && Inv(g) && key in g.effects
      && (Lags(g, key) <==> Retries(f, call, now, key) || (Lags(f, key) && g.effects[key] == f.effects[key]))
  {
    var g := Next(f, call, now).file;
    NextKeepsInv(f, call, now);
    CallsReportEffects(f, call, now, key);
    if g.log != f.log {
      EffectEventsReport(f.log, g.log[|f.log|]);
    }
  }

  // Order between files of one run

  ghost predicate EffectExtends(e: Effect, e': Effect) {
    && e'.name == e.name && e'.requestHash == e.requestHash && e'.createdAt == e.createdAt
    && e.fence <= e'.fence
    && (e.status.Succeeded? ==> e' == e)
  }

  ghost predicate RowExtends(r: RunRow, r': RunRow) {
    && r'.id == r.id && r'.task == r.task && r'.createdAt == r.createdAt
    && r.fence <= r'.fence && r.revision <= r'.revision
    && (r.revision == r'.revision ==> r' == r)
    && (r.fence == r'.fence ==> r'.owner == r.owner || r'.status.Terminal())
  }

  /** `g` is a later file of the run whose earlier file is `f`. */
  ghost predicate Extends(f: RunFile, g: RunFile) {
    && RowExtends(f.row, g.row)
    && f.log <= g.log && f.checkpoints <= g.checkpoints
    && (forall key :: key in f.effects ==> key in g.effects && EffectExtends(f.effects[key], g.effects[key]))
    && (f.row.status.Terminal() ==> g == f)
  }

  lemma BeginExtends(f: RunFile, lease: Lease, write: Write, now: real)
    requires Inv(f) && Live(f.row, lease, now) && write.Begin?
    ensures Extends(f, Perform(f, lease, write, now).file)
  {
  }

  lemma ResolutionExtends(f: RunFile, lease: Lease, write: Write, now: real)
    requires Inv(f) && Live(f.row, lease, now) && (write.Finish? || write.Reconcile?)
    ensures Extends(f, Perform(f, lease, write, now).file)
  {
  }

  lemma OtherWritesExtend(f: RunFile, lease: Lease, write: Write, now: real)
    requires Inv(f) && Live(f.row, lease, now) && !write.Begin? && !write.Finish? && !write.Reconcile?
    ensures Extends(f, Perform(f, lease, write, now).file)
  {
  }

  /** Every call extends the file it finds. */
  lemma NextExtends(f: RunFile, call: Call, now: real)
    requires Inv(f)
    ensures Extends(f, Next(f, call, now).file)
  {
    hide Perform, Extends;
    match call
    case Guarded(lease, write) =>
      if !Live(f.row, lease, now) || BadArguments(write) {
        ExtendsItself(f);
      } else if write.Begin? {
        BeginExtends(f, lease, write, now);
      } else if write.Finish? || write.Reconcile? {
        ResolutionExtends(f, lease, write, now);
      } else {
        OtherWritesExtend(f, lease, write, now);
      }
    case _ => GrantsExtend(f, call, now);
  }

  lemma ExtendsItself(f: RunFile)
    ensures Extends(f, f)
  {
  }

  lemma GrantsExtend(f: RunFile, call: Call, now: real)
    requires Inv(f) && !call.Guarded?
    ensures Extends(f, Next(f, call, now).file)
  {
  }

  lemma ExtendsTransitive(f: RunFile, g: RunFile, h: RunFile)
    requires Extends(f, g) && Extends(g, h)
    ensures Extends(f, h)
  {
  }
}

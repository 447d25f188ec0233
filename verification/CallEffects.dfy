/** What each accepted call leaves behind and when it is refused, in terms of the row, the ledger and the
    log before it. The histories prove what follows from these; here each answer is tied to its arguments. */
module CallEffects {
  import opened Models
  import opened RunFiles
  import opened RunInvariant
  import opened ClaimQueue
  import opened Store
  import opened Paths
  import opened Policy
  import opened ApplyProtocol
  import opened Workspace

  /** The lease names the run's owner and fence, and the run's expiry is still to come. */
  predicate InForce(row: RunRow, lease: Lease, now: real) {
    row.owner == Some(lease.owner) && row.fence == lease.fence && row.expires.Some? && now < row.expires.value
  }

  predicate Unchanged(f: RunFile, step: Step, error: StoreError) {
    step.file == f && step.outcome == Rejected(error)
  }

  /** One row and one event are written, and nothing else. */
  predicate RowWritten(f: RunFile, g: RunFile, row: RunRow, kind: EventKind, now: real) {
    g.row == row && g.effects == f.effects && g.checkpoints == f.checkpoints && g.log == f.log + [Event(kind, now)]
  }

  lemma GuardedCallsNeedTheLease(f: RunFile, lease: Lease, write: Write, now: real)
    requires !InForce(f.row, lease, now)
    ensures var step := Next(f, Guarded(lease, write), now);
      && step.file == f
      && step.outcome == Rejected(if (write.Renew? && write.seconds <= 0.0)
                                     || (write.Reconcile? && write.evidence == EmptyObject)
                                  then ValueError else LeaseLost)
  {
  }

  /** The check in front of every guarded call: an unknown run is a key error, and a lease that is not in force
      is lost. */
  lemma TheLeaseIsChecked(db: Db, lease: Lease, now: real)
    ensures Refusal(db, lease, now) ==
              if lease.runId !in db then Some(KeyError)
              else if InForce(db[lease.runId].row, lease, now) then None else Some(LeaseLost)
  {
  }

  lemma RenewMovesTheExpiry(f: RunFile, lease: Lease, seconds: real, now: real)
    requires InForce(f.row, lease, now)
    ensures var step := Next(f, Guarded(lease, Renew(seconds)), now);
      if seconds <= 0.0 then Unchanged(f, step, ValueError)
      else
        && RowWritten(f, step.file, f.row.(revision := f.row.revision + 1, updatedAt := now,
                                           expires := Some(now + seconds)),
                      LeaseRenewed(lease.owner, lease.fence), now)
        && step.outcome == Granted(Lease(lease.runId, lease.owner, lease.fence, now + seconds))
  {
  }

  lemma AdvanceSetsTheStage(f: RunFile, lease: Lease, stage: string, attached: Option<Document>, now: real)
    requires InForce(f.row, lease, now)
    ensures var step := Next(f, Guarded(lease, Advance(stage, attached)), now);
      if f.row.status != Running then Unchanged(f, step, InvalidTransition)
      else
        && RowWritten(f, step.file, f.row.(revision := f.row.revision + 1, updatedAt := now, stage := stage),
                      StageStarted(stage, if attached == Some(EmptyObject) then None else attached), now)
        && step.outcome == Saved(step.file.row)
  {
  }

  /** The moves of a run's status. */
  predicate MayBecome(from: RunStatus, to: RunStatus) {
    match from
    case Pending => to == Running || to == Canceled
    case Running =>
      to == Waiting || to == RunStatus.Succeeded || to == RunStatus.Failed || to == Canceled
    case Waiting => to == Running || to == Canceled
    case _ => false
  }

  predicate IsOver(status: RunStatus) {
    status == RunStatus.Succeeded || status == RunStatus.Failed || status == Canceled
  }

  lemma TransitionMovesTheRun(f: RunFile, lease: Lease, target: RunStatus, stage: Option<string>,
                              result: Option<Document>, error: Option<string>, now: real)
    requires InForce(f.row, lease, now)
    ensures var step := Next(f, Guarded(lease, Transition(target, stage, result, error)), now);
      var row := step.file.row;
      if !MayBecome(f.row.status, target) then Unchanged(f, step, InvalidTransition)
      else
        && row.status == target && row.lastError == error
        && row.stage == (if stage.Some? && |stage.value| > 0 then stage.value else f.row.stage)
        && row.result == (if result.None? then f.row.result else result)
        && row.owner == (if IsOver(target) then None else f.row.owner)
        && row.expires == (if IsOver(target) then None else f.row.expires)
        && row.revision == f.row.revision + 1 && row.updatedAt == now
        && row.fence == f.row.fence && row.attempt == f.row.attempt && row.id == f.row.id && row.task == f.row.task
        && row.createdAt == f.row.createdAt
        && RowWritten(f, step.file, row, RunTransitioned(f.row.status, target, row.stage, error), now)
        && step.outcome == Saved(row)
  {
  }

  lemma RecordAppendsACheckpoint(f: RunFile, lease: Lease, stage: string, source: string, environment: string,
                                 payload: Document, now: real)
    requires Inv(f) && InForce(f.row, lease, now)
    ensures var step := Next(f, Guarded(lease, Record(stage, source, environment, payload)), now);
      var checkpoint := Checkpoint(f.row.id, |f.checkpoints| + 1, stage, source, environment, payload, now);
      && step.outcome == Recorded(checkpoint) && step.file.checkpoints == f.checkpoints + [checkpoint]
      && step.file.row == f.row && step.file.effects == f.effects
      && step.file.log == f.log + [Event(CheckpointRecorded(|f.checkpoints| + 1, stage), now)]
  {
    SequencesCount(f.checkpoints);
  }

  /** One effect and at most one event are written, and nothing else. */
  predicate EffectWritten(f: RunFile, g: RunFile, key: string, effect: Effect, events: seq<Event>) {
    && g.row == f.row && g.checkpoints == f.checkpoints && g.log == f.log + events
    && g.effects == f.effects[key := effect]
  }

  lemma BeginDecides(f: RunFile, lease: Lease, key: string, name: string, request: Request, now: real)
    requires InForce(f.row, lease, now)
    ensures var step := Next(f, Guarded(lease, Begin(key, name, request)), now);
      if key !in f.effects then
        var effect := Effect(name, HashOf(request), Started, lease.fence, None, None, now, now);
        && step.outcome == Decided(true, effect)
        && EffectWritten(f, step.file, key, effect, [Event(EffectStarted(key, name), now)])
      else
        var old_ := f.effects[key];
        if old_.name != name || old_.requestHash != HashOf(request) then Unchanged(f, step, EffectConflict)
        else if old_.status == EffectStatus.Succeeded then
          step.file == f && step.outcome == Decided(false, old_)
        else if old_.status == EffectStatus.Failed then
          var effect := Effect(name, HashOf(request), Started, lease.fence, old_.result, None, old_.createdAt, now);
          && step.outcome == Decided(true, effect) && EffectWritten(f, step.file, key, effect, [])
        else if old_.status == Started && old_.fence != lease.fence then
          && step.outcome == Rejected(NeedsReconciliation)
          && EffectWritten(f, step.file, key, old_.(status := Unknown, updatedAt := now),
                           [Event(EffectBecameUnknown(key, old_.fence), now)])
        else Unchanged(f, step, NeedsReconciliation)
  {
  }

  lemma FinishResolves(f: RunFile, lease: Lease, key: string, succeeded: bool, result: Option<Document>,
                       error: Option<string>, now: real)
    requires InForce(f.row, lease, now)
    ensures var step := Next(f, Guarded(lease, Finish(key, succeeded, result, error)), now);
      if key !in f.effects || f.effects[key].status != Started || f.effects[key].fence != lease.fence then
        Unchanged(f, step, LeaseLost)
      else
        var status := if succeeded then EffectStatus.Succeeded else EffectStatus.Failed;
        var note := if error.Some? then Some(Message(error.value)) else None;
        var effect := f.effects[key].(status := status, result := result, error := note, updatedAt := now);
        && step.outcome == Resolved(effect)
        && EffectWritten(f, step.file, key, effect, [Event(EffectFinished(key, status), now)])
  {
  }

  lemma ReconcileResolves(f: RunFile, lease: Lease, key: string, succeeded: bool, evidence: Document, now: real)
    requires InForce(f.row, lease, now)
    ensures var step := Next(f, Guarded(lease, Reconcile(key, succeeded, evidence)), now);
      if evidence == EmptyObject then Unchanged(f, step, ValueError)
      else if key !in f.effects || f.effects[key].status != Unknown then Unchanged(f, step, EffectConflict)
      else
        var old_ := f.effects[key];
        var status := if succeeded then EffectStatus.Succeeded else EffectStatus.Failed;
        var effect := Effect(old_.name, old_.requestHash, status, lease.fence,
                             if succeeded then Some(evidence) else None,
                             if succeeded then None else Some(EvidenceNote(evidence)), old_.createdAt, now);
        && step.outcome == Resolved(effect)
        && EffectWritten(f, step.file, key, effect, [Event(EffectReconciled(key, status, evidence), now)])
  {
  }

  /** The row after a grant, and the event that tells a first claim from a recovery. */
  predicate IsGranted(f: RunFile, step: Step, owner: string, seconds: real, now: real) {
    && step.outcome == Granted(Lease(f.row.id, owner, f.row.fence + 1, now + seconds))
    && RowWritten(f, step.file,
                  f.row.(status := Running, owner := Some(owner), expires := Some(now + seconds),
                         fence := f.row.fence + 1, attempt := f.row.attempt + 1,
                         revision := f.row.revision + 1, updatedAt := now),
                  if f.row.status == Running then LeaseRecovered(owner, f.row.fence + 1, f.row.owner)
                  else RunClaimed(owner, f.row.fence + 1, f.row.owner), now)
  }

  lemma AcquireGrantsOrReenters(f: RunFile, owner: string, seconds: real, now: real)
    requires Inv(f)
    ensures var step := Next(f, Acquire(owner, seconds), now);
      if seconds <= 0.0 then Unchanged(f, step, ValueError)
      else if f.row.status == Running && now < f.row.expires.value then
        if f.row.owner == Some(owner) then
          step.file == f && step.outcome == Granted(Lease(f.row.id, owner, f.row.fence, f.row.expires.value))
        else Unchanged(f, step, LeaseLost)
      else if f.row.status == Pending || f.row.status == Running then IsGranted(f, step, owner, seconds, now)
      else Unchanged(f, step, InvalidTransition)
  {
  }

  lemma ClaimGrantsWhatWaits(f: RunFile, owner: string, seconds: real, now: real)
    ensures var step := Next(f, Claim(owner, seconds), now);
      if seconds <= 0.0 then Unchanged(f, step, ValueError)
      else if Waits(f.row, now) then IsGranted(f, step, owner, seconds, now)
      else step == Step(f, Skipped)
  {
  }

  /** A run is created under the id asked for, or under the generated one when none or an empty one is
      asked for: PENDING, queued, without a lease, with an empty ledger and one event. */
  lemma CreateStartsARun(db: Db, task: TaskSpec, asked: Option<string>, generated: string, now: real)
    ensures var id := if asked == None || asked == Some("") then generated else asked.value;
      var (after, outcome) := AfterCreate(db, task, ChosenId(asked, generated), now);
      if id in db then after == db && outcome == Rejected(IntegrityError)
      else
        && id in after && after == db[id := after[id]] && outcome == Saved(after[id].row)
        && after[id].row == RunRow(id, task, Pending, "queued", 0, 0, None, None, 0, None, None, now, now)
        && after[id].effects == map[] && after[id].checkpoints == []
        && after[id].log == [Event(RunCreated("queued"), now)]
  {
  }

  // Applying a patch

  /** The ledger entry of a fresh application: bound to the digest of the patch, the inspected paths and the
      policy version; on success it holds the fingerprint, digest, version, counts and size, which are also
      returned; on failure git's message. */
  lemma FreshApplicationsAreRecorded(f: RunFile, tree: seq<Digest>, lease: Lease, policy: PatchPolicy,
                                     candidate: PatchCandidate, key: string, env: Surroundings, t0: real, t1: real)
    requires Inspected(policy, candidate).Ok? && key !in f.effects
    requires InForce(f.row, lease, t0) && InForce(f.row, lease, t1)
    ensures var inspection := Inspected(policy, candidate).value;
      var applied := ApplyOnce(f, tree, lease, policy, candidate, key, env, t0, t1);
      var digest := Sha256(candidate.patch);
      && key in applied.file.effects
      && var effect := applied.file.effects[key];
      && effect.name == "git.apply_patch"
      && effect.requestHash.request == ApplyRequest(digest, inspection.paths, policy.version)
      && if env.landed then
           var evidence := AppliedEvidence(env.fingerprint, digest, policy.version, inspection.additions,
                                           inspection.deletions, inspection.sizeBytes);
           && applied.result == Ok(evidence) && applied.tree == tree + [digest]
           && effect.status.Succeeded? && effect.result == Some(evidence) && effect.error == None
         else
           && applied.result == Err(GitFailed(env.message)) && applied.tree == tree
           && effect.status.Failed? && effect.result == None && effect.error == Some(Message(env.message))
  {
    hide Inspected;
  }

  /** An effect that is already settled, or bound to another request, is not applied. */
  lemma SettledApplicationsAreNotRepeated(f: RunFile, tree: seq<Digest>, lease: Lease, policy: PatchPolicy,
                                          candidate: PatchCandidate, key: string, env: Surroundings, t0: real, t1: real)
    requires Inspected(policy, candidate).Ok? && key in f.effects && InForce(f.row, lease, t0)
    ensures var inspection := Inspected(policy, candidate).value;
      var request := ApplyRequest(Sha256(candidate.patch), inspection.paths, policy.version);
      var applied := ApplyOnce(f, tree, lease, policy, candidate, key, env, t0, t1);
      var effect := f.effects[key];
      if effect.name != "git.apply_patch" || effect.requestHash.request != request then
        applied == Applied(f, tree, Err(StoreRefused(EffectConflict)))
      else effect.status.Succeeded? ==>
        applied == Applied(f, tree, Ok(if effect.result.Some? && effect.result.value != EmptyObject
                                       then effect.result.value else OtherObject("replayed")))
  {
    hide Inspected;
  }

  /** An undecided effect is settled by what the tree shows, with the fingerprint as evidence. */
  lemma UndecidedApplicationsAreSettled(f: RunFile, tree: seq<Digest>, lease: Lease, policy: PatchPolicy,
                                        candidate: PatchCandidate, key: string, env: Surroundings, t0: real, t1: real)
    requires Inspected(policy, candidate).Ok? && key in f.effects
    requires InForce(f.row, lease, t0) && InForce(f.row, lease, t1)
    requires var inspection := Inspected(policy, candidate).value;
      && f.effects[key].name == "git.apply_patch"
      && f.effects[key].requestHash == HashOf(ApplyRequest(Sha256(candidate.patch), inspection.paths, policy.version))
    requires f.effects[key].status.Unknown? || (f.effects[key].status.Started? && f.effects[key].fence != lease.fence)
    ensures var applied := ApplyOnce(f, tree, lease, policy, candidate, key, env, t0, t1);
      && key in applied.file.effects && applied.tree == tree
      && var effect := applied.file.effects[key];
      && effect.fence == lease.fence
      && if Sha256(candidate.patch) in tree then
           && effect.status.Succeeded? && effect.result == Some(ReconciledEvidence(env.fingerprint))
           && applied.result == Ok(ReconciledEvidence(env.fingerprint))
         else
           && effect.status.Failed? && effect.error == Some(EvidenceNote(AbsentEvidence))
           && applied.result == Err(MarkedFailed)
  {
    hide Inspected;
  }
}

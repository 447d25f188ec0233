/** What the store keeps about one run, and what one committed store call does to it.

    Every call runs in one transaction, so it is a function of the state it finds and of the
    clock reading taken before the transaction.
 */
module RunFiles {
  import opened Models

  datatype RunFile = RunFile(row: RunRow, effects: map<string, Effect>,
                             checkpoints: seq<Checkpoint>, log: seq<Event>)

  /** The calls that need a live lease. */
  datatype Write =
    | Renew(seconds: real)
    | Transition(target: RunStatus, nextStage: Option<string>, result: Option<Document>, error: Option<string>)
    | Advance(stage: string, attached: Option<Document>)
    | Record(stage: string, source: string, environment: string, payload: Document)
    | Begin(key: string, name: string, request: Request)
    | Finish(key: string, succeeded: bool, result: Option<Document>, error: Option<string>)
    | Reconcile(key: string, succeeded: bool, evidence: Document)

  /** A call as one run sees it. `Claim` is a queue claim that may pick this run; `Elsewhere` is a
      call about another run. */
  datatype Call =
    | Claim(owner: string, seconds: real)
    | Acquire(owner: string, seconds: real)
    | Guarded(lease: Lease, write: Write)
    | Elsewhere

  datatype Outcome =
    | Granted(lease: Lease)
    | Saved(row: RunRow)
    | Recorded(checkpoint: Checkpoint)
    | Decided(execute: bool, effect: Effect)
    | Resolved(effect: Effect)
    | Rejected(error: StoreError)
    | Skipped

  datatype Step = Step(file: RunFile, outcome: Outcome)

  function NewFile(id: string, task: TaskSpec, now: real): RunFile {
    RunFile(RunRow(id, task, Pending, "queued", 0, 0, None, None, 0, None, None, now, now),
            map[], [], [Event(RunCreated("queued"), now)])
  }

  /** The condition under which the queue may hand out a run. */
  predicate Claimable(row: RunRow, now: real) {
    row.status.Pending? || (row.status.Running? && row.expires.Some? && row.expires.value <= now)
  }

  /** The lease check in front of every guarded write. */
  predicate Live(row: RunRow, lease: Lease, now: real) {
    && row.owner == Some(lease.owner)
    && row.fence == lease.fence
    && row.expires.Some?
    && now < row.expires.value
  }

  function Bumped(row: RunRow, now: real): RunRow {
    row.(revision := row.revision + 1, updatedAt := now)
  }

  function Logged(f: RunFile, kind: EventKind, now: real): RunFile {
    f.(log := f.log + [Event(kind, now)])
  }

  function Refuse(f: RunFile, error: StoreError): Step {
    Step(f, Rejected(error))
  }

  // Leases

  function GrantedRow(row: RunRow, owner: string, seconds: real, now: real): RunRow {
    Bumped(row, now).(status := Running, owner := Some(owner), expires := Some(now + seconds),
                      fence := row.fence + 1, attempt := row.attempt + 1)
  }

  function GrantEvent(row: RunRow, owner: string): EventKind {
    if row.status.Running? then LeaseRecovered(owner, row.fence + 1, row.owner)
    else RunClaimed(owner, row.fence + 1, row.owner)
  }

  function Grant(f: RunFile, owner: string, seconds: real, now: real): Step {
    Step(Logged(f.(row := GrantedRow(f.row, owner, seconds, now)), GrantEvent(f.row, owner), now),
         Granted(Lease(f.row.id, owner, f.row.fence + 1, now + seconds)))
  }

  function DoClaim(f: RunFile, owner: string, seconds: real, now: real): Step {
    if seconds <= 0.0 then Refuse(f, ValueError)
    else if !Claimable(f.row, now) then Step(f, Skipped)
    else Grant(f, owner, seconds, now)
  }

  function DoAcquire(f: RunFile, owner: string, seconds: real, now: real): Step {
    if seconds <= 0.0 then Refuse(f, ValueError)
    else if f.row.status.Running? && f.row.expires.None? then Refuse(f, TypeError)
    else if f.row.status.Running? && now < f.row.expires.value then
      if f.row.owner != Some(owner) then Refuse(f, LeaseLost)
      else Step(f, Granted(Lease(f.row.id, owner, f.row.fence, f.row.expires.value)))
    else if !f.row.status.Pending? && !f.row.status.Running? then Refuse(f, InvalidTransition)
    else Grant(f, owner, seconds, now)
  }

  function RenewedRow(row: RunRow, seconds: real, now: real): RunRow {
    Bumped(row, now).(expires := Some(now + seconds))
  }

  function DoRenew(f: RunFile, lease: Lease, seconds: real, now: real): Step {
    Step(Logged(f.(row := RenewedRow(f.row, seconds, now)), LeaseRenewed(lease.owner, lease.fence), now),
         Granted(lease.(expiresAt := now + seconds)))
  }

  // Run state

  function NextStage(row: RunRow, stage: Option<string>): string {
    if stage.Some? && stage.value != "" then stage.value else row.stage
  }

  function TransitionedRow(row: RunRow, target: RunStatus, stage: Option<string>, result: Option<Document>,
                           error: Option<string>, now: real): RunRow
  {
    Bumped(row, now).(status := target, stage := NextStage(row, stage),
                      result := if result.Some? then result else row.result,
                      lastError := error,
                      owner := if target.Terminal() then None else row.owner,
                      expires := if target.Terminal() then None else row.expires)
  }

  function DoTransition(f: RunFile, target: RunStatus, stage: Option<string>, result: Option<Document>,
                        error: Option<string>, now: real): Step
  {
    if target !in f.row.status.Successors() then Refuse(f, InvalidTransition)
    else
      var row := TransitionedRow(f.row, target, stage, result, error, now);
      Step(Logged(f.(row := row), RunTransitioned(f.row.status, target, row.stage, error), now), Saved(row))
  }

  function ShownEvidence(evidence: Option<Document>): Option<Document> {
    if evidence.Some? && evidence.value.EmptyObject? then None else evidence
  }

  function DoAdvance(f: RunFile, stage: string, evidence: Option<Document>, now: real): Step {
    if !f.row.status.Running? then Refuse(f, InvalidTransition)
    else
      var row := Bumped(f.row, now).(stage := stage);
      Step(Logged(f.(row := row), StageStarted(stage, ShownEvidence(evidence)), now), Saved(row))
  }

  /** COALESCE(MAX(sequence), 0). */
  function MaxSequence(rows: seq<Checkpoint>): nat {
    if |rows| == 0 then 0
    else
      var earlier := MaxSequence(rows[..|rows| - 1]);
      if earlier < rows[|rows| - 1].sequence then rows[|rows| - 1].sequence else earlier
  }

  /** ORDER BY sequence DESC LIMIT 1. */
  function LatestOf(rows: seq<Checkpoint>): Option<Checkpoint> {
    if |rows| == 0 then None
    else
      var earlier := LatestOf(rows[..|rows| - 1]);
      if earlier.Some? && rows[|rows| - 1].sequence <= earlier.value.sequence then earlier
      else Some(rows[|rows| - 1])
  }

  function DoRecord(f: RunFile, stage: string, source: string, environment: string, payload: Document,
                    now: real): Step
  {
    var checkpoint := Checkpoint(f.row.id, MaxSequence(f.checkpoints) + 1, stage, source, environment, payload, now);
    Step(Logged(f.(checkpoints := f.checkpoints + [checkpoint]),
                CheckpointRecorded(checkpoint.sequence, stage), now),
         Recorded(checkpoint))
  }

  // The effect ledger

  function NewEffect(name: string, request: Request, fence: nat, now: real): Effect {
    Effect(name, HashOf(request), Started, fence, None, None, now, now)
  }

  function DoBegin(f: RunFile, lease: Lease, key: string, name: string, request: Request, now: real): Step {
    if key !in f.effects then
      var effect := NewEffect(name, request, lease.fence, now);
      Step(Logged(f.(effects := f.effects[key := effect]), EffectStarted(key, name), now), Decided(true, effect))
    else
      var effect := f.effects[key];
      if effect.name != name || effect.requestHash != HashOf(request) then Refuse(f, EffectConflict)
      else match effect.status
        case Succeeded => Step(f, Decided(false, effect))
        case Started =>
          if effect.fence == lease.fence then Refuse(f, NeedsReconciliation)
          else
            // The only refusal that leaves a mark: it is raised after the commit.
            Refuse(Logged(f.(effects := f.effects[key := effect.(status := Unknown, updatedAt := now)]),
                          EffectBecameUnknown(key, effect.fence), now),
                   NeedsReconciliation)
        case Unknown => Refuse(f, NeedsReconciliation)
        case Failed =>
          var retried := effect.(status := Started, fence := lease.fence, error := None, updatedAt := now);
          Step(f.(effects := f.effects[key := retried]), Decided(true, retried))
  }

  function Verdict(succeeded: bool): EffectStatus {
    if succeeded then EffectStatus.Succeeded else EffectStatus.Failed
  }

  function DoFinish(f: RunFile, lease: Lease, key: string, succeeded: bool, result: Option<Document>,
                    error: Option<string>, now: real): Step
  {
    if key !in f.effects || !f.effects[key].status.Started? || f.effects[key].fence != lease.fence then
      Refuse(f, LeaseLost)
    else
      var effect := f.effects[key].(status := Verdict(succeeded), result := result, updatedAt := now,
                                    error := if error.Some? then Some(Message(error.value)) else None);
      Step(Logged(f.(effects := f.effects[key := effect]), EffectFinished(key, Verdict(succeeded)), now),
           Resolved(effect))
  }

  function DoReconcile(f: RunFile, lease: Lease, key: string, succeeded: bool, evidence: Document,
                       now: real): Step
  {
    if key !in f.effects || !f.effects[key].status.Unknown? then Refuse(f, EffectConflict)
    else
      var effect := f.effects[key].(status := Verdict(succeeded), fence := lease.fence, updatedAt := now,
                                    result := if succeeded then Some(evidence) else None,
                                    error := if succeeded then None else Some(EvidenceNote(evidence)));
      Step(Logged(f.(effects := f.effects[key := effect]),
                  EffectReconciled(key, Verdict(succeeded), evidence), now),
           Resolved(effect))
  }

  // One call

  /** Arguments refused before the transaction opens. */
  predicate BadArguments(write: Write) {
    || (write.Renew? && write.seconds <= 0.0)
    || (write.Reconcile? && write.evidence.EmptyObject?)
  }

  function Perform(f: RunFile, lease: Lease, write: Write, now: real): Step {
    match write
    case Renew(seconds) => DoRenew(f, lease, seconds, now)
    case Transition(target, nextStage, result, error) => DoTransition(f, target, nextStage, result, error, now)
    case Advance(stage, attached) => DoAdvance(f, stage, attached, now)
    case Record(stage, source, environment, payload) => DoRecord(f, stage, source, environment, payload, now)
    case Begin(key, name, request) => DoBegin(f, lease, key, name, request, now)
    case Finish(key, succeeded, result, error) => DoFinish(f, lease, key, succeeded, result, error, now)
    case Reconcile(key, succeeded, evidence) => DoReconcile(f, lease, key, succeeded, evidence, now)
  }

  function DoGuarded(f: RunFile, lease: Lease, write: Write, now: real): Step {
    if BadArguments(write) then Refuse(f, ValueError)
    else if !Live(f.row, lease, now) then Refuse(f, LeaseLost)
    else Perform(f, lease, write, now)
  }

  function Next(f: RunFile, call: Call, now: real): Step {
    match call
    case Claim(owner, seconds) => DoClaim(f, owner, seconds, now)
    case Acquire(owner, seconds) => DoAcquire(f, owner, seconds, now)
    case Guarded(lease, write) => DoGuarded(f, lease, write, now)
    case Elsewhere => Step(f, Skipped)
  }
}

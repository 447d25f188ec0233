/** The records of the run store: run rows, effects, checkpoints, leases and audit events.

    Clock readings are reals and may be anything: the store reads the clock before its
    transaction starts, so commit order and clock order need not agree. SHA-256 is modelled
    by a constructor, which makes it injective.
 */
module Models {

  datatype Option<+T> = None | Some(value: T)

  datatype Result<+T, +E> = Ok(value: T) | Err(error: E)

  datatype RunStatus = Pending | Running | Waiting | Succeeded | Failed | Canceled {
    predicate Terminal() {
      Succeeded? || Failed? || Canceled?
    }

    /** The transition table. */
    function Successors(): set<RunStatus> {
      match this
      case Pending => {Running, Canceled}
      case Running => {Waiting, RunStatus.Succeeded, RunStatus.Failed, Canceled}
      case Waiting => {Running, Canceled}
      case _ => {}
    }
  }

  datatype EffectStatus = Started | Succeeded | Failed | Unknown

  datatype Digest = Sha256(text: string)

  /** A request a side effect is bound to; its canonical JSON is hashed. */
  datatype Request =
    | ApplyRequest(patch: Digest, touchedFiles: seq<string>, policyVersion: string)
    | OtherRequest(canonical: string)

  datatype RequestHash = HashOf(request: Request)

  /** A JSON object handed to the store, which only tells an empty one from a non-empty one. */
  datatype Document =
    | EmptyObject
    | OtherObject(canonical: string)
    | StageEvidence(touchedFiles: seq<string>, additions: nat, deletions: nat, policyVersion: string)
    | AppliedEvidence(source: string, patch: Digest, policyVersion: string,
                      additions: nat, deletions: nat, patchBytes: nat)
    | ReconciledEvidence(source: string)
    | AbsentEvidence
    | VerifyPayload(exitCode: int, acceptanceExit: Option<int>, patch: Digest, patchEvidence: Document)
    | RepairResult(source: string, environment: string, patch: Digest, testExit: int,
                   acceptanceExit: Option<int>, touchedFiles: seq<string>)

  datatype ErrorNote = Message(text: string) | EvidenceNote(evidence: Document)

  datatype TaskSpec = TaskSpec(repoPath: string, baseCommit: string, dependency: string, version: string,
                               testCommand: seq<string>, acceptanceCommand: Option<seq<string>>,
                               maxRounds: nat, tokenBudget: nat)

  datatype RunRow = RunRow(id: string, task: TaskSpec, status: RunStatus, stage: string, revision: nat,
                           fence: nat, owner: Option<string>, expires: Option<real>, attempt: nat,
                           result: Option<Document>, lastError: Option<string>,
                           createdAt: real, updatedAt: real)

  datatype Lease = Lease(runId: string, owner: string, fence: nat, expiresAt: real)

  datatype Effect = Effect(name: string, requestHash: RequestHash, status: EffectStatus, fence: nat,
                           result: Option<Document>, error: Option<ErrorNote>,
                           createdAt: real, updatedAt: real)

  datatype Checkpoint = Checkpoint(runId: string, sequence: nat, stage: string, source: string,
                                   environment: string, payload: Document, createdAt: real)

  datatype EventKind =
    | RunCreated(stage: string)
    | RunClaimed(owner: string, fence: nat, previous: Option<string>)
    | LeaseRecovered(owner: string, fence: nat, previous: Option<string>)
    | LeaseRenewed(owner: string, fence: nat)
    | RunTransitioned(from: RunStatus, to: RunStatus, stage: string, error: Option<string>)
    | StageStarted(stage: string, attached: Option<Document>)
    | CheckpointRecorded(sequence: nat, stage: string)
    | EffectStarted(key: string, name: string)
    | EffectBecameUnknown(key: string, previousFence: nat)
    | EffectFinished(key: string, status: EffectStatus)
    | EffectReconciled(key: string, status: EffectStatus, evidence: Document)

  datatype Event = Event(kind: EventKind, at: real)

  datatype StoreError =
    | KeyError | ValueError | TypeError | IntegrityError
    | LeaseLost | InvalidTransition | ConcurrencyConflict | EffectConflict | NeedsReconciliation
}

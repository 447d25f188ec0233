/** The worktree and `apply_patch`: a patch applied under the effect ledger by one uninterrupted call. */
module Workspace {
  import opened Models
  import opened RunFiles
  import opened ApplyProtocol
  import opened Store
  import opened Paths
  import opened Policy

  datatype ApplyError =
    | PolicyRefused(violation: Violation)
    | StoreRefused(error: StoreError)
    | GitFailed(message: string)
    | MarkedFailed

  type ApplyResult = Result<Document, ApplyError>

  /** What the surroundings answer when asked: whether git applies the patch, its message if not, and
      the fingerprint of the touched files. */
  datatype Surroundings = Surroundings(landed: bool, message: string, fingerprint: string)

  function RequestFor(policy: PatchPolicy, candidate: PatchCandidate, inspection: PatchInspection): Request {
    ApplyRequest(Sha256(candidate.patch), inspection.paths, policy.version)
  }

  function EvidenceFor(policy: PatchPolicy, candidate: PatchCandidate, inspection: PatchInspection,
                       fingerprint: string): Document
  {
    AppliedEvidence(fingerprint, Sha256(candidate.patch), policy.version,
                    inspection.additions, inspection.deletions, inspection.sizeBytes)
  }

  /** A missing or empty result is replaced by a stock answer. */
  function OrElse(result: Option<Document>, stock: string): Document {
    if result.Some? && !result.value.EmptyObject? then result.value else OtherObject(stock)
  }

  datatype Applied = Applied(file: RunFile, tree: seq<Digest>, result: ApplyResult)

  function Answer(outcome: Outcome, otherwise: ApplyResult): ApplyResult {
    if outcome.Rejected? then Err(StoreRefused(outcome.error)) else otherwise
  }

  /** One uninterrupted call of `apply_patch`, from begin to finish or reconcile. */
  function ApplyOnce(f: RunFile, tree: seq<Digest>, lease: Lease, policy: PatchPolicy, candidate: PatchCandidate,
                     key: string, env: Surroundings, t0: real, t1: real): Applied
  {
    match Inspected(policy, candidate)
    case Err(violation) => Applied(f, tree, Err(PolicyRefused(violation)))
    case Ok(inspection) => ApplyInspected(f, tree, lease, policy, candidate, inspection, key, env, t0, t1)
  }

  function ApplyInspected(f: RunFile, tree: seq<Digest>, lease: Lease, policy: PatchPolicy, candidate: PatchCandidate,
                          inspection: PatchInspection, key: string, env: Surroundings, t0: real, t1: real): Applied
  {
    var request := RequestFor(policy, candidate, inspection);
    var begun := Next(f, BeginCall(key, lease, request), t0);
    if begun.outcome.Decided? && begun.outcome.execute then
      RunGit(begun.file, tree, lease, policy, candidate, inspection, key, env, t1)
    else if begun.outcome == Rejected(NeedsReconciliation) then
      Settle(begun.file, tree, lease, request, key, env, t1)
    else
      Applied(begun.file, tree, Told(begun.outcome))
  }

  /** The answer when nothing is left to do after begin. */
  function Told(outcome: Outcome): ApplyResult {
    if outcome.Decided? then Ok(OrElse(outcome.effect.result, "replayed")) else Answer(outcome, Err(MarkedFailed))
  }

  function RunGit(f: RunFile, tree: seq<Digest>, lease: Lease, policy: PatchPolicy, candidate: PatchCandidate,
                  inspection: PatchInspection, key: string, env: Surroundings, t1: real): Applied
  {
    var evidence := EvidenceFor(policy, candidate, inspection, env.fingerprint);
    var finished := Next(f, FinishCall(key, lease, env.landed, evidence, env.message), t1);
    Applied(finished.file, Landed(tree, RequestFor(policy, candidate, inspection), env.landed),
            Answer(finished.outcome, if env.landed then Ok(evidence) else Err(GitFailed(env.message))))
  }

  function Settle(f: RunFile, tree: seq<Digest>, lease: Lease, request: Request, key: string, env: Surroundings,
                  t1: real): Applied
  {
    var present := request.ApplyRequest? && request.patch in tree;
    var settled := Next(f, ReconcileCall(key, lease, present, env.fingerprint), t1);
    var found := if settled.outcome.Resolved? then settled.outcome.effect.result else None;
    Applied(settled.file, tree,
            Answer(settled.outcome, if present then Ok(OrElse(found, "reconciled")) else Err(MarkedFailed)))
  }

  class LocalGitWorkspace {
    /** The patches applied so far; git applies a patch wholly or not at all. */
    var tree: seq<Digest>

    constructor ()
      ensures tree == []
    {
      tree := [];
    }

    method GitApply(candidate: PatchCandidate, env: Surroundings) returns (succeeded: bool)
      modifies this
      ensures succeeded == env.landed
      ensures tree == old(tree) + if env.landed then [Sha256(candidate.patch)] else []
    {
      if env.landed {
        tree := tree + [Sha256(candidate.patch)];
      }
      succeeded := env.landed;
    }

    /** The reverse check: it succeeds exactly when the patch is in the tree. */
    method PatchIsAlreadyApplied(candidate: PatchCandidate) returns (present: bool)
      ensures present <==> Sha256(candidate.patch) in tree
    {
      present := Sha256(candidate.patch) in tree;
    }

    method ApplyPatch(store: SQLiteRunStore, lease: Lease, candidate: PatchCandidate, key: string,
                      policy: PatchPolicy, env: Surroundings, t0: real, t1: real) returns (result: ApplyResult)
      requires store.Valid()
      modifies this, store
      ensures store.Valid() && store.files.Keys == old(store.files.Keys)
      ensures forall id :: id in store.files && id != lease.runId ==> store.files[id] == old(store.files)[id]
      ensures lease.runId in store.files ==>
                Applied(store.files[lease.runId], tree, result) ==
                ApplyOnce(old(store.files)[lease.runId], old(tree), lease, policy, candidate, key, env, t0, t1)
      ensures lease.runId !in store.files ==>
                && store.files == old(store.files) && tree == old(tree)
                && result == match Inspected(policy, candidate)
                             case Ok(_) => Err(StoreRefused(KeyError))
                             case Err(violation) => Err(PolicyRefused(violation))
    {
      hide Inspected, ApplyInspected;
      var inspected := Inspect(policy, candidate);
      if inspected.Err? {
        return Err(PolicyRefused(inspected.error));
      }
      result := ApplyGuarded(store, lease, candidate, inspected.value, key, policy, env, t0, t1);
    }

    /** `apply_patch` once the policy has accepted the candidate. */
    method ApplyGuarded(store: SQLiteRunStore, lease: Lease, candidate: PatchCandidate, inspection: PatchInspection,
                        key: string, policy: PatchPolicy, env: Surroundings, t0: real, t1: real)
      returns (result: ApplyResult)
      requires store.Valid()
      modifies this, store
      ensures store.Valid() && store.files.Keys == old(store.files.Keys)
      ensures forall id :: id in store.files && id != lease.runId ==> store.files[id] == old(store.files)[id]
      ensures lease.runId in store.files ==>
                Applied(store.files[lease.runId], tree, result) ==
                ApplyInspected(old(store.files)[lease.runId], old(tree), lease, policy, candidate, inspection, key,
                               env, t0, t1)
      ensures lease.runId !in store.files ==>
                store.files == old(store.files) && tree == old(tree) && result == Err(StoreRefused(KeyError))
    {
      hide Next, DoBegin, Refusal, RunGit, Settle, SQLiteRunStore.Valid;
      var request := RequestFor(policy, candidate, inspection);
      ghost var before := store.files;
      var begun := store.BeginEffect(lease, key, APPLY_NAME, request, t0);
      if lease.runId in before {
        GuardedIsOneStep(before, store.files, lease, Begin(key, APPLY_NAME, request), t0, begun);
      } else {
        MissingRunsAreRefused(before, lease, t0);
      }
      if begun.Decided? && begun.execute {
        result := ExecutePatch(store, lease, candidate, inspection, key, policy, env, t1);
      } else if begun == Rejected(NeedsReconciliation) {
        result := ReconcilePatch(store, lease, candidate, request, key, env, t1);
      } else {
        result := Told(begun);
      }
    }

    method ExecutePatch(store: SQLiteRunStore, lease: Lease, candidate: PatchCandidate, inspection: PatchInspection,
                        key: string, policy: PatchPolicy, env: Surroundings, t1: real) returns (result: ApplyResult)
      requires store.Valid() && lease.runId in store.files
      modifies this, store
      ensures store.Valid() && store.files.Keys == old(store.files.Keys)
      ensures forall id :: id in store.files && id != lease.runId ==> store.files[id] == old(store.files)[id]
      ensures Applied(store.files[lease.runId], tree, result) ==
              RunGit(old(store.files)[lease.runId], old(tree), lease, policy, candidate, inspection, key, env, t1)
    {
      hide Next, DoFinish, Refusal, SQLiteRunStore.Valid;
      ghost var before := store.files;
      var succeeded := GitApply(candidate, env);
      var evidence := EvidenceFor(policy, candidate, inspection, env.fingerprint);
      var (found, error) := if succeeded then (Some(evidence), None) else (None, Some(env.message));
      var finished := store.FinishEffect(lease, key, succeeded, found, error, t1);
      GuardedIsOneStep(before, store.files, lease, Finish(key, succeeded, found, error), t1, finished);
      result := Answer(finished, if succeeded then Ok(evidence) else Err(GitFailed(env.message)));
    }

    method ReconcilePatch(store: SQLiteRunStore, lease: Lease, candidate: PatchCandidate, request: Request,
                          key: string, env: Surroundings, t1: real) returns (result: ApplyResult)
      requires store.Valid() && lease.runId in store.files
      requires request.ApplyRequest? && request.patch == Sha256(candidate.patch)
      modifies store
      ensures store.Valid() && store.files.Keys == old(store.files.Keys)
      ensures forall id :: id in store.files && id != lease.runId ==> store.files[id] == old(store.files)[id]
      ensures Applied(store.files[lease.runId], tree, result) ==
              Settle(old(store.files)[lease.runId], tree, lease, request, key, env, t1)
    {
      hide Next, DoReconcile, Refusal, SQLiteRunStore.Valid;
      ghost var before := store.files;
      var present := PatchIsAlreadyApplied(candidate);
      var evidence := if present then ReconciledEvidence(env.fingerprint) else AbsentEvidence;
      var settled := store.ReconcileEffect(lease, key, present, evidence, t1);
      GuardedIsOneStep(before, store.files, lease, Reconcile(key, present, evidence), t1, settled);
      var found := if settled.Resolved? then settled.effect.result else None;
      result := Answer(settled, if present then Ok(OrElse(found, "reconciled")) else Err(MarkedFailed));
    }
  }
}

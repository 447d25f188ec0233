# UpgradeLab verification model

UpgradeLab repairs a repository after a dependency upgrade. Workers take leases on runs kept in a
SQLite store, a pipeline reproduces the failure, asks a repairer for a patch, applies it with `git
apply` under an idempotent effect ledger, reruns the tests and records evidence. Workers crash, leases
expire and are taken over, and clocks disagree. This project models that machinery in Dafny and proves
what it keeps over every run. `dafny verify dfyconfig.toml` checks all of it.

## How the model is built

**One run as a state machine.** `RunFiles` gives the effect of one committed store call on one run (its
row, its ledger, its checkpoints, its event log) as a function of the state it finds and of a clock
reading. The store reads its clock before it opens the transaction, so a reading may be any real
number, in any order. `RunInvariant` and `Audit` hold the invariant: an auditor that replays only the
event log rebuilds the row. `CallEffects` ties what each call leaves behind and when it is refused to its
arguments, field by field. `RunHistory` states what holds over whole histories of calls.

**The store itself.** `Store.SQLiteRunStore` is the class whose methods update the four tables in place.
Each method moves the file of its run exactly as the state machine says and leaves all other runs
alone. `StoreHistory` projects a history of the whole store onto each run, so the run theorems hold of
the store; `ClaimQueue` is the claim order.

**Crashing workers.** `ApplyProtocol` interleaves any number of `apply_patch` calls with crashes,
takeovers and all other store calls, around a worktree that no transaction protects. `git apply` comes
with three hypotheses: it is all or nothing; the reverse check succeeds exactly when the patch is in the
tree; no worker runs it after its fence is superseded. `LateGit` shows that the third one cannot be
dropped, and exactly when it could be: `LateGit.LandingIsHarmlessIff` says when ledger and tree agree in
everything that can follow a late landing. `Workspace` is the imperative `apply_patch`, and `Recovery`
shows that it is a run of the protocol and that two attempts recover an interrupted application.

**Pipelines.** `PipelineProtocol` interleaves pipelines, one per fence, with takeovers, crashes and
outsiders. Outsiders may make every store call but three: they do not record checkpoints, do not declare
success, and do not write the ledger entry of the apply key. `Pipeline` is the imperative `execute`,
proved to be a run of that protocol from any state of the shop; `PipelineTrial` says, from what tests,
repairer, git and clock answer, what it must answer. `PipelineRuns` holds runs that show that
the states spoken of are reached, and that executing each lease once is needed.

**The patch policy.** `PatchText`, `Paths`, `Globs` and `Policy` model the line scanner with Python's
line breaks, the `shlex` automaton, path normalisation and slash-crossing globs. `Markers`, `TextRules` and
`PathRules` say what these mean: which texts are refused, what quoting does, where lines end, which paths
are refused and what is dropped from the others, and when exactly a patch is accepted. `DiffRoundTrip` renders
structured diffs and reads them back. `PatchReader` is a second reader of patches, which shares nothing
with the scanner, knows hunks, renames and copies, and drops the first component of header names, whatever
it is; `PatchExamples` holds accepted patches of which it finds more than was inspected.

**Context and fingerprint.** `Context` and `ContextCandidates` are the greedy, budgeted choice of context
files and where its candidates come from, and `ContextBudget` compares budgets. `Fingerprint` is the byte
stream fed to the digest and a decoder that inverts it.

## What the model shows about the code

- The event log rebuilds status, stage, revision, fence, attempt, owner, last error, times, checkpoint
  count and ledger statuses. It cannot rebuild the lease expiry (`RunInvariant.LogForgetsExpiry`), and it
  says nothing of the task and the result. A retry of a failed effect leaves no event, so the log then
  reads failed while the ledger says started; `RunInvariant.OnlyRetriesMakeTheLogLag` says exactly when.
- The table allows PENDING to become CANCELED, but no call can do it (`RunHistory.PendingRunsOnlyStart`).
- `execute` raises nothing but a lost lease, an unknown run, or an invalid transition on a run that is
  WAITING, and with readings before the expiry it raises that on every run that is WAITING under its lease
  (`Pipeline.RepairPipeline.Execute`, `Pipeline.StuckMeansWaiting`, `PipelineRuns.WaitingIsReachable`); its branch for
  `EffectNeedsReconciliation` is never taken, because `apply_patch` settles that case itself.
- Exactly-once needs a fence on git apply. Without it a late landing is harmless if and only if the effect
  is undecided, the tree is empty, no call under the fence in force is executing and, while the run is not
  finished, none of them is about to write down that the patch is missing (`LateGit.LandingIsHarmlessIff`).
  Two runs that fail: `LateGit.LateGitApplyBreaksAgreement`, where ledger and tree disagree at once, and
  `LateGit.LateLandingBreaksLater`, where they agree at the landing and disagree one act later.
- Justified success needs each lease to be executed once. Two executions of one lease, which
  `acquire_run` hands to its owner again, can leave a SUCCEEDED run whose latest checkpoint reports failing
  tests (`PipelineRuns.SharedLeaseBreaksJustification`).
- The policy reads names otherwise than a reader that strips the first component of header names and reads
  rename and copy lines: it strips only `a/` and `b/`, unquotes as a shell does, and skips those lines.
  `PatchReader.Doubtful` collects the files on which the two may differ. The policy has inspected every
  file that reader finds if and only if the doubtful ones are declared in `touched_files`
  (`PatchReader.EveryFileIsInspectedIff`). Two accepted patches for which it has not:
  `PatchExamples.RenameIsNotInspected` and, without any rename, `PatchExamples.PrefixIsNotInspected`.
- A queue claim split into a read and a conditional update is the atomic claim if and only if the run it
  chose is still first and unwritten at the commit (`SplitClaim.SplitClaimIsAtomicIff`); a run created in
  between with an earlier reading overtakes it (`SplitClaim.OvertakenClaim`).
- The line counts of the policy miss added content that starts with `++` and deleted content that starts
  with `--`; they are exact if and only if there is none (`DiffRoundTrip.InspectedCountsAreExact`).
- The star of a protected pattern crosses slashes, so every `.py` file under a folder named `test_*` is
  protected (`Globs.StarsCrossSlashes`). `benchmarks/**/verifier.py` needs a folder in between:
  `benchmarks/verifier.py` itself is not matched by it (`Globs.DefaultPatternsProtectExactly`).
- A fingerprint tells two workspaces apart exactly when path set, presence or contents differ, provided
  paths have no NUL and no backslash and contents have no NUL and are not the text `<missing>`
  (`Fingerprint.FingerprintsAgreeIff`). The backslash condition, the condition on the text and the one on
  NUL in contents are each needed: `Fingerprint.BackslashCollides`, `Fingerprint.MissingTextCollides`,
  `Fingerprint.NulContentCollides`.
- First-fit selection is not monotone: a larger byte budget can lose files
  (`ContextBudget.LargerBudgetCanLoseFiles`). No larger budget loses a file if and only if whatever is selected after
  a refusal for bytes is an empty file with a slot of its own (`ContextBudget.LargerBudgetsKeepIff`).

## Model

| member | source | states |
|---|---|---|
| PipelineProtocol.SuccessIsJustified | src/upgradelab/pipeline.py:66-181 | In every interleaving of pipelines, takeovers, crashes and outsiders, a SUCCEEDED run has a latest checkpoint with test exit 0, acceptance exit 0 where a command is set, fingerprints, exits and patch equal to the stored result, a SUCCEEDED apply effect bound to that patch, and a tree holding exactly that patch; checkpoint and final transition carry the same fence |
| PipelineProtocol.MakeKeepsInv | src/upgradelab/pipeline.py:58-205 | Every move of a pipeline or an outsider keeps the invariant behind justified success |
| PipelineProtocol.HarmlessCalls | src/upgradelab/store.py:306-373 | A store call that neither records, nor succeeds, nor touches the apply key leaves checkpoints, task and the apply effect alone and cannot make a run SUCCEEDED |
| PipelineProtocol.VerifyKeepsInv | src/upgradelab/pipeline.py:104-142 | A checkpoint is recorded only under the fence in force and names the patch the ledger holds as applied |
| Pipeline.RepairPipeline.Execute | src/upgradelab/pipeline.py:58-181 | One execution of a lease moves store and worktree as some run of the pipeline protocol and leaves other runs alone; it completes only if the head matches, the tests failed before, the candidate is accepted, the tests pass and the acceptance command passes where there is one, and then its answer, the stored result and the latest checkpoint carry exactly these answers and the stages reproduce, repair, apply and verify were started in order; with a live lease and an untouched ledger the first thing that goes wrong decides the message, and it completes if nothing does; its only errors are a lost lease, an unknown run, and a leased run that is not RUNNING; on a run WAITING under its lease it raises an invalid transition and changes nothing |
| Pipeline.RepairPipeline.Fail | src/upgradelab/pipeline.py:183-205 | Failing a run returns FAILED with the message stored as last error, or reports a lost lease or a run that cannot be failed |
| Pipeline.RepairPipeline.RecordAndConclude | src/upgradelab/pipeline.py:105-181 | From the second test run on: a failing test or acceptance exit fails the run with its own message, patch and exits, and otherwise the run completes |
| Pipeline.RepairPipeline.FindCandidate | src/upgradelab/pipeline.py:66-95 | A candidate is found only after a matching head and failing tests, it is the proposal and is accepted, and the apply stage is started with its paths, counts and policy version; otherwise the answer names the first thing that went wrong |
| Pipeline.RepairPipeline.Apply | src/upgradelab/pipeline.py:96-102 | The apply stage moves the world by acts of this one call alone, leaves all pipelines where they are, and returns the evidence the ledger keeps |
| Pipeline.CompletedIsJustified | src/upgradelab/pipeline.py:160-181 | A completed execution returns the evidence that checkpoint, stored result, ledger and tree all bear out |
| Pipeline.StuckMeansWaiting | src/upgradelab/pipeline.py:183-197 | If an execution with a good lease can neither finish nor fail a run, the run is WAITING; `Execute` states the converse |
| PipelineRuns.WaitingIsReachable | src/upgradelab/store.py:306-348 | A WAITING run under an unexpired lease that no pipeline has executed is reached |
| PipelineRuns.SharedLeaseBreaksJustification | src/upgradelab/store.py:242-245 | From any new run and accepted candidate, a lease is reached that its owner can enter again and whose two executions leave a succeeded run that is not justified |
| PipelineRuns.VerifyingIsReachable | src/upgradelab/pipeline.py:66-105 | From any new run and any accepted candidate a pipeline reaches verification under a lease that holds |
| Pipeline.ApplyReturnsTheEvidence | src/upgradelab/workspace.py:135-195 | Whether fresh, replayed or reconciled, the evidence returned is the ledger's, and reconciliation is never left to the caller |
| ApplyProtocol.ExactlyOnce | src/upgradelab/workspace.py:113-195 | Over every run of begin, git apply, finish, crash, expiry, takeover and reconcile: absent or FAILED means the patch is not in the tree, undecided means at most once, SUCCEEDED means exactly once and it is the bound patch |
| ApplyProtocol.DoKeepsInv | src/upgradelab/workspace.py:135-195 | Every act of any worker keeps ledger and tree in agreement and at most one call executing under a fence |
| LateGit.LandingIsHarmlessIff | src/upgradelab/workspace.py:168-195 | For a call whose fence was superseded: ledger and tree agree in every run that follows its landing if and only if the effect is undecided, the tree is empty, no call under the fence in force is executing and, while the run is not finished, none is about to write down that the patch is missing |
| LateGit.LateLandingBreaksLater | src/upgradelab/workspace.py:142-163 | A concrete run in which ledger and tree agree right after a late landing and disagree after the reconcile that follows |
| LateGit.LateGitApplyBreaksAgreement | src/upgradelab/workspace.py:168-176 | A concrete run in which git apply after a takeover would leave a FAILED effect with its patch in the tree |
| ApplyProtocol.OnePatchPerKey | src/upgradelab/store.py:454-490 | Over every run and for any number of takeovers and proposals, all calls that are ever past begin under the key are for one and the same request |
| Recovery.ApplyIsAProtocolRun | src/upgradelab/workspace.py:113-195 | One uninterrupted `apply_patch`, whatever crew is at work, is a series of acts of the protocol by that worker and returns exactly when the protocol's call returns |
| Recovery.TwoAttemptsRecover | src/upgradelab/openrath.py:116-142 | After a takeover of an expired run with an interrupted application, the first attempt returns if the patch had landed and otherwise marks it FAILED, and then the second applies it; the patch ends in the tree exactly once |
| Recovery.FirstCallSettles | src/upgradelab/workspace.py:142-163 | The first call under a newer fence settles an undecided effect by the reverse check and leaves the tree alone |
| Recovery.SecondCallExecutes | src/upgradelab/store.py:515-531 | A call on a FAILED effect executes and succeeds when git does |
| Workspace.LocalGitWorkspace.ApplyPatch | src/upgradelab/workspace.py:113-195 | The new file, tree and result are those of one begin, then git and finish, or reverse check and reconcile, or replay; a refused candidate changes nothing; other runs are untouched |
| CallEffects.FreshApplicationsAreRecorded | src/upgradelab/workspace.py:130-193 | A first application binds digest, inspected paths and policy version, and records and returns fingerprint, digest, version, counts and size, or git's message |
| CallEffects.SettledApplicationsAreNotRepeated | src/upgradelab/workspace.py:165-166 | A succeeded effect is replayed and one bound to another request is refused, both without touching file or tree |
| CallEffects.UndecidedApplicationsAreSettled | src/upgradelab/workspace.py:142-163 | An undecided effect takes the status the tree shows, with the fingerprint or the absence as evidence |
| Workspace.LocalGitWorkspace.ExecutePatch | src/upgradelab/workspace.py:168-195 | Git first, then the ledger: the tree changes even when finishing is refused |
| Workspace.LocalGitWorkspace.ReconcilePatch | src/upgradelab/workspace.py:142-163 | The effect is reconciled with what the reverse check found, and the tree does not change |
| ApplyProtocol.ReverseCheckDecides | src/upgradelab/workspace.py:142-143 | In every reachable state a reverse check finds a bound patch if and only if the tree holds that patch and nothing else, and once the effect is resolved its answer is the effect's status |
| RunHistory.FencesNeverDecrease | src/upgradelab/store.py:268-281 | For any clock readings, the fences of accepted guarded writes never decrease, and no other fence gets in between two writes of one fence |
| RunHistory.StaleWritesBounce | src/upgradelab/store.py:268-281 | Once a higher fence is issued, a write with a lower one is refused and changes nothing |
| RunHistory.FenceHasOneOwner | src/upgradelab/store.py:197-266 | All leases with one fence, re-entrant and renewed ones included, were issued to one owner |
| RunHistory.LeaseIsHonoured | src/upgradelab/store.py:231-304 | Until its expiry is reached a lease cannot be taken over and its writes get past the check; from then on its writes are refused and any claim or acquire takes the running run over with the next fence |
| RunHistory.RenewalsAddTheLength | src/upgradelab/store.py:283-304 | An accepted renewal with reading t and length s returns and stores the expiry t + s, for the same owner and fence |
| RunHistory.GrantsAddTheLength | src/upgradelab/store.py:197-266 | A new grant is the next fence for the caller until its reading plus the length asked for; a live lease is given again to its owner as it stands |
| RunHistory.LeaseLasts | src/upgradelab/store.py:268-304 | From a new grant or renewal with reading t and length s until another renewal or the end of the run: below t + s writes under the lease get past the check and nobody takes the run over, from t + s on they are refused |
| RunHistory.PendingRunsOnlyStart | src/upgradelab/models.py:24-33 | A run leaves PENDING only by a first grant, to RUNNING under fence 1 |
| RunHistory.RevisionNamesTheRow | src/upgradelab/store.py:214-221 | No ABA: the same revision at two points means the same row at all points in between |
| RunHistory.SplitCallRefinesAtomic | src/upgradelab/store.py:251-258 | On its run, a read followed by a conditional update does exactly what the atomic call does at the commit, or nothing |
| SplitClaim.SplitClaimIsAtomicIff | src/upgradelab/store.py:200-229 | On the queue, the same split of a claim equals the atomic claim if and only if the queue still starts with the run that was chosen, unwritten since, or was and is empty; otherwise it changes nothing or grants a claimable run that is not first |
| SplitClaim.OvertakenClaim | src/upgradelab/store.py:203-221 | A concrete history in which the split claim grants another run than the atomic one |
| RunHistory.TerminalRunsStayPut | src/upgradelab/models.py:19-33 | No call changes row, effects, checkpoints or events of a finished run |
| RunHistory.HistoryExtends | src/upgradelab/store.py:132-144 | Logs and checkpoints only grow, fences and revisions never fall, effects keep name, request and creation time, succeeded effects never change |
| RunHistory.ExecutionsAreConserved | src/upgradelab/store.py:488-533 | The execute decisions for a key number its failed resolutions plus one if it is present and not FAILED, even when processes share a re-entrant lease |
| RunHistory.SucceededEffectsReplay | src/upgradelab/store.py:491-492 | A SUCCEEDED effect never changes, is never executed again, and a begin of its key that is not refused replays the same result |
| RunHistory.OneRequestPerKey | src/upgradelab/store.py:483-490 | At most one request is ever handed out for execution under one key |
| RunHistory.UncertainSettlesByReconcile | src/upgradelab/store.py:588-610 | An UNKNOWN effect is settled only by a reconcile under a live lease, which takes the effect over and stores its non-empty evidence as result or as error |
| RunHistory.OrphansSettleByReconcile | src/upgradelab/store.py:493-514 | A STARTED effect of a superseded fence is settled only by way of UNKNOWN and, after that, a reconcile with evidence |
| RunInvariant.NextKeepsInv | src/upgradelab/store.py:178-622 | Every call keeps lease shape, ledger shape (effect fences between 1 and the run's, UNKNOWN strictly below, no error on an undecided effect), numbered checkpoints, and a log whose replay rebuilds the row |
| RunInvariant.NextExtends | src/upgradelab/store.py:178-622 | Every call only extends the file it finds |
| RunInvariant.RefusalsRollBack | src/upgradelab/store.py:58-69 | A refused call changes nothing, except that the refusal to begin an orphaned effect marks it UNKNOWN and logs it |
| RunInvariant.NeverTypeError | src/upgradelab/store.py:242-243 | A RUNNING run always has an expiry, so comparing it never fails |
| Store.SQLiteRunStore.GrantLease | src/upgradelab/store.py:211-229 | The run is granted under the next fence and logged as claimed or recovered; the revision check never fails inside its own transaction |
| RunInvariant.CallsReportEffects | src/upgradelab/store.py:475-531 | A call that changes an effect reports its new status in its one event; the only silent change is a retry of a FAILED effect |
| RunInvariant.OnlyRetriesMakeTheLogLag | src/upgradelab/store.py:515-531 | After a call the log lags behind the ledger if and only if the call was a retry, or the log lagged and the effect did not change |
| RunInvariant.LogForgetsExpiry | src/upgradelab/store.py:222-226 | Two grants that differ only in length leave the same log |
| RunInvariant.SequencesCount | src/upgradelab/store.py:388-390 | Checkpoint sequence numbers count the checkpoints, and the latest checkpoint is the last recorded |
| Audit.EventsFollowTheReplay | src/upgradelab/store.py:132-144 | In an audited log each transition starts from the replayed status by a legal step, the claim from PENDING comes at most once and first with fence 1, and each recovery carries the next fence |
| Audit.GrantsCountFences | src/upgradelab/store.py:213-226 | Fence and attempt both equal the number of claim and recovery events, and a run is PENDING exactly before the first |
| ClaimQueue.DrainIsInOrder | src/upgradelab/store.py:203-210 | Repeated claims at one reading return every run that waits once: runs with an expired lease before new ones, each the older first, and of equal age the smaller id |
| ClaimQueue.DrainIsTheSortedQueue | src/upgradelab/store.py:197-229 | Repeated claims at one reading return every claimable run once, expired RUNNING before PENDING, each ordered by creation time and id, and then nothing |
| StoreHistory.ClaimTakesTheFirstThatWaits | src/upgradelab/store.py:197-229 | When some run waits, the first in that order is leased to the caller under its next fence until the reading plus the length; when none waits nothing happens |
| ClaimQueue.FirstIsUnique | src/upgradelab/store.py:203-210 | The order leaves one first run |
| StoreHistory.DrainRepeatsClaimNext | src/upgradelab/store.py:197-229 | Draining is repeating `claim_next`: each call hands out the head of what is left, and returns nothing exactly when nothing is left |
| StoreHistory.Projection | src/upgradelab/store.py:58-69 | From its creation on, each run sees a history of the whole store as a history of its own |
| StoreHistory.NextKeepsDbInv | src/upgradelab/store.py:178-622 | Every store call keeps the invariant of every run |
| StoreHistory.ClaimsComeFromTheQueue | src/upgradelab/store.py:197-229 | A queue claim grants the first claimable run, or nothing exactly when none is claimable |
| StoreHistory.RunsStartNew | src/upgradelab/store.py:178-188 | A run enters the store PENDING, with one event and an empty ledger |
| CallEffects.TheLeaseIsChecked | src/upgradelab/store.py:268-281 | An unknown run is a key error, and a lease is lost unless it names owner and fence and the expiry is still to come |
| CallEffects.GuardedCallsNeedTheLease | src/upgradelab/store.py:268-281 | Without such a lease every guarded call changes nothing and is refused |
| CallEffects.AcquireGrantsOrReenters | src/upgradelab/store.py:231-266 | Who is granted a new lease, who gets the live one again, and who is refused with what |
| CallEffects.ClaimGrantsWhatWaits | src/upgradelab/store.py:197-229 | A run that waits is granted with every field of its row and its event spelled out |
| CallEffects.CreateStartsARun | src/upgradelab/store.py:178-188 | The id asked for, or the generated one; every field of the new row and its one event |
| CallEffects.RenewMovesTheExpiry | src/upgradelab/store.py:283-304 | Expiry, revision and time of update move, and nothing else |
| CallEffects.AdvanceSetsTheStage | src/upgradelab/store.py:350-373 | The stage asked for is stored and reported with its evidence, unless that is empty |
| CallEffects.TransitionMovesTheRun | src/upgradelab/store.py:306-348 | The moves allowed, and every field of the row after one |
| CallEffects.RecordAppendsACheckpoint | src/upgradelab/store.py:375-421 | The next checkpoint, field by field, and its event |
| CallEffects.BeginDecides | src/upgradelab/store.py:441-536 | The five answers of begin, with the ledger entry and event of each |
| CallEffects.FinishResolves | src/upgradelab/store.py:538-578 | The entry and event of a finished effect, and when finishing is refused |
| CallEffects.ReconcileResolves | src/upgradelab/store.py:580-622 | The entry and event of a reconciled effect, and when reconciling is refused |
| Store.SQLiteRunStore.CreateRun | src/upgradelab/store.py:178-188 | A new run with its creation event, or a refusal when the id is taken |
| Store.SQLiteRunStore.ClaimNext | src/upgradelab/store.py:197-229 | The run granted waits and goes before every other run that waits: an expired lease before a new run, then the older, then the smaller id; a non-positive lease length is refused |
| Store.SQLiteRunStore.AcquireRun | src/upgradelab/store.py:231-266 | Re-enters a live lease of the same owner unchanged, refuses other owners, finished and waiting runs, and otherwise grants the next fence |
| Store.SQLiteRunStore.RequireLease | src/upgradelab/store.py:268-281 | Refuses exactly the unknown runs and the leases that are not live |
| Store.SQLiteRunStore.RenewLease | src/upgradelab/store.py:283-304 | Returns and stores the expiry of reading plus length for the same owner and fence, bumps the revision, which never conflicts, and logs it |
| Store.SQLiteRunStore.TransitionRun | src/upgradelab/store.py:306-348 | Moves a live run along the table, clearing the lease on a terminal status, and logs the step |
| Store.SQLiteRunStore.AdvanceStage | src/upgradelab/store.py:350-373 | Sets the stage of a RUNNING run and logs it |
| Store.SQLiteRunStore.RecordCheckpoint | src/upgradelab/store.py:375-421 | Appends the checkpoint with the next sequence number and logs it |
| Store.SQLiteRunStore.LatestCheckpoint | src/upgradelab/store.py:423-439 | A checkpoint of the run whose sequence number no other one exceeds; none if and only if the run has none |
| Store.SQLiteRunStore.Events | src/upgradelab/store.py:624-637 | The returned log of a run that keeps the invariant replays to that run's row |
| Store.SQLiteRunStore.BeginEffect | src/upgradelab/store.py:441-536 | Inserts, replays, retries, refuses a conflicting request, or asks for reconciliation, leaving an orphan UNKNOWN |
| Store.SQLiteRunStore.FinishEffect | src/upgradelab/store.py:538-578 | Resolves a STARTED effect of the same fence and logs it |
| Store.SQLiteRunStore.ReconcileEffect | src/upgradelab/store.py:580-622 | Resolves an UNKNOWN effect with non-empty evidence, takes it over, and logs it |
| Policy.Inspect | src/upgradelab/policy.py:56-120 | The line-by-line scan and the checks after it accept, refuse and count as the specification does, and within the size limit a patch is refused for a marker if and only if it spells one of the six in any case |
| Policy.MarkersAreRefused | src/upgradelab/policy.py:57-72 | The same for the specification: refused for a marker exactly when some stretch equals one of the six character by character, up to ASCII case |
| Policy.GitBinaryPatchesAreRefused | src/upgradelab/policy.py:62-72 | A patch with git's heading `GIT binary patch` anywhere is refused |
| PathRules.AcceptedIff | src/upgradelab/policy.py:56-120 | A patch is accepted if and only if size, markers, headers, number of files, declared paths and protection are all in order |
| PathRules.AcceptedByDefaultIff | src/upgradelab/policy.py:15-55 | The same for the default policy, with its limits and protected names written out |
| PathRules.AcceptedHeadersAreWellFormed | src/upgradelab/policy.py:79-93 | In an accepted patch every diff header has four fields and every file header at least one, with names that can be normalised |
| Policy.AcceptedPatches | src/upgradelab/policy.py:99-120 | An accepted patch touches 1 to max_files distinct canonical unprotected paths, exactly the declared ones, and is small and textual |
| PatchReader.EveryFileIsInspectedIff | src/upgradelab/policy.py:75-133 | In an accepted newline-only patch, every file found by a separate reader that knows hunks, strips the first component of header names and reads rename and copy lines was inspected if and only if the caller has declared the doubtful ones: those of names that need quoting, those left of header names whose first component is neither `a` nor `b`, and those in rename and copy lines |
| PatchReader.FilesAreInspectedOrDoubtful | src/upgradelab/policy.py:75-133 | Every file such a reader finds outside hunks was inspected or is doubtful |
| PatchReader.DeclaredIsInspected | src/upgradelab/policy.py:111-117 | Of an accepted patch exactly the declared files, under their normal forms, were inspected |
| PatchExamples.RenameIsNotInspected | src/upgradelab/policy.py:78-97 | A pure rename that the default policy accepts and whose target, a protected file, was not inspected |
| PatchExamples.PrefixIsNotInspected | src/upgradelab/policy.py:127-133 | A patch without renames that the default policy accepts and whose header names, stripped of their first component, are a protected file that was not inspected |
| PatchReader.RenderedMovesAreReturnedIff | src/upgradelab/policy.py:78-97 | The paths returned for a rendered diff are all it names if and only if its rename and copy lines name only files on a side of a file diff |
| Policy.NoHeaderPathEscapes | src/upgradelab/policy.py:75-97 | Reading header lines inside hunks, too, loses no path: those in header lines outside hunks, for any hunk sizes and any quoting, were inspected and are unprotected |
| Policy.AcceptedByDefault | src/upgradelab/policy.py:15-55 | Under the default policy an accepted patch touches 1 to 8 files, none of them a test file at any depth or otherwise protected, in at most 200000 bytes |
| Policy.SplitsAgree | src/upgradelab/policy.py:78 | Where the newline is the only break, Python's line splitting and newline splitting agree |
| DiffRoundTrip.RoundTrip | src/upgradelab/policy.py:56-120 | Rendering a structured diff, with or without file headers, and inspecting it returns the paths of its headers in order and the counts of the lines the scanner sees |
| DiffRoundTrip.InspectedCountsAreExact | src/upgradelab/policy.py:94-97 | For any accepted diff, also one with content that looks like a file header, the counts reported are the true ones if and only if no added content starts with `++` and no deleted content with `--`, and never more |
| DiffRoundTrip.DistinctPathsInOrder | src/upgradelab/policy.py:86-88 | File diffs with distinct paths give one path each, in order |
| PathRules.RefusedPaths | src/upgradelab/policy.py:135-145 | Exactly the empty path, absolute paths, paths with a NUL, a backslash or a `..`, paths of nothing but empty and `.` components, and paths under `.git` are refused |
| PathRules.SlashesAndDotsAreDropped | src/upgradelab/policy.py:138-146 | Doubled slashes and `.` components between two parts change nothing |
| PathRules.EndsAreDropped | src/upgradelab/policy.py:138-146 | A `./` in front of a relative path and a slash after a path change nothing |
| PathRules.HeaderNames | src/upgradelab/policy.py:127-133 | One `a/` or `b/` is cut off a header name, nothing else is, and `/dev/null` is no file |
| Paths.CanonicalIsFixed | src/upgradelab/policy.py:135-146 | The fixed points of normalisation are exactly the relative paths without empty, `.` or `..` component, backslash or NUL, whose first component is not `.git` |
| Paths.NormalizeIsCanonical | src/upgradelab/policy.py:135-146 | Normalisation yields only such paths |
| Paths.NormalizeIsIdempotent | src/upgradelab/policy.py:135-146 | Normalising twice changes nothing |
| Globs.DefaultPatternsProtectExactly | src/upgradelab/policy.py:15-38 | The default patterns protect exactly the names given by prefixes, suffixes and fixed files, without patterns |
| Globs.TestFilesAreProtectedAnywhere | src/upgradelab/policy.py:24-34 | In any folders, conftest.py, test_*.py and *_test.py are protected |
| Globs.StarsCrossSlashes | src/upgradelab/policy.py:30-33 | Every name that starts with `test_` and ends with `.py` is protected, slashes included |
| Globs.PatternRules | src/upgradelab/policy.py:124 | What a pattern means from its first character: end, star, question mark, literal |
| PatchText.PlainWordIsAField | src/upgradelab/policy.py:80-92 | Shell-style splitting returns a plain word as one field |
| TextRules.SingleQuotesQuote | src/upgradelab/policy.py:80-92 | Single quotes make one field of any text without them, and left open they are an error |
| TextRules.DoubleQuotesQuote | src/upgradelab/policy.py:80-92 | Double quotes make one field of any text in which quotes and backslashes are escaped |
| TextRules.OtherBackslashesStay | src/upgradelab/policy.py:80-92 | Inside double quotes a backslash before any other character stands for itself |
| TextRules.BackslashesQuote | src/upgradelab/policy.py:80-92 | A backslash before every character makes one field of any non-empty text |
| TextRules.BlanksSeparate | src/upgradelab/policy.py:80-92 | Spaces, tabs, returns and newlines end a field and are dropped before one |
| TextRules.LinesAndBreaks | src/upgradelab/policy.py:78 | Splitting takes a text apart into lines without breaks and the breaks between them, a return and newline being one break |
| PatchText.SplitUnlines | src/upgradelab/policy.py:78 | Splitting lines joined by newlines gives the lines back |
| Context.Choose | src/upgradelab/context.py:68-85 | The loop with its early continues computes the greedy choice |
| Context.ChosenIsSound | src/upgradelab/context.py:68-85 | The total is exact and within budget, nothing is excluded or repeated, and `truncated` holds if and only if a distinct non-excluded candidate was left out |
| Context.SelectedIff | src/upgradelab/context.py:72-83 | A path is selected if and only if it is not excluded and fits beside what was selected before it was first named |
| Context.FilesFollowTheCandidates | src/upgradelab/context.py:72-83 | The selected files are a subsequence of the candidates, each with the reason under which its path was first named |
| Context.SeedsAreSelected | src/upgradelab/context.py:61-66 | When the non-excluded seeds fit the budget, all of them are selected and come first |
| ContextBudget.LargerBudgetsKeepIff | src/upgradelab/context.py:72-83 | No larger byte budget loses a selected file if and only if whatever is selected after a refusal for bytes is an empty file that would have a slot even if nothing had been refused |
| ContextBudget.CompleteSelectionsStay | src/upgradelab/context.py:79-85 | A selection that is not truncated is the selection within every larger budget |
| ContextBudget.LargerBudgetCanLoseFiles | src/upgradelab/context.py:79-81 | A concrete case in which one more byte of budget loses a file |
| ContextCandidates.Select | src/upgradelab/context.py:47-85 | The manifest is the greedy choice from the candidates around the traced seeds, with imports resolved through the module index |
| ContextCandidates.CandidatesAreExplained | src/upgradelab/context.py:61-66 | The candidates are exactly the paths with a true reason: traced, imported by a seed, or importing a seed |
| ContextCandidates.CandidatesInOrder | src/upgradelab/context.py:61-66 | The seeds come first and then, seed by seed, the files it imports before the files that import it |
| ContextCandidates.SeedsAreTheTracedFiles | src/upgradelab/context.py:55-59 | The seeds are the traced workspace files, each once, in the order first named |
| ContextCandidates.Resolve | src/upgradelab/context.py:122-128 | A module resolves to the file of its longest known dotted prefix, and to nothing if and only if no prefix is known |
| ContextCandidates.ResolveImports | src/upgradelab/context.py:107-129 | The result lists exactly the resolved files, in ascending order without repetition |
| ContextCandidates.AncestorsAreHeads | src/upgradelab/context.py:123-125 | Every dotted prefix of a name is one of the candidates the loop tries |
| ContextCandidates.IndexHoldsTheModules | src/upgradelab/context.py:96-105 | A module is indexed if and only if one of the files is its, and then under one of its files |
| ContextCandidates.FilesAreTheirModules | src/upgradelab/context.py:99-104 | A file in folders is the module whose dotted parts are the folders and its name without the suffix; an `__init__` file is the module of its folders, and at the top none |
| ContextCandidates.PackagesResolve | src/upgradelab/context.py:96-129 | An import of a package resolves to its `__init__` file when that is the package's only file, and the file becomes a candidate |
| ContextCandidates.ThePackageIsFound | src/upgradelab/context.py:96-129 | The instance `pkg/__init__.py`, imported by `app.py` |
| ContextCandidates.ModuleIndex | src/upgradelab/context.py:96-105 | The loop over the files builds that index |
| Fingerprint.FileSetFingerprint | src/upgradelab/fingerprints.py:17-29 | The digest depends only on the set of paths and their contents; the least path that escapes the root is the error |
| Fingerprint.FingerprintsAgreeIff | src/upgradelab/fingerprints.py:21-28 | Between plain workspaces the streams agree if and only if path sets, presence and contents agree |
| Fingerprint.DecodeInvertsTheStream | src/upgradelab/fingerprints.py:21-28 | A decoder reads paths, presence and contents back from the stream |
| Fingerprint.OneFileStream | src/upgradelab/fingerprints.py:25-28 | The bytes one path adds: itself, a NUL, its content or `<missing>`, a NUL |
| Fingerprint.TwoFilesStream | src/upgradelab/fingerprints.py:21 | Of two paths the one first in code point order adds its part first |
| Fingerprint.BackslashIsASlash | src/upgradelab/fingerprints.py:25 | A backslash in a path counts as a slash |
| Fingerprint.BackslashCollides | src/upgradelab/fingerprints.py:25 | A path with a backslash has the fingerprint of the path with slashes |
| Fingerprint.MissingTextCollides | src/upgradelab/fingerprints.py:27 | A file that reads `<missing>` has the fingerprint of a missing file |
| Fingerprint.NulContentCollides | src/upgradelab/fingerprints.py:26-28 | A file with NULs in it can have the fingerprint of two files |
| Fingerprint.EncodingIsUtf8 | src/upgradelab/fingerprints.py:25 | The encoding is UTF-8, byte by byte |
| Fingerprint.Utf8IsInjective | src/upgradelab/fingerprints.py:25 | The encoding of paths loses nothing |
| Fingerprint.Utf8SizeIsTheLength | src/upgradelab/policy.py:57 | The size the policy checks is the number of bytes of the encoding |

## Left out

- SQLite itself (WAL, busy timeouts, schema): a transaction is one atomic step that rolls back on error.
- SHA-256 and canonical JSON: hashing is an injective constructor; JSON documents are kept as structured values.
- Floating point: times and lease lengths are reals.
- The global event sequence across runs: the events table is indexed by run, so only each run's own order is kept.
- Rereading the row after `transition` and `advance_stage` in a second connection: the returned row is the committed one.
- Resolving symlinks in `_validate_paths`: after an accepted inspection the paths are taken to stay inside the workspace.
- Bytecode invalidation and its flag in the evidence, captured output, error details after the exception name, and the context part of the stage evidence.
- The reverse check itself (`git apply --reverse --check`): that it succeeds exactly when the patch is in the tree is a hypothesis.
- The worktree beyond patches: it is the list of patches applied under the key, under the three hypotheses on git.
- An exception between git apply and the ledger write inside one process: the crash protocol has it as a worker that leaves; the imperative `ApplyPatch` does not.
- Pipeline.RepairPipeline.Execute: takes the answers of tests, repairer, git, acceptance and fingerprints as inputs; a test command that itself raises is a move of the protocol but not a branch of the method.
- PatchReader.EveryFileIsInspectedIff: the reader takes quoted names as they stand, without unquoting them; all such names count as doubtful.
- Character classes in glob patterns: the default patterns have none.
- Lower-casing beyond ASCII in the forbidden-marker check (no marker is spelled with such letters), and surrogates in text.
- `TaskSpec` validation and dictionary conversion.
- Walking the filesystem, parsing Python, matching tracebacks and reading sizes: inputs of the context model. The order in which a set of files is iterated is an input too.
- Liveness of WAITING runs and of pipelines after a crash: the code promises neither.
- The OpenRath adapter beyond its apply retry, the CLI, the report, the benchmark harness and the subprocess repairer.

/** One execution of a lease as a reader of the tests, the patch and the clock sees it: what the outside
    world answers, and what the execution must then answer. */
module PipelineTrial {
  import opened Models
  import opened RunFiles
  import opened Paths
  import opened Policy
  import opened Workspace
  import opened PipelineProtocol

  datatype Trouble =
    | StoreRaised(error: StoreError)
    | PolicyRaised(violation: Violation)
    | RuntimeRaised(message: string)
    | RepairerRaised

  /** What the outside world answers during one execution. */
  datatype Trial = Trial(head: string, reproduceExit: int, proposal: Option<PatchCandidate>, surroundings: Surroundings,
                         testExit: int, acceptanceExit: int, source: string, environment: string, clock: Clock)

  datatype Clock = Clock(reproduce: real, repair: real, apply: real, begin: real, settle: real, verify: real,
                         record: real, conclude: real, fail: real, failAgain: real)

  datatype PipelineResult = PipelineResult(runId: string, status: RunStatus, patch: Option<string>,
                                           verification: Option<int>, acceptance: Option<int>,
                                           evidence: Result<Document, string>)

  type Answered = Result<PipelineResult, Trouble>

  /** The exceptions `execute` lets through; it fails the run on all others. */
  predicate Escapes(trouble: Trouble) {
    trouble.StoreRaised? && (trouble.error.LeaseLost? || trouble.error.NeedsReconciliation?)
  }

  function Describe(trouble: Trouble): string {
    match trouble
    case StoreRaised(error) => ErrorText(error)
    case PolicyRaised(_) => "PatchPolicyViolation"
    case RuntimeRaised(message) => "RuntimeError: " + message
    case RepairerRaised => "Exception"
  }

  /** The lease is live until it expires, and the run has not begun to apply a patch. */
  predicate Fresh(f: RunFile, lease: Lease) {
    Holding(f, lease) && APPLY_KEY !in f.effects
  }

  predicate Holding(f: RunFile, lease: Lease) {
    && f.row.status.Running? && f.row.owner == Some(lease.owner) && f.row.fence == lease.fence
    && f.row.expires == Some(lease.expiresAt)
  }

  /** All readings are before the lease expires. */
  predicate InLease(clock: Clock, lease: Lease) {
    && clock.reproduce < lease.expiresAt && clock.repair < lease.expiresAt && clock.apply < lease.expiresAt
    && clock.begin < lease.expiresAt && clock.settle < lease.expiresAt && clock.verify < lease.expiresAt
    && clock.record < lease.expiresAt && clock.conclude < lease.expiresAt
    && clock.fail < lease.expiresAt && clock.failAgain < lease.expiresAt
  }

  datatype Verdict =
    | Completed
    | FailedWith(message: string, patch: Option<string>, verification: Option<int>, acceptance: Option<int>)

  /** The first thing that goes wrong in a trial, if anything does. */
  ghost function FirstFailure(task: TaskSpec, policy: PatchPolicy, trial: Trial): Verdict {
    if trial.head != task.baseCommit then
      FailedWith("workspace HEAD differs from task base_commit", None, None, None)
    else if trial.reproduceExit == 0 then FailedWith("upgrade task is not reproducibly failing", None, None, None)
    else if trial.proposal.None? then FailedWith("Exception", None, None, None)
    else if Inspected(policy, trial.proposal.value).Err? then FailedWith("PatchPolicyViolation", None, None, None)
    else AppliedVerdict(task, trial.proposal.value, trial)
  }

  /** What is left to go wrong once the candidate is accepted. */
  function AppliedVerdict(task: TaskSpec, candidate: PatchCandidate, trial: Trial): Verdict {
    if !trial.surroundings.landed then FailedWith("RuntimeError: " + trial.surroundings.message, None, None, None)
    else VerifyVerdict(task, candidate, trial)
  }

  /** What is left to go wrong once the patch is applied. */
  function VerifyVerdict(task: TaskSpec, candidate: PatchCandidate, trial: Trial): Verdict {
    if trial.testExit != 0 then
      FailedWith("candidate failed verification", Some(candidate.patch), Some(trial.testExit), None)
    else if task.acceptanceCommand.Some? && trial.acceptanceExit != 0 then
      FailedWith("candidate failed independent acceptance", Some(candidate.patch), Some(0), Some(trial.acceptanceExit))
    else Completed
  }

  predicate Completes(answer: Answered) {
    answer.Ok? && answer.value.evidence.Ok?
  }

  predicate Meets(answer: Answered, verdict: Verdict) {
    answer.Ok? &&
    match verdict
    case Completed => answer.value.evidence.Ok?
    case FailedWith(message, patch, verification, acceptance) =>
      && answer.value.evidence == Err(message) && answer.value.patch == patch
      && answer.value.verification == verification && answer.value.acceptance == acceptance
  }

  /** The answer meets the verdict, or is an exception on its way to a failure that does. */
  predicate WillMeet(answer: Answered, verdict: Verdict, f: RunFile, lease: Lease) {
    || Meets(answer, verdict)
    || (&& answer.Err? && !Escapes(answer.error) && Holding(f, lease)
        && verdict == FailedWith(Describe(answer.error), None, None, None))
  }

  /** The stages an event log reports as started, in order. */
  function StagesStarted(log: seq<Event>): seq<string> {
    if log == [] then []
    else StagesStarted(log[..|log| - 1]) +
         match log[|log| - 1].kind
         case StageStarted(stage, _) => [stage]
         case _ => []
  }

  /** An execution completes only if everything the outside world answered is what a repair hopes for, and
      then its answer, the stored result and the latest checkpoint all carry those answers. */
  ghost predicate CompletedAsTold(answer: Answered, f: RunFile, task: TaskSpec, policy: PatchPolicy, trial: Trial) {
    Completes(answer) ==>
      && trial.head == task.baseCommit && trial.reproduceExit != 0
      && trial.proposal.Some? && Inspected(policy, trial.proposal.value).Ok?
      && trial.testExit == 0 && (task.acceptanceCommand.Some? ==> trial.acceptanceExit == 0)
      && CarriesTheTrial(answer, f, trial.proposal.value, task, trial)
  }

  ghost predicate CarriesTheTrial(answer: Answered, f: RunFile, candidate: PatchCandidate, task: TaskSpec, trial: Trial)
    requires Completes(answer)
  {
    var accepted := if task.acceptanceCommand.Some? then Some(trial.acceptanceExit) else None;
    && answer.value.patch == Some(candidate.patch) && answer.value.verification == Some(trial.testExit)
    && answer.value.acceptance == accepted
    && answer.value.evidence == Ok(RepairResult(trial.source, trial.environment, Sha256(candidate.patch),
                                                trial.testExit, accepted, candidate.touchedFiles))
    && f.row.result == Some(answer.value.evidence.value)
    && |f.checkpoints| > 0 && ReportsTheTrial(Last(f), trial, candidate, accepted)
  }

  predicate ReportsTheTrial(checkpoint: Checkpoint, trial: Trial, candidate: PatchCandidate, accepted: Option<int>) {
    && checkpoint.stage == "verify" && checkpoint.source == trial.source
    && checkpoint.environment == trial.environment && checkpoint.payload.VerifyPayload?
    && checkpoint.payload.exitCode == trial.testExit && checkpoint.payload.acceptanceExit == accepted
    && checkpoint.payload.patch == Sha256(candidate.patch)
  }
}

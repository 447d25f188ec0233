/** The repair pipeline: one uninterrupted execution of a lease, proved to be a run of the pipeline
    protocol, whatever tests, repairer and git answer and whatever else goes on in the shop. */
module Pipeline {
  import opened Models
  import opened RunFiles
  import opened RunInvariant
  import opened ApplyProtocol
  import opened ClaimQueue
  import opened Store
  import opened Paths
  import opened Policy
  import opened Workspace
  import opened Recovery
  import opened PipelineProtocol
  import opened PipelineTrial

  function TroubleOf(error: ApplyError): Trouble {
    match error
    case PolicyRefused(violation) => PolicyRaised(violation)
    case StoreRefused(error) => StoreRaised(error)
    case GitFailed(message) => RuntimeRaised(message)
    case MarkedFailed => RuntimeRaised("interrupted patch was not applied; effect marked failed")
  }

  function TroubleIn(outcome: Outcome): Option<Trouble> {
    if outcome.Rejected? then Some(StoreRaised(outcome.error)) else None
  }

  /** The exit code of the acceptance command, when it is run at all. */
  function AcceptanceOf(task: TaskSpec, trial: Trial): Option<int> {
    if trial.testExit == 0 && task.acceptanceCommand.Some? then Some(trial.acceptanceExit) else None
  }

  function ReportOf(task: TaskSpec, trial: Trial): Report {
    Report(trial.testExit, AcceptanceOf(task, trial), trial.source, trial.environment)
  }

  function EvidenceOf(candidate: PatchCandidate, report: Report): Document {
    RepairResult(report.source, report.environment, Sha256(candidate.patch), report.testExit, report.acceptanceExit,
                 candidate.touchedFiles)
  }

  /** What a returned result says about the run's file. */
  ghost predicate Truthful(result: PipelineResult, f: RunFile) {
    && result.runId == f.row.id && result.status == f.row.status
    && match result.evidence
       case Ok(evidence) =>
         && f.row.status.Succeeded? && f.row.stage == "complete" && f.row.result == Some(evidence)
         && result.verification == Some(0)
       case Err(message) =>
         f.row.status.Failed? && f.row.stage == "failed" && f.row.lastError == Some(message)
  }

  /** The world moved by acts of this one call. */
  ghost predicate ActsAlone(w: World, v: World, worker: nat, lease: Lease, request: Request) {
    exists acts :: Runs(w, acts, v) && OwnActs(acts, worker, lease, request)
  }

  lemma {:induction false} InnerActs(s: Shop, n: nat, acts: seq<Timed>, v: World)
    requires n in s.pipes && s.pipes[n].Applying? && Runs(s.world, acts, v)
    requires OwnActs(acts, n, s.pipes[n].lease, s.pipes[n].request)
    ensures Reaches(s, s.(world := v))
    decreases |acts|
  {
    hide Do, OwnAct, Reaches, Enabled;
    ReachesItself(s);
    if acts == [] {
      assert s.(world := v) == s;
    } else {
      var (act, now) := (acts[0].act, acts[0].now);
      MoveReaches(s, s, Inner(n, act), now);
      var t := Make(s, Inner(n, act), now);
      InnerActs(t, n, acts[1..], v);
      assert t.(world := v) == s.(world := v);
      ReachesOn(s, t, s.(world := v));
    }
  }

  class RepairPipeline {
    const store: SQLiteRunStore
    const workspace: LocalGitWorkspace
    const policy: PatchPolicy

    constructor (store: SQLiteRunStore, workspace: LocalGitWorkspace, policy: PatchPolicy)
      ensures this.store == store && this.workspace == workspace && this.policy == policy
    {
      this.store, this.workspace, this.policy := store, workspace, policy;
    }

    /** The shop shows the run and the tree as they are, and the pipeline that executes the lease. */
    ghost predicate Shows(s: Shop, lease: Lease)
      reads store, workspace
    {
      && store.Valid() && lease.runId in store.files
      && s.world.file == store.files[lease.runId] && s.world.tree == workspace.tree && s.world.key == APPLY_KEY
      && lease.fence in s.pipes && (!s.pipes[lease.fence].Ended? ==> s.pipes[lease.fence].lease == lease)
    }

    twostate predicate OthersUntouched(runId: string)
      reads store
    {
      && store.files.Keys == old(store.files.Keys)
      && forall id :: id in store.files && id != runId ==> store.files[id] == old(store.files)[id]
    }

    method Advance(lease: Lease, stage: string, evidence: Option<Document>, now: real, ghost s: Shop, ghost next: Pipe)
      returns (trouble: Option<Trouble>, ghost t: Shop)
      requires Shows(s, lease) && (!next.Ended? ==> next.lease == lease)
      modifies store
      ensures Shows(t, lease) && OthersUntouched(lease.runId)
      ensures Asked(s, t, lease, Write.Advance(stage, evidence), next, now, trouble)
    {
      hide Next, DoAdvance, Refusal, SQLiteRunStore.Valid, Ask, Asked;
      ghost var before := store.files;
      ghost var write := Write.Advance(stage, evidence);
      var outcome := store.AdvanceStage(lease, stage, evidence, now);
      GuardedIsOneStep(before, store.files, lease, write, now, outcome);
      AskFollows(before, store.files, s, lease, write, next, now, outcome);
      t := Ask(s, lease.fence, lease, write, next, now);
      trouble := TroubleIn(outcome);
    }

    /** Marks the run failed. */
    method Fail(lease: Lease, message: string, result: PipelineResult, now: real, ghost s: Shop)
      returns (r: Answered, ghost t: Shop)
      requires Shows(s, lease) && !s.pipes[lease.fence].Ended?
      modifies store
      ensures Reaches(s, t) && Shows(t, lease) && OthersUntouched(lease.runId)
      ensures Settled(r, t, lease) && (r.Ok? ==> r.value.evidence == Err(message))
      ensures Parked(s.world.file, lease) && now < s.world.file.row.expires.value ==>
                r == Err(StoreRaised(InvalidTransition)) && t.world.file == s.world.file
      ensures r.Err? ==> r == Err(StoreRaised(LeaseLost)) || StuckWaiting(r, t.world.file)
      ensures Holding(s.world.file, lease) && now < lease.expiresAt ==>
                Meets(r, FailedWith(message, result.patch, result.verification, result.acceptance))
    {
      hide Next, DoTransition, Refusal, SQLiteRunStore.Valid, Reaches, Ask, Go, ErrorText, Describe;
      ghost var before := store.files;
      var outcome := store.TransitionRun(lease, RunStatus.Failed, Some("failed"), None, Some(message), now);
      GuardedIsOneStep(before, store.files, lease, FailWrite(message), now, outcome);
      AskFollows(before, store.files, s, lease, FailWrite(message), Ended, now, outcome);
      FailureStep(s.world.file, lease, message, now);
      FailureReaches(s, lease, message, now);
      t := Ask(s, lease.fence, lease, FailWrite(message), Ended, now);
      match outcome
      case Saved(row) => r := Ok(result.(runId := row.id, status := row.status, evidence := Err(message)));
      case Rejected(error) => r := Err(StoreRaised(error));
      case _ => assert false;
    }

    /** `_execute` up to the repair stage; a final answer when it ends earlier. */
    method ReproduceFailure(lease: Lease, task: TaskSpec, trial: Trial, ghost s: Shop)
      returns (final: Option<Answered>, ghost t: Shop)
      requires Shows(s, lease) && s.pipes[lease.fence] == Starting(lease) && lease.fence !in s.world.crew
      modifies store
      ensures Reaches(s, t) && Shows(t, lease) && OthersUntouched(lease.runId)
      ensures final.None? ==>
                && t.world.file.row.task == s.world.file.row.task
                && t.pipes[lease.fence] == Repairing(lease) && lease.fence !in t.world.crew
      ensures final.Some? ==> Settled(final.value, t, lease)
      ensures final.None? ==>
                && trial.head == task.baseCommit && trial.reproduceExit != 0
                && StagesStarted(t.world.file.log) == StagesStarted(s.world.file.log) + ["reproduce", "repair"]
      ensures Fresh(s.world.file, lease) && InLease(trial.clock, lease) ==>
                if final.None? then Fresh(t.world.file, lease)
                else WillMeet(final.value, FirstFailure(task, policy, trial), t.world.file, lease)
      ensures Parked(s.world.file, lease) && InTime(s.world.file, lease, trial.clock) ==>
                final == Some(Err(StoreRaised(InvalidTransition))) && t.world.file == s.world.file
    {
      hide Next, Ask, Reaches, SQLiteRunStore.Valid, Inspected, ErrorText, Describe, StagesStarted;
      ReachesItself(s);
      t := s;
      var answer: Answered;
      var trouble: Option<Trouble>;
      if trial.head != task.baseCommit {
        answer, t := Fail(lease, "workspace HEAD differs from task base_commit", BLANK, trial.clock.fail, s);
        return Some(answer), t;
      }
      ReproduceReaches(s, t, lease, trial.clock.reproduce);
      trouble, t := Advance(lease, "reproduce", None, trial.clock.reproduce, t, Reproducing(lease));
      if trouble.Some? {
        return Some(Err(trouble.value)), t;
      }
      if trial.reproduceExit == 0 {
        ghost var u := t;
        answer, t := Fail(lease, "upgrade task is not reproducibly failing", BLANK, trial.clock.fail, u);
        ReachesOn(s, u, t);
        return Some(answer), t;
      }
      RepairReaches(s, t, lease, trial.reproduceExit, trial.clock.repair);
      trouble, t := Advance(lease, "repair", None, trial.clock.repair, t, Repairing(lease));
      final := if trouble.Some? then Some(Err(trouble.value)) else None;
    }

    /** `_execute` up to the patch: reproduce the failure, ask for a candidate, inspect it. */
    method FindCandidate(lease: Lease, task: TaskSpec, trial: Trial, ghost s: Shop)
      returns (found: Result<PatchCandidate, Answered>, ghost t: Shop)
      requires Shows(s, lease) && s.pipes[lease.fence] == Starting(lease) && lease.fence !in s.world.crew
      modifies store
      ensures Reaches(s, t) && Shows(t, lease) && OthersUntouched(lease.runId)
      ensures found.Ok? ==>
                && t.world.file.row.task == s.world.file.row.task && Inspected(policy, found.value).Ok?
                && t.pipes[lease.fence] == ApplyingPipe(lease, policy, found.value) && lease.fence !in t.world.crew
      ensures found.Err? ==> Settled(found.error, t, lease)
      ensures found.Ok? ==>
                && trial.head == task.baseCommit && trial.reproduceExit != 0 && trial.proposal == Some(found.value)
                && StagesStarted(t.world.file.log) ==
                   StagesStarted(s.world.file.log) + ["reproduce", "repair", "apply"]
                && TellsTheInspection(t.world.file.log, policy, Inspected(policy, found.value).value)
      ensures Fresh(s.world.file, lease) && InLease(trial.clock, lease) ==>
                if found.Ok? then Fresh(t.world.file, lease)
                else WillMeet(found.error, FirstFailure(task, policy, trial), t.world.file, lease)
      ensures Parked(s.world.file, lease) && InTime(s.world.file, lease, trial.clock) ==>
                found == Err(Err(StoreRaised(InvalidTransition))) && t.world.file == s.world.file
    {
      hide Next, Ask, Reaches, SQLiteRunStore.Valid, Inspected, ErrorText, Describe, StagesStarted, FirstFailure;
      hide Settled, Fresh, WillMeet, TellsTheInspection, ApplyingPipe;
      var final;
      final, t := ReproduceFailure(lease, task, trial, s);
      if final.Some? {
        return Err(final.value), t;
      }
      ghost var u := t;
      found, t := InspectProposal(lease, task, trial, u);
      ReachesOn(s, u, t);
      assert StagesStarted(s.world.file.log) + ["reproduce", "repair"] + ["apply"] ==
             StagesStarted(s.world.file.log) + ["reproduce", "repair", "apply"];
    }

    /** `_execute` from the failing tests to the announced candidate. */
    method InspectProposal(lease: Lease, task: TaskSpec, trial: Trial, ghost s: Shop)
      returns (found: Result<PatchCandidate, Answered>, ghost t: Shop)
      requires Shows(s, lease) && s.pipes[lease.fence] == Repairing(lease) && lease.fence !in s.world.crew
      requires trial.head == task.baseCommit && trial.reproduceExit != 0
      modifies store
      ensures Reaches(s, t) && Shows(t, lease) && OthersUntouched(lease.runId)
      ensures found.Ok? ==>
                && t.world.file.row.task == s.world.file.row.task && Inspected(policy, found.value).Ok?
                && t.pipes[lease.fence] == ApplyingPipe(lease, policy, found.value) && lease.fence !in t.world.crew
      ensures found.Err? ==> Settled(found.error, t, lease)
      ensures found.Ok? ==>
                && trial.proposal == Some(found.value)
                && StagesStarted(t.world.file.log) == StagesStarted(s.world.file.log) + ["apply"]
                && TellsTheInspection(t.world.file.log, policy, Inspected(policy, found.value).value)
      ensures Fresh(s.world.file, lease) && InLease(trial.clock, lease) ==>
                if found.Ok? then Fresh(t.world.file, lease)
                else WillMeet(found.error, FirstFailure(task, policy, trial), t.world.file, lease)
    {
      hide Next, Ask, Reaches, SQLiteRunStore.Valid, Inspected, ErrorText, StagesStarted;
      ReachesItself(s);
      t := s;
      if trial.proposal.None? {
        return Err(Err(RepairerRaised)), t;
      }
      var candidate := trial.proposal.value;
      var inspected := Inspect(policy, candidate);
      if inspected.Err? {
        return Err(Err(PolicyRaised(inspected.error))), t;
      }
      ProposeReaches(s, t, lease, policy, candidate, trial.clock.apply);
      ghost var u := t;
      var trouble;
      trouble, t := Advance(lease, "apply", Some(EvidenceOfStage(policy, inspected.value)), trial.clock.apply, t,
                            ApplyingPipe(lease, policy, candidate));
      found := if trouble.Some? then Err(Err(trouble.value)) else Ok(candidate);
      ApplyStageTells(u.world.file, lease, policy, inspected.value, trial.clock.apply);
    }

    /** `_execute`'s call of `apply_patch`. */
    method Apply(lease: Lease, candidate: PatchCandidate, trial: Trial, ghost s: Shop)
      returns (applied: Result<Document, Trouble>, ghost t: Shop)
      requires Shows(s, lease) && Inspected(policy, candidate).Ok?
      requires s.pipes[lease.fence] == ApplyingPipe(lease, policy, candidate) && lease.fence !in s.world.crew
      modifies store, workspace
      ensures Reaches(s, t) && Shows(t, lease) && OthersUntouched(lease.runId)
      ensures t == s.(world := t.world) && ActsAlone(s.world, t.world, lease.fence, lease, s.pipes[lease.fence].request)
      ensures t.world.file.row.task == s.world.file.row.task
      ensures StagesStarted(t.world.file.log) == StagesStarted(s.world.file.log)
      ensures applied.Ok? ==>
                && lease.fence in t.world.crew && t.world.crew[lease.fence].Returned?
                && applied.value == LedgerEvidence(t.world.file)
      ensures applied != Err(StoreRaised(NeedsReconciliation))
      ensures Fresh(s.world.file, lease) && InLease(trial.clock, lease) ==>
                && Holding(t.world.file, lease)
                && if trial.surroundings.landed then applied.Ok?
                   else applied == Err(RuntimeRaised(trial.surroundings.message))
    {
      hide Next, Reaches, Runs, SQLiteRunStore.Valid, Inspected, ApplyOnce, Landed;
      ghost var worker := lease.fence;
      var r := workspace.ApplyPatch(store, lease, candidate, APPLY_KEY, policy, trial.surroundings,
                                    trial.clock.begin, trial.clock.settle);
      ghost var acts, v := ApplyIsAProtocolRun(s.world, worker, lease, policy, candidate, trial.surroundings,
                                               trial.clock.begin, trial.clock.settle);
      InnerActs(s, worker, acts, v);
      ApplyReturnsTheEvidence(s.world.file, s.world.tree, lease, policy, candidate, trial.surroundings,
                              trial.clock.begin, trial.clock.settle);
      FreshApplies(s.world.file, s.world.tree, lease, policy, candidate, trial);
      ApplyStartsNoStage(s.world.file, s.world.tree, lease, policy, candidate, trial.surroundings,
                         trial.clock.begin, trial.clock.settle);
      t := s.(world := v);
      applied := match r
        case Ok(evidence) => Ok(evidence)
        case Err(error) => Err(TroubleOf(error));
    }

    /** `_execute` from the applied patch to the end. */
    method VerifyAndConclude(lease: Lease, task: TaskSpec, candidate: PatchCandidate, patchEvidence: Document,
                             trial: Trial, ghost s: Shop)
      returns (answer: Answered, ghost t: Shop)
      requires Shows(s, lease) && Inspected(policy, candidate).Ok?
      requires s.pipes[lease.fence] == ApplyingPipe(lease, policy, candidate) && s.world.file.row.task == task
      requires lease.fence in s.world.crew && s.world.crew[lease.fence].Returned?
      requires patchEvidence == LedgerEvidence(s.world.file)
      modifies store
      ensures Reaches(s, t) && Shows(t, lease) && OthersUntouched(lease.runId)
      ensures Concluded(answer, t, lease)
      ensures Completes(answer) ==>
                && trial.testExit == 0 && (task.acceptanceCommand.Some? ==> trial.acceptanceExit == 0)
                && CarriesTheTrial(answer, t.world.file, candidate, task, trial)
                && StagesStarted(t.world.file.log) == StagesStarted(s.world.file.log) + ["verify"]
      ensures Holding(s.world.file, lease) && InLease(trial.clock, lease) ==>
                Meets(answer, VerifyVerdict(task, candidate, trial))
    {
      hide Next, Ask, Reaches, SQLiteRunStore.Valid, Inspected, LedgerEvidence, StagesStarted, CarriesTheTrial;
      ReachesItself(s);
      var trouble: Option<Trouble>;
      AfterApplyReaches(s, s, lease, candidate, trial.clock.verify);
      LedgerEvidenceStays(s.world.file, lease, "verify", trial.clock.verify);
      trouble, t := Advance(lease, "verify", None, trial.clock.verify, s, Verifying(lease, candidate));
      if trouble.Some? {
        return Err(trouble.value), t;
      }
      ghost var u := t;
      answer, t := RecordAndConclude(lease, task, candidate, patchEvidence, trial, u);
      ReachesOn(s, u, t);
    }

    /** `_execute` from the second test run to the end. */
    method RecordAndConclude(lease: Lease, task: TaskSpec, candidate: PatchCandidate, patchEvidence: Document,
                             trial: Trial, ghost s: Shop)
      returns (answer: Answered, ghost t: Shop)
      requires Shows(s, lease) && s.pipes[lease.fence] == Verifying(lease, candidate)
      requires s.world.file.row.task == task && patchEvidence == LedgerEvidence(s.world.file)
      modifies store
      ensures Reaches(s, t) && Shows(t, lease) && OthersUntouched(lease.runId)
      ensures Concluded(answer, t, lease)
      ensures Completes(answer) ==>
                && trial.testExit == 0 && (task.acceptanceCommand.Some? ==> trial.acceptanceExit == 0)
                && CarriesTheTrial(answer, t.world.file, candidate, task, trial)
                && StagesStarted(t.world.file.log) == StagesStarted(s.world.file.log)
      ensures Holding(s.world.file, lease) && InLease(trial.clock, lease) ==>
                Meets(answer, VerifyVerdict(task, candidate, trial))
    {
      hide Next, Ask, Reaches, SQLiteRunStore.Valid, LedgerEvidence, StagesStarted;
      var trouble: Option<Trouble>;
      var report := ReportOf(task, trial);
      trouble, t := Record(lease, candidate, report, patchEvidence, trial.clock.record, s);
      if trouble.Some? {
        return Err(trouble.value), t;
      }
      ghost var u := t;
      answer, t := Conclude(lease, candidate, report, trial.clock, u);
      ReachesOn(s, u, t);
    }

    method Record(lease: Lease, candidate: PatchCandidate, report: Report, patchEvidence: Document, now: real,
                  ghost s: Shop)
      returns (trouble: Option<Trouble>, ghost t: Shop)
      requires Shows(s, lease) && s.pipes[lease.fence] == Verifying(lease, candidate)
      requires Can(s, Verify(lease.fence, report)) && patchEvidence == LedgerEvidence(s.world.file)
      modifies store
      ensures Reaches(s, t) && Shows(t, lease) && OthersUntouched(lease.runId)
      ensures trouble.None? ==> t.pipes[lease.fence] == Pipe.Recorded(lease, candidate, report)
      ensures trouble.Some? && !Escapes(trouble.value) ==> !t.pipes[lease.fence].Ended?
      ensures trouble != Some(StoreRaised(NeedsReconciliation))
      ensures Holding(s.world.file, lease) && now < lease.expiresAt ==> trouble.None? && Holding(t.world.file, lease)
      ensures trouble.None? ==>
                && RecordedLast(t.world.file, candidate, report)
                && StagesStarted(t.world.file.log) == StagesStarted(s.world.file.log)
    {
      hide Next, DoRecord, Ask, Refusal, Reaches, SQLiteRunStore.Valid, LedgerEvidence;
      ghost var before := store.files;
      var payload := VerifyPayload(report.testExit, report.acceptanceExit, Sha256(candidate.patch), patchEvidence);
      ghost var write := RecordWrite(s.world.file, candidate, report);
      var outcome := store.RecordCheckpoint(lease, "verify", report.source, report.environment, payload, now);
      GuardedIsOneStep(before, store.files, lease, write, now, outcome);
      ghost var next := Pipe.Recorded(lease, candidate, report);
      AskFollows(before, store.files, s, lease, write, next, now, outcome);
      HoldingRecord(s.world.file, lease, candidate, report, now);
      RecordAddsTheReport(s.world.file, lease, candidate, report, now);
      t := RecordReaches(s, lease, candidate, report, now);
      trouble := TroubleIn(outcome);
    }

    method Conclude(lease: Lease, candidate: PatchCandidate, report: Report, clock: Clock, ghost s: Shop)
      returns (answer: Answered, ghost t: Shop)
      requires Shows(s, lease) && s.pipes[lease.fence] == Pipe.Recorded(lease, candidate, report)
      modifies store
      ensures Reaches(s, t) && Shows(t, lease) && OthersUntouched(lease.runId)
      ensures Concluded(answer, t, lease)
      ensures Completes(answer) ==> Passed(report) && Carries(answer, s.world.file, t.world.file, candidate, report)
      ensures Holding(s.world.file, lease) && InLease(clock, lease) ==>
                Meets(answer, ReportVerdict(candidate, report))
    {
      hide Next, DoTransition, Ask, Asked, Refusal, Reaches, SQLiteRunStore.Valid;
      ReachesItself(s);
      var result := PipelineResult("", Pending, Some(candidate.patch), Some(report.testExit), report.acceptanceExit,
                                   Err(""));
      if report.testExit != 0 {
        answer, t := Fail(lease, "candidate failed verification", result, clock.fail, s);
        return;
      }
      if report.acceptanceExit.Some? && report.acceptanceExit.value != 0 {
        answer, t := Fail(lease, "candidate failed independent acceptance", result, clock.fail, s);
        return;
      }
      answer, t := Succeed(lease, candidate, report, result, clock.conclude, s);
    }

    method Succeed(lease: Lease, candidate: PatchCandidate, report: Report, result: PipelineResult, now: real,
                   ghost s: Shop)
      returns (answer: Answered, ghost t: Shop)
      requires Shows(s, lease) && s.pipes[lease.fence] == Pipe.Recorded(lease, candidate, report) && Passed(report)
      requires result.verification == Some(report.testExit) && result.patch == Some(candidate.patch)
      requires result.acceptance == report.acceptanceExit
      modifies store
      ensures Reaches(s, t) && Shows(t, lease) && OthersUntouched(lease.runId)
      ensures Concluded(answer, t, lease)
      ensures Completes(answer) ==> Carries(answer, s.world.file, t.world.file, candidate, report)
      ensures Holding(s.world.file, lease) && now < lease.expiresAt ==> Completes(answer)
    {
      hide Next, DoTransition, Ask, Refusal, Reaches, SQLiteRunStore.Valid, ErrorText, Describe;
      ghost var before := store.files;
      var evidence := EvidenceOf(candidate, report);
      var outcome := store.TransitionRun(lease, RunStatus.Succeeded, Some("complete"), Some(evidence), None, now);
      GuardedIsOneStep(before, store.files, lease, SuccessWrite(candidate, report), now, outcome);
      AskFollows(before, store.files, s, lease, SuccessWrite(candidate, report), Ended, now, outcome);
      CompletionStep(s.world.file, lease, candidate, report, now);
      t := ConcludeReaches(s, lease, candidate, report, now);
      match outcome
      case Saved(row) => answer := Ok(result.(runId := row.id, status := row.status, evidence := Ok(evidence)));
      case Rejected(error) => answer := Err(StoreRaised(error));
      case _ => assert false;
    }

    method ExecuteStages(lease: Lease, trial: Trial, ghost s: Shop) returns (answer: Answered, ghost t: Shop)
      requires Shows(s, lease) && s.pipes[lease.fence] == Starting(lease) && lease.fence !in s.world.crew
      modifies store, workspace
      ensures Reaches(s, t) && Shows(t, lease) && OthersUntouched(lease.runId)
      ensures Concluded(answer, t, lease)
      ensures CompletedAsTold(answer, t.world.file, s.world.file.row.task, policy, trial)
      ensures Completes(answer) ==>
                StagesStarted(t.world.file.log) ==
                StagesStarted(s.world.file.log) + ["reproduce", "repair", "apply", "verify"]
      ensures Fresh(s.world.file, lease) && InLease(trial.clock, lease) ==>
                WillMeet(answer, FirstFailure(s.world.file.row.task, policy, trial), t.world.file, lease)
      ensures Parked(s.world.file, lease) && InTime(s.world.file, lease, trial.clock) ==>
                answer == Err(StoreRaised(InvalidTransition)) && t.world.file == s.world.file
    {
      hide Reaches, SQLiteRunStore.Valid, Inspected, Concluded, LedgerEvidence, Truthful, StagesStarted;
      hide CarriesTheTrial, Holding;
      hide ErrorText, SQLiteRunStore.Valid;
      var run := store.GetRun(lease.runId);
      assert run.Saved?;
      var found;
      found, t := FindCandidate(lease, run.row.task, trial, s);
      if found.Err? {
        answer := found.error;
        SettledIsConcluded(answer, t, lease);
        return;
      }
      ghost var u := t;
      answer, t := ApplyAndConclude(lease, run.row.task, found.value, trial, u);
      ReachesOn(s, u, t);
    }

    /** `_execute` from the accepted candidate to the end. */
    method ApplyAndConclude(lease: Lease, task: TaskSpec, candidate: PatchCandidate, trial: Trial, ghost s: Shop)
      returns (answer: Answered, ghost t: Shop)
      requires Shows(s, lease) && Inspected(policy, candidate).Ok? && s.world.file.row.task == task
      requires s.pipes[lease.fence] == ApplyingPipe(lease, policy, candidate) && lease.fence !in s.world.crew
      modifies store, workspace
      ensures Reaches(s, t) && Shows(t, lease) && OthersUntouched(lease.runId)
      ensures Concluded(answer, t, lease)
      ensures Completes(answer) ==>
                && trial.testExit == 0 && (task.acceptanceCommand.Some? ==> trial.acceptanceExit == 0)
                && CarriesTheTrial(answer, t.world.file, candidate, task, trial)
                && StagesStarted(t.world.file.log) == StagesStarted(s.world.file.log) + ["verify"]
      ensures Fresh(s.world.file, lease) && InLease(trial.clock, lease) ==>
                WillMeet(answer, AppliedVerdict(task, candidate, trial), t.world.file, lease)
    {
      hide Reaches, SQLiteRunStore.Valid, Inspected, Concluded, LedgerEvidence, Truthful, StagesStarted;
      hide CarriesTheTrial, Holding, ErrorText;
      var applied;
      applied, t := Apply(lease, candidate, trial, s);
      if applied.Err? {
        answer := Err(applied.error);
        SettledIsConcluded(answer, t, lease);
        return;
      }
      ghost var u := t;
      answer, t := VerifyAndConclude(lease, task, candidate, applied.value, trial, u);
      ReachesOn(s, u, t);
    }

    /** Executes a lease from any state of the shop in which no pipeline has executed it yet. */
    method Execute(lease: Lease, trial: Trial, ghost s: Shop) returns (answer: Answered, ghost t: Shop)
      requires store.Valid()
      requires lease.runId in store.files ==>
                 && s.world.file == store.files[lease.runId] && s.world.tree == workspace.tree
                 && s.world.key == APPLY_KEY && lease.fence !in s.pipes && lease.fence !in s.world.crew
      modifies store, workspace
      ensures store.Valid() && OthersUntouched(lease.runId)
      ensures lease.runId !in store.files ==>
                && store.files == old(store.files) && workspace.tree == old(workspace.tree)
                && answer == Err(StoreRaised(KeyError))
      ensures lease.runId in store.files ==>
                && Reaches(s, t) && t.world.file == store.files[lease.runId] && t.world.tree == workspace.tree
                && (answer.Ok? ==> Truthful(answer.value, t.world.file))
                && (answer.Err? ==> answer == Err(StoreRaised(LeaseLost)) || StuckWaiting(answer, t.world.file))
                && CompletedAsTold(answer, t.world.file, s.world.file.row.task, policy, trial)
                && (Completes(answer) ==>
                      StagesStarted(t.world.file.log) ==
                      StagesStarted(s.world.file.log) + ["reproduce", "repair", "apply", "verify"])
                && (Fresh(s.world.file, lease) && InLease(trial.clock, lease) ==>
                      Meets(answer, FirstFailure(s.world.file.row.task, policy, trial)))
                && (Parked(s.world.file, lease) && InTime(s.world.file, lease, trial.clock) ==>
                      answer == Err(StoreRaised(InvalidTransition)) && t.world.file == s.world.file)
    {
      hide Reaches, Inspected, LedgerEvidence, Truthful, FirstFailure, Fresh, ErrorText, Describe, SQLiteRunStore.Valid;
      t := s;
      var run := store.GetRun(lease.runId);
      if run.Rejected? {
        var refused := store.TransitionRun(lease, RunStatus.Failed, Some("failed"), None, Some("KeyError"),
                                           trial.clock.failAgain);
        assert refused == Rejected(KeyError);
        return Err(StoreRaised(KeyError)), s;
      }
      ghost var u := StartReaches(s, lease);
      answer, t := ExecuteStages(lease, trial, u);
      ReachesOn(s, u, t);
      if answer.Err? && !Escapes(answer.error) {
        u := t;
        answer, t := Fail(lease, Describe(answer.error), BLANK, trial.clock.failAgain, u);
        ReachesOn(s, u, t);
      }
    }
  }

  const BLANK := PipelineResult("", Pending, None, None, None, Err(""))

  lemma StartReaches(s: Shop, lease: Lease) returns (u: Shop)
    requires lease.fence !in s.pipes && lease.fence !in s.world.crew
    ensures Reaches(s, u) && u == s.(pipes := s.pipes[lease.fence := Starting(lease)])
  {
    hide Reaches;
    ReachesItself(s);
    MoveReaches(s, s, Start(lease), 0.0);
    u := Make(s, Start(lease), 0.0);
  }

  /** The one state in which `execute` can neither finish nor fail the run: it is leased but parked. */
  predicate StuckWaiting(answer: Answered, f: RunFile) {
    answer == Err(StoreRaised(InvalidTransition)) && f.row.owner.Some? && !f.row.status.Running?
  }

  /** The run is WAITING under the lease. */
  predicate Parked(f: RunFile, lease: Lease) {
    && f.row.status.Waiting? && f.row.owner == Some(lease.owner) && f.row.fence == lease.fence
    && f.row.expires.Some?
  }

  /** The readings with which an execution meets a parked run are before the expiry. */
  predicate InTime(f: RunFile, lease: Lease, clock: Clock)
    requires Parked(f, lease)
  {
    clock.reproduce < f.row.expires.value && clock.fail < f.row.expires.value && clock.failAgain < f.row.expires.value
  }

  lemma ParkedStep(f: RunFile, lease: Lease, stage: string, evidence: Option<Document>, now: real)
    requires Parked(f, lease) && now < f.row.expires.value
    ensures Next(f, Guarded(lease, Write.Advance(stage, evidence)), now) == Step(f, Rejected(InvalidTransition))
  {
  }

  lemma HoldingStep(f: RunFile, lease: Lease, stage: string, evidence: Option<Document>, now: real)
    requires Holding(f, lease) && now < lease.expiresAt
    ensures var step := Next(f, Guarded(lease, Write.Advance(stage, evidence)), now);
      !step.outcome.Rejected? && Holding(step.file, lease) && step.file.effects == f.effects
  {
  }

  lemma SettledIsConcluded(answer: Answered, t: Shop, lease: Lease)
    requires Settled(answer, t, lease)
    ensures Concluded(answer, t, lease)
  {
  }

  /** A final answer: a truthful result, or an exception after which the run can still be failed. */
  ghost predicate Concluded(answer: Answered, t: Shop, lease: Lease) {
    && lease.fence in t.pipes
    && (answer.Ok? ==> Truthful(answer.value, t.world.file))
    && (answer.Err? && !Escapes(answer.error) ==> !t.pipes[lease.fence].Ended?)
    && answer != Err(StoreRaised(NeedsReconciliation))
  }

  /** `apply_patch` returns what the ledger keeps. */
  lemma ApplyReturnsTheEvidence(f: RunFile, tree: seq<Digest>, lease: Lease, policy: PatchPolicy,
                                candidate: PatchCandidate, env: Surroundings, t0: real, t1: real)
    requires Inspected(policy, candidate).Ok?
    ensures var applied := ApplyOnce(f, tree, lease, policy, candidate, APPLY_KEY, env, t0, t1);
      && applied.file.row.task == f.row.task
      && (applied.result.Ok? ==> applied.result.value == LedgerEvidence(applied.file))
      && applied.result != Err(StoreRefused(NeedsReconciliation))
  {
    hide Inspected, RunGit, Settle, Next, LedgerEvidence;
    var inspection := Inspected(policy, candidate).value;
    var request := RequestFor(policy, candidate, inspection);
    var begun := Next(f, BeginCall(APPLY_KEY, lease, request), t0);
    TasksStay(f, BeginCall(APPLY_KEY, lease, request), t0);
    ToldTheEvidence(f, lease, request, t0);
    GitReturnsTheEvidence(begun.file, tree, lease, policy, candidate, inspection, env, t1);
    SettleReturnsTheEvidence(begun.file, tree, lease, request, env, t1);
  }

  lemma ApplyStartsNoStage(f: RunFile, tree: seq<Digest>, lease: Lease, policy: PatchPolicy,
                           candidate: PatchCandidate, env: Surroundings, t0: real, t1: real)
    requires Inspected(policy, candidate).Ok?
    ensures StagesStarted(ApplyOnce(f, tree, lease, policy, candidate, APPLY_KEY, env, t0, t1).file.log) ==
            StagesStarted(f.log)
  {
    hide Inspected, Next, StagesStarted;
    var inspection := Inspected(policy, candidate).value;
    var request := RequestFor(policy, candidate, inspection);
    var begun := Next(f, BeginCall(APPLY_KEY, lease, request), t0).file;
    var evidence := EvidenceFor(policy, candidate, inspection, env.fingerprint);
    var present := request.ApplyRequest? && request.patch in tree;
    WritesStartStages(f, lease, BeginCall(APPLY_KEY, lease, request).write, t0);
    WritesStartStages(begun, lease, FinishCall(APPLY_KEY, lease, env.landed, evidence, env.message).write, t1);
    WritesStartStages(begun, lease, ReconcileCall(APPLY_KEY, lease, present, env.fingerprint).write, t1);
  }

  lemma ToldTheEvidence(f: RunFile, lease: Lease, request: Request, now: real)
    ensures var begun := Next(f, BeginCall(APPLY_KEY, lease, request), now);
      begun.outcome.Decided? && !begun.outcome.execute ==>
        Told(begun.outcome) == Ok(LedgerEvidence(begun.file))
    ensures var begun := Next(f, BeginCall(APPLY_KEY, lease, request), now);
      !begun.outcome.Decided? ==> Told(begun.outcome).Err?
    ensures var outcome := Next(f, BeginCall(APPLY_KEY, lease, request), now).outcome;
      outcome != Rejected(NeedsReconciliation) ==> Told(outcome) != Err(StoreRefused(NeedsReconciliation))
  {
  }

  lemma GitReturnsTheEvidence(f: RunFile, tree: seq<Digest>, lease: Lease, policy: PatchPolicy,
                              candidate: PatchCandidate, inspection: PatchInspection, env: Surroundings, t1: real)
    ensures var applied := RunGit(f, tree, lease, policy, candidate, inspection, APPLY_KEY, env, t1);
      && applied.file.row.task == f.row.task
      && (applied.result.Ok? ==> applied.result.value == LedgerEvidence(applied.file))
      && applied.result != Err(StoreRefused(NeedsReconciliation))
  {
  }

  lemma SettleReturnsTheEvidence(f: RunFile, tree: seq<Digest>, lease: Lease, request: Request, env: Surroundings,
                                 t1: real)
    ensures var applied := Settle(f, tree, lease, request, APPLY_KEY, env, t1);
      && applied.file.row.task == f.row.task
      && (applied.result.Ok? ==> applied.result.value == LedgerEvidence(applied.file))
      && applied.result != Err(StoreRefused(NeedsReconciliation))
  {
  }

  lemma FreshApplies(f: RunFile, tree: seq<Digest>, lease: Lease, policy: PatchPolicy, candidate: PatchCandidate,
                     trial: Trial)
    requires Inspected(policy, candidate).Ok?
    ensures var (clock, env) := (trial.clock, trial.surroundings);
      var applied := ApplyOnce(f, tree, lease, policy, candidate, APPLY_KEY, env, clock.begin, clock.settle);
      Fresh(f, lease) && clock.begin < lease.expiresAt && clock.settle < lease.expiresAt ==>
        && Holding(applied.file, lease)
        && if env.landed then applied.result.Ok? else applied.result == Err(GitFailed(env.message))
  {
    hide Inspected;
  }

  lemma LedgerEvidenceStays(f: RunFile, lease: Lease, stage: string, now: real)
    ensures LedgerEvidence(Next(f, Guarded(lease, Write.Advance(stage, None)), now).file) == LedgerEvidence(f)
  {
  }

  lemma AfterApplyReaches(s: Shop, t: Shop, lease: Lease, candidate: PatchCandidate, now: real)
    requires Reaches(s, t) && lease.fence in t.pipes && t.pipes[lease.fence].Applying?
    requires t.pipes[lease.fence].lease == lease && t.pipes[lease.fence].candidate == candidate
    requires lease.fence in t.world.crew && t.world.crew[lease.fence].Returned?
    ensures Reaches(s, Ask(t, lease.fence, lease, Write.Advance("verify", None), Verifying(lease, candidate), now))
  {
    hide Reaches, Ask;
    MoveReaches(s, t, AfterApply(lease.fence), now);
  }

  lemma RecordReaches(s: Shop, lease: Lease, candidate: PatchCandidate, report: Report, now: real) returns (t: Shop)
    requires lease.fence in s.pipes && s.pipes[lease.fence] == Verifying(lease, candidate)
    requires Can(s, Verify(lease.fence, report))
    ensures Reaches(s, t)
    ensures var asked := Ask(s, lease.fence, lease, RecordWrite(s.world.file, candidate, report),
                             Pipe.Recorded(lease, candidate, report), now);
      t.world == asked.world && t.pipes == asked.pipes
  {
    hide Reaches, Next;
    ReachesItself(s);
    MoveReaches(s, s, Verify(lease.fence, report), now);
    t := Make(s, Verify(lease.fence, report), now);
  }

  lemma ConcludeReaches(s: Shop, lease: Lease, candidate: PatchCandidate, report: Report, now: real) returns (t: Shop)
    requires lease.fence in s.pipes && s.pipes[lease.fence] == Pipe.Recorded(lease, candidate, report)
    requires Passed(report)
    ensures Reaches(s, t)
    ensures var asked := Ask(s, lease.fence, lease, SuccessWrite(candidate, report), Ended, now);
      t.world == asked.world && t.pipes == asked.pipes
  {
    hide Reaches, Next;
    ReachesItself(s);
    MoveReaches(s, s, Move.Conclude(lease.fence), now);
    t := Make(s, Move.Conclude(lease.fence), now);
  }

  lemma HoldingRecord(f: RunFile, lease: Lease, candidate: PatchCandidate, report: Report, now: real)
    ensures var step := Next(f, Guarded(lease, RecordWrite(f, candidate, report)), now);
      Holding(f, lease) && now < lease.expiresAt ==> !step.outcome.Rejected? && Holding(step.file, lease)
  {
  }

  /** The answer, the stored result and the latest checkpoint carry the report. */
  ghost predicate Carries(answer: Answered, before: RunFile, after: RunFile, candidate: PatchCandidate, report: Report)
    requires Completes(answer)
  {
    && answer.value.patch == Some(candidate.patch) && answer.value.verification == Some(report.testExit)
    && answer.value.acceptance == report.acceptanceExit
    && answer.value.evidence == Ok(RepairResult(report.source, report.environment, Sha256(candidate.patch),
                                                report.testExit, report.acceptanceExit, candidate.touchedFiles))
    && after.row.result == Some(answer.value.evidence.value)
    && after.checkpoints == before.checkpoints && StagesStarted(after.log) == StagesStarted(before.log)
  }

  ghost predicate RecordedLast(f: RunFile, candidate: PatchCandidate, report: Report) {
    && |f.checkpoints| > 0 && Last(f).stage == "verify"
    && Last(f).source == report.source && Last(f).environment == report.environment
    && Last(f).payload.VerifyPayload? && Last(f).payload.exitCode == report.testExit
    && Last(f).payload.acceptanceExit == report.acceptanceExit && Last(f).payload.patch == Sha256(candidate.patch)
  }

  lemma RecordAddsTheReport(f: RunFile, lease: Lease, candidate: PatchCandidate, report: Report, now: real)
    ensures var step := Next(f, Guarded(lease, RecordWrite(f, candidate, report)), now);
      !step.outcome.Rejected? ==> RecordedLast(step.file, candidate, report)
  {
  }

  function ReportVerdict(candidate: PatchCandidate, report: Report): Verdict {
    if report.testExit != 0 then
      FailedWith("candidate failed verification", Some(candidate.patch), Some(report.testExit), report.acceptanceExit)
    else if report.acceptanceExit.Some? && report.acceptanceExit.value != 0 then
      FailedWith("candidate failed independent acceptance", Some(candidate.patch), Some(report.testExit),
                 report.acceptanceExit)
    else Completed
  }

  lemma CompletionStep(f: RunFile, lease: Lease, candidate: PatchCandidate, report: Report, now: real)
    ensures var step := Next(f, Guarded(lease, SuccessWrite(candidate, report)), now);
      if step.outcome.Rejected? then step.file == f && !(Holding(f, lease) && now < lease.expiresAt)
      else
        && step.outcome == Saved(step.file.row)
        && step.file.row.status.Succeeded? && step.file.row.stage == "complete"
        && step.file.row.result == Some(EvidenceOf(candidate, report))
        && step.file.checkpoints == f.checkpoints
  {
  }

  function ApplyingPipe(lease: Lease, policy: PatchPolicy, candidate: PatchCandidate): Pipe
    requires Inspected(policy, candidate).Ok?
  {
    Applying(lease, candidate, RequestFor(policy, candidate, Inspected(policy, candidate).value))
  }

  function EvidenceOfStage(policy: PatchPolicy, inspection: PatchInspection): Document {
    StageEvidence(inspection.paths, inspection.additions, inspection.deletions, policy.version)
  }

  /** A final answer that is not a success: either the run was marked failed, or an exception is on
      its way out and, unless `execute` lets it through, the pipeline can still fail the run. */
  ghost predicate Settled(answer: Answered, t: Shop, lease: Lease) {
    && lease.fence in t.pipes
    && (answer.Ok? ==> answer.value.evidence.Err? && Truthful(answer.value, t.world.file))
    && (answer.Err? && !Escapes(answer.error) ==> !t.pipes[lease.fence].Ended?)
    && answer != Err(StoreRaised(NeedsReconciliation))
  }

  lemma ReproduceReaches(s: Shop, t: Shop, lease: Lease, now: real)
    requires Reaches(s, t) && lease.fence in t.pipes && t.pipes[lease.fence] == Starting(lease)
    ensures Reaches(s, Ask(t, lease.fence, lease, Write.Advance("reproduce", None), Reproducing(lease), now))
  {
    hide Reaches, Ask;
    MoveReaches(s, t, Reproduce(lease.fence, true), now);
  }

  lemma RepairReaches(s: Shop, t: Shop, lease: Lease, exitCode: int, now: real)
    requires Reaches(s, t) && lease.fence in t.pipes && t.pipes[lease.fence] == Reproducing(lease) && exitCode != 0
    ensures Reaches(s, Ask(t, lease.fence, lease, Write.Advance("repair", None), Repairing(lease), now))
  {
    hide Reaches, Ask;
    MoveReaches(s, t, Repair(lease.fence, exitCode), now);
  }

  lemma ProposeReaches(s: Shop, t: Shop, lease: Lease, policy: PatchPolicy, candidate: PatchCandidate, now: real)
    requires Reaches(s, t) && lease.fence in t.pipes && t.pipes[lease.fence] == Repairing(lease)
    requires Inspected(policy, candidate).Ok?
    ensures Reaches(s, Ask(t, lease.fence, lease,
                           Write.Advance("apply", Some(EvidenceOfStage(policy, Inspected(policy, candidate).value))),
                           ApplyingPipe(lease, policy, candidate), now))
  {
    hide Reaches, Ask, Inspected;
    MoveReaches(s, t, Propose(lease.fence, policy, Some(candidate)), now);
  }

  /** A guarded call of the pipeline under `lease`, and the exception it raised, if any. */
  ghost predicate Asked(s: Shop, t: Shop, lease: Lease, write: Write, next: Pipe, now: real, trouble: Option<Trouble>) {
    && lease.fence in s.pipes && t == Ask(s, lease.fence, lease, write, next, now)
    && t.world.file == Next(s.world.file, Guarded(lease, write), now).file
    && t.world.file.row.task == s.world.file.row.task && t.world.crew == s.world.crew
    && trouble == TroubleIn(Next(s.world.file, Guarded(lease, write), now).outcome)
    && (!write.Begin? ==> trouble != Some(StoreRaised(NeedsReconciliation)))
    && (write.Advance? && Holding(s.world.file, lease) && now < lease.expiresAt ==>
          trouble.None? && Holding(t.world.file, lease) && t.world.file.effects == s.world.file.effects)
    && (trouble.None? ==>
          StagesStarted(t.world.file.log) ==
          StagesStarted(s.world.file.log) + if write.Advance? then [write.stage] else [])
    && (write.Advance? && Parked(s.world.file, lease) && now < s.world.file.row.expires.value ==>
          trouble == Some(StoreRaised(InvalidTransition)) && t.world.file == s.world.file)
    && t.pipes[lease.fence] == if trouble.None? then next
                               else if Escapes(trouble.value) then Ended
                               else Failing(lease, Describe(trouble.value))
  }

  lemma AskFollows(before: Db, after: Db, s: Shop, lease: Lease, write: Write, next: Pipe, now: real, outcome: Outcome)
    requires Store.OneStep(before, after, lease.runId, Guarded(lease, write), now, outcome)
    requires s.world.file == before[lease.runId] && lease.fence in s.pipes
    requires !next.Ended? ==> next.lease == lease
    ensures outcome == Next(s.world.file, Guarded(lease, write), now).outcome
    ensures var t := Ask(s, lease.fence, lease, write, next, now);
      && Asked(s, t, lease, write, next, now, TroubleIn(outcome))
      && t.world == s.world.(file := after[lease.runId])
      && lease.fence in t.pipes && (!t.pipes[lease.fence].Ended? ==> t.pipes[lease.fence].lease == lease)
  {
    hide Next;
    TasksStay(s.world.file, Guarded(lease, write), now);
    OnlyBeginsNeedReconciliation(s.world.file, lease, write, now);
    WritesStartStages(s.world.file, lease, write, now);
    if write.Advance? && Parked(s.world.file, lease) && now < s.world.file.row.expires.value {
      ParkedStep(s.world.file, lease, write.stage, write.attached, now);
    }
    if write.Advance? && Holding(s.world.file, lease) && now < lease.expiresAt {
      HoldingStep(s.world.file, lease, write.stage, write.attached, now);
    }
  }

  /** The last event starts the apply stage and tells paths, counts and policy version. */
  predicate TellsTheInspection(log: seq<Event>, policy: PatchPolicy, inspection: PatchInspection) {
    && log != [] && log[|log| - 1].kind.StageStarted? && log[|log| - 1].kind.stage == "apply"
    && log[|log| - 1].kind.attached.Some? && log[|log| - 1].kind.attached.value.StageEvidence?
    && var told := log[|log| - 1].kind.attached.value;
    && told.touchedFiles == inspection.paths && told.additions == inspection.additions
    && told.deletions == inspection.deletions && told.policyVersion == policy.version
  }

  lemma ApplyStageTells(f: RunFile, lease: Lease, policy: PatchPolicy, inspection: PatchInspection, now: real)
    ensures var step := Next(f, Guarded(lease, Write.Advance("apply", Some(EvidenceOfStage(policy, inspection)))), now);
      !step.outcome.Rejected? ==> TellsTheInspection(step.file.log, policy, inspection)
  {
  }

  lemma OneMoreEvent(log: seq<Event>, event: Event)
    ensures StagesStarted(log + [event]) ==
            StagesStarted(log) + if event.kind.StageStarted? then [event.kind.stage] else []
  {
    assert (log + [event])[..|log|] == log;
  }

  lemma WritesStartStages(f: RunFile, lease: Lease, write: Write, now: real)
    ensures var step := Next(f, Guarded(lease, write), now);
      (!write.Advance? || !step.outcome.Rejected? ==>
         StagesStarted(step.file.log) == StagesStarted(f.log) + if write.Advance? then [write.stage] else [])
  {
    hide StagesStarted;
    var g := Next(f, Guarded(lease, write), now).file;
    if g.log != f.log {
      assert g.log == f.log + [g.log[|f.log|]];
      OneMoreEvent(f.log, g.log[|f.log|]);
    }
  }

  lemma OnlyBeginsNeedReconciliation(f: RunFile, lease: Lease, write: Write, now: real)
    ensures !write.Begin? ==> Next(f, Guarded(lease, write), now).outcome != Rejected(NeedsReconciliation)
  {
  }

  lemma FailureReaches(s: Shop, lease: Lease, message: string, now: real)
    requires lease.fence in s.pipes && !s.pipes[lease.fence].Ended? && s.pipes[lease.fence].lease == lease
    ensures Reaches(s, Ask(s, lease.fence, lease, FailWrite(message), Ended, now))
  {
    hide Next, Reaches;
    var n := lease.fence;
    ReachesItself(s);
    MoveReaches(s, s, Raise(n, message), now);
    var raised := Make(s, Raise(n, message), now);
    MoveReaches(s, raised, Move.Fail(n), now);
    assert Make(raised, Move.Fail(n), now).pipes == Ask(s, n, lease, FailWrite(message), Ended, now).pipes;
  }

  lemma TasksStay(f: RunFile, call: Call, now: real)
    ensures Next(f, call, now).file.row.task == f.row.task
  {
  }

  lemma FailureStep(f: RunFile, lease: Lease, message: string, now: real)
    ensures var step := Next(f, Guarded(lease, FailWrite(message)), now);
      if step.outcome.Rejected? then
        && step.file == f && !(Holding(f, lease) && now < lease.expiresAt)
        && (Parked(f, lease) && now < f.row.expires.value ==> step.outcome.error.InvalidTransition?)
        && (step.outcome.error.LeaseLost?
            || (step.outcome.error.InvalidTransition? && f.row.owner.Some? && !f.row.status.Running?))
      else
        && step.outcome == Saved(step.file.row)
        && !(Parked(f, lease) && now < f.row.expires.value)
        && step.file.row.status.Failed? && step.file.row.stage == "failed" && step.file.row.lastError == Some(message)
  {
  }

  /** A completed execution is justified: in any state the shop can reach, the result it returns is the
      one its checkpoint, its ledger and the tree bear out. */
  lemma CompletedIsJustified(s: Shop, t: Shop, result: PipelineResult)
    requires ShopInv(s) && Reaches(s, t) && Truthful(result, t.world.file) && result.evidence.Ok?
    ensures exists candidate, report ::
              JustifiedBy(t.world.file, candidate, report) && result.evidence == Ok(EvidenceOf(candidate, report))
    ensures t.world.tree == [Last(t.world.file).payload.patch]
  {
    hide Reaches, Inv, PipeOk;
    ReachesKeepsInv(s, t);
    var candidate, report :| JustifiedBy(t.world.file, candidate, report);
    assert result.evidence == Ok(EvidenceOf(candidate, report));
  }

  /** The only error besides a lost lease: the run is WAITING, from which no stage can start and which
      cannot be failed. */
  lemma StuckMeansWaiting(s: Shop, t: Shop, answer: Answered)
    requires ShopInv(s) && Reaches(s, t) && StuckWaiting(answer, t.world.file)
    ensures t.world.file.row.status.Waiting?
  {
    hide Reaches, CrewInv, PipeOk, SuccessOk;
    ReachesKeepsInv(s, t);
  }
}

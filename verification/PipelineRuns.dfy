/** Runs of the shop: a parked run, a pipeline that gets as far as verifying, and what two executions of
    one lease do there. */
module PipelineRuns {
  import opened Models
  import opened RunFiles
  import opened RunInvariant
  import opened ApplyProtocol
  import opened Policy
  import opened Workspace
  import opened Recovery
  import opened PipelineProtocol
  import opened PipelineTrial
  import opened Pipeline

  function NewShop(id: string, task: TaskSpec): Shop {
    Shop(World(APPLY_KEY, NewFile(id, task, 0.0), [], map[]), map[], [], None)
  }

  function FirstLease(id: string): Lease {
    Lease(id, "a", 1, 10.0)
  }

  /** The run is leased for the first time, and no pipeline has started. */
  lemma FirstGrant(id: string, task: TaskSpec) returns (s: Shop, t: Shop)
    ensures s == NewShop(id, task) && Opening(s) && Reaches(s, t)
    ensures Fresh(t.world.file, FirstLease(id)) && t.world.file.row.task == task && t.world.key == APPLY_KEY
    ensures t == s.(world := s.world.(file := t.world.file))
  {
    hide Reaches;
    s := NewShop(id, task);
    NewFileInv(id, task, 0.0);
    ReachesItself(s);
    MoveReaches(s, s, Outside(Acquire("a", 10.0)), 0.0);
    t := Make(s, Outside(Acquire("a", 10.0)), 0.0);
  }

  /** A WAITING run under an unexpired lease that no pipeline has executed: the state in which `execute`
      can neither finish nor fail the run. */
  lemma WaitingIsReachable(id: string, task: TaskSpec) returns (s: Shop, t: Shop)
    ensures Opening(s) && Reaches(s, t) && t.world.key == APPLY_KEY
    ensures Parked(t.world.file, FirstLease(id)) && t.world.file.row.expires == Some(10.0)
    ensures 1 !in t.pipes && 1 !in t.world.crew
  {
    hide Reaches;
    var u;
    s, u := FirstGrant(id, task);
    var park := Outside(Guarded(FirstLease(id), Transition(Waiting, None, None, None)));
    MoveReaches(s, u, park, 1.0);
    t := Make(u, park, 1.0);
  }

  /** A stage of the pipeline under a lease that holds. */
  lemma StageGoesOn(t: Shop, lease: Lease, stage: string, evidence: Option<Document>, next: Pipe, now: real)
    returns (u: Shop)
    requires lease.fence in t.pipes && Holding(t.world.file, lease) && now < lease.expiresAt
    ensures u == Ask(t, lease.fence, lease, Write.Advance(stage, evidence), next, now)
    ensures u == t.(world := t.world.(file := u.world.file), pipes := t.pipes[lease.fence := next])
    ensures Holding(u.world.file, lease) && u.world.file.effects == t.world.file.effects
    ensures u.world.file.row.task == t.world.file.row.task
  {
    hide Next;
    HoldingStep(t.world.file, lease, stage, evidence, now);
    TasksStay(t.world.file, Guarded(lease, Write.Advance(stage, evidence)), now);
    u := Ask(t, lease.fence, lease, Write.Advance(stage, evidence), next, now);
  }

  /** From any new run and any candidate that the policy accepts, the shop reaches a pipeline that is about
      to apply the candidate under a lease that holds. */
  lemma ApplyingIsReachable(id: string, task: TaskSpec, policy: PatchPolicy, candidate: PatchCandidate)
    returns (s: Shop, t: Shop)
    requires Inspected(policy, candidate).Ok?
    ensures Opening(s) && Reaches(s, t) && t.world.key == APPLY_KEY && t.world.crew == map[] && t.world.tree == []
    ensures 1 in t.pipes && t.pipes[1] == ApplyingPipe(FirstLease(id), policy, candidate)
    ensures Fresh(t.world.file, FirstLease(id)) && t.world.file.row.task == task
  {
    hide Reaches, Next, Ask, Inspected;
    var lease := FirstLease(id);
    var u0;
    s, u0 := FirstGrant(id, task);
    var u1 := StartReaches(u0, lease);
    ReachesOn(s, u0, u1);
    ReproduceReaches(s, u1, lease, 1.0);
    var u2 := StageGoesOn(u1, lease, "reproduce", None, Reproducing(lease), 1.0);
    RepairReaches(s, u2, lease, 1, 1.0);
    var u3 := StageGoesOn(u2, lease, "repair", None, Repairing(lease), 1.0);
    ProposeReaches(s, u3, lease, policy, candidate, 1.0);
    t := StageGoesOn(u3, lease, "apply", Some(EvidenceOfStage(policy, Inspected(policy, candidate).value)),
                     ApplyingPipe(lease, policy, candidate), 1.0);
  }

  /** ... and then one that verifies it. */
  lemma VerifyingIsReachable(id: string, task: TaskSpec, policy: PatchPolicy, candidate: PatchCandidate)
    returns (s: Shop, t: Shop)
    requires Inspected(policy, candidate).Ok?
    ensures Opening(s) && Reaches(s, t)
    ensures 1 in t.pipes && t.pipes[1] == Verifying(FirstLease(id), candidate)
    ensures Holding(t.world.file, FirstLease(id)) && t.world.file.row.task == task
  {
    hide Reaches, Next, Ask, Inspected, Runs, ApplyOnce;
    var lease := FirstLease(id);
    var u;
    s, u := ApplyingIsReachable(id, task, policy, candidate);
    var clock := Clock(1.0, 1.0, 1.0, 1.0, 1.0, 1.0, 1.0, 1.0, 1.0, 1.0);
    var trial := Trial("", 1, Some(candidate), Surroundings(true, "", ""), 0, 0, "", "", clock);
    var acts, v := ApplyIsAProtocolRun(u.world, 1, lease, policy, candidate, trial.surroundings, 1.0, 1.0);
    InnerActs(u, 1, acts, v);
    FreshApplies(u.world.file, u.world.tree, lease, policy, candidate, trial);
    ApplyReturnsTheEvidence(u.world.file, u.world.tree, lease, policy, candidate, trial.surroundings, 1.0, 1.0);
    var applied := u.(world := v);
    ReachesOn(s, u, applied);
    AfterApplyReaches(s, applied, lease, candidate, 1.0);
    t := StageGoesOn(applied, lease, "verify", None, Verifying(lease, candidate), 1.0);
  }

  // Why each lease is executed once

  /** The file after the checkpoint of one report. */
  function AfterRecord(f: RunFile, lease: Lease, candidate: PatchCandidate, report: Report, now: real): RunFile {
    Next(f, Guarded(lease, RecordWrite(f, candidate, report)), now).file
  }

  /** Two executions that share a lease and both verify: the first one's tests pass, the second one's fail.
      When the second records its checkpoint before the first declares success, the run succeeds with a
      latest checkpoint that reports failing tests. */
  lemma SharedLeaseUnjustified(f: RunFile, lease: Lease, candidate: PatchCandidate, passed: Report, failed: Report,
                               now: real)
    requires Holding(f, lease) && now < lease.expiresAt
    requires Passed(passed) && failed.testExit != 0
    ensures var g := AfterRecord(AfterRecord(f, lease, candidate, passed, now), lease, candidate, failed, now);
      var done := Next(g, Guarded(lease, SuccessWrite(candidate, passed)), now).file;
      done.row.status.Succeeded? && |done.checkpoints| > 0 && Last(done).payload.VerifyPayload?
      && Last(done).payload.exitCode != 0 && !Justified(done)
  {
    var g := AfterRecord(AfterRecord(f, lease, candidate, passed, now), lease, candidate, failed, now);
    var done := Next(g, Guarded(lease, SuccessWrite(candidate, passed)), now).file;
    forall other: PatchCandidate, report: Report
      ensures !JustifiedBy(done, other, report)
    {
    }
  }

  /** One execution per lease is needed. From any new run and any candidate that the policy accepts, the shop
      reaches a verifying pipeline whose lease its owner can enter again under the same fence, and two
      executions of that lease leave a succeeded run that is not justified. */
  lemma SharedLeaseBreaksJustification(id: string, task: TaskSpec, policy: PatchPolicy, candidate: PatchCandidate,
                                       passed: Report, failed: Report)
    returns (s: Shop, t: Shop)
    requires Inspected(policy, candidate).Ok? && Passed(passed) && failed.testExit != 0
    requires passed.acceptanceExit.Some? <==> task.acceptanceCommand.Some?
    requires failed.acceptanceExit.None?
    ensures Opening(s) && Reaches(s, t) && Can(t, Verify(1, passed)) && Can(t, Verify(1, failed))
    ensures t.pipes[1] == Verifying(FirstLease(id), candidate)
    ensures Next(t.world.file, Acquire("a", 10.0), 1.0).outcome.Granted?
            && Next(t.world.file, Acquire("a", 10.0), 1.0).outcome.lease.fence == 1
    ensures var lease := FirstLease(id);
      var g := AfterRecord(AfterRecord(t.world.file, lease, candidate, passed, 1.0), lease, candidate, failed, 1.0);
      var done := Next(g, Guarded(lease, SuccessWrite(candidate, passed)), 1.0).file;
      done.row.status.Succeeded? && !Justified(done)
  {
    hide Reaches, Inspected, Justified, AfterRecord;
    s, t := VerifyingIsReachable(id, task, policy, candidate);
    SharedLeaseUnjustified(t.world.file, FirstLease(id), candidate, passed, failed, 1.0);
  }
}

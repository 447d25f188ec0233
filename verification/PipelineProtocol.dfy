/** Repair pipelines on one run, interleaved with takeovers, crashes and other store calls.

    Each lease is executed by one pipeline, so pipelines are numbered by fence. Test runs, the
    repairer, git and the fingerprints answer anything. Outsiders may make any store call on the run
    except recording a checkpoint, declaring success, or writing the ledger entry of the apply key. */
module PipelineProtocol {
  import opened Models
  import opened RunFiles
  import opened RunInvariant
  import opened ApplyProtocol
  import opened Policy
  import opened Workspace

  const APPLY_KEY := "candidate-1/apply-patch"

  datatype Report = Report(testExit: int, acceptanceExit: Option<int>, source: string, environment: string)

  datatype Pipe =
    | Starting(lease: Lease)
    | Reproducing(lease: Lease)
    | Repairing(lease: Lease)
    | Applying(lease: Lease, candidate: PatchCandidate, request: Request)
    | Verifying(lease: Lease, candidate: PatchCandidate)
    | Recorded(lease: Lease, candidate: PatchCandidate, report: Report)
    | Failing(lease: Lease, message: string)
    | Ended

  /** `writers` lists the fence behind each checkpoint, `finisher` the fence behind the success. */
  datatype Shop = Shop(world: World, pipes: map<nat, Pipe>, writers: seq<nat>, finisher: Option<nat>)

  datatype Move =
    | Outside(call: Call)
    | Start(newLease: Lease)
    | Reproduce(n: nat, headMatches: bool)
    | Repair(n: nat, exitCode: int)
    | Propose(n: nat, policy: PatchPolicy, proposal: Option<PatchCandidate>)
    | Inner(n: nat, act: Act)
    | AfterApply(n: nat)
    | Verify(n: nat, report: Report)
    | Conclude(n: nat)
    | Fail(n: nat)
    | Raise(n: nat, message: string)
    | Die(n: nat)

  predicate Harmless(call: Call) {
    && !Touches(call, APPLY_KEY)
    && (call.Guarded? ==> !call.write.Record? && !(call.write.Transition? && call.write.target.Succeeded?))
  }

  predicate Can(s: Shop, move: Move) {
    match move
    case Outside(call) => Harmless(call) && Enabled(s.world, Other(call))
    case Start(lease) => lease.fence !in s.pipes && lease.fence !in s.world.crew
    case Reproduce(n, _) => n in s.pipes && s.pipes[n].Starting?
    case Repair(n, _) => n in s.pipes && s.pipes[n].Reproducing?
    case Propose(n, _, _) => n in s.pipes && s.pipes[n].Repairing?
    case Inner(n, act) =>
      && n in s.pipes && s.pipes[n].Applying?
      && OwnAct(act, n, s.pipes[n].lease, s.pipes[n].request) && Enabled(s.world, act)
    case AfterApply(n) =>
      && n in s.pipes && s.pipes[n].Applying?
      && n in s.world.crew && (s.world.crew[n].Returned? || s.world.crew[n].Raised?)
    case Verify(n, report) =>
      && n in s.pipes && s.pipes[n].Verifying?
      && (report.acceptanceExit.Some? <==> report.testExit == 0 && s.world.file.row.task.acceptanceCommand.Some?)
    case Conclude(n) => n in s.pipes && s.pipes[n].Recorded?
    case Fail(n) => n in s.pipes && s.pipes[n].Failing?
    case Raise(n, _) => n in s.pipes && !s.pipes[n].Ended?
    case Die(n) => n in s.pipes
  }

  /** A store call made by pipeline n, and where it goes next: on when the call is accepted, to an end
      when its lease is lost, to failing the run on any other error. */
  function Ask(s: Shop, n: nat, lease: Lease, write: Write, next: Pipe, now: real): Shop {
    var step := Next(s.world.file, Guarded(lease, write), now);
    s.(world := s.world.(file := step.file), pipes := s.pipes[n := Go(step.outcome, lease, next)])
  }

  function Go(outcome: Outcome, lease: Lease, next: Pipe): Pipe {
    if !outcome.Rejected? then next
    else if outcome.error.LeaseLost? || outcome.error.NeedsReconciliation? then Ended
    else Failing(lease, ErrorText(outcome.error))
  }

  /** The name of the exception; the detail after the colon is not modelled. */
  function ErrorText(error: StoreError): string {
    match error
    case KeyError => "KeyError"
    case ValueError => "ValueError"
    case TypeError => "TypeError"
    case IntegrityError => "IntegrityError"
    case LeaseLost => "LeaseLost"
    case InvalidTransition => "InvalidTransition"
    case ConcurrencyConflict => "ConcurrencyConflict"
    case EffectConflict => "EffectConflict"
    case NeedsReconciliation => "EffectNeedsReconciliation"
  }

  /** The patch evidence `apply_patch` returns is the result kept in the ledger. */
  function LedgerEvidence(f: RunFile): Document {
    if APPLY_KEY in f.effects then OrElse(f.effects[APPLY_KEY].result, "replayed") else EmptyObject
  }

  function RecordWrite(f: RunFile, candidate: PatchCandidate, report: Report): Write {
    Record("verify", report.source, report.environment,
           VerifyPayload(report.testExit, report.acceptanceExit, Sha256(candidate.patch), LedgerEvidence(f)))
  }

  function SuccessWrite(candidate: PatchCandidate, report: Report): Write {
    Transition(RunStatus.Succeeded, Some("complete"),
               Some(RepairResult(report.source, report.environment, Sha256(candidate.patch), report.testExit,
                                 report.acceptanceExit, candidate.touchedFiles)), None)
  }

  function FailWrite(message: string): Write {
    Transition(RunStatus.Failed, Some("failed"), None, Some(message))
  }

  predicate Passed(report: Report) {
    report.testExit == 0 && (report.acceptanceExit.Some? ==> report.acceptanceExit.value == 0)
  }

  function Make(s: Shop, move: Move, now: real): Shop
    requires Can(s, move)
  {
    match move
    case Outside(call) => s.(world := Do(s.world, Other(call), now))
    case Start(lease) => s.(pipes := s.pipes[lease.fence := Starting(lease)])
    case Reproduce(n, headMatches) =>
      var lease := s.pipes[n].lease;
      if !headMatches then s.(pipes := s.pipes[n := Failing(lease, "workspace HEAD differs from task base_commit")])
      else Ask(s, n, lease, Advance("reproduce", None), Reproducing(lease), now)
    case Repair(n, exitCode) =>
      var lease := s.pipes[n].lease;
      if exitCode == 0 then s.(pipes := s.pipes[n := Failing(lease, "upgrade task is not reproducibly failing")])
      else Ask(s, n, lease, Advance("repair", None), Repairing(lease), now)
    case Propose(n, policy, proposal) =>
      var lease := s.pipes[n].lease;
      if proposal.None? || Inspected(policy, proposal.value).Err?
      then s.(pipes := s.pipes[n := Failing(lease, "no acceptable candidate")])
      else
        var inspection := Inspected(policy, proposal.value).value;
        Ask(s, n, lease,
            Advance("apply", Some(StageEvidence(inspection.paths, inspection.additions, inspection.deletions,
                                                policy.version))),
            Applying(lease, proposal.value, RequestFor(policy, proposal.value, inspection)), now)
    case Inner(n, act) => s.(world := Do(s.world, act, now))
    case AfterApply(n) =>
      var (lease, candidate) := (s.pipes[n].lease, s.pipes[n].candidate);
      if s.world.crew[n].Returned? then Ask(s, n, lease, Advance("verify", None), Verifying(lease, candidate), now)
      else if s.world.crew[n].error.LeaseLost? then s.(pipes := s.pipes[n := Ended])
      else s.(pipes := s.pipes[n := Failing(lease, "patch was not applied")])
    case Verify(n, report) =>
      var (lease, candidate) := (s.pipes[n].lease, s.pipes[n].candidate);
      var write := RecordWrite(s.world.file, candidate, report);
      var asked := Ask(s, n, lease, write, Pipe.Recorded(lease, candidate, report), now);
      if asked.pipes[n].Recorded? then asked.(writers := s.writers + [n]) else asked
    case Conclude(n) =>
      var (lease, candidate, report) := (s.pipes[n].lease, s.pipes[n].candidate, s.pipes[n].report);
      if !Passed(report) then s.(pipes := s.pipes[n := Failing(lease, "candidate failed verification")])
      else
        var asked := Ask(s, n, lease, SuccessWrite(candidate, report), Ended, now);
        if asked.world.file.row.status != s.world.file.row.status then asked.(finisher := Some(n)) else asked
    case Fail(n) =>
      var pipe := s.pipes[n];
      Ask(s, n, pipe.lease, FailWrite(pipe.message), Ended, now)
    case Raise(n, message) => s.(pipes := s.pipes[n := Failing(s.pipes[n].lease, message)])
    case Die(n) => s.(pipes := s.pipes[n := Ended], world := s.world.(crew := s.world.crew - {n}))
  }

  // What success means

  function Last(f: RunFile): Checkpoint
    requires |f.checkpoints| > 0
  {
    f.checkpoints[|f.checkpoints| - 1]
  }

  /** The latest checkpoint records this verification of this candidate, and the ledger holds its patch
      as applied. */
  ghost predicate Verified(f: RunFile, candidate: PatchCandidate, report: Report) {
    && |f.checkpoints| > 0
    && Last(f).stage == "verify" && Last(f).source == report.source && Last(f).environment == report.environment
    && Last(f).payload ==
       VerifyPayload(report.testExit, report.acceptanceExit, Sha256(candidate.patch), LedgerEvidence(f))
    && (report.acceptanceExit.Some? <==> report.testExit == 0 && f.row.task.acceptanceCommand.Some?)
    && AppliedInLedger(f, candidate)
  }

  ghost predicate AppliedInLedger(f: RunFile, candidate: PatchCandidate) {
    && APPLY_KEY in f.effects && f.effects[APPLY_KEY].status.Succeeded?
    && f.effects[APPLY_KEY].requestHash.request.ApplyRequest?
    && f.effects[APPLY_KEY].requestHash.request.patch == Sha256(candidate.patch)
  }

  /** Success is justified: tests passed, acceptance passed when there is one, the stored result says
      what the latest checkpoint says, and the patch it names is the one the ledger says was applied. */
  ghost predicate Justified(f: RunFile) {
    exists candidate: PatchCandidate, report: Report :: JustifiedBy(f, candidate, report)
  }

  ghost predicate JustifiedBy(f: RunFile, candidate: PatchCandidate, report: Report) {
    && Verified(f, candidate, report) && Passed(report)
    && f.row.stage == "complete"
    && f.row.result == Some(RepairResult(report.source, report.environment, Sha256(candidate.patch), report.testExit,
                                         report.acceptanceExit, candidate.touchedFiles))
  }

  // The invariant

  ghost predicate PipeOk(s: Shop, n: nat)
    requires n in s.pipes
  {
    var pipe := s.pipes[n];
    && (pipe.Ended? || pipe.lease.fence == n)
    && (pipe.Starting? || pipe.Reproducing? || pipe.Repairing? ==> n !in s.world.crew)
    && (pipe.Applying? && n in s.world.crew && !s.world.crew[n].Raised? ==> s.world.crew[n].request == pipe.request)
    && (pipe.Applying? ==> pipe.request.ApplyRequest? && pipe.request.patch == Sha256(pipe.candidate.patch))
    && (pipe.Verifying? || pipe.Recorded? ==> AppliedInLedger(s.world.file, pipe.candidate))
    && (pipe.Recorded? ==> n <= s.world.file.row.fence)
    && (pipe.Recorded? && n == s.world.file.row.fence ==>
          Verified(s.world.file, pipe.candidate, pipe.report) && |s.writers| > 0 && s.writers[|s.writers| - 1] == n)
  }

  ghost predicate SuccessOk(s: Shop) {
    s.world.file.row.status.Succeeded? ==>
      && Justified(s.world.file)
      && s.finisher == Some(s.world.file.row.fence)
      && |s.writers| > 0 && s.writers[|s.writers| - 1] == s.world.file.row.fence
  }

  ghost predicate ShopInv(s: Shop) {
    && s.world.key == APPLY_KEY && WorldInv(s.world)
    && |s.writers| == |s.world.file.checkpoints|
    && (forall n :: n in s.pipes ==> PipeOk(s, n))
    && SuccessOk(s)
  }

  ghost predicate Opening(s: Shop) {
    && Initial(s.world) && s.world.key == APPLY_KEY
    && s.pipes == map[] && s.writers == [] && s.finisher == None
    && s.world.file.checkpoints == [] && !s.world.file.row.status.Terminal()
  }

  /** What is verified stays verified while no checkpoint is added. */
  lemma VerifiedStays(f: RunFile, g: RunFile, candidate: PatchCandidate, report: Report)
    requires Extends(f, g)
    ensures AppliedInLedger(f, candidate) ==> AppliedInLedger(g, candidate)
    ensures Verified(f, candidate, report) && g.checkpoints == f.checkpoints ==> Verified(g, candidate, report)
  {
  }

  predicate OwnRequest(s: Shop, n: nat)
    requires n in s.pipes
  {
    s.pipes[n].Applying? && n in s.world.crew && !s.world.crew[n].Raised? ==>
      s.world.crew[n].request == s.pipes[n].request
  }

  /** What a store call that neither records, nor succeeds, nor touches the apply key leaves alone; on a
      succeeded run it changes nothing at all. */
  lemma HarmlessCalls(f: RunFile, call: Call, now: real)
    requires Inv(f) && Harmless(call)
    ensures var g := Next(f, call, now).file;
      && g.checkpoints == f.checkpoints && g.row.task == f.row.task && f.row.fence <= g.row.fence
      && (APPLY_KEY in g.effects <==> APPLY_KEY in f.effects)
      && (APPLY_KEY in f.effects ==> g.effects[APPLY_KEY] == f.effects[APPLY_KEY])
      && (g.row.status.Succeeded? ==> g == f)
  {
    hide Next, Inv;
    NextExtends(f, call, now);
    OnlyRecordsRecord(f, call, now);
    OtherCallsLeaveTheEffect(f, call, now, APPLY_KEY);
  }

  /** A pipeline at rest keeps its part of the invariant while the file grows, unless another
      pipeline records under its fence. */
  lemma PipeStays(s: Shop, t: Shop, n: nat)
    requires n in s.pipes && n in t.pipes && t.pipes[n] == s.pipes[n] && PipeOk(s, n)
    requires Extends(s.world.file, t.world.file)
    requires OwnRequest(t, n) && (n in t.world.crew ==> n in s.world.crew || s.pipes[n].Applying?)
    requires n == s.world.file.row.fence ==>
               t.world.file.checkpoints == s.world.file.checkpoints && t.writers == s.writers
    ensures PipeOk(t, n)
  {
    hide Extends, Verified, AppliedInLedger;
    assert s.world.file.row.fence <= t.world.file.row.fence by { FencesExtend(s.world.file, t.world.file); }
    var pipe := s.pipes[n];
    if pipe.Recorded? {
      VerifiedStays(s.world.file, t.world.file, pipe.candidate, pipe.report);
    } else if pipe.Verifying? {
      VerifiedStays(s.world.file, t.world.file, pipe.candidate, Report(0, None, "", ""));
    }
  }

  lemma FencesExtend(f: RunFile, g: RunFile)
    requires Extends(f, g)
    ensures f.row.fence <= g.row.fence
    ensures f.row.status.Terminal() ==> g == f
  {
  }

  /** Only a checkpoint record adds a checkpoint, and only an accepted success transition succeeds. */
  lemma OnlyRecordsRecord(f: RunFile, call: Call, now: real)
    ensures var g := Next(f, call, now).file;
      && (!(call.Guarded? && call.write.Record?) ==> g.checkpoints == f.checkpoints)
      && (!(call.Guarded? && call.write.Transition? && call.write.target.Succeeded?) && g.row.status.Succeeded? ==>
            f.row.status.Succeeded?)
  {
  }

  /** The run's file grew without a checkpoint and without succeeding. */
  ghost predicate Calm(s: Shop, t: Shop) {
    && Extends(s.world.file, t.world.file)
    && t.world.file.checkpoints == s.world.file.checkpoints && t.writers == s.writers && t.finisher == s.finisher
    && (t.world.file.row.status.Succeeded? ==> s.world.file.row.status.Succeeded?)
  }

  /** A calm move keeps the invariant if it does so in the world and for the pipeline that made it. */
  lemma CalmKeepsInv(s: Shop, t: Shop, mover: Option<nat>)
    requires ShopInv(s) && Calm(s, t) && WorldInv(t.world) && t.world.key == s.world.key
    requires forall n :: n in t.pipes ==>
               if mover == Some(n) then PipeOk(t, n)
               else && n in s.pipes && t.pipes[n] == s.pipes[n] && OwnRequest(t, n)
                    && (n in t.world.crew ==> n in s.world.crew || s.pipes[n].Applying?)
    ensures ShopInv(t)
  {
    hide Extends, WorldInv, Justified, PipeOk, OwnRequest;
    forall n | n in t.pipes && mover != Some(n)
      ensures PipeOk(t, n)
    {
      PipeStays(s, t, n);
    }
    FencesExtend(s.world.file, t.world.file);
  }

  /** A guarded call other than a record, a success or a ledger write is calm. */
  lemma AskIsCalm(s: Shop, n: nat, lease: Lease, write: Write, next: Pipe, now: real)
    requires ShopInv(s) && n in s.pipes
    requires Harmless(Guarded(lease, write)) && Enabled(s.world, Other(Guarded(lease, write)))
    ensures var t := Ask(s, n, lease, write, next, now);
      && Calm(s, t) && WorldInv(t.world) && t.world.crew == s.world.crew && t.world.key == s.world.key
  {
    hide Next, Extends, WorldInv;
    DoKeepsInv(s.world, Other(Guarded(lease, write)), now);
    FileInv(s.world);
    NextExtends(s.world.file, Guarded(lease, write), now);
    OnlyRecordsRecord(s.world.file, Guarded(lease, write), now);
  }

  lemma FileInv(w: World)
    requires WorldInv(w)
    ensures Inv(w.file)
  {
  }

  /** Pipeline n may move on to `next`: its request is its own, and a patch it verifies is applied. */
  ghost predicate Placed(s: Shop, n: nat, next: Pipe) {
    && (next.Ended? || next.lease.fence == n)
    && (next.Starting? || next.Reproducing? || next.Repairing? || next.Applying? ==> n !in s.world.crew)
    && (next.Applying? ==> next.request.ApplyRequest? && next.request.patch == Sha256(next.candidate.patch))
    && (next.Verifying? ==> AppliedInLedger(s.world.file, next.candidate))
    && !next.Recorded?
  }

  lemma MoverKeepsInv(s: Shop, t: Shop, n: nat, next: Pipe)
    requires ShopInv(s) && Calm(s, t) && WorldInv(t.world) && t.world.key == s.world.key
    requires t.pipes == s.pipes[n := next] && Placed(s, n, next)
    requires t.world.crew == s.world.crew || t.world.crew == s.world.crew - {n}
    ensures ShopInv(t)
  {
    hide Extends, WorldInv, Justified, AppliedInLedger, Verified;
    if next.Verifying? {
      VerifiedStays(s.world.file, t.world.file, next.candidate, Report(0, None, "", ""));
    }
    CalmKeepsInv(s, t, Some(n));
  }

  lemma AskKeepsInv(s: Shop, n: nat, lease: Lease, write: Write, next: Pipe, now: real)
    requires ShopInv(s) && n in s.pipes && lease.fence == n && Placed(s, n, next)
    requires Harmless(Guarded(lease, write)) && Enabled(s.world, Other(Guarded(lease, write)))
    ensures ShopInv(Ask(s, n, lease, write, next, now))
  {
    hide ShopInv, Calm, Next, WorldInv, Harmless, Enabled, AppliedInLedger;
    AskIsCalm(s, n, lease, write, next, now);
    var outcome := Next(s.world.file, Guarded(lease, write), now).outcome;
    MoverKeepsInv(s, Ask(s, n, lease, write, next, now), n, Go(outcome, lease, next));
  }

  /** A pipeline that moves without a store call. */
  lemma LocalKeepsInv(s: Shop, n: nat, next: Pipe)
    requires ShopInv(s) && Placed(s, n, next)
    ensures ShopInv(s.(pipes := s.pipes[n := next]))
  {
    hide WorldInv, Placed, PipeOk, SuccessOk, Extends;
    ExtendsItself(s.world.file);
    MoverKeepsInv(s, s.(pipes := s.pipes[n := next]), n, next);
  }

  lemma InnerIsCalm(s: Shop, n: nat, act: Act, now: real)
    requires ShopInv(s) && Can(s, Inner(n, act))
    ensures Calm(s, Make(s, Inner(n, act), now))
  {
    hide Next, Extends, Inv, CrewInv, PipeOk, SuccessOk;
    var w := s.world;
    ExtendsItself(w.file);
    var call := match act
      case BeginApply(_, lease, request) => BeginCall(w.key, lease, request)
      case FinishApply(worker, evidence, message) =>
        FinishCall(w.key, w.crew[worker].lease, w.crew[worker].landed, evidence, message)
      case ReconcileApply(worker, source) =>
        ReconcileCall(w.key, w.crew[worker].lease, w.crew[worker].present, source)
      case _ => Elsewhere;
    NextExtends(w.file, call, now);
    OnlyRecordsRecord(w.file, call, now);
  }

  lemma InnerKeepsInv(s: Shop, n: nat, act: Act, now: real)
    requires ShopInv(s) && Can(s, Inner(n, act))
    ensures ShopInv(Make(s, Inner(n, act), now))
  {
    hide Next, Extends, WorldInv, Calm, SuccessOk, Verified, AppliedInLedger;
    var t := Make(s, Inner(n, act), now);
    InnerIsCalm(s, n, act, now);
    DoKeepsInv(s.world, act, now);
    CalmKeepsInv(s, t, None);
  }

  lemma AfterApplyKeepsInv(s: Shop, n: nat, now: real)
    requires ShopInv(s) && Can(s, AfterApply(n))
    ensures ShopInv(Make(s, AfterApply(n), now))
  {
    hide Next, Inv, SuccessOk, Verified;
    var pipe := s.pipes[n];
    assert PipeOk(s, n);
    if s.world.crew[n].Returned? {
      assert PhaseOk(s.world, s.world.crew[n]);
      AskKeepsInv(s, n, pipe.lease, Advance("verify", None), Verifying(pipe.lease, pipe.candidate), now);
    } else if s.world.crew[n].error.LeaseLost? {
      LocalKeepsInv(s, n, Ended);
    } else {
      LocalKeepsInv(s, n, Failing(pipe.lease, "patch was not applied"));
    }
  }

  lemma EarlyMovesKeepInv(s: Shop, move: Move, now: real)
    requires ShopInv(s) && Can(s, move) && (move.Start? || move.Reproduce? || move.Repair? || move.Propose?)
    ensures ShopInv(Make(s, move, now))
  {
    hide Next, WorldInv, SuccessOk, Verified, AppliedInLedger, Inspected;
    match move
    case Start(lease) =>
      LocalKeepsInv(s, lease.fence, Starting(lease));
    case Reproduce(n, headMatches) =>
      var lease := s.pipes[n].lease;
      assert PipeOk(s, n);
      if headMatches {
        AskKeepsInv(s, n, lease, Advance("reproduce", None), Reproducing(lease), now);
      } else {
        LocalKeepsInv(s, n, Failing(lease, "workspace HEAD differs from task base_commit"));
      }
    case Repair(n, exitCode) =>
      var lease := s.pipes[n].lease;
      assert PipeOk(s, n);
      if exitCode != 0 {
        AskKeepsInv(s, n, lease, Advance("repair", None), Repairing(lease), now);
      } else {
        LocalKeepsInv(s, n, Failing(lease, "upgrade task is not reproducibly failing"));
      }
    case Propose(n, policy, proposal) =>
      var lease := s.pipes[n].lease;
      assert PipeOk(s, n);
      if proposal.None? || Inspected(policy, proposal.value).Err? {
        LocalKeepsInv(s, n, Failing(lease, "no acceptable candidate"));
      } else {
        var inspection := Inspected(policy, proposal.value).value;
        AskKeepsInv(s, n, lease,
                    Advance("apply", Some(StageEvidence(inspection.paths, inspection.additions, inspection.deletions,
                                                        policy.version))),
                    Applying(lease, proposal.value, RequestFor(policy, proposal.value, inspection)), now);
      }
  }

  lemma EndingsKeepInv(s: Shop, move: Move, now: real)
    requires ShopInv(s) && Can(s, move) && (move.Outside? || move.Fail? || move.Raise? || move.Die?)
    ensures ShopInv(Make(s, move, now))
  {
    hide Next, WorldInv, SuccessOk, Verified, AppliedInLedger, Extends;
    match move
    case Outside(call) =>
      FileInv(s.world);
      NextExtends(s.world.file, call, now);
      HarmlessCalls(s.world.file, call, now);
      DoKeepsInv(s.world, Other(call), now);
      CalmKeepsInv(s, Make(s, move, now), None);
    case Fail(n) =>
      var pipe := s.pipes[n];
      assert PipeOk(s, n);
      AskKeepsInv(s, n, pipe.lease, FailWrite(pipe.message), Ended, now);
    case Raise(n, message) =>
      assert PipeOk(s, n);
      LocalKeepsInv(s, n, Failing(s.pipes[n].lease, message));
    case Die(n) =>
      if n in s.world.crew {
        DoKeepsInv(s.world, Leave(n), now);
      } else {
        assert s.world.crew - {n} == s.world.crew;
      }
      ExtendsItself(s.world.file);
      MoverKeepsInv(s, Make(s, move, now), n, Ended);
  }

  lemma RecordStep(f: RunFile, lease: Lease, write: Write, now: real)
    requires Inv(f) && write.Record?
    ensures var step := Next(f, Guarded(lease, write), now);
      if Live(f.row, lease, now) then
        && step.outcome.Recorded? && lease.fence == f.row.fence && !f.row.status.Terminal()
        && step.file.checkpoints == f.checkpoints + [step.outcome.checkpoint]
        && step.file.row == f.row && step.file.effects == f.effects
        && var checkpoint := step.outcome.checkpoint;
        && checkpoint.stage == write.stage && checkpoint.source == write.source
        && checkpoint.environment == write.environment && checkpoint.payload == write.payload
      else step == Step(f, Rejected(LeaseLost))
  {
  }

  /** A checkpoint is recorded under the fence in force, about the patch the ledger holds as applied. */
  lemma VerifyKeepsInv(s: Shop, n: nat, report: Report, now: real)
    requires ShopInv(s) && Can(s, Verify(n, report))
    ensures ShopInv(Make(s, Verify(n, report), now))
  {
    hide Next, Inv, CrewInv, Justified, Extends, Live, WorldInv;
    var (lease, candidate) := (s.pipes[n].lease, s.pipes[n].candidate);
    var write := RecordWrite(s.world.file, candidate, report);
    var t := Make(s, Verify(n, report), now);
    assert PipeOk(s, n);
    FileInv(s.world);
    RecordStep(s.world.file, lease, write, now);
    if Live(s.world.file.row, lease, now) {
      DoKeepsInv(s.world, Other(Guarded(lease, write)), now);
      NextExtends(s.world.file, Guarded(lease, write), now);
      OthersStay(s, t, n);
    } else {
      LocalKeepsInv(s, n, Ended);
    }
  }

  /** The holder of the fence in force may record without disturbing the other pipelines. */
  lemma OthersStay(s: Shop, t: Shop, n: nat)
    requires ShopInv(s) && n == s.world.file.row.fence && n in s.pipes
    requires Extends(s.world.file, t.world.file) && t.world.crew == s.world.crew
    requires t.pipes.Keys == s.pipes.Keys && forall m :: m in s.pipes && m != n ==> t.pipes[m] == s.pipes[m]
    ensures forall m :: m in t.pipes && m != n ==> PipeOk(t, m)
  {
    hide Extends, WorldInv, SuccessOk, Verified, AppliedInLedger;
    forall m | m in t.pipes && m != n
      ensures PipeOk(t, m)
    {
      assert PipeOk(s, m);
      PipeStays(s, t, m);
    }
  }

  lemma SuccessStep(f: RunFile, lease: Lease, candidate: PatchCandidate, report: Report, now: real)
    requires Inv(f) && Verified(f, candidate, report) && Passed(report)
    ensures var step := Next(f, Guarded(lease, SuccessWrite(candidate, report)), now);
      if step.file.row.status != f.row.status then
        && lease.fence == f.row.fence == step.file.row.fence && JustifiedBy(step.file, candidate, report)
        && step.file.row.status.Succeeded? && step.outcome.Saved?
      else step.file == f
  {
  }

  lemma ConcludeKeepsInv(s: Shop, n: nat, now: real)
    requires ShopInv(s) && Can(s, Conclude(n))
    ensures ShopInv(Make(s, Conclude(n), now))
  {
    hide Next, Inv, CrewInv, Extends, WorldInv, Verified, SuccessOk;
    var (lease, candidate, report) := (s.pipes[n].lease, s.pipes[n].candidate, s.pipes[n].report);
    assert PipeOk(s, n);
    if !Passed(report) {
      LocalKeepsInv(s, n, Failing(lease, "candidate failed verification"));
    } else if n != s.world.file.row.fence {
      StaleFence(s.world.file, Guarded(lease, SuccessWrite(candidate, report)), now);
      LocalKeepsInv(s, n, Go(Rejected(LeaseLost), lease, Ended));
    } else {
      SuccessKeepsInv(s, n, now);
    }
  }

  lemma SuccessKeepsInv(s: Shop, n: nat, now: real)
    requires ShopInv(s) && Can(s, Conclude(n)) && Passed(s.pipes[n].report) && n == s.world.file.row.fence
    ensures ShopInv(Make(s, Conclude(n), now))
  {
    hide Next, Inv, CrewInv, Extends, WorldInv, Verified, JustifiedBy, SuccessOk;
    var (lease, candidate, report) := (s.pipes[n].lease, s.pipes[n].candidate, s.pipes[n].report);
    var call := Guarded(lease, SuccessWrite(candidate, report));
    var step := Next(s.world.file, call, now);
    FileInv(s.world);
    assert lease.fence == n && Verified(s.world.file, candidate, report) by { assert PipeOk(s, n); }
    SuccessStep(s.world.file, lease, candidate, report, now);
    if step.file.row.status != s.world.file.row.status {
      DoKeepsInv(s.world, Other(call), now);
      NextExtends(s.world.file, call, now);
      OnlyRecordsRecord(s.world.file, call, now);
      OthersStay(s, Make(s, Conclude(n), now), n);
      DoneKeepsInv(s, Make(s, Conclude(n), now), n, candidate, report);
    } else {
      LocalKeepsInv(s, n, Go(step.outcome, lease, Ended));
    }
  }

  lemma DoneKeepsInv(s: Shop, t: Shop, n: nat, candidate: PatchCandidate, report: Report)
    requires ShopInv(s) && n in s.pipes && s.pipes[n].Recorded? && n == s.world.file.row.fence == t.world.file.row.fence
    requires WorldInv(t.world) && t.world.key == s.world.key && n in t.pipes && t.pipes[n].Ended?
    requires JustifiedBy(t.world.file, candidate, report) && t.finisher == Some(n)
    requires t.writers == s.writers && t.world.file.checkpoints == s.world.file.checkpoints
    requires forall m :: m in t.pipes && m != n ==> PipeOk(t, m)
    ensures ShopInv(t)
  {
    hide WorldInv, JustifiedBy, Verified;
    assert PipeOk(s, n);
  }

  lemma StaleFence(f: RunFile, call: Call, now: real)
    requires call.Guarded? && call.lease.fence != f.row.fence && !BadArguments(call.write)
    ensures Next(f, call, now) == Step(f, Rejected(LeaseLost))
  {
  }

  lemma MakeKeepsInv(s: Shop, move: Move, now: real)
    requires ShopInv(s) && Can(s, move)
    ensures ShopInv(Make(s, move, now))
  {
    hide Make, ShopInv;
    match move
    case Inner(n, act) => InnerKeepsInv(s, n, act, now);
    case AfterApply(n) => AfterApplyKeepsInv(s, n, now);
    case Verify(n, report) => VerifyKeepsInv(s, n, report, now);
    case Conclude(n) => ConcludeKeepsInv(s, n, now);
    case Start(_) => EarlyMovesKeepInv(s, move, now);
    case Reproduce(_, _) => EarlyMovesKeepInv(s, move, now);
    case Repair(_, _) => EarlyMovesKeepInv(s, move, now);
    case Propose(_, _, _) => EarlyMovesKeepInv(s, move, now);
    case _ => EndingsKeepInv(s, move, now);
  }

  // Whole runs

  datatype TimedMove = TimedMove(move: Move, now: real)

  ghost predicate Works(s: Shop, moves: seq<TimedMove>, t: Shop)
    decreases |moves|
  {
    if moves == [] then t == s
    else Can(s, moves[0].move) && Works(Make(s, moves[0].move, moves[0].now), moves[1..], t)
  }

  lemma {:induction false} WorksKeepsInv(s: Shop, moves: seq<TimedMove>, t: Shop)
    requires ShopInv(s) && Works(s, moves, t)
    ensures ShopInv(t)
    decreases |moves|
  {
    hide ShopInv, Can, Make;
    if moves != [] {
      MakeKeepsInv(s, moves[0].move, moves[0].now);
      WorksKeepsInv(Make(s, moves[0].move, moves[0].now), moves[1..], t);
    }
  }

  /** Some moves lead from one state to the other. */
  ghost predicate Reaches(s: Shop, t: Shop) {
    exists moves :: Works(s, moves, t)
  }

  lemma {:induction false} WorksOn(s: Shop, moves: seq<TimedMove>, t: Shop, more: seq<TimedMove>, u: Shop)
    requires Works(s, moves, t) && Works(t, more, u)
    ensures Works(s, moves + more, u)
    decreases |moves|
  {
    hide Can, Make;
    if moves == [] {
      assert moves + more == more;
    } else {
      assert (moves + more)[1..] == moves[1..] + more;
      WorksOn(Make(s, moves[0].move, moves[0].now), moves[1..], t, more, u);
    }
  }

  lemma ReachesOn(s: Shop, t: Shop, u: Shop)
    requires Reaches(s, t) && Reaches(t, u)
    ensures Reaches(s, u)
  {
    hide Works;
    var moves :| Works(s, moves, t);
    var more :| Works(t, more, u);
    WorksOn(s, moves, t, more, u);
  }

  lemma ReachesItself(s: Shop)
    ensures Reaches(s, s)
  {
    assert Works(s, [], s);
  }

  lemma MoveReaches(s: Shop, t: Shop, move: Move, now: real)
    requires Reaches(s, t) && Can(t, move)
    ensures Reaches(s, Make(t, move, now))
  {
    hide Can, Make;
    assert [TimedMove(move, now)][1..] == [];
    assert Works(t, [TimedMove(move, now)], Make(t, move, now));
    ReachesOn(s, t, Make(t, move, now));
  }

  lemma ReachesKeepsInv(s: Shop, t: Shop)
    requires ShopInv(s) && Reaches(s, t)
    ensures ShopInv(t)
  {
    hide ShopInv, Works;
    var moves :| Works(s, moves, t);
    WorksKeepsInv(s, moves, t);
  }

  /** Success is justified, in every interleaving: a succeeded run has a latest checkpoint written under
      the fence that made the run succeed, it reports passing tests and a passing acceptance command
      where there is one, the stored result repeats it, and the one patch in the tree is the one it names. */
  lemma SuccessIsJustified(s: Shop, t: Shop)
    requires Opening(s) && Reaches(s, t) && t.world.file.row.status.Succeeded?
    ensures var f := t.world.file;
      && Justified(f)
      && t.finisher == Some(f.row.fence)
      && |t.writers| == |f.checkpoints| > 0 && t.writers[|t.writers| - 1] == f.row.fence
      && LatestOf(f.checkpoints) == Some(Last(f))
      && Last(f).payload.VerifyPayload? && t.world.tree == [Last(f).payload.patch]
  {
    hide Reaches;
    OpeningInv(s);
    ReachesKeepsInv(s, t);
    SequencesCount(t.world.file.checkpoints);
  }

  lemma OpeningInv(s: Shop)
    requires Opening(s)
    ensures ShopInv(s)
  {
  }
}

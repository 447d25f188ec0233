/** Patch application by workers that crash, time out and overtake each other.

    `git apply` is a side effect between two ledger transactions. Three hypotheses about it are part
    of the step relation: it is all or nothing, a reverse check succeeds exactly when the patch is in
    the tree, and no worker runs it after its fence is superseded. Everything else is arbitrary: who
    calls what, in which order, with which clock readings, and where a worker dies. */
module ApplyProtocol {
  import opened Models
  import opened RunFiles
  import opened RunInvariant

  const APPLY_NAME := "git.apply_patch"

  /** Where one `apply_patch` call stands. */
  datatype Phase =
    | Executing(lease: Lease, request: Request)             // told to execute, git has not finished
    | Ran(lease: Lease, request: Request, landed: bool)     // git apply finished
    | Doubtful(lease: Lease, request: Request)              // told to reconcile
    | Looked(lease: Lease, request: Request, present: bool) // reverse check done
    | Returned(lease: Lease, request: Request)
    | Raised(error: StoreError)

  /** The run, the patches git has applied under the key, and the calls in progress. */
  datatype World = World(key: string, file: RunFile, tree: seq<Digest>, crew: map<nat, Phase>)

  datatype Act =
    | Other(call: Call)
    | BeginApply(worker: nat, newLease: Lease, newRequest: Request)
    | GitApply(worker: nat, landed: bool)
    | GitInterrupted(worker: nat, landed: bool)
    | FinishApply(worker: nat, evidence: Document, message: string)
    | LookForPatch(worker: nat)
    | ReconcileApply(worker: nat, source: string)
    | Leave(worker: nat)

  /** The tree that holds exactly the effect's patch. */
  predicate HoldsOnce(tree: seq<Digest>, effect: Effect) {
    effect.requestHash.request.ApplyRequest? && tree == [effect.requestHash.request.patch]
  }

  /** A worker holds a fence that no takeover has superseded. */
  predicate Current(w: World, lease: Lease) {
    lease.fence == w.file.row.fence
  }

  predicate Enabled(w: World, act: Act) {
    match act
    case Other(call) => !Touches(call, w.key)
    case BeginApply(worker, _, request) => worker !in w.crew && request.ApplyRequest?
    case GitApply(worker, _) => worker in w.crew && w.crew[worker].Executing? && Current(w, w.crew[worker].lease)
    case GitInterrupted(worker, _) => worker in w.crew && w.crew[worker].Executing? && Current(w, w.crew[worker].lease)
    case FinishApply(worker, _, _) => worker in w.crew && w.crew[worker].Ran?
    case LookForPatch(worker) => worker in w.crew && w.crew[worker].Doubtful?
    case ReconcileApply(worker, _) => worker in w.crew && w.crew[worker].Looked?
    case Leave(worker) => worker in w.crew
  }

  /** A step of the one call that `worker` makes for `request` under `lease`. */
  predicate OwnAct(act: Act, worker: nat, lease: Lease, request: Request) {
    match act
    case Other(_) => false
    case Leave(_) => false
    case BeginApply(caller, under, asked) => caller == worker && under == lease && asked == request
    case _ => act.worker == worker
  }

  function AfterBegin(outcome: Outcome, lease: Lease, request: Request): Phase {
    match outcome
    case Decided(true, _) => Executing(lease, request)
    case Decided(false, _) => Returned(lease, request)
    case Rejected(NeedsReconciliation) => Doubtful(lease, request)
    case Rejected(error) => Raised(error)
    case _ => Raised(KeyError)
  }

  function AfterResolve(outcome: Outcome, succeeded: bool, lease: Lease, request: Request): Phase {
    match outcome
    case Rejected(error) => Raised(error)
    case _ => if succeeded then Returned(lease, request) else Raised(EffectConflict)
  }

  function BeginCall(key: string, lease: Lease, request: Request): Call {
    Guarded(lease, Begin(key, APPLY_NAME, request))
  }

  function FinishCall(key: string, lease: Lease, landed: bool, evidence: Document, message: string): Call {
    Guarded(lease, if landed then Finish(key, true, Some(evidence), None) else Finish(key, false, None, Some(message)))
  }

  function ReconcileCall(key: string, lease: Lease, present: bool, source: string): Call {
    Guarded(lease, Reconcile(key, present, if present then ReconciledEvidence(source) else AbsentEvidence))
  }

  function Landed(tree: seq<Digest>, request: Request, landed: bool): seq<Digest> {
    if landed && request.ApplyRequest? then tree + [request.patch] else tree
  }

  function Do(w: World, act: Act, now: real): World
    requires Enabled(w, act)
  {
    match act
    case Other(call) => w.(file := Next(w.file, call, now).file)
    case BeginApply(worker, lease, request) =>
      var step := Next(w.file, BeginCall(w.key, lease, request), now);
      w.(file := step.file, crew := w.crew[worker := AfterBegin(step.outcome, lease, request)])
    case GitApply(worker, landed) =>
      var phase := w.crew[worker];
      w.(tree := Landed(w.tree, phase.request, landed),
         crew := w.crew[worker := Ran(phase.lease, phase.request, landed)])
    case GitInterrupted(worker, landed) =>
      w.(tree := Landed(w.tree, w.crew[worker].request, landed), crew := w.crew - {worker})
    case FinishApply(worker, evidence, message) =>
      var phase := w.crew[worker];
      var step := Next(w.file, FinishCall(w.key, phase.lease, phase.landed, evidence, message), now);
      w.(file := step.file,
         crew := w.crew[worker := AfterResolve(step.outcome, phase.landed, phase.lease, phase.request)])
    case LookForPatch(worker) =>
      var phase := w.crew[worker];
      var present := phase.request.ApplyRequest? && phase.request.patch in w.tree;
      w.(crew := w.crew[worker := Looked(phase.lease, phase.request, present)])
    case ReconcileApply(worker, source) =>
      var phase := w.crew[worker];
      var step := Next(w.file, ReconcileCall(w.key, phase.lease, phase.present, source), now);
      w.(file := step.file,
         crew := w.crew[worker := AfterResolve(step.outcome, phase.present, phase.lease, phase.request)])
    case Leave(worker) => w.(crew := w.crew - {worker})
  }

  // The invariant

  /** The ledger tells what is in the tree: an absent or failed effect means nothing was applied, a
      succeeded one means its patch was applied exactly once, and an undecided one at most once. */
  ghost predicate TreeAgrees(key: string, effects: map<string, Effect>, tree: seq<Digest>) {
    if key !in effects then tree == []
    else
      var effect := effects[key];
      && effect.requestHash.request.ApplyRequest?
      && match effect.status
         case Failed => tree == []
         case Succeeded => HoldsOnce(tree, effect)
         case _ => tree == [] || HoldsOnce(tree, effect)
  }

  predicate Bound(w: World, request: Request) {
    && w.key in w.file.effects
    && w.file.effects[w.key].requestHash == HashOf(request)
    && request.ApplyRequest?
  }

  predicate InFlight(phase: Phase) {
    phase.Executing? || phase.Ran?
  }

  ghost predicate PhaseOk(w: World, phase: Phase) {
    phase.Raised? ||
    (&& phase.lease.fence <= w.file.row.fence
     && Bound(w, phase.request)
     && (Current(w, phase.lease) && !w.file.row.status.Terminal() ==> w.file.row.owner == Some(phase.lease.owner))
     && var effect := w.file.effects[w.key];
     && (phase.Returned? ==> effect.status.Succeeded?)
     && (InFlight(phase) && Current(w, phase.lease) ==>
           && effect.status.Started? && effect.fence == w.file.row.fence
           && w.tree == if phase.Ran? && phase.landed then [phase.request.patch] else [])
     && ((phase.Doubtful? || phase.Looked?) && Current(w, phase.lease) && effect.status.Started? ==>
           effect.fence == w.file.row.fence)
     && (phase.Looked? && Current(w, phase.lease) && effect.status.Unknown? ==>
           phase.present == (w.tree == [phase.request.patch])))
  }

  predicate Busy(w: World, i: nat) {
    i in w.crew && InFlight(w.crew[i]) && Current(w, w.crew[i].lease)
  }

  /** Under one fence at most one call is told to execute and still at it. */
  ghost predicate OneInFlight(w: World) {
    forall i, j :: Busy(w, i) && Busy(w, j) ==> i == j
  }

  predicate KeyFence(w: World) {
    w.key in w.file.effects ==>
      && w.file.effects[w.key].fence <= w.file.row.fence
      && (w.file.effects[w.key].status.Unknown? ==> w.file.effects[w.key].fence < w.file.row.fence)
  }

  ghost predicate CrewInv(w: World) {
    && KeyFence(w)
    && TreeAgrees(w.key, w.file.effects, w.tree)
    && (forall i :: i in w.crew ==> PhaseOk(w, w.crew[i]))
    && OneInFlight(w)
  }

  ghost predicate WorldInv(w: World) {
    Inv(w.file) && CrewInv(w)
  }

  ghost predicate Initial(w: World) {
    Inv(w.file) && w.key !in w.file.effects && w.tree == [] && w.crew == map[]
  }

  lemma OtherKeepsInv(w: World, call: Call, now: real)
    requires WorldInv(w) && Enabled(w, Other(call))
    ensures WorldInv(Do(w, Other(call), now))
  {
    NextKeepsInv(w.file, call, now);
    NextExtends(w.file, call, now);
    OtherCallsLeaveTheEffect(w.file, call, now, w.key);
    var v := Do(w, Other(call), now);
    forall i | i in v.crew
      ensures PhaseOk(v, v.crew[i]) && (Busy(v, i) ==> Busy(w, i))
    {
      assert PhaseOk(w, w.crew[i]);
    }
  }

  /** A begin leaves all other calls where they belong. */
  lemma BeginKeepsOthers(w: World, act: Act, now: real, i: nat)
    requires CrewInv(w) && Enabled(w, act) && act.BeginApply? && i in w.crew && i != act.worker
    ensures var v := Do(w, act, now);
      PhaseOk(v, w.crew[i]) && (Busy(v, i) ==> Busy(w, i))
  {
    hide OneInFlight;
    assert PhaseOk(w, w.crew[i]);
  }

  lemma BeginKeepsCrew(w: World, act: Act, now: real)
    requires CrewInv(w) && Enabled(w, act) && act.BeginApply?
    ensures CrewInv(Do(w, act, now))
  {
    var v := Do(w, act, now);
    BeginPlaces(w, act, now);
    hide TreeAgrees, PhaseOk, KeyFence, Busy, Next;
    forall i | i in w.crew
      ensures PhaseOk(v, v.crew[i]) && (Busy(v, i) ==> Busy(w, i))
    {
      BeginKeepsOthers(w, act, now, i);
    }
    forall i | Busy(v, i)
      ensures i != act.worker ==> i in w.crew && Busy(w, i)
    {
      BusyIsInCrew(v, i);
    }
  }

  lemma BusyIsInCrew(w: World, i: nat)
    requires Busy(w, i)
    ensures i in w.crew
  {
  }

  /** A begin puts its own call where it belongs; when it is told to execute, no other call is. */
  lemma BeginPlaces(w: World, act: Act, now: real)
    requires CrewInv(w) && Enabled(w, act) && act.BeginApply?
    ensures var v := Do(w, act, now);
      && KeyFence(v) && TreeAgrees(v.key, v.file.effects, v.tree)
      && act.worker in v.crew && PhaseOk(v, v.crew[act.worker])
      && (Busy(v, act.worker) ==> forall i :: !Busy(w, i))
  {
    forall i | Busy(w, i)
      ensures !Busy(Do(w, act, now), act.worker)
    {
      assert PhaseOk(w, w.crew[i]);
    }
  }

  lemma GitKeepsCrew(w: World, act: Act, now: real)
    requires CrewInv(w) && Enabled(w, act) && (act.GitApply? || act.GitInterrupted?)
    ensures CrewInv(Do(w, act, now))
  {
    var v := Do(w, act, now);
    assert Busy(w, act.worker) && PhaseOk(w, w.crew[act.worker]);
    forall i | i in v.crew
      ensures PhaseOk(v, v.crew[i]) && (Busy(v, i) ==> Busy(w, i))
    {
      assert PhaseOk(w, w.crew[i]);
      assert Busy(w, i) && Busy(w, act.worker) ==> i == act.worker;
    }
  }

  lemma FinishKeepsCrew(w: World, act: Act, now: real)
    requires CrewInv(w) && Enabled(w, act) && act.FinishApply?
    ensures CrewInv(Do(w, act, now))
  {
    var phase := w.crew[act.worker];
    var v := Do(w, act, now);
    assert PhaseOk(w, phase);
    forall i | i in v.crew
      ensures PhaseOk(v, v.crew[i]) && (Busy(v, i) ==> Busy(w, i))
    {
      assert PhaseOk(w, w.crew[i]);
      assert Busy(w, i) && Busy(w, act.worker) ==> i == act.worker;
    }
  }

  lemma LookKeepsCrew(w: World, act: Act, now: real)
    requires CrewInv(w) && Enabled(w, act) && (act.LookForPatch? || act.Leave?)
    ensures CrewInv(Do(w, act, now))
  {
    var v := Do(w, act, now);
    forall i | i in v.crew
      ensures PhaseOk(v, v.crew[i]) && (Busy(v, i) ==> Busy(w, i))
    {
      assert PhaseOk(w, w.crew[i]);
    }
  }

  lemma ReconcileKeepsCrew(w: World, act: Act, now: real)
    requires CrewInv(w) && Enabled(w, act) && act.ReconcileApply?
    ensures CrewInv(Do(w, act, now))
  {
    var phase := w.crew[act.worker];
    var v := Do(w, act, now);
    assert PhaseOk(w, phase);
    forall i | i in v.crew
      ensures PhaseOk(v, v.crew[i]) && (Busy(v, i) ==> Busy(w, i))
    {
      assert PhaseOk(w, w.crew[i]);
    }
  }

  lemma DoKeepsInv(w: World, act: Act, now: real)
    requires WorldInv(w) && Enabled(w, act)
    ensures WorldInv(Do(w, act, now))
  {
    match act
    case Other(call) =>
      OtherKeepsInv(w, call, now);
    case BeginApply(_, lease, request) =>
      NextKeepsInv(w.file, BeginCall(w.key, lease, request), now);
      BeginKeepsCrew(w, act, now);
    case GitApply(_, _) => GitKeepsCrew(w, act, now);
    case GitInterrupted(_, _) => GitKeepsCrew(w, act, now);
    case FinishApply(worker, evidence, message) =>
      NextKeepsInv(w.file, FinishCall(w.key, w.crew[worker].lease, w.crew[worker].landed, evidence, message), now);
      FinishKeepsCrew(w, act, now);
    case LookForPatch(_) => LookKeepsCrew(w, act, now);
    case ReconcileApply(worker, source) =>
      NextKeepsInv(w.file, ReconcileCall(w.key, w.crew[worker].lease, w.crew[worker].present, source), now);
      ReconcileKeepsCrew(w, act, now);
    case Leave(_) => LookKeepsCrew(w, act, now);
  }

  // Whole runs

  datatype Timed = Timed(act: Act, now: real)

  predicate OwnActs(acts: seq<Timed>, worker: nat, lease: Lease, request: Request) {
    forall i :: 0 <= i < |acts| ==> OwnAct(acts[i].act, worker, lease, request)
  }

  ghost predicate Runs(w: World, acts: seq<Timed>, v: World)
    decreases |acts|
  {
    if acts == [] then v == w
    else Enabled(w, acts[0].act) && Runs(Do(w, acts[0].act, acts[0].now), acts[1..], v)
  }

  lemma {:induction false} RunsKeepInv(w: World, acts: seq<Timed>, v: World)
    requires WorldInv(w) && Runs(w, acts, v)
    ensures WorldInv(v) && v.key == w.key
    decreases |acts|
  {
    if acts != [] {
      DoKeepsInv(w, acts[0].act, acts[0].now);
      RunsKeepInv(Do(w, acts[0].act, acts[0].now), acts[1..], v);
    }
  }

  /** Exactly once, over every run of every crew: the patch is applied at most once; an absent or
      failed effect means it is not in the tree, a succeeded one that it is there exactly once, and it
      is the patch the effect is bound to. A call that returns leaves the effect succeeded for good. */
  lemma ExactlyOnce(w: World, acts: seq<Timed>, v: World)
    requires Initial(w) && Runs(w, acts, v)
    ensures |v.tree| <= 1
    ensures v.key !in v.file.effects || v.file.effects[v.key].status.Failed? ==> v.tree == []
    ensures v.key in v.file.effects && v.file.effects[v.key].status.Succeeded? ==>
              HoldsOnce(v.tree, v.file.effects[v.key])
    ensures v.tree != [] ==> v.key in v.file.effects && HoldsOnce(v.tree, v.file.effects[v.key])
    ensures forall i :: i in v.crew && v.crew[i].Returned? ==>
              && v.key in v.file.effects && v.file.effects[v.key].status.Succeeded?
              && v.file.effects[v.key].requestHash == HashOf(v.crew[i].request)
  {
    RunsKeepInv(w, acts, v);
    forall i | i in v.crew && v.crew[i].Returned?
      ensures Bound(v, v.crew[i].request) && v.file.effects[v.key].status.Succeeded?
    {
      assert PhaseOk(v, v.crew[i]);
    }
  }

  lemma DoKeepsBinding(w: World, act: Act, now: real)
    requires WorldInv(w) && Enabled(w, act) && w.key in w.file.effects
    ensures var v := Do(w, act, now);
      v.key == w.key && v.key in v.file.effects
      && v.file.effects[v.key].requestHash == w.file.effects[w.key].requestHash
  {
    hide Next, CrewInv;
    var call := match act
      case Other(call) => call
      case BeginApply(_, lease, request) => BeginCall(w.key, lease, request)
      case FinishApply(worker, evidence, message) =>
        FinishCall(w.key, w.crew[worker].lease, w.crew[worker].landed, evidence, message)
      case ReconcileApply(worker, source) =>
        ReconcileCall(w.key, w.crew[worker].lease, w.crew[worker].present, source)
      case _ => Elsewhere;
    NextExtends(w.file, call, now);
  }

  lemma {:induction false} RunsKeepBinding(w: World, acts: seq<Timed>, v: World)
    requires WorldInv(w) && Runs(w, acts, v) && w.key in w.file.effects
    ensures v.key in v.file.effects
    ensures v.file.effects[v.key].requestHash == w.file.effects[w.key].requestHash
    decreases |acts|
  {
    hide Do, Enabled, WorldInv;
    if acts != [] {
      DoKeepsBinding(w, acts[0].act, acts[0].now);
      DoKeepsInv(w, acts[0].act, acts[0].now);
      RunsKeepBinding(Do(w, acts[0].act, acts[0].now), acts[1..], v);
    }
  }

  /** One patch per run: whatever requests the workers bring, all calls that are ever past begin under
      the key, now or at any later time, are for one request. */
  lemma OnePatchPerKey(w: World, acts: seq<Timed>, v: World, more: seq<Timed>, u: World, i: nat, j: nat)
    requires Initial(w) && Runs(w, acts, v) && Runs(v, more, u)
    requires i in v.crew && !v.crew[i].Raised? && j in u.crew && !u.crew[j].Raised?
    ensures v.crew[i].request == u.crew[j].request
  {
    RunsKeepInv(w, acts, v);
    RunsKeepInv(v, more, u);
    assert PhaseOk(v, v.crew[i]) && PhaseOk(u, u.crew[j]);
    RunsKeepBinding(v, more, u);
  }

  // Building runs

  lemma NoStep(w: World)
    ensures Runs(w, [], w)
  {
  }

  lemma OneStep(w: World, act: Act, now: real, rest: seq<Timed>, v: World)
    requires Enabled(w, act) && Runs(Do(w, act, now), rest, v)
    ensures Runs(w, [Timed(act, now)] + rest, v)
  {
    assert ([Timed(act, now)] + rest)[1..] == rest;
  }

  lemma {:induction false} RunsThen(w: World, acts: seq<Timed>, v: World, act: Act, now: real)
    requires Runs(w, acts, v) && Enabled(v, act)
    ensures Runs(w, acts + [Timed(act, now)], Do(v, act, now))
    decreases |acts|
  {
    hide Do, Enabled;
    if acts == [] {
      assert acts + [Timed(act, now)] == [Timed(act, now)] && [Timed(act, now)][1..] == [];
    } else {
      RunsThen(Do(w, acts[0].act, acts[0].now), acts[1..], v, act, now);
      assert (acts + [Timed(act, now)])[1..] == acts[1..] + [Timed(act, now)];
    }
  }

  lemma {:induction false} RunsOn(w: World, acts: seq<Timed>, v: World, more: seq<Timed>, u: World)
    requires Runs(w, acts, v) && Runs(v, more, u)
    ensures Runs(w, acts + more, u)
    decreases |acts|
  {
    hide Do, Enabled;
    if acts == [] {
      assert acts + more == more;
    } else {
      RunsOn(Do(w, acts[0].act, acts[0].now), acts[1..], v, more, u);
      assert (acts + more)[1..] == acts[1..] + more;
    }
  }

  /** The reverse check decides: of a bound request it finds the patch exactly when the tree holds that
      patch and nothing else, and once the effect is resolved the answer is its status. */
  lemma ReverseCheckDecides(w: World, acts: seq<Timed>, v: World, i: nat)
    requires Initial(w) && Runs(w, acts, v) && i in v.crew && !v.crew[i].Raised?
    ensures v.crew[i].request.ApplyRequest? && v.key in v.file.effects
    ensures var (patch, effect) := (v.crew[i].request.patch, v.file.effects[v.key]);
      && (patch in v.tree <==> v.tree == [patch])
      && (effect.status.Succeeded? ==> patch in v.tree)
      && (effect.status.Failed? ==> patch !in v.tree)
  {
    RunsKeepInv(w, acts, v);
    assert PhaseOk(v, v.crew[i]);
  }
}

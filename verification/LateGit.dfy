/** Git apply without its fence: what happens when a call that was told to execute lands its patch after
    its fence was superseded. */
module LateGit {
  import opened Models
  import opened RunFiles
  import opened RunInvariant
  import opened ApplyProtocol

  /** The same as the act `GitApply(i, true)`, whatever the fence. */
  function Land(w: World, i: nat): World
    requires i in w.crew && w.crew[i].Executing?
  {
    var phase := w.crew[i];
    w.(tree := Landed(w.tree, phase.request, true), crew := w.crew[i := Ran(phase.lease, phase.request, true)])
  }

  predicate Undecided(w: World) {
    w.key in w.file.effects && (w.file.effects[w.key].status.Started? || w.file.effects[w.key].status.Unknown?)
  }

  /** No call under the fence in force is about to write down that the patch is missing. */
  ghost predicate Quiet(w: World) {
    && (forall j :: !Busy(w, j))
    && (w.key in w.file.effects && w.file.effects[w.key].status.Unknown? ==>
          forall j :: j in w.crew && w.crew[j].Looked? ==> !Current(w, w.crew[j].lease))
  }

  /** No call is told to run git under the fence in force. */
  predicate NobodyExecutes(w: World) {
    forall j :: j in w.crew && w.crew[j].Executing? ==> !Current(w, w.crew[j].lease)
  }

  /** A late landing does no harm. */
  ghost predicate LandsSafely(w: World) {
    && Undecided(w) && w.tree == []
    && NobodyExecutes(w)
    && (w.file.row.status.Terminal() || Quiet(w))
  }

  lemma QuietLandingKeepsInv(w: World, i: nat)
    requires WorldInv(w) && i in w.crew && w.crew[i].Executing? && !Current(w, w.crew[i].lease)
    requires Undecided(w) && w.tree == [] && Quiet(w)
    ensures WorldInv(Land(w, i))
  {
    hide Inv;
    var v := Land(w, i);
    assert PhaseOk(w, w.crew[i]);
    forall j | j in v.crew
      ensures PhaseOk(v, v.crew[j]) && !Busy(v, j)
    {
      assert PhaseOk(w, w.crew[j]) && !Busy(w, j);
    }
  }

  /** A finished run, in which nobody can run git. */
  ghost predicate Frozen(w: World) {
    && LeaseShape(w.file.row) && w.file.row.status.Terminal()
    && TreeAgrees(w.key, w.file.effects, w.tree)
    && NobodyExecutes(w)
  }

  lemma DoKeepsFrozen(w: World, act: Act, now: real)
    requires Frozen(w) && Enabled(w, act)
    ensures Frozen(Do(w, act, now))
  {
    hide LeaseShape, TreeAgrees;
    NothingMoves(w.file);
    var v := Do(w, act, now);
    assert v.file == w.file && v.tree == w.tree;
  }

  lemma NothingMoves(f: RunFile)
    requires LeaseShape(f.row) && f.row.status.Terminal()
    ensures forall call, now :: Next(f, call, now).file == f
    ensures forall call, now :: !Next(f, call, now).outcome.Decided?
  {
  }

  lemma {:induction false} RunsStayFrozen(w: World, acts: seq<Timed>, v: World)
    requires Frozen(w) && Runs(w, acts, v)
    ensures Frozen(v)
    decreases |acts|
  {
    hide Frozen, Do, Enabled;
    if acts != [] {
      DoKeepsFrozen(w, acts[0].act, acts[0].now);
      RunsStayFrozen(Do(w, acts[0].act, acts[0].now), acts[1..], v);
    }
  }

  lemma SafeLandingsAgree(w: World, i: nat, acts: seq<Timed>, v: World)
    requires WorldInv(w) && i in w.crew && w.crew[i].Executing? && !Current(w, w.crew[i].lease)
    requires LandsSafely(w) && Runs(Land(w, i), acts, v)
    ensures TreeAgrees(v.key, v.file.effects, v.tree)
  {
    hide Inv, Runs, Quiet, OneInFlight;
    if Quiet(w) {
      QuietLandingKeepsInv(w, i);
      RunsKeepInv(Land(w, i), acts, v);
    } else {
      var u := Land(w, i);
      assert PhaseOk(w, w.crew[i]);
      assert LeaseShape(u.file.row) by { ShapedLease(w.file); }
      RunsStayFrozen(u, acts, v);
    }
  }

  lemma ShapedLease(f: RunFile)
    requires Inv(f)
    ensures LeaseShape(f.row)
  {
  }

  /** A landing that is not safe disagrees at once or after one more act. */
  lemma UnsafeLandingsDisagree(w: World, i: nat) returns (acts: seq<Timed>, v: World)
    requires WorldInv(w) && i in w.crew && w.crew[i].Executing? && !Current(w, w.crew[i].lease)
    requires !LandsSafely(w)
    ensures |acts| == if Undecided(w) && w.tree == [] then 1 else 0
    ensures Runs(Land(w, i), acts, v) && !TreeAgrees(v.key, v.file.effects, v.tree)
  {
    var u := Land(w, i);
    assert PhaseOk(w, w.crew[i]);
    acts, v := [], u;
    if Undecided(w) && w.tree == [] {
      var j, act, now := Disagreement(w, i);
      v := Do(u, act, now);
      NoStep(v);
      OneStep(u, act, now, [], v);
      acts := [Timed(act, now)] + [];
    }
  }

  lemma Disagreement(w: World, i: nat) returns (j: nat, act: Act, now: real)
    requires WorldInv(w) && i in w.crew && w.crew[i].Executing? && !Current(w, w.crew[i].lease)
    requires Undecided(w) && w.tree == [] && !LandsSafely(w)
    ensures Enabled(Land(w, i), act)
    ensures var v := Do(Land(w, i), act, now); !TreeAgrees(v.key, v.file.effects, v.tree)
  {
    assert PhaseOk(w, w.crew[i]);
    now := if w.file.row.expires.Some? then w.file.row.expires.value - 1.0 else 0.0;
    if k :| k in w.crew && w.crew[k].Executing? && Current(w, w.crew[k].lease) {
      j, act := k, GitApply(k, true);
      assert PhaseOk(w, w.crew[j]);
    } else if k :| Busy(w, k) {
      j, act := k, FinishApply(k, EmptyObject, "");
      FinishRecordsMissing(w, i, j, now);
    } else {
      j :| j in w.crew && w.crew[j].Looked? && Current(w, w.crew[j].lease);
      act := ReconcileApply(j, "");
      ReconcileRecordsMissing(w, i, j, now);
    }
  }

  lemma FinishFails(f: RunFile, key: string, lease: Lease, now: real)
    requires Live(f.row, lease, now) && key in f.effects
    requires f.effects[key].status.Started? && f.effects[key].fence == lease.fence
    ensures var g := Next(f, FinishCall(key, lease, false, EmptyObject, ""), now).file;
      && key in g.effects && g.effects[key].status.Failed?
  {
  }

  lemma ReconcileFails(f: RunFile, key: string, lease: Lease, now: real)
    requires Live(f.row, lease, now) && key in f.effects && f.effects[key].status.Unknown?
    ensures var g := Next(f, ReconcileCall(key, lease, false, ""), now).file;
      && key in g.effects && g.effects[key].status.Failed?
  {
  }

  lemma LiveAt(f: RunFile, lease: Lease, now: real)
    requires Inv(f) && f.row.owner == Some(lease.owner) && f.row.fence == lease.fence
    requires f.row.expires.Some? ==> now < f.row.expires.value
    ensures Live(f.row, lease, now)
  {
  }

  lemma FinishRecordsMissing(w: World, i: nat, j: nat, now: real)
    requires WorldInv(w) && i in w.crew && w.crew[i].Executing? && !Current(w, w.crew[i].lease)
    requires Busy(w, j) && w.crew[j].Ran? && w.tree == [] && !w.file.row.status.Terminal()
    requires w.file.row.expires.Some? ==> now < w.file.row.expires.value
    ensures var act := FinishApply(j, EmptyObject, "");
      && Enabled(Land(w, i), act)
      && var v := Do(Land(w, i), act, now); !TreeAgrees(v.key, v.file.effects, v.tree)
  {
    hide Inv, Next, OneInFlight, Live;
    assert PhaseOk(w, w.crew[i]) && PhaseOk(w, w.crew[j]);
    LiveAt(w.file, w.crew[j].lease, now);
    FinishFails(w.file, w.key, w.crew[j].lease, now);
  }

  lemma ReconcileRecordsMissing(w: World, i: nat, j: nat, now: real)
    requires WorldInv(w) && i in w.crew && w.crew[i].Executing? && !Current(w, w.crew[i].lease)
    requires j in w.crew && w.crew[j].Looked? && Current(w, w.crew[j].lease)
    requires w.tree == [] && !w.file.row.status.Terminal() && w.key in w.file.effects
    requires w.file.effects[w.key].status.Unknown?
    requires w.file.row.expires.Some? ==> now < w.file.row.expires.value
    ensures var act := ReconcileApply(j, "");
      && Enabled(Land(w, i), act)
      && var v := Do(Land(w, i), act, now); !TreeAgrees(v.key, v.file.effects, v.tree)
  {
    hide Inv, Next, OneInFlight, Live;
    assert PhaseOk(w, w.crew[i]) && PhaseOk(w, w.crew[j]);
    LiveAt(w.file, w.crew[j].lease, now);
    ReconcileFails(w.file, w.key, w.crew[j].lease, now);
  }

  /** When a late landing does no harm: ledger and tree agree in everything that can follow it if and only
      if the effect is undecided, the tree is empty, no call under the fence in force is executing and,
      while the run is not finished, none of them is about to write down that the patch is missing. */
  lemma LandingIsHarmlessIff(w: World, i: nat)
    requires WorldInv(w) && i in w.crew && w.crew[i].Executing? && !Current(w, w.crew[i].lease)
    ensures (forall acts, v :: Runs(Land(w, i), acts, v) ==> TreeAgrees(v.key, v.file.effects, v.tree)) <==>
            LandsSafely(w)
  {
    hide WorldInv, TreeAgrees, LandsSafely, Land;
    if LandsSafely(w) {
      forall acts, v | Runs(Land(w, i), acts, v)
        ensures TreeAgrees(v.key, v.file.effects, v.tree)
      {
        SafeLandingsAgree(w, i, acts, v);
      }
    } else {
      var acts, v := UnsafeLandingsDisagree(w, i);
      assert !(Runs(Land(w, i), acts, v) ==> TreeAgrees(v.key, v.file.effects, v.tree));
    }
  }

  // Two runs that need the fence

  /** Worker 0 is about to run git under fence 1, and the run is leased to `owner` until `until`. */
  ghost predicate AboutToApply(w: World, lease: Lease, request: Request, owner: string, until: real) {
    && request.ApplyRequest? && w.tree == [] && lease.fence == 1
    && 0 in w.crew && w.crew[0] == Executing(lease, request)
    && w.file.row.status.Running? && w.file.row.owner == Some(owner) && w.file.row.expires == Some(until)
    && w.key in w.file.effects
    && w.file.effects[w.key].name == APPLY_NAME && w.file.effects[w.key].requestHash == HashOf(request)
  }

  lemma TakeoverStep(w: World, lease: Lease, request: Request)
    requires AboutToApply(w, lease, request, "a", 10.0) && 1 !in w.crew && w.file.row.fence == 1
    ensures var v := Do(w, Other(Acquire("b", 10.0)), 20.0);
      && v.key == w.key && AboutToApply(v, lease, request, "b", 30.0)
      && v.file.row.fence == 2 && v.file.effects == w.file.effects && v.crew == w.crew
  {
  }

  lemma DoubtStep(w: World, lease: Lease, request: Request, b: Lease)
    requires AboutToApply(w, lease, request, "b", 30.0) && 1 !in w.crew && w.file.row.fence == 2
    requires w.file.effects[w.key].status.Started? && w.file.effects[w.key].fence == 1
    requires b.owner == "b" && b.fence == 2
    ensures var v := Do(w, BeginApply(1, b, request), 21.0);
      && v.key == w.key && AboutToApply(v, lease, request, "b", 30.0)
      && v.file.row.fence == 2 && v.file.effects[v.key].status.Unknown?
      && 1 in v.crew && v.crew[1] == Doubtful(b, request)
  {
  }

  lemma NotFoundStep(w: World, lease: Lease, request: Request, b: Lease)
    requires AboutToApply(w, lease, request, "b", 30.0) && w.file.row.fence == 2
    requires w.file.effects[w.key].status.Unknown? && 1 in w.crew && w.crew[1] == Looked(b, request, false)
    requires b.owner == "b" && b.fence == 2
    ensures var v := Do(w, ReconcileApply(1, ""), 22.0);
      && v.key == w.key && AboutToApply(v, lease, request, "b", 30.0)
      && v.file.row.fence == 2 && v.file.effects[v.key].status.Failed?
  {
  }

  /** A takeover has looked for the patch and not found it, and has not written that down, while the
      superseded call is still about to run git. */
  lemma TakeoverLooks(w: World, lease: Lease, request: Request) returns (acts: seq<Timed>, v: World, b: Lease)
    requires AboutToApply(w, lease, request, "a", 10.0) && 1 !in w.crew && w.file.row.fence == 1
    requires w.file.effects[w.key].status.Started? && w.file.effects[w.key].fence == 1
    ensures Runs(w, acts, v) && v.key == w.key && AboutToApply(v, lease, request, "b", 30.0)
    ensures v.file.row.fence == 2 && v.file.effects[v.key].status.Unknown?
    ensures 1 in v.crew && v.crew[1] == Looked(b, request, false) && b.owner == "b" && b.fence == 2
  {
    hide Runs, Next;
    b := Lease(w.file.row.id, "b", 2, 30.0);
    var act3, act4, look := Other(Acquire("b", 10.0)), BeginApply(1, b, request), LookForPatch(1);
    TakeoverStep(w, lease, request);
    var w3 := Do(w, act3, 20.0);
    DoubtStep(w3, lease, request, b);
    var w4 := Do(w3, act4, 21.0);
    v := Do(w4, look, 21.0);
    NoStep(w);
    RunsThen(w, [], w, act3, 20.0);
    RunsThen(w, [] + [Timed(act3, 20.0)], w3, act4, 21.0);
    acts := [] + [Timed(act3, 20.0)] + [Timed(act4, 21.0)];
    RunsThen(w, acts, w4, look, 21.0);
    acts := acts + [Timed(look, 21.0)];
  }

  /** From any new run the protocol reaches a call about to run git under the first fence. */
  lemma FirstCallIsAboutToApply(id: string, task: TaskSpec, key: string, request: Request)
    returns (w: World, acts: seq<Timed>, v: World)
    requires request.ApplyRequest?
    ensures w == World(key, NewFile(id, task, 0.0), [], map[]) && Initial(w) && Runs(w, acts, v)
    ensures AboutToApply(v, Lease(id, "a", 1, 10.0), request, "a", 10.0) && 1 !in v.crew && v.file.row.fence == 1
    ensures v.key == key && v.file.effects[key].status.Started? && v.file.effects[key].fence == 1
  {
    hide Runs;
    NewFileInv(id, task, 0.0);
    w := World(key, NewFile(id, task, 0.0), [], map[]);
    var a := Lease(id, "a", 1, 10.0);
    var act1, act2 := Other(Acquire("a", 10.0)), BeginApply(0, a, request);
    var w1 := Do(w, act1, 0.0);
    v := Do(w1, act2, 1.0);
    assert v.crew == map[0 := Executing(a, request)];
    NoStep(w);
    RunsThen(w, [], w, act1, 0.0);
    RunsThen(w, [] + [Timed(act1, 0.0)], w1, act2, 1.0);
    acts := [] + [Timed(act1, 0.0)] + [Timed(act2, 1.0)];
  }

  /** Agreement at the moment of landing is not enough: a run in which the patch lands between a
      takeover's reverse check and its reconcile. Ledger and tree agree right after the landing, and the
      reconcile then leaves a failed effect with its patch in the tree. */
  lemma LateLandingBreaksLater(id: string, task: TaskSpec, key: string, request: Request)
    returns (w: World, acts: seq<Timed>, v: World, more: seq<Timed>, u: World)
    requires request.ApplyRequest?
    ensures w == World(key, NewFile(id, task, 0.0), [], map[]) && Initial(w) && Runs(w, acts, v)
    ensures 0 in v.crew && v.crew[0].Executing? && !Current(v, v.crew[0].lease)
    ensures TreeAgrees(v.key, v.file.effects, Land(v, 0).tree)
    ensures |more| == 1 && Runs(Land(v, 0), more, u) && !TreeAgrees(u.key, u.file.effects, u.tree)
  {
    hide Runs, Next, Do;
    var first, begun;
    w, first, begun := FirstCallIsAboutToApply(id, task, key, request);
    var rest, b;
    rest, v, b := TakeoverLooks(begun, Lease(id, "a", 1, 10.0), request);
    RunsOn(w, first, begun, rest, v);
    acts := first + rest;
    RunsKeepInv(w, acts, v);
    assert !Quiet(v);
    more, u := UnsafeLandingsDisagree(v, 0);
  }

  /** The fence on git apply is needed: from any new run the protocol reaches a state in which a
      superseded call is still about to run git while a takeover has already found the patch missing
      and marked the effect failed. If git then applies it, a failed effect has its patch in the tree. */
  lemma LateGitApplyBreaksAgreement(id: string, task: TaskSpec, key: string, request: Request)
    returns (w: World, acts: seq<Timed>, v: World)
    requires request.ApplyRequest?
    ensures w == World(key, NewFile(id, task, 0.0), [], map[]) && Initial(w) && Runs(w, acts, v)
    ensures 0 in v.crew && v.crew[0].Executing? && !Current(v, v.crew[0].lease)
    ensures !TreeAgrees(key, v.file.effects, Land(v, 0).tree)
  {
    hide Runs, Next, Do;
    var first, begun;
    w, first, begun := FirstCallIsAboutToApply(id, task, key, request);
    var rest, looked, b;
    rest, looked, b := TakeoverLooks(begun, Lease(id, "a", 1, 10.0), request);
    NotFoundStep(looked, Lease(id, "a", 1, 10.0), request, b);
    v := Do(looked, ReconcileApply(1, ""), 22.0);
    RunsOn(w, first, begun, rest, looked);
    RunsThen(w, first + rest, looked, ReconcileApply(1, ""), 22.0);
    acts := first + rest + [Timed(ReconcileApply(1, ""), 22.0)];
  }
}

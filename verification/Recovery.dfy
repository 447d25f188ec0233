/** An uninterrupted `apply_patch` is a run of the crash protocol, and the retry driver recovers an
    interrupted application within two attempts. */
module Recovery {
  import opened Models
  import opened RunFiles
  import opened RunInvariant
  import opened ApplyProtocol
  import opened Policy
  import opened Workspace

  lemma DecidedMeansLive(f: RunFile, key: string, lease: Lease, request: Request, now: real)
    requires Next(f, BeginCall(key, lease, request), now).outcome.Decided?
    ensures Live(f.row, lease, now)
    ensures Next(f, BeginCall(key, lease, request), now).file.row == f.row
  {
  }

  /** Whatever crew is at work, one uninterrupted call moves file and tree as some acts of the protocol
      do, and it returns exactly when the protocol's call returns. So what holds over all runs of the
      protocol holds after every such call. */
  lemma ApplyIsAProtocolRun(w: World, worker: nat, lease: Lease, policy: PatchPolicy, candidate: PatchCandidate,
                            env: Surroundings, t0: real, t1: real) returns (acts: seq<Timed>, v: World)
    requires worker !in w.crew && Inspected(policy, candidate).Ok?
    ensures Runs(w, acts, v) && v.key == w.key
    ensures var applied := ApplyOnce(w.file, w.tree, lease, policy, candidate, w.key, env, t0, t1);
      && v.file == applied.file && v.tree == applied.tree
      && worker in v.crew && (v.crew[worker].Returned? <==> applied.result.Ok?)
    ensures OwnActs(acts, worker, lease, RequestFor(policy, candidate, Inspected(policy, candidate).value))
  {
    hide Inspected, Next, RunGit, Settle;
    var inspection := Inspected(policy, candidate).value;
    var request := RequestFor(policy, candidate, inspection);
    var begin := BeginApply(worker, lease, request);
    var begun := Do(w, begin, t0);
    var outcome := Next(w.file, BeginCall(w.key, lease, request), t0).outcome;
    if outcome.Decided? && outcome.execute {
      DecidedMeansLive(w.file, w.key, lease, request, t0);
      LiveIsCurrent(w.file, lease, t0);
      acts, v := GitIsARun(begun, worker, lease, policy, candidate, inspection, env, t0, t1);
    } else if outcome == Rejected(NeedsReconciliation) {
      acts, v := SettleIsARun(begun, worker, lease, request, env, t0, t1);
    } else {
      acts, v := [], begun;
      NoStep(v);
    }
    OneStep(w, begin, t0, acts, v);
    acts := [Timed(begin, t0)] + acts;
  }

  /** The rest of a call that is told to execute. */
  lemma GitIsARun(w: World, worker: nat, lease: Lease, policy: PatchPolicy, candidate: PatchCandidate,
                  inspection: PatchInspection, env: Surroundings, t0: real, t1: real)
    returns (acts: seq<Timed>, v: World)
    requires worker in w.crew && w.crew[worker] == Executing(lease, RequestFor(policy, candidate, inspection))
    requires Current(w, lease)
    ensures Runs(w, acts, v) && v.key == w.key
    ensures var applied := RunGit(w.file, w.tree, lease, policy, candidate, inspection, w.key, env, t1);
      && v.file == applied.file && v.tree == applied.tree
      && worker in v.crew && (v.crew[worker].Returned? <==> applied.result.Ok?)
    ensures OwnActs(acts, worker, lease, RequestFor(policy, candidate, inspection))
  {
    hide Next, Runs;
    var evidence := EvidenceFor(policy, candidate, inspection, env.fingerprint);
    var (git, finish) := (GitApply(worker, env.landed), FinishApply(worker, evidence, env.message));
    var ran := Do(w, git, t0);
    v := Do(ran, finish, t1);
    NoStep(v);
    OneStep(ran, finish, t1, [], v);
    OneStep(w, git, t0, [Timed(finish, t1)] + [], v);
    acts := [Timed(git, t0)] + ([Timed(finish, t1)] + []);
  }

  /** The rest of a call that is told to reconcile. */
  lemma SettleIsARun(w: World, worker: nat, lease: Lease, request: Request, env: Surroundings, t0: real, t1: real)
    returns (acts: seq<Timed>, v: World)
    requires worker in w.crew && w.crew[worker] == Doubtful(lease, request)
    ensures Runs(w, acts, v) && v.key == w.key
    ensures var applied := Settle(w.file, w.tree, lease, request, w.key, env, t1);
      && v.file == applied.file && v.tree == applied.tree
      && worker in v.crew && (v.crew[worker].Returned? <==> applied.result.Ok?)
    ensures OwnActs(acts, worker, lease, request)
  {
    hide Next, Runs;
    var (look, settle) := (LookForPatch(worker), ReconcileApply(worker, env.fingerprint));
    var looked := Do(w, look, t0);
    v := Do(looked, settle, t1);
    NoStep(v);
    OneStep(looked, settle, t1, [], v);
    OneStep(w, look, t0, [Timed(settle, t1)] + [], v);
    acts := [Timed(look, t0)] + ([Timed(settle, t1)] + []);
  }

  lemma LiveIsCurrent(f: RunFile, lease: Lease, now: real)
    requires Live(f.row, lease, now)
    ensures lease.fence == f.row.fence
  {
  }

  // The retry driver

  const LEASE_SECONDS := 300.0

  /** The clock readings of one attempt. */
  datatype Readings = Readings(acquire: real, advance: real, begin: real, settle: real)

  /** One attempt of the orchestrated apply step: acquire or re-enter the lease, announce the stage,
      apply the patch. */
  function Attempt(f: RunFile, tree: seq<Digest>, owner: string, policy: PatchPolicy, candidate: PatchCandidate,
                   key: string, env: Surroundings, at: Readings): Applied
  {
    var acquired := Next(f, Acquire(owner, LEASE_SECONDS), at.acquire);
    if !acquired.outcome.Granted? then Applied(acquired.file, tree, Answer(acquired.outcome, Err(MarkedFailed)))
    else
      var lease := acquired.outcome.lease;
      var advanced := Next(acquired.file, Announce(lease, candidate), at.advance);
      if advanced.outcome.Rejected? then Applied(advanced.file, tree, Answer(advanced.outcome, Err(MarkedFailed)))
      else ApplyOnce(advanced.file, tree, lease, policy, candidate, key, env, at.begin, at.settle)
  }

  function Announce(lease: Lease, candidate: PatchCandidate): Call {
    Guarded(lease, Advance("apply", Some(OtherObject(candidate.patch))))
  }

  /** The run is leased to `owner` until `until`, and the key is bound to the request. */
  predicate Ready(f: RunFile, owner: string, until: real, key: string, request: Request) {
    && f.row.status.Running? && f.row.owner == Some(owner) && f.row.expires == Some(until)
    && key in f.effects && f.effects[key].name == APPLY_NAME && f.effects[key].requestHash == HashOf(request)
  }

  predicate Undecided(f: RunFile, key: string) {
    key in f.effects && (f.effects[key].status.Started? || f.effects[key].status.Unknown?)
  }

  predicate Within(at: Readings, until: real) {
    at.advance < until && at.begin < until && at.settle < until
  }

  /** After a takeover the effect's fence is behind the run's. */
  lemma TakeoverStarts(f: RunFile, owner: string, candidate: PatchCandidate, key: string, at: Readings)
    requires Inv(f) && f.row.status.Running? && f.row.expires.value <= at.acquire
    requires at.advance < at.acquire + LEASE_SECONDS && key in f.effects
    ensures var acquired := Next(f, Acquire(owner, LEASE_SECONDS), at.acquire);
      && acquired.outcome == Granted(Lease(f.row.id, owner, f.row.fence + 1, at.acquire + LEASE_SECONDS))
      && var advanced := Next(acquired.file, Announce(acquired.outcome.lease, candidate), at.advance);
      && advanced.outcome.Saved?
      && advanced.file.effects == f.effects
      && advanced.file.row.status.Running? && advanced.file.row.owner == Some(owner)
      && advanced.file.row.expires == Some(at.acquire + LEASE_SECONDS)
      && advanced.file.row.fence == f.row.fence + 1 > f.effects[key].fence
  {
  }

  /** A second attempt under the live lease re-enters it. */
  lemma ReentryStarts(f: RunFile, owner: string, until: real, candidate: PatchCandidate, at: Readings)
    requires f.row.status.Running? && f.row.owner == Some(owner) && f.row.expires == Some(until)
    requires at.acquire < until && at.advance < until
    ensures var acquired := Next(f, Acquire(owner, LEASE_SECONDS), at.acquire);
      && acquired.outcome == Granted(Lease(f.row.id, owner, f.row.fence, until))
      && var advanced := Next(acquired.file, Announce(acquired.outcome.lease, candidate), at.advance);
      && advanced.outcome.Saved?
      && advanced.file.effects == f.effects
      && advanced.file.row.status.Running? && advanced.file.row.owner == Some(owner)
      && advanced.file.row.expires == Some(until) && advanced.file.row.fence == f.row.fence
  {
  }

  /** The first call under the new fence asks the tree and settles the effect accordingly. */
  lemma FirstCallSettles(f: RunFile, tree: seq<Digest>, owner: string, until: real, policy: PatchPolicy,
                         candidate: PatchCandidate, inspection: PatchInspection, key: string, env: Surroundings,
                         at: Readings)
    requires var request := RequestFor(policy, candidate, inspection);
      Ready(f, owner, until, key, request) && Undecided(f, key)
    requires f.effects[key].fence < f.row.fence && Within(at, until)
    ensures var lease := Lease(f.row.id, owner, f.row.fence, until);
      var applied := ApplyInspected(f, tree, lease, policy, candidate, inspection, key, env, at.begin, at.settle);
      && applied.tree == tree
      && applied.file.row == f.row
      && Ready(applied.file, owner, until, key, RequestFor(policy, candidate, inspection))
      && (Sha256(candidate.patch) in tree ==> applied.result.Ok? && applied.file.effects[key].status.Succeeded?)
      && (Sha256(candidate.patch) !in tree ==>
            applied.result == Err(MarkedFailed) && applied.file.effects[key].status.Failed?)
  {
  }

  /** A call on a failed effect executes, and succeeds when git does. */
  lemma SecondCallExecutes(f: RunFile, tree: seq<Digest>, owner: string, until: real, policy: PatchPolicy,
                           candidate: PatchCandidate, inspection: PatchInspection, key: string, env: Surroundings,
                           at: Readings)
    requires Ready(f, owner, until, key, RequestFor(policy, candidate, inspection))
    requires f.effects[key].status.Failed? && Within(at, until) && env.landed
    ensures var lease := Lease(f.row.id, owner, f.row.fence, until);
      var applied := ApplyInspected(f, tree, lease, policy, candidate, inspection, key, env, at.begin, at.settle);
      && applied.tree == tree + [Sha256(candidate.patch)]
      && applied.result.Ok?
      && key in applied.file.effects && applied.file.effects[key].status.Succeeded?
  {
  }

  lemma AttemptApplies(f: RunFile, tree: seq<Digest>, owner: string, policy: PatchPolicy, candidate: PatchCandidate,
                       key: string, env: Surroundings, at: Readings)
    requires Inspected(policy, candidate).Ok?
    requires var acquired := Next(f, Acquire(owner, LEASE_SECONDS), at.acquire);
      && acquired.outcome.Granted?
      && Next(acquired.file, Announce(acquired.outcome.lease, candidate), at.advance).outcome.Saved?
    ensures var acquired := Next(f, Acquire(owner, LEASE_SECONDS), at.acquire);
      var lease := acquired.outcome.lease;
      Attempt(f, tree, owner, policy, candidate, key, env, at) ==
      ApplyInspected(Next(acquired.file, Announce(lease, candidate), at.advance).file, tree, lease, policy, candidate,
                     Inspected(policy, candidate).value, key, env, at.begin, at.settle)
  {
    hide Next, Inspected, ApplyInspected;
  }

  /** Bounded recovery: in any state the protocol can reach, take an interrupted application, a running
      run whose lease has expired, and readings within the new lease. The first attempt returns when
      the patch had landed and marks the effect failed when it had not; in the second case the next
      attempt applies it, if git does. Either way the patch is in the tree exactly once. */
  lemma TwoAttemptsRecover(w: World, owner: string, policy: PatchPolicy, candidate: PatchCandidate,
                           env: Surroundings, env': Surroundings, at: Readings, at': Readings)
    requires WorldInv(w) && Inspected(policy, candidate).Ok? && Undecided(w.file, w.key)
    requires w.file.effects[w.key].name == APPLY_NAME
    requires w.file.effects[w.key].requestHash ==
             HashOf(RequestFor(policy, candidate, Inspected(policy, candidate).value))
    requires w.file.row.status.Running? && w.file.row.expires.Some? && w.file.row.expires.value <= at.acquire
    requires Within(at, at.acquire + 300.0) && Within(at', at.acquire + 300.0)
    requires at'.acquire < at.acquire + 300.0
    requires env'.landed
    ensures var first := Attempt(w.file, w.tree, owner, policy, candidate, w.key, env, at);
      var second := Attempt(first.file, first.tree, owner, policy, candidate, w.key, env', at');
      && w.key in first.file.effects
      && (if w.tree != [] then
            && first.result.Ok? && first.file.effects[w.key].status.Succeeded?
            && first.tree == [Sha256(candidate.patch)]
          else
            && first.result == Err(MarkedFailed) && first.file.effects[w.key].status.Failed? && first.tree == []
            && second.result.Ok? && w.key in second.file.effects && second.file.effects[w.key].status.Succeeded?
            && second.tree == [Sha256(candidate.patch)])
  {
    hide Next, Inspected, ApplyInspected, Attempt, Inv;
    var inspection := Inspected(policy, candidate).value;
    var until := at.acquire + LEASE_SECONDS;
    TakeoverStarts(w.file, owner, candidate, w.key, at);
    AttemptApplies(w.file, w.tree, owner, policy, candidate, w.key, env, at);
    var acquired := Next(w.file, Acquire(owner, LEASE_SECONDS), at.acquire);
    var f := Next(acquired.file, Announce(acquired.outcome.lease, candidate), at.advance).file;
    NextKeepsId(w.file, Acquire(owner, LEASE_SECONDS), at.acquire);
    NextKeepsId(acquired.file, Announce(acquired.outcome.lease, candidate), at.advance);
    FirstCallSettles(f, w.tree, owner, until, policy, candidate, inspection, w.key, env, at);
    var first := Attempt(w.file, w.tree, owner, policy, candidate, w.key, env, at);
    if w.tree == [] {
      ReentryStarts(first.file, owner, until, candidate, at');
      AttemptApplies(first.file, first.tree, owner, policy, candidate, w.key, env', at');
      var again := Next(first.file, Acquire(owner, LEASE_SECONDS), at'.acquire);
      var g := Next(again.file, Announce(again.outcome.lease, candidate), at'.advance).file;
      NextKeepsId(first.file, Acquire(owner, LEASE_SECONDS), at'.acquire);
      NextKeepsId(again.file, Announce(again.outcome.lease, candidate), at'.advance);
      SecondCallExecutes(g, first.tree, owner, until, policy, candidate, inspection, w.key, env', at');
    }
  }

  lemma NextKeepsId(f: RunFile, call: Call, now: real)
    ensures Next(f, call, now).file.row.id == f.row.id
  {
  }
}

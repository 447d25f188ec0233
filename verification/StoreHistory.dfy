/** Histories of the whole store: many runs, calls in any order. Seen from one run, such a history is
    a history of that run, so everything proved of run histories holds of the store. */
module StoreHistory {
  import opened Models
  import opened RunFiles
  import opened RunInvariant
  import opened RunHistory
  import opened ClaimQueue
  import opened Store

  datatype Op =
    | CreateRun(task: TaskSpec, runId: Option<string>, generated: string)
    | ClaimNext(owner: string, seconds: real)
    | AcquireRun(id: string, owner: string, seconds: real)
    | Write(lease: Lease, write: RunFiles.Write)

  function AfterWrite(db: Db, lease: Lease, write: RunFiles.Write, now: real): (Db, Outcome) {
    if BadArguments(write) then (db, Rejected(ValueError))
    else if Refusal(db, lease, now).Some? then (db, Rejected(Refusal(db, lease, now).value))
    else
      var step := Perform(db[lease.runId], lease, write, now);
      (db[lease.runId := step.file], step.outcome)
  }

  ghost function NextDb(db: Db, op: Op, now: real): (Db, Outcome) {
    match op
    case CreateRun(task, runId, generated) => AfterCreate(db, task, ChosenId(runId, generated), now)
    case ClaimNext(owner, seconds) => AfterClaimNext(db, owner, seconds, now)
    case AcquireRun(id, owner, seconds) => AfterAcquire(db, id, owner, seconds, now)
    case Write(lease, write) => AfterWrite(db, lease, write, now)
  }

  ghost predicate DbInv(db: Db) {
    forall id :: id in db ==> db[id].row.id == id && Inv(db[id])
  }

  /** The call that run `id` sees. */
  ghost function CallOn(db: Db, op: Op, now: real, id: string): Call {
    match op
    case CreateRun(_, _, _) => Elsewhere
    case ClaimNext(owner, seconds) => if First(db, now) == Some(id) then Claim(owner, seconds) else Elsewhere
    case AcquireRun(other, owner, seconds) => if other == id then Acquire(owner, seconds) else Elsewhere
    case Write(lease, write) => if lease.runId == id then Guarded(lease, write) else Elsewhere
  }

  /** One store call is one step of each run, and the run it is about sees its outcome. */
  lemma OneCallIsAStepOfEachRun(db: Db, op: Op, now: real, id: string)
    requires id in db
    ensures id in NextDb(db, op, now).0
    ensures NextDb(db, op, now).0[id] == Next(db[id], CallOn(db, op, now, id), now).file
    ensures !CallOn(db, op, now, id).Elsewhere? ==>
              NextDb(db, op, now).1 == Next(db[id], CallOn(db, op, now, id), now).outcome
  {
  }

  /** A claimed lease comes from a run that was claimable and first in the queue. */
  lemma ClaimsComeFromTheQueue(db: Db, owner: string, seconds: real, now: real)
    requires seconds > 0.0
    ensures var outcome := NextDb(db, ClaimNext(owner, seconds), now).1;
      if ClaimableIds(db, now) == {} then outcome == Skipped
      else exists id :: IsFirst(db, now, id) && outcome == Grant(db[id], owner, seconds, now).outcome
  {
    FirstIfAny(db, now);
  }

  /** What a queue claim does: when some run waits, the first that waits is leased to the caller under its next
      fence until the reading plus the length asked for; when none waits, nothing happens. */
  lemma ClaimTakesTheFirstThatWaits(db: Db, owner: string, seconds: real, now: real)
    requires seconds > 0.0 && DbInv(db)
    ensures var (after, outcome) := NextDb(db, ClaimNext(owner, seconds), now);
      if exists id :: id in db && Waits(db[id].row, now) then
        && outcome.Granted? && outcome.lease.runId in db
        && var row := db[outcome.lease.runId].row;
        && Waits(row, now)
        && (forall other :: other in db && Waits(db[other].row, now) ==> GoesBefore(row, db[other].row))
        && outcome.lease.owner == owner && outcome.lease.fence == row.fence + 1
        && outcome.lease.expiresAt == now + seconds
      else outcome == Skipped && after == db
  {
    hide GoesBefore, Inv, Before;
    FirstIfAny(db, now);
    var first := First(db, now);
    if first.Some? {
      FirstGoesBeforeAll(db, now, first.value);
    }
    if id :| id in db && Waits(db[id].row, now) {
      assert id in ClaimableIds(db, now);
    }
  }

  /** Draining the queue is repeating `claim_next`: each claim makes the step the drain makes, and hands out
      the run at the head of what is drained. */
  lemma DrainRepeatsClaimNext(db: Db, owner: string, seconds: real, now: real)
    requires seconds > 0.0 && DbInv(db)
    ensures var (after, outcome) := NextDb(db, ClaimNext(owner, seconds), now);
      var ids := Drain(db, owner, seconds, now);
      if ids == [] then after == db && outcome == Skipped
      else outcome.Granted? && outcome.lease.runId == ids[0] && ids[1..] == Drain(after, owner, seconds, now)
  {
    FirstIfAny(db, now);
    var first := First(db, now);
    if first.Some? {
      ClaimOneLeavesTheRest(db, first.value, owner, seconds, now);
    }
  }

  lemma NextKeepsDbInv(db: Db, op: Op, now: real)
    requires DbInv(db)
    ensures DbInv(NextDb(db, op, now).0)
  {
    var after := NextDb(db, op, now).0;
    forall id | id in after
      ensures after[id].row.id == id && Inv(after[id])
    {
      if id in db {
        OneCallIsAStepOfEachRun(db, op, now, id);
        NextKeepsInv(db[id], CallOn(db, op, now, id), now);
        NextExtends(db[id], CallOn(db, op, now, id), now);
      } else {
        NewFileInv(id, op.task, now);
      }
    }
  }

  datatype StoreHistory = StoreHistory(dbs: seq<Db>, ops: seq<Op>, clock: seq<real>, outcomes: seq<Outcome>) {

    ghost predicate Follows(i: nat)
      requires i < |ops| && |dbs| == |ops| + 1 && |clock| == |outcomes| == |ops|
    {
      NextDb(dbs[i], ops[i], clock[i]) == (dbs[i + 1], outcomes[i])
    }

    /** A history that starts with an empty store. */
    ghost predicate Valid() {
      && |dbs| == |ops| + 1 && |clock| == |outcomes| == |ops|
      && dbs[0] == map[]
      && forall i :: 0 <= i < |ops| ==> Follows(i)
    }
  }

  lemma {:induction false} DbInvAt(s: StoreHistory, i: nat)
    requires s.Valid() && i <= |s.ops|
    ensures DbInv(s.dbs[i])
  {
    if i > 0 {
      DbInvAt(s, i - 1);
      assert s.Follows(i - 1);
      NextKeepsDbInv(s.dbs[i - 1], s.ops[i - 1], s.clock[i - 1]);
    }
  }

  /** A run enters the store with a new file: no lease, no effects, no checkpoints, one event. */
  lemma RunsStartNew(s: StoreHistory, n: nat, id: string)
    requires s.Valid() && n < |s.ops| && id !in s.dbs[n] && id in s.dbs[n + 1]
    ensures s.ops[n].CreateRun? && s.dbs[n + 1][id] == NewFile(id, s.ops[n].task, s.clock[n])
  {
    assert s.Follows(n);
  }

  ghost predicate Projects(s: StoreHistory, id: string, from: nat, upto: nat, h: History)
    requires s.Valid() && from <= upto <= |s.ops|
  {
    && h.Valid() && |h.calls| == upto - from
    && (forall n {:trigger s.dbs[n]} :: from <= n <= upto ==> id in s.dbs[n] && h.files[n - from] == s.dbs[n][id])
    && (forall n {:trigger s.ops[n]} :: from <= n < upto ==>
          && h.calls[n - from] == CallOn(s.dbs[n], s.ops[n], s.clock[n], id)
          && h.clock[n - from] == s.clock[n]
          && (!h.calls[n - from].Elsewhere? ==> h.outcomes[n - from] == s.outcomes[n]))
  }

  lemma StepAppends(g: History, call: Call, now: real, step: Step)
    requires g.Valid() && Next(g.files[|g.calls|], call, now) == step
    ensures History(g.files + [step.file], g.calls + [call], g.clock + [now], g.outcomes + [step.outcome]).Valid()
  {
    var h := History(g.files + [step.file], g.calls + [call], g.clock + [now], g.outcomes + [step.outcome]);
    forall i | 0 <= i < |h.calls|
      ensures h.Follows(i)
    {
      if i < |g.calls| {
        assert g.Follows(i);
      }
    }
  }

  lemma ProjectsOneMore(s: StoreHistory, id: string, from: nat, n: nat, g: History, h: History, step: Step)
    requires s.Valid() && from <= n < |s.ops| && id in s.dbs[n] && id in s.dbs[n + 1]
    requires Projects(s, id, from, n, g) && h.Valid()
    requires var call := CallOn(s.dbs[n], s.ops[n], s.clock[n], id);
      && h == History(g.files + [step.file], g.calls + [call], g.clock + [s.clock[n]], g.outcomes + [step.outcome])
      && step.file == s.dbs[n + 1][id] && (!call.Elsewhere? ==> step.outcome == s.outcomes[n])
    ensures Projects(s, id, from, n + 1, h)
  {
    hide History.Follows, StoreHistory.Follows, CallOn;
    forall m | from <= m <= n + 1
      ensures id in s.dbs[m] && h.files[m - from] == s.dbs[m][id]
    {
      if m <= n {
        assert h.files[m - from] == g.files[m - from];
      }
    }
    forall m | from <= m < n + 1
      ensures h.calls[m - from] == CallOn(s.dbs[m], s.ops[m], s.clock[m], id)
      ensures h.clock[m - from] == s.clock[m]
      ensures !h.calls[m - from].Elsewhere? ==> h.outcomes[m - from] == s.outcomes[m]
    {
      if m < n {
        assert h.calls[m - from] == g.calls[m - from] && h.outcomes[m - from] == g.outcomes[m - from];
      }
    }
    assert forall m {:trigger s.ops[m]} :: from <= m < n + 1 ==>
          && h.calls[m - from] == CallOn(s.dbs[m], s.ops[m], s.clock[m], id)
          && h.clock[m - from] == s.clock[m]
          && (!h.calls[m - from].Elsewhere? ==> h.outcomes[m - from] == s.outcomes[m]);
  }

  /** From the moment a run exists, the store's history is a history of that run. */
  lemma {:induction false} Projection(s: StoreHistory, id: string, from: nat, upto: nat) returns (h: History)
    requires s.Valid() && from <= upto <= |s.ops| && id in s.dbs[from]
    ensures Projects(s, id, from, upto, h)
    decreases upto
  {
    DbInvAt(s, from);
    if from == upto {
      h := History([s.dbs[from][id]], [], [], []);
    } else {
      var g := Projection(s, id, from, upto - 1);
      var n := upto - 1;
      assert s.Follows(n);
      var call := CallOn(s.dbs[n], s.ops[n], s.clock[n], id);
      OneCallIsAStepOfEachRun(s.dbs[n], s.ops[n], s.clock[n], id);
      var step := Next(s.dbs[n][id], call, s.clock[n]);
      h := History(g.files + [step.file], g.calls + [call], g.clock + [s.clock[n]], g.outcomes + [step.outcome]);
      StepAppends(g, call, s.clock[n], step);
      ProjectsOneMore(s, id, from, n, g, h, step);
    }
  }
}

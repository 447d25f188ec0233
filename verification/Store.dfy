/** The SQLite tables, each indexed by run, and the calls on them. The ghost field `files` gathers the rows of each run;
    every method is proved to move its run's file exactly as `RunFiles.Next` says and to leave the
    files of all other runs alone. */
module Store {
  import opened Models
  import opened RunFiles
  import opened Audit
  import opened RunInvariant
  import opened ClaimQueue

  /** What `_require_lease` raises, if anything. */
  function Refusal(db: Db, lease: Lease, now: real): Option<StoreError> {
    if lease.runId !in db then Some(KeyError)
    else if !Live(db[lease.runId].row, lease, now) then Some(LeaseLost) else None
  }

  /** A call about run `id` moved that run one step and left the others alone. */
  ghost predicate OneStep(before: Db, after: Db, id: string, call: Call, now: real, outcome: Outcome) {
    && id in before && after.Keys == before.Keys
    && Next(before[id], call, now) == Step(after[id], outcome)
    && forall other :: other in before && other != id ==> after[other] == before[other]
  }

  lemma MissingRunsAreRefused(db: Db, lease: Lease, now: real)
    requires lease.runId !in db
    ensures Refusal(db, lease, now) == Some(KeyError)
  {
  }

  /** How the contract of a guarded method gives one step of its run. */
  lemma GuardedIsOneStep(before: Db, after: Db, lease: Lease, write: Write, now: real, outcome: Outcome)
    requires lease.runId in before && !BadArguments(write)
    requires Refusal(before, lease, now).Some? ==>
               after == before && outcome == Rejected(Refusal(before, lease, now).value)
    requires Refusal(before, lease, now).None? ==>
               var step := Perform(before[lease.runId], lease, write, now);
               after == before[lease.runId := step.file] && outcome == step.outcome
    ensures OneStep(before, after, lease.runId, Guarded(lease, write), now, outcome)
  {
    hide Perform;
  }

  function AfterAcquire(db: Db, runId: string, owner: string, seconds: real, now: real): (Db, Outcome) {
    if seconds <= 0.0 then (db, Rejected(ValueError))
    else if runId !in db then (db, Rejected(KeyError))
    else
      var step := DoAcquire(db[runId], owner, seconds, now);
      (db[runId := step.file], step.outcome)
  }

  ghost function AfterClaimNext(db: Db, owner: string, seconds: real, now: real): (Db, Outcome) {
    if seconds <= 0.0 then (db, Rejected(ValueError))
    else match First(db, now)
      case None => (db, Skipped)
      case Some(id) => if id !in db then (db, Skipped) else
        var step := DoClaim(db[id], owner, seconds, now);
        (db[id := step.file], step.outcome)
  }

  /** A missing or empty run id is replaced by a generated one. */
  function ChosenId(runId: Option<string>, generated: string): string {
    if runId.Some? && runId.value != "" then runId.value else generated
  }

  function AfterCreate(db: Db, task: TaskSpec, id: string, now: real): (Db, Outcome) {
    if id in db then (db, Rejected(IntegrityError))
    else (db[id := NewFile(id, task, now)], Saved(NewFile(id, task, now).row))
  }

  lemma {:induction false} LatestIsHighest(rows: seq<Checkpoint>)
    ensures LatestOf(rows).None? <==> rows == []
    ensures LatestOf(rows).Some? ==> LatestOf(rows).value in rows
    ensures LatestOf(rows).Some? ==> forall other :: other in rows ==> other.sequence <= LatestOf(rows).value.sequence
  {
    if rows != [] {
      var earlier, last := rows[..|rows| - 1], rows[|rows| - 1];
      LatestIsHighest(earlier);
      assert rows == earlier + [last];
    }
  }

  /** The rows of the four tables are the files of the runs. */
  ghost predicate Tables(files: Db, runs: map<string, RunRow>, effects: map<string, map<string, Effect>>,
                         checkpoints: map<string, seq<Checkpoint>>, events: map<string, seq<Event>>)
  {
    && (forall id :: && (id in files <==> id in runs)
                     && (id in files <==> id in effects)
                     && (id in files <==> id in checkpoints)
                     && (id in files <==> id in events))
    && (forall id :: id in runs ==> runs[id].id == id)
    && (forall id :: id in files ==> files[id] == RunFile(runs[id], effects[id], checkpoints[id], events[id]))
  }

  lemma TablesAt(files: Db, runs: map<string, RunRow>, effects: map<string, map<string, Effect>>,
                 checkpoints: map<string, seq<Checkpoint>>, events: map<string, seq<Event>>, id: string)
    requires Tables(files, runs, effects, checkpoints, events) && id in runs
    ensures id in files && id in effects && id in checkpoints && id in events && runs[id].id == id
    ensures files[id] == RunFile(runs[id], effects[id], checkpoints[id], events[id])
  {
  }

  lemma TablesShareTheRuns(files: Db, runs: map<string, RunRow>, effects: map<string, map<string, Effect>>,
                           checkpoints: map<string, seq<Checkpoint>>, events: map<string, seq<Event>>)
    requires Tables(files, runs, effects, checkpoints, events)
    ensures files.Keys == runs.Keys
  {
  }

  /** Rewriting the rows of one run. */
  lemma OneRunChanges(files: Db, runs: map<string, RunRow>, effects: map<string, map<string, Effect>>,
                      checkpoints: map<string, seq<Checkpoint>>, events: map<string, seq<Event>>,
                      id: string, file: RunFile)
    requires Tables(files, runs, effects, checkpoints, events) && file.row.id == id
    ensures Tables(files[id := file], runs[id := file.row], effects[id := file.effects],
                   checkpoints[id := file.checkpoints], events[id := file.log])
  {
  }

  class SQLiteRunStore {
    var runs: map<string, RunRow>
    var effects: map<string, map<string, Effect>>
    var checkpoints: map<string, seq<Checkpoint>>
    var events: map<string, seq<Event>>
    ghost var files: Db

    /** The tables hold what `files` says. */
    ghost predicate Valid()
      reads this
    {
      Tables(files, runs, effects, checkpoints, events)
    }

    /** The call was refused before it touched its run. */
    twostate predicate Bounced(refusal: Option<StoreError>, outcome: Outcome)
      reads this
    {
      refusal.Some? ==> outcome == Rejected(refusal.value) && files == old(files)
    }

    /** The call moved one run by one step. */
    twostate predicate Moved(id: string, step: Step, outcome: Outcome)
      reads this
    {
      files == old(files)[id := step.file] && outcome == step.outcome
    }

    constructor ()
      ensures Valid() && files == map[]
    {
      runs, effects, checkpoints, events := map[], map[], map[], map[];
      files := map[];
    }

    // Statements

    /** UPDATE runs SET ... WHERE id = ? AND revision = ?, followed by its event when a row matched. */
    method WriteRow(revision: nat, row: RunRow, kind: EventKind, now: real) returns (count: nat)
      requires Valid() && row.id in runs
      modifies this
      ensures Valid()
      ensures count == if old(runs)[row.id].revision == revision then 1 else 0
      ensures files == if count == 1
                       then old(files)[row.id := Logged(old(files)[row.id].(row := row), kind, now)]
                       else old(files)
    {
      hide Tables;
      var id := row.id;
      TablesAt(files, runs, effects, checkpoints, events, id);
      ghost var file := Logged(files[id].(row := row), kind, now);
      OneRunChanges(files, runs, effects, checkpoints, events, id, file);
      count := 0;
      if runs[id].revision == revision {
        count := 1;
        assert effects[id := file.effects] == effects && checkpoints[id := file.checkpoints] == checkpoints;
        runs := runs[id := row];
        events := events[id := events[id] + [Event(kind, now)]];
        files := files[id := file];
      }
    }

    method PutEffect(id: string, key: string, effect: Effect)
      requires Valid() && id in runs
      modifies this`effects, this`files
      ensures Valid()
      ensures files == old(files)[id := old(files)[id].(effects := old(files)[id].effects[key := effect])]
    {
      hide Tables;
      TablesAt(files, runs, effects, checkpoints, events, id);
      ghost var file := files[id].(effects := files[id].effects[key := effect]);
      OneRunChanges(files, runs, effects, checkpoints, events, id, file);
      assert runs[id := file.row] == runs && checkpoints[id := file.checkpoints] == checkpoints;
      assert events[id := file.log] == events;
      effects := effects[id := effects[id][key := effect]];
      files := files[id := file];
    }

    /** An insert or update of an effect, followed by its event. */
    method WriteEffect(id: string, key: string, effect: Effect, kind: EventKind, now: real)
      requires Valid() && id in runs
      modifies this
      ensures Valid()
      ensures files == old(files)[id := Logged(old(files)[id].(effects := old(files)[id].effects[key := effect]),
                                               kind, now)]
    {
      hide Tables;
      TablesAt(files, runs, effects, checkpoints, events, id);
      ghost var file := Logged(files[id].(effects := files[id].effects[key := effect]), kind, now);
      OneRunChanges(files, runs, effects, checkpoints, events, id, file);
      assert runs[id := file.row] == runs && checkpoints[id := file.checkpoints] == checkpoints;
      effects := effects[id := effects[id][key := effect]];
      events := events[id := events[id] + [Event(kind, now)]];
      files := files[id := file];
    }

    method InsertCheckpoint(checkpoint: Checkpoint, kind: EventKind, now: real)
      requires Valid() && checkpoint.runId in runs
      modifies this
      ensures Valid()
      ensures var file := old(files)[checkpoint.runId];
        files == old(files)[checkpoint.runId :=
                   Logged(file.(checkpoints := file.checkpoints + [checkpoint]), kind, now)]
    {
      hide Tables;
      var id := checkpoint.runId;
      TablesAt(files, runs, effects, checkpoints, events, id);
      ghost var file := files[id].(checkpoints := files[id].checkpoints + [checkpoint]);
      OneRunChanges(files, runs, effects, checkpoints, events, id, Logged(file, kind, now));
      assert runs[id := file.row] == runs && effects[id := file.effects] == effects;
      checkpoints := checkpoints[id := checkpoints[id] + [checkpoint]];
      events := events[id := events[id] + [Event(kind, now)]];
      files := files[id := Logged(file, kind, now)];
    }

    // Calls

    /** A taken id violates the primary key. */
    method CreateRun(task: TaskSpec, runId: Option<string>, generated: string, now: real) returns (outcome: Outcome)
      requires Valid()
      modifies this
      ensures Valid()
      ensures files == AfterCreate(old(files), task, ChosenId(runId, generated), now).0
      ensures outcome == AfterCreate(old(files), task, ChosenId(runId, generated), now).1
    {
      hide Tables;
      TablesShareTheRuns(files, runs, effects, checkpoints, events);
      var id := ChosenId(runId, generated);
      if id in runs {
        return Rejected(IntegrityError);
      }
      var file := NewFile(id, task, now);
      OneRunChanges(files, runs, effects, checkpoints, events, id, file);
      runs := runs[id := file.row];
      effects := effects[id := file.effects];
      checkpoints := checkpoints[id := file.checkpoints];
      events := events[id := file.log];
      files := files[id := file];
      outcome := Saved(file.row);
    }

    method GetRun(runId: string) returns (outcome: Outcome)
      requires Valid()
      ensures outcome == if runId in files then Saved(files[runId].row) else Rejected(KeyError)
    {
      outcome := if runId in runs then Saved(runs[runId]) else Rejected(KeyError);
    }

    /** Hands out the first claimable run in queue order, or skips when there is none. */
    method ClaimNext(owner: string, seconds: real, now: real) returns (outcome: Outcome)
      requires Valid()
      modifies this
      ensures Valid()
      ensures files == AfterClaimNext(old(files), owner, seconds, now).0
      ensures outcome == AfterClaimNext(old(files), owner, seconds, now).1
      ensures outcome.Granted? ==>
                && outcome.lease.runId in old(runs)
                && var row := old(runs)[outcome.lease.runId];
                && Waits(row, now) && outcome.lease.expiresAt == now + seconds
                && forall other :: other in old(runs) && Waits(old(runs)[other], now) ==>
                     GoesBefore(row, old(runs)[other])
      ensures outcome != Rejected(ConcurrencyConflict)
    {
      if seconds <= 0.0 {
        return Rejected(ValueError);
      }
      var candidates := set id | id in runs && Claimable(runs[id], now);
      assert candidates == ClaimableIds(files, now);
      FirstIfAny(files, now);
      if candidates == {} {
        return Skipped;
      }
      ghost var _ := FirstExists(runs, candidates);
      var id :| id in candidates && forall other | other in candidates :: Before(runs[id], runs[other]);
      assert IsFirst(files, now, id);
      FirstIs(files, now, id);
      FirstGoesBeforeAll(files, now, id);
      outcome := GrantLease(id, owner, seconds, now);
    }

    method GrantLease(id: string, owner: string, seconds: real, now: real) returns (outcome: Outcome)
      requires Valid() && id in runs && (runs[id].status.Pending? || runs[id].status.Running?)
      modifies this
      ensures Valid()
      ensures var step := Grant(old(files)[id], owner, seconds, now);
        files == old(files)[id := step.file] && outcome == step.outcome
      ensures outcome != Rejected(ConcurrencyConflict)
    {
      var row := runs[id];
      var count := WriteRow(row.revision, GrantedRow(row, owner, seconds, now), GrantEvent(row, owner), now);
      outcome := if count != 1 then Rejected(ConcurrencyConflict)
      else Granted(Lease(id, owner, row.fence + 1, now + seconds));
    }

    method AcquireRun(runId: string, owner: string, seconds: real, now: real) returns (outcome: Outcome)
      requires Valid()
      modifies this
      ensures Valid()
      ensures files == AfterAcquire(old(files), runId, owner, seconds, now).0
      ensures outcome == AfterAcquire(old(files), runId, owner, seconds, now).1
      ensures outcome != Rejected(ConcurrencyConflict)
    {
      if seconds <= 0.0 {
        return Rejected(ValueError);
      }
      if runId !in runs {
        return Rejected(KeyError);
      }
      var row := runs[runId];
      if row.status.Running? && row.expires.None? {
        outcome := Rejected(TypeError);
      } else if row.status.Running? && now < row.expires.value {
        outcome := if row.owner != Some(owner) then Rejected(LeaseLost)
        else Granted(Lease(runId, owner, row.fence, row.expires.value));
      } else if !row.status.Pending? && !row.status.Running? {
        outcome := Rejected(InvalidTransition);
      } else {
        outcome := GrantLease(runId, owner, seconds, now);
      }
    }

    method RequireLease(lease: Lease, now: real) returns (refusal: Option<StoreError>)
      requires Valid()
      ensures refusal == Refusal(files, lease, now)
    {
      if lease.runId !in runs {
        return Some(KeyError);
      }
      var row := runs[lease.runId];
      if row.owner != Some(lease.owner) || row.fence != lease.fence {
        return Some(LeaseLost);
      }
      if row.expires.None? || row.expires.value <= now {
        return Some(LeaseLost);
      }
      return None;
    }

    method RenewLease(lease: Lease, seconds: real, now: real) returns (outcome: Outcome)
      requires Valid()
      modifies this
      ensures Valid() && Bounced(if seconds <= 0.0 then Some(ValueError) else Refusal(old(files), lease, now), outcome)
      ensures seconds > 0.0 && Refusal(old(files), lease, now).None? ==>
                Moved(lease.runId, DoRenew(old(files)[lease.runId], lease, seconds, now), outcome)
      ensures outcome != Rejected(ConcurrencyConflict)
      ensures outcome.Granted? ==>
                && outcome.lease == Lease(lease.runId, lease.owner, lease.fence, now + seconds)
                && lease.runId in runs && runs[lease.runId].expires == Some(now + seconds)
    {
      if seconds <= 0.0 {
        return Rejected(ValueError);
      }
      var refusal := RequireLease(lease, now);
      if refusal.Some? {
        return Rejected(refusal.value);
      }
      var row := runs[lease.runId];
      var count := WriteRow(row.revision, RenewedRow(row, seconds, now), LeaseRenewed(lease.owner, lease.fence), now);
      outcome := if count != 1 then Rejected(ConcurrencyConflict) else Granted(lease.(expiresAt := now + seconds));
    }

    method TransitionRun(lease: Lease, target: RunStatus, stage: Option<string>, result: Option<Document>,
                         error: Option<string>, now: real) returns (outcome: Outcome)
      requires Valid()
      modifies this
      ensures Valid() && Bounced(Refusal(old(files), lease, now), outcome)
      ensures Refusal(old(files), lease, now).None? ==>
                Moved(lease.runId, DoTransition(old(files)[lease.runId], target, stage, result, error, now), outcome)
      ensures outcome != Rejected(ConcurrencyConflict)
    {
      var refusal := RequireLease(lease, now);
      if refusal.Some? {
        return Rejected(refusal.value);
      }
      var row := runs[lease.runId];
      if target !in row.status.Successors() {
        return Rejected(InvalidTransition);
      }
      var next := TransitionedRow(row, target, stage, result, error, now);
      var count := WriteRow(row.revision, next, RunTransitioned(row.status, target, next.stage, error), now);
      outcome := if count != 1 then Rejected(ConcurrencyConflict) else Saved(next);
    }

    method AdvanceStage(lease: Lease, stage: string, evidence: Option<Document>, now: real) returns (outcome: Outcome)
      requires Valid()
      modifies this
      ensures Valid() && Bounced(Refusal(old(files), lease, now), outcome)
      ensures Refusal(old(files), lease, now).None? ==>
                Moved(lease.runId, DoAdvance(old(files)[lease.runId], stage, evidence, now), outcome)
      ensures outcome != Rejected(ConcurrencyConflict)
    {
      var refusal := RequireLease(lease, now);
      if refusal.Some? {
        return Rejected(refusal.value);
      }
      var row := runs[lease.runId];
      if !row.status.Running? {
        return Rejected(InvalidTransition);
      }
      var next := Bumped(row, now).(stage := stage);
      var count := WriteRow(row.revision, next, StageStarted(stage, ShownEvidence(evidence)), now);
      outcome := if count != 1 then Rejected(ConcurrencyConflict) else Saved(next);
    }

    method RecordCheckpoint(lease: Lease, stage: string, source: string, environment: string, payload: Document,
                            now: real) returns (outcome: Outcome)
      requires Valid()
      modifies this
      ensures Valid() && Bounced(Refusal(old(files), lease, now), outcome)
      ensures Refusal(old(files), lease, now).None? ==>
                Moved(lease.runId, DoRecord(old(files)[lease.runId], stage, source, environment, payload, now), outcome)
    {
      var refusal := RequireLease(lease, now);
      if refusal.Some? {
        return Rejected(refusal.value);
      }
      var last := MaxSequence(checkpoints[lease.runId]);
      var checkpoint := Checkpoint(lease.runId, last + 1, stage, source, environment, payload, now);
      InsertCheckpoint(checkpoint, CheckpointRecorded(checkpoint.sequence, stage), now);
      outcome := Recorded(checkpoint);
    }

    method LatestCheckpoint(runId: string) returns (latest: Option<Checkpoint>)
      requires Valid()
      ensures latest == if runId in files then LatestOf(files[runId].checkpoints) else None
      ensures latest.None? <==> runId !in files || files[runId].checkpoints == []
      ensures latest.Some? ==>
                && latest.value in files[runId].checkpoints
                && forall other :: other in files[runId].checkpoints ==> other.sequence <= latest.value.sequence
    {
      if runId in runs {
        LatestIsHighest(checkpoints[runId]);
      }
      latest := if runId in runs then LatestOf(checkpoints[runId]) else None;
    }

    method BeginEffect(lease: Lease, key: string, name: string, request: Request, now: real)
      returns (outcome: Outcome)
      requires Valid()
      modifies this
      ensures Valid() && Bounced(Refusal(old(files), lease, now), outcome)
      ensures Refusal(old(files), lease, now).None? ==>
                Moved(lease.runId, DoBegin(old(files)[lease.runId], lease, key, name, request, now), outcome)
    {
      var refusal := RequireLease(lease, now);
      if refusal.Some? {
        return Rejected(refusal.value);
      }
      var id := lease.runId;
      outcome := DecideEffect(lease, key, name, request, now);
    }

    /** `begin_effect` once the lease is known to be live. */
    method DecideEffect(lease: Lease, key: string, name: string, request: Request, now: real)
      returns (outcome: Outcome)
      requires Valid() && lease.runId in runs
      modifies this
      ensures Valid()
      ensures Moved(lease.runId, DoBegin(old(files)[lease.runId], lease, key, name, request, now), outcome)
    {
      var id := lease.runId;
      if key !in effects[id] {
        var started := NewEffect(name, request, lease.fence, now);
        WriteEffect(id, key, started, EffectStarted(key, name), now);
        return Decided(true, started);
      }
      var effect := effects[id][key];
      if effect.name != name || effect.requestHash != HashOf(request) {
        return Rejected(EffectConflict);
      }
      if effect.status.Succeeded? {
        return Decided(false, effect);
      }
      if effect.status.Started? && effect.fence != lease.fence {
        WriteEffect(id, key, effect.(status := Unknown, updatedAt := now), EffectBecameUnknown(key, effect.fence), now);
      } else if effect.status.Failed? {
        var retried := effect.(status := Started, fence := lease.fence, error := None, updatedAt := now);
        PutEffect(id, key, retried);
        return Decided(true, retried);
      }
      outcome := Rejected(NeedsReconciliation);
    }

    method FinishEffect(lease: Lease, key: string, succeeded: bool, result: Option<Document>,
                        error: Option<string>, now: real) returns (outcome: Outcome)
      requires Valid()
      modifies this
      ensures Valid() && Bounced(Refusal(old(files), lease, now), outcome)
      ensures Refusal(old(files), lease, now).None? ==>
                Moved(lease.runId, DoFinish(old(files)[lease.runId], lease, key, succeeded, result, error, now),
                      outcome)
    {
      var refusal := RequireLease(lease, now);
      if refusal.Some? {
        return Rejected(refusal.value);
      }
      var id := lease.runId;
      if key !in effects[id] || !effects[id][key].status.Started? || effects[id][key].fence != lease.fence {
        return Rejected(LeaseLost);
      }
      var effect := effects[id][key].(status := Verdict(succeeded), result := result, updatedAt := now,
                                        error := if error.Some? then Some(Message(error.value)) else None);
      WriteEffect(id, key, effect, EffectFinished(key, Verdict(succeeded)), now);
      outcome := Resolved(effect);
    }

    method ReconcileEffect(lease: Lease, key: string, succeeded: bool, evidence: Document, now: real)
      returns (outcome: Outcome)
      requires Valid()
      modifies this
      ensures Valid()
      ensures Bounced(if evidence.EmptyObject? then Some(ValueError) else Refusal(old(files), lease, now), outcome)
      ensures !evidence.EmptyObject? && Refusal(old(files), lease, now).None? ==>
                Moved(lease.runId, DoReconcile(old(files)[lease.runId], lease, key, succeeded, evidence, now), outcome)
    {
      if evidence.EmptyObject? {
        return Rejected(ValueError);
      }
      var refusal := RequireLease(lease, now);
      if refusal.Some? {
        return Rejected(refusal.value);
      }
      var id := lease.runId;
      if key !in effects[id] || !effects[id][key].status.Unknown? {
        return Rejected(EffectConflict);
      }
      var effect := effects[id][key].(status := Verdict(succeeded), fence := lease.fence, updatedAt := now,
                                        result := if succeeded then Some(evidence) else None,
                                        error := if succeeded then None else Some(EvidenceNote(evidence)));
      WriteEffect(id, key, effect, EffectReconciled(key, Verdict(succeeded), evidence), now);
      outcome := Resolved(effect);
    }

    method Events(runId: string) returns (log: seq<Event>)
      requires Valid()
      ensures log == if runId in files then files[runId].log else []
      ensures runId in files && Inv(files[runId]) ==> AuditLog(log).Good? && RowAgrees(AuditLog(log).view, runs[runId])
    {
      log := if runId in runs then events[runId] else [];
    }
  }
}

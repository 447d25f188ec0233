/** A queue claim split into an early read of the queue and a later update that is conditional on the
    revision: when it does what the atomic claim does. */
module SplitClaim {
  import opened Models
  import opened RunFiles
  import opened RunInvariant
  import opened RunHistory
  import opened ClaimQueue
  import opened Store
  import opened StoreHistory

  /** Choose the first run in the queue that was read, then update it if its revision has not moved. */
  ghost function ClaimInTwoSteps(early: Db, late: Db, owner: string, seconds: real, now: real): (Db, Outcome) {
    if seconds <= 0.0 then (late, Rejected(ValueError))
    else match First(early, now)
      case None => (late, Skipped)
      case Some(id) => if id !in early || id !in late then (late, Skipped) else
        var step := SplitCall(early[id], late[id], Claim(owner, seconds), now);
        (late[id := step.file], step.outcome)
  }

  /** The queue still starts where it started when it was read, and that run has not been written since. */
  ghost predicate StillFirst(early: Db, late: Db, now: real) {
    First(late, now) == First(early, now) &&
    (First(early, now).Some? ==>
       var id := First(early, now).value;
       id in early && id in late && late[id].row.revision == early[id].row.revision)
  }

  lemma FirstIsClaimable(db: Db, now: real)
    requires First(db, now).Some?
    ensures First(db, now).value in db && Claimable(db[First(db, now).value].row, now)
  {
  }

  /** What the split claim does to the run it chose, seen from that run. */
  lemma ChosenRunFollows(s: StoreHistory, i: nat, j: nat, id: string, owner: string, seconds: real, now: real)
    requires s.Valid() && i <= j <= |s.ops| && id in s.dbs[i]
    ensures id in s.dbs[j]
    ensures var (early, late, call) := (s.dbs[i][id], s.dbs[j][id], Claim(owner, seconds));
      var split := SplitCall(early, late, call, now);
      && early.row.revision <= late.row.revision
      && (split.file != late ==> split == Next(late, call, now))
      && (early.row.revision == late.row.revision ==> late.row == early.row && split == Next(late, call, now))
  {
    hide Next, Inv;
    var h := Projection(s, id, i, j);
    SplitCallRefinesAtomic(h, 0, j - i, Claim(owner, seconds), now);
    HistoryExtends(h, 0, j - i);
    assert h.files[0] == s.dbs[i][id] && h.files[j - i] == s.dbs[j][id];
  }

  /** A claim of a claimable run is planned, so a moved revision makes it conflict. */
  lemma MovedRunsConflict(early: RunFile, late: RunFile, owner: string, seconds: real, now: real)
    requires Claimable(early.row, now) && seconds > 0.0 && early.row.revision != late.row.revision
    ensures SplitCall(early, late, Claim(owner, seconds), now) == Refuse(late, ConcurrencyConflict)
  {
  }

  lemma ClaimsAreGranted(f: RunFile, owner: string, seconds: real, now: real)
    requires Claimable(f.row, now) && seconds > 0.0
    ensures var step := Next(f, Claim(owner, seconds), now);
      step.outcome.Granted? && step.outcome.lease.runId == f.row.id && step == DoClaim(f, owner, seconds, now)
  {
  }

  /** The split claim is the atomic claim at the commit if and only if the run it chose is still first there
      and has not been written since it was read, or the queue was and is empty. When it is not, the split
      claim either changes nothing or grants a run that is claimable but not first. */
  lemma SplitClaimIsAtomicIff(s: StoreHistory, i: nat, j: nat, owner: string, seconds: real, now: real)
    requires s.Valid() && i <= j <= |s.ops| && seconds > 0.0
    ensures var (early, late) := (s.dbs[i], s.dbs[j]);
      var split := ClaimInTwoSteps(early, late, owner, seconds, now);
      && (split == AfterClaimNext(late, owner, seconds, now) <==> StillFirst(early, late, now))
      && (split.1.Granted? ==>
            && split.1.lease.runId in ClaimableIds(late, now)
            && split.0 == ClaimOne(late, split.1.lease.runId, owner, seconds, now))
      && (!split.1.Granted? ==> split.0 == late)
  {
    hide DoClaim, SplitCall, Next, Inv, StoreHistory.Follows, First, Claimable;
    var (early, late) := (s.dbs[i], s.dbs[j]);
    DbInvAt(s, i);
    DbInvAt(s, j);
    if First(late, now).Some? {
      FirstIsClaimable(late, now);
      ClaimsAreGranted(late[First(late, now).value], owner, seconds, now);
    }
    if First(early, now).Some? {
      FirstIsClaimable(early, now);
      ChosenRunFollowsAtCommit(s, i, j, owner, seconds, now);
    }
  }

  lemma ChosenRunFollowsAtCommit(s: StoreHistory, i: nat, j: nat, owner: string, seconds: real, now: real)
    requires s.Valid() && i <= j <= |s.ops| && seconds > 0.0 && First(s.dbs[i], now).Some?
    ensures var id := First(s.dbs[i], now).value;
      && id in s.dbs[i] && id in s.dbs[j]
      && var (early, late) := (s.dbs[i][id], s.dbs[j][id]);
      var split := SplitCall(early, late, Claim(owner, seconds), now);
      if early.row.revision == late.row.revision then
        && Claimable(late.row, now) && late.row.id == id
        && split == DoClaim(late, owner, seconds, now) == Grant(late, owner, seconds, now)
        && split.outcome.Granted? && split.outcome.lease.runId == id
      else split == Step(late, Rejected(ConcurrencyConflict))
  {
    hide SplitCall, Inv, StoreHistory.Follows, First;
    var id := First(s.dbs[i], now).value;
    FirstIsClaimable(s.dbs[i], now);
    ChosenRunFollows(s, i, j, id, owner, seconds, now);
    DbInvAt(s, j);
    if s.dbs[i][id].row.revision != s.dbs[j][id].row.revision {
      MovedRunsConflict(s.dbs[i][id], s.dbs[j][id], owner, seconds, now);
    }
  }

  // A claim that is overtaken

  lemma OnlyOne(db: Db, id: string, now: real)
    requires db.Keys == {id} && db[id].row.id == id && Claimable(db[id].row, now)
    ensures First(db, now) == Some(id)
  {
    assert Before(db[id].row, db[id].row) by { BeforeTotal(db[id].row, db[id].row); }
    assert IsFirst(db, now, id);
    FirstIs(db, now, id);
  }

  lemma OlderFirst(db: Db, older: string, newer: string, now: real)
    requires db.Keys == {older, newer} && db[older].row.id == older && db[newer].row.id == newer
    requires db[older].row.status.Pending? && db[newer].row.status.Pending?
    requires db[older].row.createdAt < db[newer].row.createdAt
    ensures First(db, now) == Some(older)
  {
    BeforeTotal(db[older].row, db[older].row);
    assert Before(db[older].row, db[newer].row);
    assert IsFirst(db, now, older);
    FirstIs(db, now, older);
  }

  /** Run "b" is created and read as the first of the queue; before the claim commits, run "a" is created
      with an earlier reading. The split claim then grants "b", the atomic one "a". */
  lemma OvertakenClaim(task: TaskSpec, owner: string, seconds: real) returns (s: StoreHistory)
    requires seconds > 0.0
    ensures s.Valid() && |s.ops| == 2
    ensures ClaimInTwoSteps(s.dbs[1], s.dbs[2], owner, seconds, 3.0).1 == Granted(Lease("b", owner, 1, 3.0 + seconds))
    ensures AfterClaimNext(s.dbs[2], owner, seconds, 3.0).1 == Granted(Lease("a", owner, 1, 3.0 + seconds))
  {
    var (a, b) := (NewFile("a", task, 1.0), NewFile("b", task, 2.0));
    var (one, two) := (map["b" := b], map["b" := b, "a" := a]);
    s := StoreHistory([map[], one, two],
                      [CreateRun(task, Some("b"), ""), CreateRun(task, Some("a"), "")],
                      [2.0, 1.0], [Saved(b.row), Saved(a.row)]);
    assert map[]["b" := b] == one && one["a" := a] == two;
    assert s.Follows(0) && s.Follows(1);
    OnlyOne(one, "b", 3.0);
    OlderFirst(two, "a", "b", 3.0);
  }
}

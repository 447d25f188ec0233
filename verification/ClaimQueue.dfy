/** Which run the queue hands out next: expired running runs before pending ones, oldest first, ties
    broken by id. */
module ClaimQueue {
  import opened Models
  import opened RunFiles
  import opened TextOrder

  type Db = map<string, RunFile>

  function Rank(row: RunRow): nat {
    if row.status.Running? then 0 else 1
  }

  /** The queue order: (rank, created_at, id). */
  predicate Before(a: RunRow, b: RunRow) {
    || Rank(a) < Rank(b)
    || (Rank(a) == Rank(b) && a.createdAt < b.createdAt)
    || (Rank(a) == Rank(b) && a.createdAt == b.createdAt && TextLeq(a.id, b.id))
  }

  lemma BeforeTotal(a: RunRow, b: RunRow)
    ensures Before(a, b) || Before(b, a)
  {
    TextLeqTotal(a.id, b.id);
  }

  lemma BeforeTransitive(a: RunRow, b: RunRow, c: RunRow)
    requires Before(a, b) && Before(b, c)
    ensures Before(a, c)
  {
    if TextLeq(a.id, b.id) && TextLeq(b.id, c.id) {
      TextLeqTransitive(a.id, b.id, c.id);
    }
  }

  /** Some row of any non-empty set of rows comes before all of it. */
  lemma {:induction false} FirstExists(runs: map<string, RunRow>, ids: set<string>) returns (first: string)
    requires ids != {} && ids <= runs.Keys
    ensures first in ids && forall id :: id in ids ==> Before(runs[first], runs[id])
    decreases |ids|
  {
    first :| first in ids;
    var rest := ids - {first};
    BeforeTotal(runs[first], runs[first]);
    if rest != {} {
      var best := FirstExists(runs, rest);
      BeforeTotal(runs[first], runs[best]);
      if !Before(runs[first], runs[best]) {
        first := best;
      }
      forall id | id in ids
        ensures Before(runs[first], runs[id])
      {
        if id in rest {
          if first != best {
            BeforeTransitive(runs[first], runs[best], runs[id]);
          }
        }
      }
    } else {
      assert ids == {first};
    }
  }

  ghost predicate WellKeyed(db: Db) {
    forall id :: id in db ==> db[id].row.id == id
  }

  function ClaimableIds(db: Db, now: real): set<string> {
    set id | id in db && Claimable(db[id].row, now)
  }

  ghost predicate IsFirst(db: Db, now: real, id: string) {
    && id in ClaimableIds(db, now)
    && forall other :: other in ClaimableIds(db, now) ==> Before(db[id].row, db[other].row)
  }

  lemma FirstIsUnique(db: Db, now: real, a: string, b: string)
    requires WellKeyed(db) && IsFirst(db, now, a) && IsFirst(db, now, b)
    ensures a == b
  {
    assert TextLeq(a, b) && TextLeq(b, a);
    TextLeqAntisymmetric(a, b);
  }

  lemma FirstIfAny(db: Db, now: real)
    ensures ClaimableIds(db, now) != {} ==> exists id :: IsFirst(db, now, id)
  {
    if ClaimableIds(db, now) != {} {
      var runs := map id | id in db :: db[id].row;
      var first := FirstExists(runs, ClaimableIds(db, now));
      assert IsFirst(db, now, first);
    }
  }

  ghost function First(db: Db, now: real): Option<string> {
    if exists id :: IsFirst(db, now, id) then
      var id :| IsFirst(db, now, id);
      Some(id)
    else None
  }

  lemma FirstIs(db: Db, now: real, id: string)
    requires WellKeyed(db) && IsFirst(db, now, id)
    ensures First(db, now) == Some(id)
  {
    FirstIsUnique(db, now, id, First(db, now).value);
  }

  // Draining the queue

  ghost function ClaimOne(db: Db, id: string, owner: string, seconds: real, now: real): Db
    requires id in db
  {
    db[id := Grant(db[id], owner, seconds, now).file]
  }

  lemma ClaimOneLeavesTheRest(db: Db, id: string, owner: string, seconds: real, now: real)
    requires id in ClaimableIds(db, now) && seconds > 0.0
    ensures ClaimableIds(ClaimOne(db, id, owner, seconds, now), now) == ClaimableIds(db, now) - {id}
  {
    var row := GrantedRow(db[id].row, owner, seconds, now);
    assert row.expires.value > now;
  }

  /** The runs handed out by repeating `claim_next` at one clock reading until it returns nothing. */
  ghost function Drain(db: Db, owner: string, seconds: real, now: real): seq<string>
    requires seconds > 0.0
    decreases |ClaimableIds(db, now)|
  {
    match First(db, now)
    case None => []
    case Some(id) =>
      ClaimOneLeavesTheRest(db, id, owner, seconds, now);
      [id] + Drain(ClaimOne(db, id, owner, seconds, now), owner, seconds, now)
  }

  /** The ids of `ids` are the claimable runs, each once, in queue order. */
  ghost predicate SortedQueue(db: Db, now: real, ids: seq<string>) {
    && |ids| == |ClaimableIds(db, now)|
    && (forall id :: id in ids <==> id in ClaimableIds(db, now))
    && (forall i, j :: 0 <= i < j < |ids| ==>
          ids[i] in db && ids[j] in db && ids[i] != ids[j] && Before(db[ids[i]].row, db[ids[j]].row))
  }

  lemma QueueGrows(db: Db, claimed: Db, now: real, id: string, rest: seq<string>)
    requires IsFirst(db, now, id) && SortedQueue(claimed, now, rest)
    requires ClaimableIds(claimed, now) == ClaimableIds(db, now) - {id}
    requires forall other :: other in db && other != id ==> other in claimed && claimed[other] == db[other]
    ensures SortedQueue(db, now, [id] + rest)
  {
    var ids := [id] + rest;
    assert forall other :: other in ids <==> other == id || other in rest;
    forall i, j | 0 <= i < j < |ids|
      ensures ids[i] in db && ids[j] in db && ids[i] != ids[j] && Before(db[ids[i]].row, db[ids[j]].row)
    {
      assert ids[j] == rest[j - 1] && rest[j - 1] in rest;
      if i > 0 {
        assert ids[i] == rest[i - 1] && rest[i - 1] in rest;
      }
    }
  }

  /** Draining returns exactly the claimable runs, each once, in queue order, and then stops. */
  lemma {:induction false} DrainIsTheSortedQueue(db: Db, owner: string, seconds: real, now: real)
    requires seconds > 0.0 && WellKeyed(db)
    ensures SortedQueue(db, now, Drain(db, owner, seconds, now))
    decreases |ClaimableIds(db, now)|
  {
    FirstIfAny(db, now);
    var first := First(db, now);
    if first.Some? {
      var id := first.value;
      var claimed := ClaimOne(db, id, owner, seconds, now);
      ClaimOneLeavesTheRest(db, id, owner, seconds, now);
      DrainIsTheSortedQueue(claimed, owner, seconds, now);
      QueueGrows(db, claimed, now, id, Drain(claimed, owner, seconds, now));
    }
  }

  // The order, spelled out

  /** The run waits for a worker: it is new, or its worker's lease has run out. */
  predicate Waits(row: RunRow, now: real) {
    row.status == Pending || (row.status == Running && row.expires.Some? && row.expires.value <= now)
  }

  /** One waiting run goes before another: a run with an expired lease before a new one, otherwise the older
      before the younger, otherwise the one with the smaller id. */
  predicate GoesBefore(a: RunRow, b: RunRow) {
    if a.status == b.status then a.createdAt < b.createdAt || (a.createdAt == b.createdAt && InOrder(a.id, b.id))
    else a.status == Running && b.status == Pending
  }

  lemma BeforeMeansGoesBefore(a: RunRow, b: RunRow, now: real)
    requires Waits(a, now) && Waits(b, now)
    ensures Before(a, b) <==> GoesBefore(a, b)
  {
    hide TextLeq, InOrder;
    TextLeqMeansInOrder(a.id, b.id);
  }

  /** The first run of the queue waits, and every other run that waits comes after it. */
  lemma FirstGoesBeforeAll(db: Db, now: real, id: string)
    requires IsFirst(db, now, id)
    ensures id in db && Waits(db[id].row, now)
    ensures forall other :: other in db && Waits(db[other].row, now) ==> GoesBefore(db[id].row, db[other].row)
  {
    hide Before, GoesBefore;
    forall other | other in db && Waits(db[other].row, now)
      ensures GoesBefore(db[id].row, db[other].row)
    {
      assert other in ClaimableIds(db, now);
      BeforeMeansGoesBefore(db[id].row, db[other].row, now);
    }
  }

  /** Draining hands out exactly the runs that wait, each once, in that order. */
  lemma DrainIsInOrder(db: Db, owner: string, seconds: real, now: real)
    requires seconds > 0.0 && WellKeyed(db)
    ensures var ids := Drain(db, owner, seconds, now);
      && (forall id :: id in ids <==> id in db && Waits(db[id].row, now))
      && forall i, j :: 0 <= i < j < |ids| ==>
           ids[i] in db && ids[j] in db && ids[i] != ids[j] && GoesBefore(db[ids[i]].row, db[ids[j]].row)
  {
    hide Before, GoesBefore, Drain;
    DrainIsTheSortedQueue(db, owner, seconds, now);
    var ids := Drain(db, owner, seconds, now);
    forall i, j | 0 <= i < j < |ids|
      ensures ids[i] in db && ids[j] in db && ids[i] != ids[j] && GoesBefore(db[ids[i]].row, db[ids[j]].row)
    {
      assert ids[i] in ids && ids[j] in ids;
      BeforeMeansGoesBefore(db[ids[i]].row, db[ids[j]].row, now);
    }
  }
}

/** Properties of whole histories of one run: any calls, by any workers, with any clock readings. */
module RunHistory {
  import opened Models
  import opened RunFiles
  import opened RunInvariant

  /** `files[i]` is the state before call i and `files[i + 1]` the state after it. */
  datatype History = History(files: seq<RunFile>, calls: seq<Call>, clock: seq<real>, outcomes: seq<Outcome>) {

    ghost predicate Follows(i: nat)
      requires i < |calls| && |files| == |calls| + 1 && |clock| == |outcomes| == |calls|
    {
      Next(files[i], calls[i], clock[i]) == Step(files[i + 1], outcomes[i])
    }

    ghost predicate Valid() {
      && |files| == |calls| + 1 && |clock| == |outcomes| == |calls|
      && Inv(files[0])
      && forall i :: 0 <= i < |calls| ==> Follows(i)
    }

    /** Call i got past the lease check. */
    predicate Passed(i: nat)
      requires i < |calls| && |outcomes| == |calls|
    {
      && calls[i].Guarded?
      && (outcomes[i].Rejected? ==> outcomes[i].error.NeedsReconciliation?)
    }

    predicate Executes(i: nat, key: string)
      requires i < |calls| && |outcomes| == |calls|
    {
      && calls[i].Guarded? && calls[i].write.Begin? && calls[i].write.key == key
      && outcomes[i].Decided? && outcomes[i].execute
    }

    /** Call i resolved the effect to failed. */
    predicate Fails(i: nat, key: string)
      requires i < |calls| && |outcomes| == |calls|
    {
      && calls[i].Guarded? && (calls[i].write.Finish? || calls[i].write.Reconcile?)
      && calls[i].write.key == key && outcomes[i].Resolved? && !calls[i].write.succeeded
    }
  }

  lemma {:induction false} InvAt(h: History, i: nat)
    requires h.Valid() && i <= |h.calls|
    ensures Inv(h.files[i])
  {
    if i > 0 {
      InvAt(h, i - 1);
      assert h.Follows(i - 1);
      NextKeepsInv(h.files[i - 1], h.calls[i - 1], h.clock[i - 1]);
    }
  }

  /** Later files extend earlier ones: the log and the checkpoints only grow, fences and revisions
      never fall, and succeeded effects and terminal runs stay as they are. */
  lemma {:induction false} HistoryExtends(h: History, i: nat, j: nat)
    requires h.Valid() && i <= j <= |h.calls|
    ensures Extends(h.files[i], h.files[j])
  {
    if i < j {
      HistoryExtends(h, i, j - 1);
      InvAt(h, j - 1);
      assert h.Follows(j - 1);
      NextExtends(h.files[j - 1], h.calls[j - 1], h.clock[j - 1]);
      ExtendsTransitive(h.files[i], h.files[j - 1], h.files[j]);
    }
  }

  // Fencing

  lemma PassedHoldsTheLease(h: History, i: nat)
    requires h.Valid() && i < |h.calls| && h.Passed(i)
    ensures Live(h.files[i].row, h.calls[i].lease, h.clock[i])
    ensures h.files[i + 1].row.fence == h.calls[i].lease.fence
  {
    assert h.Follows(i);
  }

  /** The fences of writes that get past the lease check never decrease, and no other fence gets in
      between two writes of one fence. Nothing is assumed about the clock. */
  lemma FencesNeverDecrease(h: History, i: nat, k: nat, j: nat)
    requires h.Valid() && i <= k <= j < |h.calls|
    requires h.Passed(i) && h.Passed(k) && h.Passed(j)
    ensures h.calls[i].lease.fence <= h.calls[k].lease.fence <= h.calls[j].lease.fence
    ensures h.calls[i].lease.fence == h.calls[j].lease.fence ==>
              && h.calls[k].lease.fence == h.calls[i].lease.fence
              && h.calls[k].lease.owner == h.calls[i].lease.owner
  {
    PassedHoldsTheLease(h, i);
    PassedHoldsTheLease(h, k);
    PassedHoldsTheLease(h, j);
    HistoryExtends(h, i, k);
    HistoryExtends(h, k, j);
    InvAt(h, k);
  }

  /** Once a higher fence is issued, a write with a lower one is refused and changes nothing. */
  lemma StaleWritesBounce(h: History, i: nat, j: nat)
    requires h.Valid() && i <= j < |h.calls| && h.calls[j].Guarded?
    requires h.calls[j].lease.fence < h.files[i].row.fence
    ensures h.outcomes[j].Rejected? && h.files[j + 1] == h.files[j]
  {
    HistoryExtends(h, i, j);
    assert h.Follows(j);
  }

  lemma GrantedNamesTheHolder(h: History, i: nat)
    requires h.Valid() && i < |h.calls| && h.outcomes[i].Granted?
    ensures var lease := h.outcomes[i].lease;
      h.files[i + 1].row.owner == Some(lease.owner) && h.files[i + 1].row.fence == lease.fence
  {
    assert h.Follows(i);
    InvAt(h, i);
  }

  /** Every lease with one fence was issued to one owner, re-entrant grants and renewals included. */
  lemma FenceHasOneOwner(h: History, i: nat, j: nat)
    requires h.Valid() && i <= j < |h.calls| && h.outcomes[i].Granted? && h.outcomes[j].Granted?
    requires h.outcomes[i].lease.fence == h.outcomes[j].lease.fence
    ensures h.outcomes[i].lease.owner == h.outcomes[j].lease.owner
  {
    GrantedNamesTheHolder(h, i);
    GrantedNamesTheHolder(h, j);
    HistoryExtends(h, i + 1, j + 1);
    InvAt(h, j + 1);
  }

  /** Call i moved the lease expiry: a renewal that was accepted. */
  predicate Renews(h: History, i: nat)
    requires i < |h.calls| && |h.outcomes| == |h.calls|
  {
    h.calls[i].Guarded? && h.calls[i].write.Renew? && h.outcomes[i].Granted?
  }

  lemma GrantSetsTheExpiry(f: RunFile, call: Call, now: real)
    requires Inv(f) && Next(f, call, now).outcome.Granted?
    ensures var (g, lease) := (Next(f, call, now).file, Next(f, call, now).outcome.lease);
      g.row.owner == Some(lease.owner) && g.row.expires == Some(lease.expiresAt)
  {
  }

  /** What an accepted renewal returns and stores: the same owner and fence, until the reading plus the length
      asked for. */
  lemma RenewalsAddTheLength(h: History, i: nat)
    requires h.Valid() && i < |h.calls| && Renews(h, i)
    ensures var (lease, seconds, row) := (h.calls[i].lease, h.calls[i].write.seconds, h.files[i + 1].row);
      && seconds > 0.0
      && h.outcomes[i].lease == lease.(expiresAt := h.clock[i] + seconds)
      && row.expires == Some(h.clock[i] + seconds)
      && row.owner == h.files[i].row.owner == Some(lease.owner) && row.fence == h.files[i].row.fence == lease.fence
  {
    assert h.Follows(i);
  }

  /** What a claim or acquire is granted: the next fence for the caller until the reading plus the length asked
      for, or, to the owner of a lease that has not expired, that lease as it stands. */
  lemma GrantsAddTheLength(h: History, i: nat)
    requires h.Valid() && i < |h.calls| && h.outcomes[i].Granted? && !h.calls[i].Guarded?
    ensures var (call, lease, row) := (h.calls[i], h.outcomes[i].lease, h.files[i].row);
      && (call.Claim? || call.Acquire?) && call.seconds > 0.0
      && lease.owner == call.owner && lease.runId == row.id
      && h.files[i + 1].row.expires == Some(lease.expiresAt)
      && if row.status.Running? && row.expires.Some? && h.clock[i] < row.expires.value then
           h.files[i + 1] == h.files[i] && row.owner == Some(call.owner) && lease.fence == row.fence
         else
           lease.fence == row.fence + 1 && lease.expiresAt == h.clock[i] + call.seconds
  {
    assert h.Follows(i);
    InvAt(h, i);
  }

  lemma OnlyRenewalsMoveTheExpiry(f: RunFile, call: Call, now: real)
    requires Inv(f) && !(call.Guarded? && call.write.Renew? && Next(f, call, now).outcome.Granted?)
    ensures var g := Next(f, call, now).file;
      g.row.fence == f.row.fence && !g.row.status.Terminal() ==>
        g.row.owner == f.row.owner && g.row.expires == f.row.expires
  {
  }

  lemma {:induction false} ExpiryStands(h: History, i: nat, j: nat)
    requires h.Valid() && i < j <= |h.calls| && h.outcomes[i].Granted?
    requires forall k :: i < k < j ==> !Renews(h, k)
    requires h.files[j].row.fence == h.outcomes[i].lease.fence && !h.files[j].row.status.Terminal()
    ensures var lease := h.outcomes[i].lease;
      h.files[j].row.owner == Some(lease.owner) && h.files[j].row.expires == Some(lease.expiresAt)
  {
    hide Next, Inv;
    assert h.Follows(j - 1);
    InvAt(h, j - 1);
    if i == j - 1 {
      GrantSetsTheExpiry(h.files[i], h.calls[i], h.clock[i]);
    } else {
      assert !Renews(h, j - 1);
      GrantedNamesTheHolder(h, i);
      HistoryExtends(h, i + 1, j - 1);
      HistoryExtends(h, j - 1, j);
      ExpiryStands(h, i, j - 1);
      OnlyRenewalsMoveTheExpiry(h.files[j - 1], h.calls[j - 1], h.clock[j - 1]);
    }
  }

  /** A lease is good until it expires, and only until then. Unless it is renewed or the run ends, a
      call whose clock reads before the expiry cannot take the run over, and a write under the lease
      gets past the check; a call that asks for the run and reads the expiry or later takes a running
      run over with the next fence. */
  lemma LeaseIsHonoured(h: History, i: nat, j: nat)
    requires h.Valid() && i < j < |h.calls| && h.outcomes[i].Granted?
    requires forall k :: i < k < j ==> !Renews(h, k)
    requires h.files[j].row.fence == h.outcomes[i].lease.fence && !h.files[j].row.status.Terminal()
    ensures var (lease, call) := (h.outcomes[i].lease, h.calls[j]);
      && (h.clock[j] < lease.expiresAt ==>
            && h.files[j + 1].row.fence == lease.fence
            && (h.outcomes[j].Granted? ==> h.outcomes[j].lease.owner == lease.owner)
            && (call.Guarded? && call.lease.owner == lease.owner && call.lease.fence == lease.fence ==>
                  Live(h.files[j].row, call.lease, h.clock[j])))
      && (lease.expiresAt <= h.clock[j] ==>
            && (call.Guarded? ==> h.outcomes[j].Rejected? && h.files[j + 1] == h.files[j])
            && (h.files[j].row.status.Running? && (call.Acquire? || call.Claim?) && call.seconds > 0.0 ==>
                  && h.outcomes[j] == Granted(Lease(h.files[j].row.id, call.owner, lease.fence + 1,
                                                    h.clock[j] + call.seconds))
                  && h.files[j + 1].row.owner == Some(call.owner)))
  {
    ExpiryStands(h, i, j);
    assert h.Follows(j);
    InvAt(h, j);
  }

  /** A call got past the lease check, told from its answer: a checkpoint is recorded, a lease renewed, a
      stage started if the run is running. */
  predicate PastTheCheck(h: History, j: nat)
    requires j < |h.calls| && |h.outcomes| == |h.calls| && |h.files| == |h.calls| + 1
    requires h.calls[j].Guarded?
  {
    && (h.calls[j].write.Record? ==> h.outcomes[j].Recorded?)
    && (h.calls[j].write.Renew? && h.calls[j].write.seconds > 0.0 ==> h.outcomes[j].Granted?)
    && (h.calls[j].write.Advance? && h.files[j].row.status.Running? ==> h.outcomes[j].Saved?)
    && (h.calls[j].write.Transition? && h.files[j].row.status.Running? && h.calls[j].write.target.Terminal() ==>
          h.outcomes[j].Saved?)
  }

  /** A lease lasts as long as was asked for. From an accepted renewal or a new grant with reading t and
      length s, until another renewal or the end of the run: with a reading below t + s, writes under the
      lease get past the check and no call takes the run over; from t + s on they are refused. */
  lemma LeaseLasts(h: History, i: nat, j: nat, until: real)
    requires h.Valid() && i < j < |h.calls| && h.outcomes[i].Granted?
    requires if h.calls[i].Guarded? then Renews(h, i) && until == h.clock[i] + h.calls[i].write.seconds
             else
               && (h.calls[i].Claim? || h.calls[i].Acquire?) && until == h.clock[i] + h.calls[i].seconds
               && h.files[i + 1].row.fence != h.files[i].row.fence
    requires forall k :: i < k < j ==> !Renews(h, k)
    requires h.files[j].row.fence == h.outcomes[i].lease.fence && !h.files[j].row.status.Terminal()
    ensures h.outcomes[i].lease.expiresAt == until
    ensures var (lease, call) := (h.outcomes[i].lease, h.calls[j]);
      if h.clock[j] < until then
        && h.files[j + 1].row.fence == lease.fence
        && (h.outcomes[j].Granted? ==> h.outcomes[j].lease.owner == lease.owner)
        && (call.Guarded? && call.lease.owner == lease.owner && call.lease.fence == lease.fence ==>
              PastTheCheck(h, j))
      else
        call.Guarded? ==> h.outcomes[j].Rejected? && h.files[j + 1] == h.files[j]
  {
    hide Next, Inv, Live;
    LeaseIsHonoured(h, i, j);
    if h.calls[i].Guarded? {
      RenewalsAddTheLength(h, i);
    } else {
      GrantsAddTheLength(h, i);
    }
    if h.calls[j].Guarded? && Live(h.files[j].row, h.calls[j].lease, h.clock[j]) {
      LiveCallsPass(h, j);
    }
  }

  lemma LiveCallsPass(h: History, j: nat)
    requires h.Valid() && j < |h.calls| && h.calls[j].Guarded? && Live(h.files[j].row, h.calls[j].lease, h.clock[j])
    ensures PastTheCheck(h, j)
  {
    assert h.Follows(j);
  }

  /** A run leaves PENDING only by a first grant, to RUNNING under fence 1; the table's step from
      PENDING to CANCELED needs a lease, and a pending run has none. */
  lemma PendingRunsOnlyStart(h: History, i: nat)
    requires h.Valid() && i < |h.calls| && h.files[i].row.status.Pending?
    ensures h.files[i + 1] == h.files[i] || (h.outcomes[i].Granted? && h.outcomes[i].lease.fence == 1)
    ensures h.files[i + 1] != h.files[i] ==> h.files[i + 1].row.status.Running? && h.files[i + 1].row.fence == 1
  {
    assert h.Follows(i);
    InvAt(h, i);
  }

  // Revisions

  /** No ABA: a revision names one row. */
  lemma RevisionNamesTheRow(h: History, i: nat, j: nat)
    requires h.Valid() && i <= j <= |h.calls|
    requires h.files[i].row.revision == h.files[j].row.revision
    ensures forall k :: i <= k <= j ==> h.files[k].row == h.files[i].row
  {
    forall k | i <= k <= j
      ensures h.files[k].row == h.files[i].row
    {
      HistoryExtends(h, i, k);
      HistoryExtends(h, k, j);
    }
  }

  /** The calls that write the runs row under a revision check. */
  predicate WritesRow(call: Call) {
    || call.Claim? || call.Acquire?
    || (call.Guarded? && (call.write.Renew? || call.write.Transition? || call.write.Advance?))
  }

  /** A split form of a row-writing call: decide on an early reading of the row, then write the new
      row and its event only if the revision is still the one read. */
  function SplitCall(early: RunFile, late: RunFile, call: Call, now: real): Step {
    var planned := Next(early, call, now);
    if planned.file == early then planned.(file := late)
    else if late.row.revision != early.row.revision then Refuse(late, ConcurrencyConflict)
    else Step(late.(row := planned.file.row, log := late.log + planned.file.log[|early.log|..]), planned.outcome)
  }

  /** When the split form commits it does exactly what the atomic call does at the commit, whatever
      happened in between; otherwise it changes nothing. */
  lemma SplitCallRefinesAtomic(h: History, i: nat, j: nat, call: Call, now: real)
    requires h.Valid() && i <= j <= |h.calls| && WritesRow(call)
    ensures var split := SplitCall(h.files[i], h.files[j], call, now);
      && (split.file != h.files[j] ==> split == Next(h.files[j], call, now))
      && (h.files[i].row.revision == h.files[j].row.revision ==> split == Next(h.files[j], call, now))
      && (split.outcome == Rejected(ConcurrencyConflict) ==>
            split.file == h.files[j] && h.files[i].row.revision < h.files[j].row.revision)
  {
    HistoryExtends(h, i, j);
    InvAt(h, i);
    var (early, late) := (h.files[i], h.files[j]);
    var planned := Next(early, call, now);
    if early.row.revision == late.row.revision && planned.file != early {
      assert planned.file.log == early.log + [planned.file.log[|early.log|]];
      assert planned.file.log[|early.log|..] == [planned.file.log[|early.log|]];
    }
  }

  /** Nothing changes a finished run: no row, effect, checkpoint or event. */
  lemma TerminalRunsStayPut(h: History, i: nat, j: nat)
    requires h.Valid() && i <= j < |h.calls| && h.files[i].row.status.Terminal()
    ensures h.files[j + 1] == h.files[i]
    ensures h.outcomes[j].Rejected? || h.outcomes[j].Skipped?
  {
    HistoryExtends(h, i, j);
    HistoryExtends(h, i, j + 1);
    InvAt(h, i);
    assert h.Follows(j);
  }

  // The effect ledger

  function Executions(h: History, key: string, n: nat): nat
    requires n <= |h.calls| && |h.outcomes| == |h.calls|
  {
    if n == 0 then 0 else Executions(h, key, n - 1) + if h.Executes(n - 1, key) then 1 else 0
  }

  function Failures(h: History, key: string, n: nat): nat
    requires n <= |h.calls| && |h.outcomes| == |h.calls|
  {
    if n == 0 then 0 else Failures(h, key, n - 1) + if h.Fails(n - 1, key) then 1 else 0
  }

  /** One when the effect is present and not failed. */
  function Held(f: RunFile, key: string): nat {
    if key in f.effects && !f.effects[key].status.Failed? then 1 else 0
  }

  lemma EachCallConserves(h: History, key: string, i: nat)
    requires h.Valid() && i < |h.calls|
    ensures Held(h.files[i + 1], key) + (if h.Fails(i, key) then 1 else 0) ==
            Held(h.files[i], key) + if h.Executes(i, key) then 1 else 0
    ensures key !in h.files[i + 1].effects ==> key !in h.files[i].effects && !h.Executes(i, key)
  {
    assert h.Follows(i);
  }

  /** Conservation: a key is handed out for execution once for each failed resolution, plus once
      more when it is present and not failed. Two processes sharing a lease are no exception. */
  lemma {:induction false} ExecutionsAreConserved(h: History, key: string, n: nat)
    requires h.Valid() && n <= |h.calls| && key !in h.files[0].effects
    ensures Executions(h, key, n) == Failures(h, key, n) + Held(h.files[n], key)
    ensures key !in h.files[n].effects ==> Executions(h, key, n) == 0
  {
    hide History.Follows;
    if n > 0 {
      ExecutionsAreConserved(h, key, n - 1);
      EachCallConserves(h, key, n - 1);
    }
  }

  /** A succeeded effect never changes and is never handed out again; a repeated begin of its
      request replays it, and a begin of any other request is refused. */
  lemma SucceededEffectsReplay(h: History, i: nat, j: nat, key: string)
    requires h.Valid() && i <= j < |h.calls|
    requires key in h.files[i].effects && h.files[i].effects[key].status.Succeeded?
    ensures key in h.files[j + 1].effects && h.files[j + 1].effects[key] == h.files[i].effects[key]
    ensures !h.Executes(j, key) && !h.Fails(j, key)
    ensures h.calls[j].Guarded? && h.calls[j].write.Begin? && h.calls[j].write.key == key && h.Passed(j) ==>
              h.outcomes[j] == Decided(false, h.files[i].effects[key])
  {
    HistoryExtends(h, i, j);
    HistoryExtends(h, i, j + 1);
    assert h.Follows(j);
  }

  lemma ExecutedRequestIsBound(h: History, i: nat, key: string)
    requires h.Valid() && i < |h.calls| && h.Executes(i, key)
    ensures key in h.files[i + 1].effects
    ensures h.files[i + 1].effects[key].requestHash == HashOf(h.calls[i].write.request)
    ensures h.files[i + 1].effects[key].name == h.calls[i].write.name
  {
    assert h.Follows(i);
  }

  /** At most one request is ever handed out for execution under one key, for any number of takeovers. */
  lemma OneRequestPerKey(h: History, i: nat, j: nat, key: string)
    requires h.Valid() && i <= j < |h.calls| && h.Executes(i, key) && h.Executes(j, key)
    ensures h.calls[i].write.request == h.calls[j].write.request
    ensures h.calls[i].write.name == h.calls[j].write.name
  {
    ExecutedRequestIsBound(h, i, key);
    ExecutedRequestIsBound(h, j, key);
    HistoryExtends(h, i + 1, j + 1);
  }

  predicate Orphaned(f: RunFile, key: string) {
    key in f.effects && f.effects[key].status.Started? && f.effects[key].fence < f.row.fence
  }

  predicate Uncertain(f: RunFile, key: string) {
    key in f.effects && f.effects[key].status.Unknown?
  }

  predicate Settled(f: RunFile, key: string) {
    key in f.effects && (f.effects[key].status.Succeeded? || f.effects[key].status.Failed?)
  }

  lemma {:induction false} UncertainSettlesByReconcile(h: History, key: string, i: nat, j: nat) returns (b: nat)
    requires h.Valid() && i <= j <= |h.calls| && Uncertain(h.files[i], key) && Settled(h.files[j], key)
    ensures i <= b < j
    ensures h.calls[b].Guarded? && h.calls[b].write.Reconcile? && h.calls[b].write.key == key
    ensures h.Passed(b) && !h.calls[b].write.evidence.EmptyObject?
    ensures key in h.files[b + 1].effects
    ensures var (effect, evidence) := (h.files[b + 1].effects[key], h.calls[b].write.evidence);
      && effect.fence == h.calls[b].lease.fence
      && if h.calls[b].write.succeeded then effect.status.Succeeded? && effect.result == Some(evidence)
         else effect.status.Failed? && effect.error == Some(EvidenceNote(evidence))
    decreases j - i
  {
    assert h.Follows(i);
    if Uncertain(h.files[i + 1], key) {
      b := UncertainSettlesByReconcile(h, key, i + 1, j);
    } else {
      b := i;
    }
  }

  /** An effect left started by a superseded fence is settled only through a refused begin that marks
      it unknown and, after that, a reconcile with evidence by a live lease. */
  lemma {:induction false} OrphansSettleByReconcile(h: History, key: string, i: nat, j: nat) returns (a: nat, b: nat)
    requires h.Valid() && i <= j <= |h.calls| && Orphaned(h.files[i], key) && Settled(h.files[j], key)
    ensures i <= a < b < j
    ensures h.calls[a].Guarded? && h.calls[a].write.Begin? && h.calls[a].write.key == key
    ensures h.outcomes[a] == Rejected(NeedsReconciliation) && Uncertain(h.files[a + 1], key)
    ensures h.calls[b].Guarded? && h.calls[b].write.Reconcile? && h.calls[b].write.key == key
    ensures h.Passed(b) && !h.calls[b].write.evidence.EmptyObject?
    decreases j - i
  {
    assert h.Follows(i);
    if Orphaned(h.files[i + 1], key) {
      a, b := OrphansSettleByReconcile(h, key, i + 1, j);
    } else {
      a := i;
      b := UncertainSettlesByReconcile(h, key, i + 1, j);
    }
  }
}

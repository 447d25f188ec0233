/** An auditor that replays a run's event log, checks each event against what came before it,
    and rebuilds the run from the log alone. */
module Audit {
  import opened Models
  import opened RunFiles

  datatype View = View(status: RunStatus, stage: string, revision: nat, fence: nat, attempt: nat,
                       owner: Option<string>, lastError: Option<string>, createdAt: real, updatedAt: real,
                       checkpoints: nat, effects: map<string, EffectStatus>)

  /** `Corrupt` marks a log with an event that contradicts the events before it. */
  datatype Finding = Blank | Good(view: View) | Corrupt

  predicate LegalGrant(v: View, fence: nat, previous: Option<string>) {
    fence == v.fence + 1 && previous == v.owner
  }

  function AfterGrant(v: View, owner: string, now: real): View {
    v.(status := Running, owner := Some(owner), fence := v.fence + 1, attempt := v.attempt + 1,
       revision := v.revision + 1, updatedAt := now)
  }

  function Settle(v: View, key: string, from: set<EffectStatus>, to: EffectStatus): Finding {
    if v.owner.Some? && key in v.effects && v.effects[key] in from
    then Good(v.(effects := v.effects[key := to]))
    else Corrupt
  }

  function AuditEvent(v: View, kind: EventKind, now: real): Finding {
    match kind
    case RunCreated(_) => Corrupt
    case RunClaimed(owner, fence, previous) =>
      if v.status.Pending? && LegalGrant(v, fence, previous) then Good(AfterGrant(v, owner, now)) else Corrupt
    case LeaseRecovered(owner, fence, previous) =>
      if v.status.Running? && LegalGrant(v, fence, previous) then Good(AfterGrant(v, owner, now)) else Corrupt
    case LeaseRenewed(owner, fence) =>
      if v.owner == Some(owner) && v.fence == fence
      then Good(v.(revision := v.revision + 1, updatedAt := now)) else Corrupt
    case RunTransitioned(from, to, stage, error) =>
      if from == v.status && to in from.Successors() && v.owner.Some?
      then Good(v.(status := to, stage := stage, lastError := error,
                   owner := if to.Terminal() then None else v.owner,
                   revision := v.revision + 1, updatedAt := now))
      else Corrupt
    case StageStarted(stage, _) =>
      if v.status.Running? then Good(v.(stage := stage, revision := v.revision + 1, updatedAt := now))
      else Corrupt
    case CheckpointRecorded(sequence, _) =>
      if v.owner.Some? && sequence == v.checkpoints + 1 then Good(v.(checkpoints := sequence)) else Corrupt
    case EffectStarted(key, _) =>
      if v.owner.Some? && key !in v.effects then Good(v.(effects := v.effects[key := Started])) else Corrupt
    // A failed effect is retried without an event, so the next event may find it still failed.
    case EffectBecameUnknown(key, previousFence) =>
      if previousFence < v.fence then Settle(v, key, {Started, EffectStatus.Failed}, Unknown) else Corrupt
    case EffectFinished(key, status) =>
      if status.Succeeded? || status.Failed? then Settle(v, key, {Started, EffectStatus.Failed}, status) else Corrupt
    case EffectReconciled(key, status, evidence) =>
      if (status.Succeeded? || status.Failed?) && !evidence.EmptyObject? then Settle(v, key, {Unknown}, status)
      else Corrupt
  }

  function AuditNext(finding: Finding, event: Event): Finding {
    match finding
    case Corrupt => Corrupt
    case Blank =>
      (match event.kind
       case RunCreated(stage) =>
         Good(View(Pending, stage, 0, 0, 0, None, None, event.at, event.at, 0, map[]))
       case _ => Corrupt)
    case Good(view) => AuditEvent(view, event.kind, event.at)
  }

  function AuditLog(log: seq<Event>): Finding {
    if |log| == 0 then Blank else AuditNext(AuditLog(log[..|log| - 1]), log[|log| - 1])
  }

  lemma AuditAppend(log: seq<Event>, event: Event)
    ensures AuditLog(log + [event]) == AuditNext(AuditLog(log), event)
  {
    assert (log + [event])[..|log|] == log;
  }

  /** The audited status of an effect is its status, except that a silent retry reads as failed. */
  predicate StatusAgrees(audited: EffectStatus, actual: EffectStatus) {
    audited == actual || (audited.Failed? && actual.Started?)
  }

  ghost predicate EffectsAgree(v: View, effects: map<string, Effect>) {
    && v.effects.Keys == effects.Keys
    && forall k :: k in effects ==> StatusAgrees(v.effects[k], effects[k].status)
  }

  predicate RowAgrees(v: View, row: RunRow) {
    && v.status == row.status && v.stage == row.stage && v.revision == row.revision
    && v.fence == row.fence && v.attempt == row.attempt && v.owner == row.owner
    && v.lastError == row.lastError && v.createdAt == row.createdAt && v.updatedAt == row.updatedAt
  }

  /** The log rebuilds everything in the file but the task, the lease expiry and the result. */
  ghost predicate LogRebuilds(f: RunFile) {
    var finding := AuditLog(f.log);
    && finding.Good?
    && RowAgrees(finding.view, f.row)
    && finding.view.checkpoints == |f.checkpoints|
    && EffectsAgree(finding.view, f.effects)
  }

  predicate IsEffectEvent(kind: EventKind) {
    kind.EffectStarted? || kind.EffectBecameUnknown? || kind.EffectFinished? || kind.EffectReconciled?
  }

  /** The status an effect event reports. */
  function Reported(kind: EventKind): EffectStatus
    requires IsEffectEvent(kind)
  {
    match kind
    case EffectStarted(_, _) => Started
    case EffectBecameUnknown(_, _) => Unknown
    case EffectFinished(_, status) => status
    case EffectReconciled(_, status, _) => status
  }

  lemma EffectEventsReport(log: seq<Event>, event: Event)
    requires AuditLog(log).Good? && AuditLog(log + [event]).Good?
    ensures AuditLog(log + [event]).view.effects ==
              if IsEffectEvent(event.kind) then AuditLog(log).view.effects[event.kind.key := Reported(event.kind)]
              else AuditLog(log).view.effects
  {
    AuditAppend(log, event);
  }

  // What an audited log looks like

  predicate IsGrant(kind: EventKind) {
    kind.RunClaimed? || kind.LeaseRecovered?
  }

  function Grants(log: seq<Event>): nat {
    if |log| == 0 then 0
    else Grants(log[..|log| - 1]) + if IsGrant(log[|log| - 1].kind) then 1 else 0
  }

  /** Fence and attempt both count the grants; a run is pending, and has no owner, until its first grant. */
  lemma {:induction false} GrantsCountFences(log: seq<Event>)
    requires AuditLog(log).Good?
    ensures AuditLog(log).view.fence == AuditLog(log).view.attempt == Grants(log)
    ensures AuditLog(log).view.status.Pending? <==> Grants(log) == 0
    ensures AuditLog(log).view.status.Pending? ==> AuditLog(log).view.owner.None?
  {
    var earlier := log[..|log| - 1];
    if AuditLog(earlier).Good? {
      GrantsCountFences(earlier);
    } else {
      assert AuditLog(earlier).Blank?;
      BlankMeansEmpty(earlier);
    }
  }

  lemma BlankMeansEmpty(log: seq<Event>)
    requires AuditLog(log).Blank?
    ensures log == []
  {
  }

  lemma {:induction false} PrefixGood(log: seq<Event>, n: nat)
    requires AuditLog(log).Good? && 1 <= n <= |log|
    ensures AuditLog(log[..n]).Good?
  {
    if n < |log| {
      var earlier := log[..|log| - 1];
      if AuditLog(earlier).Blank? {
        BlankMeansEmpty(earlier);
      }
      PrefixGood(earlier, n);
      assert earlier[..n] == log[..n];
    } else {
      assert log[..n] == log;
    }
  }

  /** In an audited log each event is legal where it stands: a transition starts from the replayed
      status, the run is claimed from the queue at most once and before any recovery, and the
      n-th grant carries fence n. */
  lemma {:induction false} EventsFollowTheReplay(log: seq<Event>, i: nat)
    requires AuditLog(log).Good? && 1 <= i < |log|
    ensures AuditLog(log[..i]).Good?
    ensures log[i].kind.RunTransitioned? ==>
              && log[i].kind.from == AuditLog(log[..i]).view.status
              && log[i].kind.to in log[i].kind.from.Successors()
              && log[i].kind.from != Pending
    ensures log[i].kind.RunClaimed? <==> IsGrant(log[i].kind) && Grants(log[..i]) == 0
    ensures log[i].kind.RunClaimed? ==> log[i].kind.fence == 1
    ensures log[i].kind.LeaseRecovered? ==> log[i].kind.fence == Grants(log[..i]) + 1
    ensures !log[i].kind.RunCreated?
  {
    PrefixGood(log, i);
    PrefixGood(log, i + 1);
    assert log[..i + 1][..i] == log[..i];
    GrantsCountFences(log[..i]);
  }
}

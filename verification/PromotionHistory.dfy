/** The theorems about whole histories of calls, interrupted anywhere. */
module PromotionHistory {
  import opened Wrappers
  import opened ActivationPromotion
  import opened PromotionRecovery
  import opened PromotionCalls
  import opened PromotionOrphans

  predicate Empty(d: Disk) {
    d.intents == map[] && d.snapshots == map[] && d.reports == map[] && d.acks == map[] && d.events == map[]
    && d.head.None? && d.state.None? && d.pending.None?
  }

  /** Every history that starts with an empty directory. */
  ghost predicate IsHistory(disks: seq<Disk>, calls: seq<Call>) {
    && |disks| == |calls| + 1 && Empty(disks[0])
    && forall i :: 0 < i < |disks| ==> Leads(disks, calls, i)
  }

  lemma EmptySettled(d: Disk)
    requires Empty(d)
    ensures Settled(d)
  {
  }

  lemma EmptySound(d: Disk)
    requires Empty(d)
    ensures Sound(d)
  {
    EmptySettled(d);
    SettledIsSound(d);
  }

  lemma SoundNext(d: Disk, c: Call, d': Disk)
    requires Sound(d) && d' == After(d, c)
    ensures Sound(d')
  {
    CallKeepsSound(d, c);
  }

  lemma SoundStep(disks: seq<Disk>, calls: seq<Call>, i: nat)
    requires IsHistory(disks, calls) && 0 < i < |disks| && Sound(disks[i - 1])
    ensures Sound(disks[i])
  {
    assert Leads(disks, calls, i);
    SoundNext(disks[i - 1], calls[i - 1], disks[i]);
  }

  lemma SettledNext(d: Disk, c: Call, d': Disk)
    requires Settled(d) && d' == After(d, c) && !LeavesOrphan(d, c)
    ensures Settled(d')
  {
    CallKeepsSettled(d, c);
  }

  lemma {:induction false} HistorySound(disks: seq<Disk>, calls: seq<Call>, i: nat)
    requires IsHistory(disks, calls) && i < |disks|
    ensures Sound(disks[i])
  {
    if i == 0 {
      EmptySound(disks[0]);
    } else {
      HistorySound(disks, calls, i - 1);
      SoundStep(disks, calls, i);
    }
  }

  /** Call j was an acknowledgement interrupted between its event and the head. */
  predicate OrphanAt(disks: seq<Disk>, calls: seq<Call>, j: nat)
    requires |disks| == |calls| + 1 && j < |calls|
  {
    LeavesOrphan(disks[j], calls[j])
  }

  predicate NoOrphanBefore(disks: seq<Disk>, calls: seq<Call>, i: nat)
    requires |disks| == |calls| + 1 && i < |disks|
  {
    forall j :: 0 <= j < i ==> !OrphanAt(disks, calls, j)
  }

  lemma SettledStep(disks: seq<Disk>, calls: seq<Call>, i: nat)
    requires |disks| == |calls| + 1 && 0 < i < |disks| && Leads(disks, calls, i) && !OrphanAt(disks, calls, i - 1) && Settled(disks[i - 1])
    ensures Settled(disks[i])
  {
    SettledNext(disks[i - 1], calls[i - 1], disks[i]);
  }

  lemma {:induction false} HistorySettled(disks: seq<Disk>, calls: seq<Call>, i: nat)
    requires IsHistory(disks, calls) && i < |disks| && NoOrphanBefore(disks, calls, i)
    ensures Settled(disks[i])
  {
    if i == 0 {
      EmptySettled(disks[0]);
    } else {
      HistorySettled(disks, calls, i - 1);
      SettledStep(disks, calls, i);
    }
  }

  /** In every history VerifyAudit succeeds exactly if no two events have one number up to the head's; until the first
      acknowledgement interrupted between its event and the head it always does. */
  lemma HistoryAudit(disks: seq<Disk>, calls: seq<Call>, i: nat)
    requires IsHistory(disks, calls) && i < |disks|
    ensures AuditOk(disks[i]) <==> Single(disks[i])
    ensures NoOrphanBefore(disks, calls, i) ==> AuditOk(disks[i])
  {
    HistorySound(disks, calls, i);
    AuditExactly(disks[i]);
    if NoOrphanBefore(disks, calls, i) {
      HistorySettled(disks, calls, i);
      SettledAudit(disks[i]);
    }
  }

  function Acknowledgements(h: Hash): nat {
    if h.NoHash? then 0 else Acknowledgements(h.body.previous) + (if h.body.eventType.InstanceAcknowledged? then 1 else 0)
  }

  /** The revisions of the commit events, oldest first. */
  function CommitRevisions(h: Hash): seq<nat> {
    if h.NoHash? then []
    else CommitRevisions(h.body.previous) + (if h.body.eventType.InstanceAcknowledged? then [] else [h.body.revision])
  }

  /** The commit events, oldest first. */
  function CommitEvents(h: Hash): seq<EventBody> {
    if h.NoHash? then []
    else CommitEvents(h.body.previous) + (if h.body.eventType.InstanceAcknowledged? then [] else [h.body])
  }

  lemma {:induction false} LogArithmetic(h: Hash, intentId: string)
    requires LegalLog(h, intentId)
    ensures Depth(h) == Commits(h) + Acknowledgements(h)
    ensures |CommitRevisions(h)| == Commits(h) && forall i :: 0 <= i < Commits(h) ==> CommitRevisions(h)[i] == i + 1
  {
    if h.Digest? { LogArithmetic(h.body.previous, intentId); }
  }

  /** In every history, after every call, the commit events carry the revisions 1, 2, 3, ... up to the state's, and the
      head's sequence is that revision plus the number of acknowledgement events. */
  lemma AuditArithmetic(disks: seq<Disk>, calls: seq<Call>, i: nat)
    requires IsHistory(disks, calls) && i < |disks| && disks[i].state.Some?
    ensures var d := disks[i];
      && CommitRevisions(HeadHash(d)) == seq(d.state.value.revision, (k: nat) => k + 1)
      && HeadSequence(d) == d.state.value.revision + Acknowledgements(HeadHash(d))
  {
    HistorySound(disks, calls, i);
    LogArithmetic(HeadHash(disks[i]), disks[i].state.value.intentId);
  }

  /** The commits end with events of these types. */
  predicate EndsWith(t: seq<EventBody>, kinds: seq<EventType>) {
    |t| >= |kinds| && forall i :: 0 <= i < |kinds| ==> t[|t| - |kinds| + i].eventType == kinds[i]
  }

  /** How the commits before a phase must have ended, and which of them the records are of. */
  predicate TailOk(t: seq<EventBody>, phase: Option<Phase>, evaluated: Option<Payload>, completed: Option<Payload>) {
    match phase
    case None => t == []
    case Some(Prepared) => EndsWith(t, [PromotionPrepared])
    case Some(Validated) => EndsWith(t, [PromotionValidated]) && evaluated == Some(t[|t| - 1].payload)
    case Some(Blocked) => EndsWith(t, [PromotionBlocked])
    case Some(Canary) => EndsWith(t, [PromotionValidated, CanaryStarted]) && evaluated == Some(t[|t| - 2].payload)
    case Some(Promoted) =>
      && EndsWith(t, [PromotionValidated, CanaryStarted, PromotionCompleted])
      && evaluated == Some(t[|t| - 3].payload) && completed == Some(t[|t| - 1].payload)
    case Some(RolledBack) =>
      && EndsWith(t, [PromotionValidated, CanaryStarted, PromotionCompleted, PromotionRolledBack])
      && evaluated == Some(t[|t| - 4].payload) && completed == Some(t[|t| - 2].payload)
  }

  lemma EndsWithMore(t: seq<EventBody>, kinds: seq<EventType>, e: EventBody)
    requires EndsWith(t, kinds)
    ensures EndsWith(t + [e], kinds + [e.eventType])
  {
  }

  lemma TailStep(t: seq<EventBody>, phase: Option<Phase>, evaluated: Option<Payload>, completed: Option<Payload>, e: EventBody)
    requires TailOk(t, phase, evaluated, completed) && MayFollow(phase, e.eventType) && !e.eventType.InstanceAcknowledged?
    ensures TailOk(t + [e], PhaseOf(e.eventType),
                   if e.eventType.PromotionValidated? || e.eventType.PromotionBlocked? then Some(e.payload) else evaluated,
                   if e.eventType.PromotionCompleted? then Some(e.payload) else completed)
  {
    EndsWithMore(t, [], e);
    match e.eventType {
      case CanaryStarted => EndsWithMore(t, [PromotionValidated], e);
      case PromotionCompleted => EndsWithMore(t, [PromotionValidated, CanaryStarted], e);
      case PromotionRolledBack => EndsWithMore(t, [PromotionValidated, CanaryStarted, PromotionCompleted], e);
      case _ =>
    }
  }

  lemma {:induction false} PhaseTail(h: Hash, intentId: string)
    requires LegalLog(h, intentId)
    ensures TailOk(CommitEvents(h), PhaseAfter(h), LastEvaluated(h), LastCompleted(h))
  {
    if h.Digest? {
      PhaseTail(h.body.previous, intentId);
      if h.body.eventType.InstanceAcknowledged? {
        assert CommitEvents(h) == CommitEvents(h.body.previous);
      } else {
        var p := h.body.previous;
        TailStep(CommitEvents(p), PhaseAfter(p), LastEvaluated(p), LastCompleted(p), h.body);
      }
    }
  }

  /** Instance id has acknowledged, on file, the candidate of this intent as ready. */
  predicate ReadyFile(d: Disk, intent: Intent, id: string) {
    (intent.intentId, id) in d.acks &&
    var ack := d.acks[(intent.intentId, id)];
    ack.intentId == intent.intentId && ack.activationId == intent.candidate && ack.ready
  }

  /** These are the instances that have. */
  ghost predicate Ready(d: Disk, intent: Intent, ids: set<string>) { forall id :: id in ids <==> ReadyFile(d, intent, id) }

  lemma ReadyInstancesAre(d: Disk, intent: Intent)
    ensures Ready(d, intent, ReadyInstances(d, intent.intentId, intent.candidate))
  {
    var ready := ReadyInstances(d, intent.intentId, intent.candidate);
    forall id ensures id in ready <==> ReadyFile(d, intent, id) {
      if ReadyFile(d, intent, id) { assert (intent.intentId, id).1 in ready; }
    }
  }

  /** The promotion gate. Whenever the phase is promoted: the last evaluation, whose report is on
      disk, is within the intent's thresholds; the last three commits are that evaluation with that
      report and no blocker, the start of the canary, and the promotion with its count of ready
      instances, which is enough; and at least as many distinct instances as required have
      acknowledged, each in its own file, the candidate of this intent as ready. */
  lemma PromotionGate(disks: seq<Disk>, calls: seq<Call>, i: nat)
    requires IsHistory(disks, calls) && i < |disks|
    requires disks[i].state.Some? && disks[i].state.value.phase == Promoted
    ensures Loaded(disks[i])
    ensures var d := disks[i]; var s, intent, t := d.state.value, IntentOf(d), CommitEvents(HeadHash(d));
      && s.lastReport.Some? && (s.intentId, s.lastReport.value) in d.reports
      && WithinThresholds(intent.thresholds, s.lastReport.value)
      && EndsWith(t, [PromotionValidated, CanaryStarted, PromotionCompleted])
      && t[|t| - 3].payload == Evaluation(s.lastReport.value, [])
      && EnoughReady(Some(t[|t| - 1].payload), intent.requiredReadyAcks)
      && exists ids :: Ready(d, intent, ids) && |ids| >= intent.requiredReadyAcks
  {
    HistorySound(disks, calls, i);
    PhaseTail(HeadHash(disks[i]), disks[i].state.value.intentId);
    BlockersExact(IntentOf(disks[i]).thresholds, disks[i].state.value.lastReport.value);
    ReadyInstancesAre(disks[i], IntentOf(disks[i]));
  }

  predicate WithinThresholds(t: Thresholds, s: Summary) {
    && s.maxAbsoluteScoreDelta <= t.maxScoreDelta
    && s.topCandidateChangeBps <= t.maxTopCandidateChangeBps
    && s.candidateSetChangeBps <= t.maxCandidateSetChangeBps
    && s.coverageLossCount <= t.maxCoverageLossCount
    && s.additionalBlockerCount <= t.maxAdditionalBlockerCount
  }

  lemma BlockersExact(t: Thresholds, s: Summary)
    ensures EvaluateSummary(t, s) == [] <==> WithinThresholds(t, s)
  {
    assert WithinThresholds(t, s) ==> EvaluateSummary(t, s) == [];
  }
}

/** That a promotion can be completed: from an empty directory, with the right calls, for any request. */
module PromotionCompletes {
  import opened Wrappers
  import opened Text
  import opened ActivationPromotion
  import opened PromotionRecovery
  import opened PromotionOperations
  import opened PromotionCalls
  import opened PromotionHistory
  import opened PromotionHalfway

  /** The candidate is registered and linked to the active activation. */
  predicate Linked(d: Disk, candidate: string) {
    d.active in d.documents && candidate in d.documents && candidate != d.active && d.documents[candidate] == d.active
  }

  /** The request's promotion is in this phase and revision, and no later snapshot exists. */
  predicate Underway(d: Disk, r: PrepareRequest, phase: Phase, revision: nat) {
    && Settled(d) && Loaded(d) && Linked(d, r.candidate)
    && d.state.value.intentId == r.intentId && d.state.value.phase == phase && d.state.value.revision == revision
    && d.active == IntentOf(d).current && IntentOf(d).candidate == r.candidate
    && IntentOf(d).thresholds == r.thresholds && IntentOf(d).requiredReadyAcks == r.requiredReadyAcks
    && NoneAbove(d, revision)
  }

  predicate NoneAbove(d: Disk, revision: nat) { forall k :: k in d.snapshots ==> k.1 <= revision }

  /** Exactly these instances have acknowledged, all ready. */
  predicate AckedBy(d: Disk, intentId: string, candidate: string, ids: seq<string>) {
    && (forall k :: k in d.acks ==> k.0 == intentId && k.1 in ids)
    && forall id :: id in ids ==> AckedReady(d, intentId, candidate, id)
  }

  predicate AckedReady(d: Disk, intentId: string, candidate: string, id: string) {
    (intentId, id) in d.acks && var a := d.acks[(intentId, id)]; a.intentId == intentId && a.activationId == candidate && a.ready
  }

  /** An operation run to its end. */
  function Whole(op: Op, clock: Clock): Call { Call(op, clock, 9, []) }

  /** A commit whose snapshot is new goes through. */
  lemma Commits(d: Disk, p: Plan, pre: seq<Write>, next: PromotionState, kind: EventType, actor: string, reason: string, payload: Payload, stamp: Time)
    requires Settled(d) && |pre| <= 1 && (forall w :: w in pre ==> Preamble(w) && Harmless(d, w))
    requires Advances(d, AfterPreamble(d, pre), next, kind, payload)
    requires p == Then(pre, CommitPlan(d, next, kind, actor, reason, payload, stamp)) && (next.intentId, next.revision) !in d.snapshots
    ensures p.failure.None? && |p.writes| <= 7 && Settled(PerformAll(d, p.writes))
    ensures PerformAll(d, p.writes) == CommitDisk(AfterPreamble(d, pre), next, NextEvent(d, kind, next, actor, reason, payload, stamp), 6)
  {
    var e := NextEvent(d, kind, next, actor, reason, payload, stamp);
    PlannedCommit(d, pre, next, kind, actor, reason, payload, stamp);
    CommitShape(d, next, kind, actor, reason, payload, stamp);
    OperationByWrites(d, p, pre, next, e, |p.writes|);
    assert Upto(p.writes, |p.writes|) == p.writes;
    CommittedSettled(d, p, pre, next, e);
  }

  lemma PrepareGoes(d: Disk, r: PrepareRequest, clock: Clock)
    requires Empty(d) && PrepareRequestOk(r) && Linked(d, r.candidate)
    ensures var d' := After(d, Whole(Prepare(r), clock)); Underway(d', r, Prepared, 1) && d'.acks == map[] && d'.reports == map[]
  {
    var intent := IntentFor(d, r, clock.intent);
    var next := FirstState(d, r, clock.document);
    assert LastEvaluated(HeadHash(d)) == None;
    Commits(d, PreparePlan(d, r, clock), [PutIntent(intent)], next, PromotionPrepared, intent.operator, intent.reason,
            Activations(d.active, r.candidate), clock.event);
  }

  lemma EvaluateGoes(d: Disk, r: PrepareRequest, summary: Summary, actor: string, reason: string, clock: Clock)
    requires Underway(d, r, Prepared, 1) && d.acks == map[] && d.reports == map[]
    requires summary.intentId == r.intentId != "" && summary.screeningItems >= 1 && WithinThresholds(r.thresholds, summary)
    ensures var d' := After(d, Whole(Evaluate(1, summary, actor, reason), clock)); Underway(d', r, Validated, 2) && d'.acks == map[]
  {
    var s := d.state.value;
    BlockersExact(r.thresholds, summary);
    var next := Evaluated(s, summary, [], clock.document);
    EvaluationAdvances(d, summary, next, clock.document);
    Commits(d, EvaluatePlan(d, 1, summary, actor, reason, clock), [PutReport(s.intentId, summary)], next, PromotionValidated, actor, reason,
            Evaluation(summary, []), clock.event);
    StillUnderway(d, AfterPreamble(d, [PutReport(s.intentId, summary)]), r, next,
                  NextEvent(d, PromotionValidated, next, actor, reason, Evaluation(summary, []), clock.event));
  }

  /** A commit takes the promotion one revision on. */
  lemma StillUnderway(d: Disk, d0: Disk, r: PrepareRequest, next: PromotionState, e: AuditEvent)
    requires d.state.Some? && Underway(d, r, d.state.value.phase, d.state.value.revision) && Settled(CommitDisk(d0, next, e, 6))
    requires d0.intents == d.intents && d0.documents == d.documents && d0.active == d.active && d0.snapshots == d.snapshots
    requires next.intentId == r.intentId && next.revision == d.state.value.revision + 1
    ensures Underway(CommitDisk(d0, next, e, 6), r, next.phase, next.revision)
  {
  }

  lemma CanaryCommits(d: Disk, r: PrepareRequest, actor: string, reason: string, clock: Clock)
    requires Underway(d, r, Validated, 2)
    ensures var next, p := InCanary(d.state.value, clock.document), StartCanaryPlan(d, 2, actor, reason, clock);
      && |p.writes| <= 7 && Settled(PerformAll(d, p.writes))
      && PerformAll(d, p.writes) == CommitDisk(d, next, NextEvent(d, CanaryStarted, next, actor, reason, NoPayload, clock.event), 6)
  {
    var p := StartCanaryPlan(d, 2, actor, reason, clock);
    CanaryAdvances(d, clock.document);
    assert Then([], p) == p;
    Commits(d, p, [], InCanary(d.state.value, clock.document), CanaryStarted, actor, reason, NoPayload, clock.event);
  }

  lemma CanaryGoes(d: Disk, r: PrepareRequest, actor: string, reason: string, clock: Clock)
    requires Underway(d, r, Validated, 2) && d.acks == map[]
    ensures var d' := After(d, Whole(StartCanary(2, actor, reason), clock)); Underway(d', r, Canary, 3) && d'.acks == map[]
  {
    var next := InCanary(d.state.value, clock.document);
    CanaryCommits(d, r, actor, reason, clock);
    StillUnderway(d, d, r, next, NextEvent(d, CanaryStarted, next, actor, reason, NoPayload, clock.event));
  }

  lemma AckFile(d: Disk, a: Ack, clock: Clock)
    requires AcknowledgePlan(d, a, clock).failure.None?
    ensures var ws := AcknowledgePlan(d, a, clock).writes; ws != [] && ws[0] == PutAck(a.(observedAt := clock.document))
  {
  }

  lemma ThreeWrites(d: Disk, ack: Ack, e: AuditEvent)
    ensures PerformAll(d, [PutAck(ack), PutEvent(e), PutHead(HeadOf(e))])
         == d.(acks := d.acks[(ack.intentId, ack.instanceId) := ack], events := d.events[(e.body.sequence, e.hash) := e], head := Some(HeadOf(e)))
  {
    AcknowledgeWrites(d, PutAck(ack), PutEvent(e), PutHead(HeadOf(e)), 3);
    assert Upto([PutAck(ack), PutEvent(e), PutHead(HeadOf(e))], 3) == [PutAck(ack), PutEvent(e), PutHead(HeadOf(e))];
  }

  /** What an acknowledgement that goes through leaves. */
  lemma AcknowledgeLeaves(d: Disk, a: Ack, clock: Clock) returns (e: AuditEvent)
    requires Settled(d) && AcknowledgePlan(d, a, clock).failure.None?
    ensures var ack := a.(observedAt := clock.document); var d' := After(d, Whole(Acknowledge(a), clock));
      d' == d.(acks := d.acks[(a.intentId, a.instanceId) := ack], events := d.events[(e.body.sequence, e.hash) := e], head := Some(HeadOf(e)))
      && Settled(d')
  {
    var ack, event := AcknowledgeShape(d, a, clock);
    e := event;
    AckFile(d, a, clock);
    ThreeWrites(d, ack, e);
    CallKeepsSettled(d, Whole(Acknowledge(a), clock));
  }

  function ReadyAck(r: PrepareRequest, id: string, tuple: string): Ack { Ack(r.intentId, id, r.candidate, true, tuple, 0) }

  lemma AcknowledgePlanned(d: Disk, r: PrepareRequest, ids: seq<string>, id: string, tuple: string, clock: Clock)
    requires Underway(d, r, Canary, 3) && AckedBy(d, r.intentId, r.candidate, ids) && id !in ids && SafeIdentifier(id) && !IsBlank(tuple)
    ensures AcknowledgePlan(d, ReadyAck(r, id, tuple), clock).failure.None?
  {
    var s := d.state.value;
    assert (r.intentId, id) !in d.acks;
    AppendShape(d, NextEvent(d, InstanceAcknowledged, s, id, "", Acknowledged(true, r.candidate, tuple), clock.event), s.intentId);
  }

  lemma OneMore(d: Disk, d': Disk, r: PrepareRequest, ids: seq<string>, id: string, ack: Ack)
    requires AckedBy(d, r.intentId, r.candidate, ids) && d'.acks == d.acks[(r.intentId, id) := ack]
    requires ack.intentId == r.intentId && ack.activationId == r.candidate && ack.ready
    ensures AckedBy(d', r.intentId, r.candidate, ids + [id])
  {
    forall x | x in ids + [id] ensures AckedReady(d', r.intentId, r.candidate, x) {
      if x != id { assert AckedReady(d, r.intentId, r.candidate, x); }
    }
  }

  /** One more instance reports ready. */
  lemma AcknowledgeGoes(d: Disk, r: PrepareRequest, ids: seq<string>, id: string, tuple: string, clock: Clock)
    requires Underway(d, r, Canary, 3) && AckedBy(d, r.intentId, r.candidate, ids) && id !in ids && SafeIdentifier(id) && !IsBlank(tuple)
    ensures var d' := After(d, Whole(Acknowledge(ReadyAck(r, id, tuple)), clock));
      Underway(d', r, Canary, 3) && AckedBy(d', r.intentId, r.candidate, ids + [id])
  {
    AcknowledgePlanned(d, r, ids, id, tuple, clock);
    var e := AcknowledgeLeaves(d, ReadyAck(r, id, tuple), clock);
    OneMore(d, After(d, Whole(Acknowledge(ReadyAck(r, id, tuple)), clock)), r, ids, id, ReadyAck(r, id, tuple).(observedAt := clock.document));
  }

  // ---------------------------------------------------------------- the history

  /** The disks a sequence of calls goes through. */
  ghost function Played(d: Disk, calls: seq<Call>): (disks: seq<Disk>)
    ensures |disks| == |calls| + 1 && disks[0] == d
  {
    if calls == [] then [d]
    else
      var front := Played(d, calls[..|calls| - 1]);
      front + [After(front[|calls| - 1], calls[|calls| - 1])]
  }

  lemma {:induction false} PlayedLeads(d: Disk, calls: seq<Call>, i: nat)
    requires 0 < i <= |calls|
    ensures Leads(Played(d, calls), calls, i)
  {
    if i < |calls| {
      PlayedLeads(d, calls[..|calls| - 1], i);
      LeadsMore(Played(d, calls[..|calls| - 1]), calls, Played(d, calls), i);
    }
  }

  lemma LeadsMore(front: seq<Disk>, calls: seq<Call>, disks: seq<Disk>, i: nat)
    requires |front| == |calls| && |disks| == |calls| + 1 && front == disks[..|calls|] && 0 < i < |calls|
    requires Leads(front, calls[..|calls| - 1], i)
    ensures Leads(disks, calls, i)
  {
    assert disks[i] == front[i] && disks[i - 1] == front[i - 1];
  }

  /** What a whole promotion is made with. */
  datatype Journey = Journey(
    request: PrepareRequest,
    summary: Summary,
    actor: string,
    reason: string,
    ids: seq<string>,
    tuple: string,
    clock: Clock)

  /** A sound request, a summary within its thresholds, and as many distinct instances as it requires. */
  predicate SoundJourney(d: Disk, j: Journey) {
    && Empty(d) && PrepareRequestOk(j.request) && Linked(d, j.request.candidate)
    && j.summary.intentId == j.request.intentId && j.summary.screeningItems >= 1 && WithinThresholds(j.request.thresholds, j.summary)
    && |j.ids| >= j.request.requiredReadyAcks && !IsBlank(j.tuple)
    && (forall i :: 0 <= i < |j.ids| ==> SafeIdentifier(j.ids[i]))
    && forall i, k :: 0 <= i < k < |j.ids| ==> j.ids[i] != j.ids[k]
  }

  /** The calls that bring a promotion up to its last step. */
  function Calls(j: Journey): (calls: seq<Call>)
    ensures |calls| == 3 + |j.ids| && forall i :: 0 <= i < |calls| ==> calls[i].crash == 9
    ensures forall k :: 3 <= k < |calls| ==> calls[k] == Whole(Acknowledge(ReadyAck(j.request, j.ids[k - 3], j.tuple)), j.clock)
  {
    [Whole(Prepare(j.request), j.clock), Whole(Evaluate(1, j.summary, j.actor, j.reason), j.clock), Whole(StartCanary(2, j.actor, j.reason), j.clock)]
    + seq(|j.ids|, i requires 0 <= i < |j.ids| => Whole(Acknowledge(ReadyAck(j.request, j.ids[i], j.tuple)), j.clock))
  }

  lemma CanaryReached(disks: seq<Disk>, j: Journey)
    requires IsHistory(disks, Calls(j)) && SoundJourney(disks[0], j)
    ensures Underway(disks[3], j.request, Canary, 3) && AckedBy(disks[3], j.request.intentId, j.request.candidate, [])
  {
    assert Leads(disks, Calls(j), 1) && Leads(disks, Calls(j), 2) && Leads(disks, Calls(j), 3);
    PrepareGoes(disks[0], j.request, j.clock);
    EvaluateGoes(disks[1], j.request, j.summary, j.actor, j.reason, j.clock);
    CanaryGoes(disks[2], j.request, j.actor, j.reason, j.clock);
  }

  /** The canary, with the first n instances' acknowledgements in. */
  predicate Reached(d: Disk, j: Journey, n: nat)
    requires n <= |j.ids|
  {
    Underway(d, j.request, Canary, 3) && AckedBy(d, j.request.intentId, j.request.candidate, j.ids[..n])
  }

  lemma ReachedNext(first: Disk, d: Disk, j: Journey, n: nat, c: Call, d': Disk)
    requires SoundJourney(first, j) && n < |j.ids| && Reached(d, j, n) && d' == After(d, c)
    requires c == Whole(Acknowledge(ReadyAck(j.request, j.ids[n], j.tuple)), j.clock)
    ensures Reached(d', j, n + 1)
  {
    assert j.ids[..n + 1] == j.ids[..n] + [j.ids[n]] && j.ids[n] !in j.ids[..n];
    AcknowledgeGoes(d, j.request, j.ids[..n], j.ids[n], j.tuple, j.clock);
  }

  lemma ReachedStep(disks: seq<Disk>, j: Journey, k: nat)
    requires |disks| == |Calls(j)| + 1 && 4 <= k < |disks| && Leads(disks, Calls(j), k)
    requires SoundJourney(disks[0], j) && Reached(disks[k - 1], j, k - 4)
    ensures Reached(disks[k], j, k - 3)
  {
    ReachedNext(disks[0], disks[k - 1], j, k - 4, Calls(j)[k - 1], disks[k]);
  }

  /** Disk k of the journey has the first k - 3 acknowledgements. */
  lemma {:induction false} AcksReached(disks: seq<Disk>, j: Journey, k: nat)
    requires IsHistory(disks, Calls(j)) && SoundJourney(disks[0], j) && 3 <= k < |disks|
    ensures Reached(disks[k], j, k - 3)
  {
    if k == 3 {
      CanaryReached(disks, j);
      assert j.ids[..0] == [];
    } else {
      AcksReached(disks, j, k - 1);
      ReachedStep(disks, j, k);
    }
  }

  lemma {:induction false} DistinctCount(ids: seq<string>)
    requires forall i, k :: 0 <= i < k < |ids| ==> ids[i] != ids[k]
    ensures |set x | x in ids| == |ids|
  {
    if ids != [] {
      var front, last := ids[..|ids| - 1], ids[|ids| - 1];
      DistinctCount(front);
      assert (set x | x in ids) == (set x | x in front) + {last};
    }
  }

  lemma EnoughInstances(d: Disk, intentId: string, candidate: string, ids: seq<string>)
    requires AckedBy(d, intentId, candidate, ids) && forall i, k :: 0 <= i < k < |ids| ==> ids[i] != ids[k]
    ensures |ReadyInstances(d, intentId, candidate)| >= |ids|
  {
    DistinctCount(ids);
    forall x | x in ids ensures x in ReadyInstances(d, intentId, candidate) {
      assert AckedReady(d, intentId, candidate, x);
    }
    CardinalityMonotone((set x | x in ids), ReadyInstances(d, intentId, candidate));
  }

  lemma PromotePlanned(d: Disk, r: PrepareRequest, actor: string, reason: string, clock: Clock)
    requires Underway(d, r, Canary, 3) && |ReadyInstances(d, r.intentId, r.candidate)| >= r.requiredReadyAcks
    ensures var p := OpPlan(d, Promote(3, actor, reason), clock); p.failure.None? && p.writes != [] && |p.writes| <= 7
  {
    var s := d.state.value;
    CommitShape(d, Promoting(s, clock.document), PromotionCompleted, actor, reason,
                ReadyAcks(|ReadyInstances(d, r.intentId, r.candidate)|), clock.event);
  }

  /** The disk on which the journey's promotion is called. */
  ghost function ReadyDisk(d: Disk, j: Journey): Disk { Played(d, Calls(j))[|Calls(j)|] }

  lemma ReadyToPromote(d: Disk, j: Journey)
    requires SoundJourney(d, j)
    ensures var last := ReadyDisk(d, j); var p := OpPlan(last, Promote(3, j.actor, j.reason), j.clock);
      Underway(last, j.request, Canary, 3) && p.failure.None? && p.writes != []
  {
    PlayedHistory(d, Calls(j));
    LastIsReady(Played(d, Calls(j)), j);
  }

  lemma LastIsReady(disks: seq<Disk>, j: Journey)
    requires IsHistory(disks, Calls(j)) && SoundJourney(disks[0], j)
    ensures var last := disks[|Calls(j)|]; var p := OpPlan(last, Promote(3, j.actor, j.reason), j.clock);
      Underway(last, j.request, Canary, 3) && p.failure.None? && p.writes != []
  {
    var last := disks[|Calls(j)|];
    AcksReached(disks, j, |Calls(j)|);
    assert j.ids[..|j.ids|] == j.ids;
    EnoughInstances(last, j.request.intentId, j.request.candidate, j.ids);
    PromotePlanned(last, j.request, j.actor, j.reason, j.clock);
  }

  lemma PlayedHistory(d: Disk, calls: seq<Call>)
    requires Empty(d)
    ensures IsHistory(Played(d, calls), calls)
  {
    forall i | 0 < i < |calls| + 1 ensures Leads(Played(d, calls), calls, i) { PlayedLeads(d, calls, i); }
  }

  /** The calls of a journey, and its promotion, interrupted after `crash` writes. */
  function WholeJourney(j: Journey, crash: nat, recoveries: seq<nat>): seq<Call> {
    Calls(j) + [Call(Promote(3, j.actor, j.reason), j.clock, crash, recoveries)]
  }

  /** Where a promotion ready to go through ends when it is interrupted after `crash` writes. */
  predicate Result(end: Disk, candidate: string, crash: nat) {
    && end.state.Some?
    && (crash == 0 ==> end.state.value.phase == Canary && InStep(end))
    && (1 <= crash <= 2 ==> HalfPromoted(end))
    && (crash >= 3 ==> end.state.value.phase == Promoted && end.active == candidate)
  }

  /** From any empty directory, for any sound request: preparing, evaluating within the thresholds, starting the canary and
      as many acknowledgements as required lead to a promotion that goes through. Interrupted after its first or
      second write it is half done; interrupted elsewhere it is not begun, or complete. */
  lemma PromotionCompletes(d: Disk, j: Journey, crash: nat, recoveries: seq<nat>)
    requires SoundJourney(d, j)
    ensures var calls := WholeJourney(j, crash, recoveries);
      IsHistory(Played(d, calls), calls) && Result(Played(d, calls)[|calls|], j.request.candidate, crash)
  {
    JourneyLast(d, j, crash, recoveries);
    JourneyHistory(d, j, crash, recoveries);
    JourneyEnd(d, j, crash, recoveries);
  }

  lemma JourneyHistory(d: Disk, j: Journey, crash: nat, recoveries: seq<nat>)
    requires Empty(d)
    ensures IsHistory(Played(d, WholeJourney(j, crash, recoveries)), WholeJourney(j, crash, recoveries))
  {
    PlayedHistory(d, WholeJourney(j, crash, recoveries));
  }

  lemma JourneyEnd(d: Disk, j: Journey, crash: nat, recoveries: seq<nat>)
    requires SoundJourney(d, j)
    ensures Result(After(ReadyDisk(d, j), Call(Promote(3, j.actor, j.reason), j.clock, crash, recoveries)), j.request.candidate, crash)
  {
    ReadyToPromote(d, j);
    PromoteEnds(ReadyDisk(d, j), j.request, Call(Promote(3, j.actor, j.reason), j.clock, crash, recoveries));
  }

  lemma JourneyLast(d: Disk, j: Journey, crash: nat, recoveries: seq<nat>)
    ensures var calls := WholeJourney(j, crash, recoveries);
      Played(d, calls)[|calls|] == After(ReadyDisk(d, j), Call(Promote(3, j.actor, j.reason), j.clock, crash, recoveries))
  {
    PlayedMore(d, Calls(j), Call(Promote(3, j.actor, j.reason), j.clock, crash, recoveries));
  }

  lemma PlayedMore(d: Disk, calls: seq<Call>, c: Call)
    ensures Played(d, calls + [c]) == Played(d, calls) + [After(Played(d, calls)[|calls|], c)]
  {
    assert (calls + [c])[..|calls|] == calls;
  }

  lemma PromoteEnds(d: Disk, r: PrepareRequest, c: Call)
    requires Underway(d, r, Canary, 3) && c.op.Promote? && OpPlan(d, c.op, c.clock).failure.None? && OpPlan(d, c.op, c.clock).writes != []
    ensures Result(After(d, c), r.candidate, c.crash)
  {
    PromoteSwitches(d, c.op, c.clock);
    var next := SwitchOutcome(d, c, r.candidate);
  }

  // ---------------------------------------------------------------- and rolled back

  /** The promotion went through and its rollback can. */
  predicate CanRollBack(d: Disk) {
    && Settled(d) && Loaded(d) && d.state.value.phase == Promoted && d.state.value.revision == 4
    && d.active == IntentOf(d).candidate && d.active in d.documents && d.documents[d.active] == IntentOf(d).current
    && IntentOf(d).current in d.documents && NoneAbove(d, 4)
  }

  lemma PromotedDisk(d: Disk, r: PrepareRequest, c: Call)
    requires Underway(d, r, Canary, 3) && c.op.Promote? && c.crash >= 8
    requires OpPlan(d, c.op, c.clock).failure.None? && OpPlan(d, c.op, c.clock).writes != []
    ensures CanRollBack(After(d, c))
  {
    var pre, next, e := OpCommits(d, c.op, c.clock);
    var p := OpPlan(d, c.op, c.clock);
    PromoteSwitches(d, c.op, c.clock);
    PreambleOf(p, pre, next, e);
    SnapshotNext(p, pre, next, e);
    CommitsNext(d, p, pre, next, e);
    CallDisk(d, c, pre, next, e);
    CallKeepsSettled(d, c);
    assert NoneAbove(CommitDisk(AfterPreamble(d, pre), next, e, 6), 4);
  }

  lemma RollbackPlanned(d: Disk, actor: string, reason: string, clock: Clock)
    requires CanRollBack(d)
    ensures var p := OpPlan(d, Rollback(4, actor, reason), clock); p.failure.None? && p.writes != []
  {
    var s := d.state.value;
    CommitShape(d, RollingBack(s, clock.document), PromotionRolledBack, actor, reason, NoPayload, clock.event);
  }

  /** A journey, and its rollback, interrupted after `crash` writes. */
  function JourneyBack(j: Journey, crash: nat, recoveries: seq<nat>): seq<Call> {
    WholeJourney(j, 9, []) + [Call(Rollback(4, j.actor, j.reason), j.clock, crash, recoveries)]
  }

  /** Where the rollback ends. */
  predicate BackResult(end: Disk, crash: nat) {
    && end.state.Some?
    && (1 <= crash <= 2 ==> HalfRolledBack(end))
    && (crash >= 3 ==> end.state.value.phase == RolledBack)
  }

  lemma BackEnds(d: Disk, c: Call)
    requires CanRollBack(d) && c.op.Rollback? && OpPlan(d, c.op, c.clock).failure.None? && OpPlan(d, c.op, c.clock).writes != []
    ensures BackResult(After(d, c), c.crash)
  {
    RollbackSwitches(d, c.op, c.clock);
    var next := SwitchOutcome(d, c, IntentOf(d).current);
  }

  /** A promotion that went through can be rolled back; interrupted after its first or second write, that is half done. */
  lemma RollbackCompletes(d: Disk, j: Journey, crash: nat, recoveries: seq<nat>)
    requires SoundJourney(d, j)
    ensures var calls := JourneyBack(j, crash, recoveries);
      IsHistory(Played(d, calls), calls) && BackResult(Played(d, calls)[|calls|], crash)
  {
    var there := Call(Promote(3, j.actor, j.reason), j.clock, 9, []);
    var back := Call(Rollback(4, j.actor, j.reason), j.clock, crash, recoveries);
    var promoted := After(ReadyDisk(d, j), there);
    PlayedMore(d, WholeJourney(j, 9, []), back);
    JourneyLast(d, j, 9, []);
    ReadyToPromote(d, j);
    PromotedDisk(ReadyDisk(d, j), j.request, there);
    RollbackPlanned(promoted, j.actor, j.reason, j.clock);
    BackEnds(promoted, back);
    BackHistory(d, j, crash, recoveries);
  }

  lemma BackHistory(d: Disk, j: Journey, crash: nat, recoveries: seq<nat>)
    requires Empty(d)
    ensures IsHistory(Played(d, JourneyBack(j, crash, recoveries)), JourneyBack(j, crash, recoveries))
  {
    PlayedHistory(d, JourneyBack(j, crash, recoveries));
  }

  // ---------------------------------------------------------------- an example of each

  const FIRST := Disk(map["a" := "", "b" := "a"], "a", map[], map[], map[], map[], map[], None, None, None)

  const JOURNEY := Journey(PrepareRequest("p", "b", "operator", "reason", 1, 1, Thresholds(0, 0, 0, 0, 0)), Summary("p", 1, 0, 0, 0, 0, 0),
                           "actor", "reason", ["i"], "t", Clock(1, 1, 1))

  lemma JourneySound()
    ensures SoundJourney(FIRST, JOURNEY)
  {
    Visible("operator");
    Visible("reason");
    Visible("t");
    assert SafeIdentifier("p") && SafeIdentifier("b") && SafeIdentifier("i");
  }

  lemma JourneyEnds(crash: nat)
    ensures exists disks, calls :: IsHistory(disks, calls) && Ends(disks, crash)
  {
    JourneySound();
    PromotionCompletes(FIRST, JOURNEY, crash, []);
    var calls := WholeJourney(JOURNEY, crash, []);
    assert Ends(Played(FIRST, calls), crash);
  }

  predicate Ends(disks: seq<Disk>, crash: nat) { disks != [] && Result(disks[|disks| - 1], JOURNEY.request.candidate, crash) }

  /** Some history ends promoted, some half promoted, */
  lemma PromotionHappens()
    ensures exists disks, calls :: IsHistory(disks, calls) && Ends(disks, 9)
    ensures exists disks, calls :: IsHistory(disks, calls) && Ends(disks, 1)
  {
    JourneyEnds(9);
    JourneyEnds(1);
  }

  predicate EndsBack(disks: seq<Disk>, crash: nat) { disks != [] && BackResult(disks[|disks| - 1], crash) }

  /** some half rolled back, */
  lemma HalfRollbackHappens()
    ensures exists disks, calls :: IsHistory(disks, calls) && EndsBack(disks, 1)
  {
    JourneySound();
    RollbackCompletes(FIRST, JOURNEY, 1, []);
    assert EndsBack(Played(FIRST, JourneyBack(JOURNEY, 1, [])), 1);
  }

  /** and in some an acknowledgement leaves an orphan. */
  lemma OrphanHappens()
    ensures exists d, c :: Settled(d) && LeavesOrphan(d, c)
  {
    JourneySound();
    PlayedHistory(FIRST, Calls(JOURNEY));
    CanaryReached(Played(FIRST, Calls(JOURNEY)), JOURNEY);
    AckInterrupted(Played(FIRST, Calls(JOURNEY))[3], JOURNEY.request, [], "i", "t", JOURNEY.clock);
  }

  lemma AckInterrupted(d: Disk, r: PrepareRequest, ids: seq<string>, id: string, tuple: string, clock: Clock)
    requires Underway(d, r, Canary, 3) && AckedBy(d, r.intentId, r.candidate, ids) && id !in ids && SafeIdentifier(id) && !IsBlank(tuple)
    ensures LeavesOrphan(d, Call(Acknowledge(ReadyAck(r, id, tuple)), clock, 2, []))
  {
    AcknowledgePlanned(d, r, ids, id, tuple, clock);
    var ack, e := AcknowledgeShape(d, ReadyAck(r, id, tuple), clock);
  }
}

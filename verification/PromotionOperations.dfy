/** Every operation is some file writes followed by a commit, and a commit keeps what holds between operations. */
module PromotionOperations {
  import opened Wrappers
  import opened Text
  import opened ActivationPromotion
  import opened PromotionRecovery

  /** The writes an operation makes before its commit touch neither the log, the state nor the pending file. */
  predicate Preamble(w: Write) { w.PutIntent? || w.PutReport? || w.PutAck? || w.SetActive? }

  /** The operation commits state `next` by event `e`, after `pre`. */
  predicate CommitsBy(d: Disk, p: Plan, pre: seq<Write>, next: PromotionState, e: AuditEvent) {
    && |pre| <= 1 && (forall w :: w in pre ==> Preamble(w))
    && p == Plan(pre + CommitWrites(next, e), None)
    && WritableOnce(d.snapshots, (next.intentId, next.revision), next)
    && e.hash == Digest(e.body) && e.body.sequence == HeadSequence(d) + 1 && e.body.previous == HeadHash(d)
    && e.body.intentId == next.intentId && e.body.revision == next.revision
  }

  /** The disk after k writes of a commit. */
  function CommitDisk(d: Disk, next: PromotionState, e: AuditEvent, k: nat): Disk {
    d.(snapshots := if k >= 1 then d.snapshots[(next.intentId, next.revision) := next] else d.snapshots,
       pending := if k < 2 then d.pending else if k < 6 then Some(Pending(next, e)) else None,
       events := if k >= 3 then d.events[(e.body.sequence, e.hash) := e] else d.events,
       head := if k >= 4 then Some(HeadOf(e)) else d.head,
       state := if k >= 5 then Some(next) else d.state)
  }

  lemma {:induction false} CommitByWrites(d: Disk, next: PromotionState, e: AuditEvent, k: nat)
    requires k <= 6
    ensures PerformAll(d, Upto(CommitWrites(next, e), k)) == CommitDisk(d, next, e, k)
  {
    if k > 0 {
      CommitByWrites(d, next, e, k - 1);
      PrefixStep(d, CommitWrites(next, e), k - 1);
    }
  }

  /** The disk after the writes before a commit. */
  function AfterPreamble(d: Disk, pre: seq<Write>): Disk { if pre == [] then d else Perform(d, pre[0]) }

  lemma PreambleDisk(d: Disk, pre: seq<Write>)
    requires |pre| <= 1 && forall w :: w in pre ==> Preamble(w)
    ensures PerformAll(d, pre) == AfterPreamble(d, pre)
    ensures var d' := AfterPreamble(d, pre);
      d'.pending == d.pending && d'.state == d.state && d'.head == d.head && d'.events == d.events && d'.snapshots == d.snapshots
  {
    if pre != [] {
      assert pre[0] in pre && pre == [pre[0]];
      assert PerformAll(Perform(d, pre[0]), []) == Perform(d, pre[0]);
    }
  }

  lemma OperationByWrites(d: Disk, p: Plan, pre: seq<Write>, next: PromotionState, e: AuditEvent, k: nat)
    requires CommitsBy(d, p, pre, next, e)
    ensures PerformAll(d, Upto(p.writes, k))
         == if k < |pre| then d
            else CommitDisk(AfterPreamble(d, pre), next, e, if k - |pre| > 6 then 6 else k - |pre|)
  {
    var six := CommitWrites(next, e);
    if k < |pre| {
      assert Upto(p.writes, k) == [];
    } else {
      var j: nat := if k - |pre| > 6 then 6 else k - |pre|;
      assert Upto(p.writes, k) == pre + Upto(six, j);
      PerformAppend(d, pre, Upto(six, j));
      PreambleDisk(d, pre);
      CommitByWrites(AfterPreamble(d, pre), next, e, j);
    }
  }

  /** The commit, write by write: up to the pending record nothing that Recover or a reader of the
      state looks at has changed; from then on the transaction is in flight. */
  lemma CommitCrash(d: Disk, p: Plan, pre: seq<Write>, next: PromotionState, e: AuditEvent, k: nat)
    requires d.pending.None? && CommitsBy(d, p, pre, next, e) && (e.body.sequence, e.hash) !in d.events
    requires k < |p.writes|
    ensures var d' := PerformAll(d, Upto(p.writes, k));
      if k < |pre| + 2 then d'.pending == None && d'.state == d.state && d'.head == d.head && d'.events == d.events
      else InFlight(d') && Completed(d') == PerformAll(d, p.writes)
  {
    PreambleDisk(d, pre);
    OperationByWrites(d, p, pre, next, e, k);
    OperationByWrites(d, p, pre, next, e, |p.writes|);
    assert Upto(p.writes, |p.writes|) == p.writes;
  }

  // ---------------------------------------------------------------- what operations keep

  lemma CardinalityMonotone<T>(a: set<T>, b: set<T>)
    requires a <= b
    ensures |a| <= |b|
  {
    assert b == a + (b - a);
  }

  /** The writes that an operation may make before or without a commit. */
  predicate Harmless(d: Disk, w: Write) {
    match w
    case PutIntent(_) => d.state.None?
    case PutReport(_, _) => true
    case PutAck(a) => WritableOnce(d.acks, (a.intentId, a.instanceId), a)
    case SetActive(_) => true
    case _ => false
  }

  lemma HarmlessSettled(d: Disk, w: Write)
    requires Settled(d) && Harmless(d, w)
    ensures Settled(Perform(d, w))
  {
    if d.state.Some? { MoreAcks(d, Perform(d, w), IntentOf(d)); }
  }

  lemma MoreAcks(d: Disk, d': Disk, intent: Intent)
    requires forall k :: k in d.acks ==> k in d'.acks && d'.acks[k] == d.acks[k]
    ensures |ReadyInstances(d, intent.intentId, intent.candidate)| <= |ReadyInstances(d', intent.intentId, intent.candidate)|
  {
    var before, after := ReadyInstances(d, intent.intentId, intent.candidate), ReadyInstances(d', intent.intentId, intent.candidate);
    forall x | x in before ensures x in after {
      assert (intent.intentId, x) in d'.acks;
    }
    CardinalityMonotone(before, after);
  }

  /** The state may follow d's by an event of this kind that records this. */
  predicate Advances(d: Disk, d0: Disk, next: PromotionState, kind: EventType, payload: Payload) {
    && PhaseOf(kind) == Some(next.phase)
    && MayFollow(PhaseAfter(HeadHash(d)), kind)
    && next.revision == (if d.state.Some? then d.state.value.revision + 1 else 1)
    && (d.state.Some? ==> next.intentId == d.state.value.intentId)
    && var d' := d0.(state := Some(next));
       && Loaded(d') && next.current == IntentOf(d').current && next.candidate == IntentOf(d').candidate != IntentOf(d').current
       && Gate(d') && LogRecords(Recording(HeadHash(d), kind, payload), next, IntentOf(d'))
  }

  /** The log with one more event, as far as its records go. */
  function Recording(h: Hash, kind: EventType, payload: Payload): Hash {
    Digest(EventBody(0, 0, kind, "", 0, "", "", payload, h))
  }

  /** The event and state of a commit continue the log of d, and the state passes its gate on d0. */
  predicate Continues(d: Disk, d0: Disk, next: PromotionState, e: AuditEvent) {
    && d0.state == d.state && d0.head == d.head && d0.events == d.events
    && e == Seal(e.body) && e.body.sequence == HeadSequence(d) + 1 && e.body.previous == HeadHash(d)
    && e.body.intentId == next.intentId && e.body.revision == next.revision
    && Advances(d, d0, next, e.body.eventType, e.body.payload)
  }

  lemma CommitSettled(d: Disk, d0: Disk, next: PromotionState, e: AuditEvent)
    requires Settled(d) && Continues(d, d0, next, e)
    ensures Settled(CommitDisk(d0, next, e, 6))
  {
    var d' := CommitDisk(d0, next, e, 6);
    assert HeadHash(d') == e.hash;
    assert ReadyInstances(d', IntentOf(d').intentId, IntentOf(d').candidate)
        == ReadyInstances(d0, IntentOf(d').intentId, IntentOf(d').candidate);
    assert Gate(d0.(state := Some(next)));
    GateCarries(d0.(state := Some(next)), d');
  }

  lemma GateCarries(d: Disk, d': Disk)
    requires Loaded(d) && Gate(d)
    requires d'.state == d.state && d'.intents == d.intents && d'.reports == d.reports && d'.acks == d.acks
    ensures Loaded(d') && Gate(d')
  {
    assert ReadyInstances(d', IntentOf(d).intentId, IntentOf(d).candidate)
        == ReadyInstances(d, IntentOf(d).intentId, IntentOf(d).candidate);
  }

  /** A commit plan after its preamble either fails before its first write or commits. */
  predicate PlansCommit(d: Disk, p: Plan, pre: seq<Write>, next: PromotionState, e: AuditEvent) {
    && |pre| <= 1 && (forall w :: w in pre ==> Preamble(w) && Harmless(d, w))
    && (if p.failure.Some? then p.writes == pre
        else CommitsBy(d, p, pre, next, e) && Continues(d, AfterPreamble(d, pre), next, e))
  }

  lemma PlannedCommit(d: Disk, pre: seq<Write>, next: PromotionState, kind: EventType, actor: string, reason: string, payload: Payload, stamp: Time)
    requires Settled(d) && |pre| <= 1 && forall w :: w in pre ==> Preamble(w) && Harmless(d, w)
    requires Advances(d, AfterPreamble(d, pre), next, kind, payload)
    ensures PlansCommit(d, Then(pre, CommitPlan(d, next, kind, actor, reason, payload, stamp)), pre, next,
                        NextEvent(d, kind, next, actor, reason, payload, stamp))
  {
    CommitShape(d, next, kind, actor, reason, payload, stamp);
    PreambleDisk(d, pre);
  }

  const NO_STATE := PromotionState("", 0, Prepared, "", "", 0, None, [])
  const NO_EVENT := AuditEvent(EventBody(0, 0, PromotionPrepared, "", 0, "", "", NoPayload, NoHash), NoHash)

  lemma PreparePlans(d: Disk, r: PrepareRequest, clock: Clock) returns (pre: seq<Write>, next: PromotionState, e: AuditEvent)
    requires Settled(d)
    ensures PlansCommit(d, PreparePlan(d, r, clock), pre, next, e)
  {
    pre, next, e := [], NO_STATE, NO_EVENT;
    var p := PreparePlan(d, r, clock);
    if p.writes != [] {
      pre := [p.writes[0]];
      next := FirstState(d, r, clock.document);
      e := NextEvent(d, PromotionPrepared, next, Trim(r.operator), Trim(r.reason), Activations(d.active, r.candidate), clock.event);
      PrepareAdvances(d, r, clock);
      PlannedCommit(d, pre, next, PromotionPrepared, Trim(r.operator), Trim(r.reason), Activations(d.active, r.candidate), clock.event);
    }
  }

  lemma EvaluationAdvances(d: Disk, summary: Summary, next: PromotionState, updatedAt: Time)
    requires Settled(d) && d.state.Some? && d.state.value.phase in {Prepared, Validated, Blocked}
    requires var s, blockers := d.state.value, EvaluateSummary(IntentOf(d).thresholds, summary);
      next == Evaluated(s, summary, blockers, updatedAt)
    ensures Advances(d, AfterPreamble(d, [PutReport(next.intentId, summary)]), next,
                     if next.blockers == [] then PromotionValidated else PromotionBlocked, Evaluation(summary, next.blockers))
  {
  }

  lemma EvaluatePlans(d: Disk, expected: int, summary: Summary, actor: string, reason: string, clock: Clock)
    returns (pre: seq<Write>, next: PromotionState, e: AuditEvent)
    requires Settled(d)
    ensures PlansCommit(d, EvaluatePlan(d, expected, summary, actor, reason, clock), pre, next, e)
  {
    pre, next, e := [], NO_STATE, NO_EVENT;
    if EvaluatePlan(d, expected, summary, actor, reason, clock).writes != [] {
      var s := d.state.value;
      pre := [PutReport(s.intentId, summary)];
      var blockers := EvaluateSummary(IntentOf(d).thresholds, summary);
      var payload := Evaluation(summary, blockers);
      next := Evaluated(s, summary, blockers, clock.document);
      var kind := if blockers == [] then PromotionValidated else PromotionBlocked;
      e := NextEvent(d, kind, next, actor, reason, payload, clock.event);
      EvaluationAdvances(d, summary, next, clock.document);
      PlannedCommit(d, pre, next, kind, actor, reason, payload, clock.event);
    }
  }

  lemma PrepareAdvances(d: Disk, r: PrepareRequest, clock: Clock)
    requires Settled(d) && d.state.None? && r.candidate != d.active
    ensures Advances(d, AfterPreamble(d, [PutIntent(IntentFor(d, r, clock.intent))]), FirstState(d, r, clock.document),
                     PromotionPrepared, Activations(d.active, r.candidate))
  {
    assert LastEvaluated(HeadHash(d)) == None;
  }

  lemma CanaryAdvances(d: Disk, at: Time)
    requires Settled(d) && d.state.Some? && d.state.value.phase == Validated
    ensures Advances(d, AfterPreamble(d, []), InCanary(d.state.value, at), CanaryStarted, NoPayload)
  {
    GateCarries(d, d);
  }

  lemma PromoteAdvances(d: Disk, at: Time)
    requires Settled(d) && d.state.Some? && d.state.value.phase == Canary
    requires IntentOf(d).requiredReadyAcks <= |ReadyInstances(d, IntentOf(d).intentId, IntentOf(d).candidate)|
    ensures Advances(d, AfterPreamble(d, [SetActive(IntentOf(d).candidate)]), Promoting(d.state.value, at), PromotionCompleted,
                     ReadyAcks(|ReadyInstances(d, IntentOf(d).intentId, IntentOf(d).candidate)|))
  {
    var intent := IntentOf(d);
    MoreAcks(d, AfterPreamble(d, [SetActive(intent.candidate)]).(state := Some(Promoting(d.state.value, at))), intent);
  }

  lemma RollbackAdvances(d: Disk, at: Time)
    requires Settled(d) && d.state.Some? && d.state.value.phase == Promoted
    ensures Advances(d, AfterPreamble(d, [SetActive(IntentOf(d).current)]), RollingBack(d.state.value, at), PromotionRolledBack, NoPayload)
  {
    var intent := IntentOf(d);
    MoreAcks(d, AfterPreamble(d, [SetActive(intent.current)]).(state := Some(RollingBack(d.state.value, at))), intent);
  }

  lemma StartCanaryPlans(d: Disk, expected: int, actor: string, reason: string, clock: Clock)
    returns (pre: seq<Write>, next: PromotionState, e: AuditEvent)
    requires Settled(d)
    ensures PlansCommit(d, StartCanaryPlan(d, expected, actor, reason, clock), pre, next, e)
  {
    pre, next, e := [], NO_STATE, NO_EVENT;
    var p := StartCanaryPlan(d, expected, actor, reason, clock);
    if Loaded(d) && d.state.value.revision == expected && d.state.value.phase.Validated? {
      var s := d.state.value;
      next := InCanary(s, clock.document);
      e := NextEvent(d, CanaryStarted, next, actor, reason, NoPayload, clock.event);
      CanaryAdvances(d, clock.document);
      PlannedCommit(d, pre, next, CanaryStarted, actor, reason, NoPayload, clock.event);
      assert Then([], p) == p;
    }
  }

  lemma PromotePlans(d: Disk, expected: int, actor: string, reason: string, clock: Clock)
    returns (pre: seq<Write>, next: PromotionState, e: AuditEvent)
    requires Settled(d)
    ensures PlansCommit(d, PromotePlan(d, expected, actor, reason, clock), pre, next, e)
  {
    pre, next, e := [], NO_STATE, NO_EVENT;
    if PromotePlan(d, expected, actor, reason, clock).writes != [] {
      var s, intent := d.state.value, IntentOf(d);
      var payload := ReadyAcks(|ReadyInstances(d, intent.intentId, intent.candidate)|);
      pre := [SetActive(intent.candidate)];
      next := Promoting(s, clock.document);
      e := NextEvent(d, PromotionCompleted, next, actor, reason, payload, clock.event);
      PromoteAdvances(d, clock.document);
      PlannedCommit(d, pre, next, PromotionCompleted, actor, reason, payload, clock.event);
    }
  }

  lemma RollbackPlans(d: Disk, expected: int, actor: string, reason: string, clock: Clock)
    returns (pre: seq<Write>, next: PromotionState, e: AuditEvent)
    requires Settled(d)
    ensures PlansCommit(d, RollbackPlan(d, expected, actor, reason, clock), pre, next, e)
  {
    pre, next, e := [], NO_STATE, NO_EVENT;
    if RollbackPlan(d, expected, actor, reason, clock).writes != [] {
      var s, intent := d.state.value, IntentOf(d);
      pre := [SetActive(intent.current)];
      next := RollingBack(s, clock.document);
      e := NextEvent(d, PromotionRolledBack, next, actor, reason, NoPayload, clock.event);
      RollbackAdvances(d, clock.document);
      PlannedCommit(d, pre, next, PromotionRolledBack, actor, reason, NoPayload, clock.event);
    }
  }

  /** Every operation but Acknowledge is at most one harmless write followed by a commit. */
  lemma OpCommits(d: Disk, op: Op, clock: Clock) returns (pre: seq<Write>, next: PromotionState, e: AuditEvent)
    requires Settled(d) && !op.Acknowledge?
    ensures PlansCommit(d, OpPlan(d, op, clock), pre, next, e)
  {
    match op {
      case Prepare(r) => pre, next, e := PreparePlans(d, r, clock);
      case Evaluate(expected, summary, actor, reason) => pre, next, e := EvaluatePlans(d, expected, summary, actor, reason, clock);
      case StartCanary(expected, actor, reason) => pre, next, e := StartCanaryPlans(d, expected, actor, reason, clock);
      case Promote(expected, actor, reason) => pre, next, e := PromotePlans(d, expected, actor, reason, clock);
      case Rollback(expected, actor, reason) => pre, next, e := RollbackPlans(d, expected, actor, reason, clock);
    }
  }
}

/** Events that no head names, left by interrupted acknowledgements: nothing but the verification of the log sees them. */
module PromotionOrphans {
  import opened Wrappers
  import opened Text
  import opened ActivationPromotion
  import opened PromotionRecovery
  import opened PromotionOperations
  import opened PromotionCalls

  /** Where an interrupted acknowledgement leaves the disk: settled but for the orphan. */
  lemma InterruptedAcknowledgement(d: Disk, c: Call) returns (ack: Ack, orphan: AuditEvent)
    requires Settled(d) && LeavesOrphan(d, c)
    ensures After(d, c) == Perform(Perform(d, PutAck(ack)), PutEvent(orphan))
    ensures Settled(Perform(d, PutAck(ack))) && AckEvent(Perform(d, PutAck(ack)), orphan)
  {
    ack, orphan := AcknowledgeShape(d, c.op.ack, c.clock);
    CutAfterTwo(d, c, ack, orphan);
    HarmlessSettled(d, PutAck(ack));
  }

  lemma CutAfterTwo(d: Disk, c: Call, ack: Ack, e: AuditEvent)
    requires d.pending.None? && c.crash == 2 && OpPlan(d, c.op, c.clock).writes == [PutAck(ack), PutEvent(e), PutHead(HeadOf(e))]
    ensures After(d, c) == Perform(Perform(d, PutAck(ack)), PutEvent(e))
  {
    FirstTwo(d, OpPlan(d, c.op, c.clock).writes);
    CleanRecovery(Perform(Perform(d, PutAck(ack)), PutEvent(e)), c.recoveries);
  }

  lemma FirstTwo(d: Disk, ws: seq<Write>)
    requires |ws| >= 2
    ensures PerformAll(d, Upto(ws, 2)) == Perform(Perform(d, ws[0]), ws[1])
  {
    PrefixStep(d, ws, 0);
    PrefixStep(d, ws, 1);
    assert Upto(ws, 0) == [];
  }

  // ---------------------------------------------------------------- more event files change no call

  /** Event files under their own names, sealed. */
  predicate Filed(events: map<(nat, Hash), AuditEvent>) { forall k :: k in events ==> FiledAt(events, k) }

  predicate FiledAt(events: map<(nat, Hash), AuditEvent>, k: (nat, Hash))
    requires k in events
  {
    events[k] == Seal(events[k].body) && k == (events[k].body.sequence, events[k].hash)
  }

  /** The disk with these event files besides its own. */
  function With(d: Disk, x: map<(nat, Hash), AuditEvent>): Disk { d.(events := x + d.events) }

  lemma AppendWith(d: Disk, x: map<(nat, Hash), AuditEvent>, e: AuditEvent)
    requires Filed(x)
    ensures AppendPlan(With(d, x), e) == AppendPlan(d, e)
  {
    var k := (e.body.sequence, e.hash);
    if k in x && k !in d.events && e.hash == Digest(e.body) { assert FiledAt(x, k); }
  }

  lemma FinishWith(d: Disk, x: map<(nat, Hash), AuditEvent>, s: PromotionState, e: AuditEvent)
    requires Filed(x)
    ensures FinishPlan(With(d, x), s, e) == FinishPlan(d, s, e)
  {
    AppendWith(d, x, e);
  }

  lemma CommitWith(d: Disk, x: map<(nat, Hash), AuditEvent>, s: PromotionState, kind: EventType, actor: string, reason: string, payload: Payload, stamp: Time)
    requires Filed(x)
    ensures CommitPlan(With(d, x), s, kind, actor, reason, payload, stamp) == CommitPlan(d, s, kind, actor, reason, payload, stamp)
  {
    FinishWith(d, x, s, NextEvent(d, kind, s, actor, reason, payload, stamp));
  }

  lemma PrepareWith(d: Disk, x: map<(nat, Hash), AuditEvent>, r: PrepareRequest, clock: Clock)
    requires Filed(x)
    ensures PreparePlan(With(d, x), r, clock) == PreparePlan(d, r, clock)
  {
    CommitWith(d, x, FirstState(d, r, clock.document),
               PromotionPrepared, Trim(r.operator), Trim(r.reason), Activations(d.active, r.candidate), clock.event);
  }

  lemma EvaluationWith(d: Disk, x: map<(nat, Hash), AuditEvent>, s: PromotionState, blockers: seq<Blocker>, summary: Summary,
                       actor: string, reason: string, clock: Clock)
    requires Filed(x)
    ensures EvaluationPlan(With(d, x), s, blockers, summary, actor, reason, clock) == EvaluationPlan(d, s, blockers, summary, actor, reason, clock)
  {
    CommitWith(d, x, Evaluated(s, summary, blockers, clock.document),
               if blockers == [] then PromotionValidated else PromotionBlocked, actor, reason, Evaluation(summary, blockers), clock.event);
  }

  lemma EvaluateWith(d: Disk, x: map<(nat, Hash), AuditEvent>, expected: int, summary: Summary, actor: string, reason: string, clock: Clock)
    requires Filed(x)
    ensures EvaluatePlan(With(d, x), expected, summary, actor, reason, clock) == EvaluatePlan(d, expected, summary, actor, reason, clock)
  {
    if Loaded(d) {
      EvaluationWith(d, x, d.state.value, EvaluateSummary(IntentOf(d).thresholds, summary), summary, actor, reason, clock);
    }
  }

  lemma CanaryWith(d: Disk, x: map<(nat, Hash), AuditEvent>, expected: int, actor: string, reason: string, clock: Clock)
    requires Filed(x)
    ensures StartCanaryPlan(With(d, x), expected, actor, reason, clock) == StartCanaryPlan(d, expected, actor, reason, clock)
  {
    if Loaded(d) {
      var s := d.state.value;
      CommitWith(d, x, InCanary(s, clock.document),
                 CanaryStarted, actor, reason, NoPayload, clock.event);
    }
  }

  lemma AcknowledgeWith(d: Disk, x: map<(nat, Hash), AuditEvent>, a: Ack, clock: Clock)
    requires Filed(x)
    ensures AcknowledgePlan(With(d, x), a, clock) == AcknowledgePlan(d, a, clock)
  {
    if Loaded(d) {
      AppendWith(d, x, NextEvent(d, InstanceAcknowledged, d.state.value, a.instanceId, "",
                                 Acknowledged(a.ready, a.activationId, a.tuple), clock.event));
    }
  }

  lemma PromoteWith(d: Disk, x: map<(nat, Hash), AuditEvent>, expected: int, actor: string, reason: string, clock: Clock)
    requires Filed(x)
    ensures PromotePlan(With(d, x), expected, actor, reason, clock) == PromotePlan(d, expected, actor, reason, clock)
  {
    if Loaded(d) {
      var s, intent := d.state.value, IntentOf(d);
      assert ReadyInstances(With(d, x), intent.intentId, intent.candidate) == ReadyInstances(d, intent.intentId, intent.candidate);
      CommitWith(d, x, Promoting(s, clock.document),
                 PromotionCompleted, actor, reason, ReadyAcks(|ReadyInstances(d, intent.intentId, intent.candidate)|), clock.event);
    }
  }

  lemma RollbackWith(d: Disk, x: map<(nat, Hash), AuditEvent>, expected: int, actor: string, reason: string, clock: Clock)
    requires Filed(x)
    ensures RollbackPlan(With(d, x), expected, actor, reason, clock) == RollbackPlan(d, expected, actor, reason, clock)
  {
    if Loaded(d) {
      var s := d.state.value;
      CommitWith(d, x, RollingBack(s, clock.document),
                 PromotionRolledBack, actor, reason, NoPayload, clock.event);
    }
  }

  /** Every operation does the same with more event files on disk. */
  lemma PlanWith(d: Disk, x: map<(nat, Hash), AuditEvent>, op: Op, clock: Clock)
    requires Filed(x)
    ensures OpPlan(With(d, x), op, clock) == OpPlan(d, op, clock)
  {
    match op
    case Prepare(r) => PrepareWith(d, x, r, clock);
    case Evaluate(expected, summary, actor, reason) => EvaluateWith(d, x, expected, summary, actor, reason, clock);
    case StartCanary(expected, actor, reason) => CanaryWith(d, x, expected, actor, reason, clock);
    case Acknowledge(ack) => AcknowledgeWith(d, x, ack, clock);
    case Promote(expected, actor, reason) => PromoteWith(d, x, expected, actor, reason, clock);
    case Rollback(expected, actor, reason) => RollbackWith(d, x, expected, actor, reason, clock);
  }

  lemma EventWith(d: Disk, x: map<(nat, Hash), AuditEvent>, e: AuditEvent)
    ensures Perform(With(d, x), PutEvent(e)) == With(Perform(d, PutEvent(e)), x)
  {
    var k := (e.body.sequence, e.hash);
    assert (x + d.events)[k := e] == x + d.events[k := e];
  }

  lemma PerformWith(d: Disk, x: map<(nat, Hash), AuditEvent>, w: Write)
    ensures Perform(With(d, x), w) == With(Perform(d, w), x)
  {
    match w
    case PutEvent(e) => EventWith(d, x, e);
    case _ =>
  }

  lemma {:induction false} PerformAllWith(d: Disk, x: map<(nat, Hash), AuditEvent>, ws: seq<Write>)
    ensures PerformAll(With(d, x), ws) == With(PerformAll(d, ws), x)
    decreases |ws|
  {
    if ws != [] {
      PerformWith(d, x, ws[0]);
      PerformAllWith(Perform(d, ws[0]), x, ws[1..]);
    }
  }

  lemma {:induction false} RecoverWith(d: Disk, x: map<(nat, Hash), AuditEvent>, crashes: seq<nat>)
    requires Filed(x)
    ensures RecoverAll(With(d, x), crashes) == With(RecoverAll(d, crashes), x)
    decreases |crashes|
  {
    var ws := RecoverPlan(d).writes;
    if d.pending.Some? { FinishWith(d, x, d.pending.value.state, d.pending.value.event); }
    assert RecoverPlan(With(d, x)).writes == ws;
    if crashes == [] {
      PerformAllWith(d, x, ws);
    } else {
      PerformAllWith(d, x, Upto(ws, crashes[0]));
      RecoverWith(PerformAll(d, Upto(ws, crashes[0])), x, crashes[1..]);
    }
  }

  /** A call, interrupted or not, does the same with more event files on disk. */
  lemma AfterWith(d: Disk, x: map<(nat, Hash), AuditEvent>, c: Call)
    requires Filed(x)
    ensures After(With(d, x), c) == With(After(d, c), x)
  {
    var ws := OpPlan(d, c.op, c.clock).writes;
    PlanWith(d, x, c.op, c.clock);
    if c.crash < |ws| {
      PerformAllWith(d, x, Upto(ws, c.crash));
      RecoverWith(PerformAll(d, Upto(ws, c.crash)), x, c.recoveries);
    } else {
      PerformAllWith(d, x, ws);
    }
  }

  // ---------------------------------------------------------------- what every call keeps, orphans or not

  /** The disk without the event files its head does not stand for. */
  function Base(d: Disk): Disk { d.(events := EventsOf(HeadHash(d))) }

  /** Settled but for orphans. */
  predicate Sound(d: Disk) { Settled(Base(d)) && Filed(d.events) && d.events == d.events + EventsOf(HeadHash(d)) }

  lemma SettledIsSound(d: Disk)
    requires Settled(d)
    ensures Base(d) == d && Sound(d)
  {
    if d.state.Some? { LogFiled(HeadHash(d), d.state.value.intentId); }
    assert d.events == d.events + EventsOf(HeadHash(d));
  }

  lemma LogFiled(h: Hash, intentId: string)
    requires LegalLog(h, intentId)
    ensures Filed(EventsOf(h))
  {
    forall k | k in EventsOf(h) ensures FiledAt(EventsOf(h), k) { EventsOfKeys(h, intentId, k); }
  }

  /** A settled disk with more event files is sound. */
  lemma WithIsSound(b: Disk, x: map<(nat, Hash), AuditEvent>)
    requires Settled(b) && Filed(x)
    ensures Sound(With(b, x)) && Base(With(b, x)) == b
  {
    SettledIsSound(b);
    var events := x + b.events;
    forall k | k in events ensures FiledAt(events, k) {
      if k in b.events { assert FiledAt(b.events, k); } else { assert FiledAt(x, k); }
    }
    assert events == events + b.events;
  }

  lemma SoundIsWith(d: Disk)
    requires Sound(d)
    ensures d == With(Base(d), d.events)
  {
  }

  /** What an operation does from a sound disk is what it does from the base. */
  lemma SoundPlan(d: Disk, op: Op, clock: Clock)
    requires Sound(d)
    ensures OpPlan(d, op, clock) == OpPlan(Base(d), op, clock)
  {
    SoundIsWith(d);
    PlanWith(Base(d), d.events, op, clock);
  }

  /** What a call makes of all but the event files. */
  lemma SoundOutcome(d: Disk, c: Call)
    requires Sound(d)
    ensures Settled(Base(d)) && Base(d).state == d.state && Base(d).snapshots == d.snapshots
    ensures After(d, c).state == After(Base(d), c).state && After(d, c).snapshots == After(Base(d), c).snapshots
  {
    SoundAfter(d, c);
  }

  lemma SoundAfter(d: Disk, c: Call)
    requires Sound(d)
    ensures After(d, c) == With(After(Base(d), c), d.events)
  {
    SoundIsWith(d);
    AfterWith(Base(d), d.events, c);
  }

  /** Any call, interrupted anywhere, orphan or not, leaves the manager sound. */
  lemma CallKeepsSound(d: Disk, c: Call)
    requires Sound(d)
    ensures Sound(After(d, c))
    ensures !LeavesOrphan(Base(d), c) ==> Base(After(d, c)) == After(Base(d), c)
  {
    var b := Base(d);
    SoundAfter(d, c);
    if LeavesOrphan(b, c) {
      OrphanSound(b, c, d.events);
    } else {
      CallKeepsSettled(b, c);
      WithIsSound(After(b, c), d.events);
    }
  }

  lemma OrphanSound(b: Disk, c: Call, x: map<(nat, Hash), AuditEvent>)
    requires Settled(b) && LeavesOrphan(b, c) && Filed(x)
    ensures Sound(With(After(b, c), x))
    ensures Base(With(After(b, c), x)).state == b.state && Base(With(After(b, c), x)).active == b.active
  {
    var ack, e := InterruptedAcknowledgement(b, c);
    OneMore(Perform(b, PutAck(ack)), e, x);
  }

  /** A settled disk with one more event, beside others. */
  lemma OneMore(b: Disk, e: AuditEvent, x: map<(nat, Hash), AuditEvent>)
    requires Settled(b) && AckEvent(b, e) && Filed(x)
    ensures Sound(With(Perform(b, PutEvent(e)), x)) && Base(With(Perform(b, PutEvent(e)), x)) == b
  {
    var k := (e.body.sequence, e.hash);
    var more := map[k := e];
    assert Filed(more) by { assert FiledAt(more, k); }
    JoinFiled(x, more);
    WithIsSound(b, x + more);
    EventsOfKeys(HeadHash(b), b.state.value.intentId, k);
    Rearranged(b.events, x, k, e);
  }

  lemma Rearranged(events: map<(nat, Hash), AuditEvent>, x: map<(nat, Hash), AuditEvent>, k: (nat, Hash), e: AuditEvent)
    requires k !in events
    ensures x + events[k := e] == (x + map[k := e]) + events
  {
  }

  lemma JoinFiled(x: map<(nat, Hash), AuditEvent>, y: map<(nat, Hash), AuditEvent>)
    requires Filed(x) && Filed(y)
    ensures Filed(x + y)
  {
    forall k | k in x + y ensures FiledAt(x + y, k) {
      if k in y { assert FiledAt(y, k); } else { assert FiledAt(x, k); }
    }
  }

  // ---------------------------------------------------------------- when the log verifies

  /** Two events have the number n, which the head has reached. */
  predicate Doubled(d: Disk, n: nat, a: Hash, b: Hash) {
    a != b && (n, a) in d.events && (n, b) in d.events && 1 <= n <= HeadSequence(d)
  }

  lemma DoubledFails(d: Disk, n: nat, a: Hash, b: Hash)
    requires Doubled(d, n, a, b)
    ensures !AuditOk(d)
  {
    CardinalityMonotone({(n, a), (n, b)}, EventsAt(d, n));
    ChainBroken(d, n, HeadSequence(d));
  }

  /** No number up to the head's is that of two events. */
  ghost predicate Single(d: Disk) { forall n, a, b :: !Doubled(d, n, a, b) }

  /** The events the head stands for are on file. */
  predicate HasLog(d: Disk) { HeadSequence(d) == Depth(HeadHash(d)) && d.events == d.events + EventsOf(HeadHash(d)) }

  lemma SingleMeans(d: Disk, n: nat, a: Hash, b: Hash)
    requires Single(d) && 1 <= n <= HeadSequence(d) && (n, a) in d.events && (n, b) in d.events
    ensures a == b
  {
    assert !Doubled(d, n, a, b);
  }

  lemma {:induction false} SingleChain(d: Disk, intentId: string, n: nat)
    requires HasLog(d) && Single(d) && LegalLog(HeadHash(d), intentId) && n <= HeadSequence(d)
    ensures Chain(d, n) == Some(if n == 0 then NoHash else HashAt(HeadHash(d), n))
  {
    if n > 0 {
      SingleChain(d, intentId, n - 1);
      SingleLink(d, intentId, n);
    }
  }

  lemma SingleLink(d: Disk, intentId: string, n: nat)
    requires HasLog(d) && Single(d) && LegalLog(HeadHash(d), intentId) && 1 <= n <= HeadSequence(d)
    requires Chain(d, n - 1) == Some(if n == 1 then NoHash else HashAt(HeadHash(d), n - 1))
    ensures Chain(d, n) == Some(HashAt(HeadHash(d), n))
  {
    var h := HeadHash(d);
    var k := (n, HashAt(h, n));
    HashAtPrevious(h, n);
    EventsOfKeys(h, intentId, k);
    assert k in EventsOf(h) && k in d.events && d.events[k] == EventsOf(h)[k];
    forall j | j in EventsAt(d, n) ensures j == k { SingleMeans(d, n, j.1, k.1); }
    assert EventsAt(d, n) == {k};
    assert Only(EventsAt(d, n)) in {k};
  }

  /** The log verifies exactly if no two events have one number, up to the head's. */
  lemma AuditExactly(d: Disk)
    requires Sound(d)
    ensures AuditOk(d) <==> Single(d)
  {
    if !Single(d) {
      var n, a, b :| Doubled(d, n, a, b);
      DoubledFails(d, n, a, b);
    } else if d.head.Some? {
      SingleChain(d, d.state.value.intentId, HeadSequence(d));
    }
  }
}

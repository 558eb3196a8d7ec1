/** What a crash can leave behind that recovery does not mend. */
module PromotionLeftovers {
  import opened Wrappers
  import opened ActivationPromotion
  import opened PromotionRecovery
  import opened PromotionOperations
  import opened PromotionCalls
  import opened PromotionOrphans
  import opened PromotionHistory
  import opened PromotionHalfway

  /** The file of an interrupted append stays an orphan: after the next append, by any operation,
      the log verifies exactly when that append wrote the very same event. */
  lemma OrphanBreaksAudit(d: Disk, orphan: AuditEvent, e: AuditEvent)
    requires Settled(d) && d.state.Some?
    requires orphan == Seal(orphan.body) && orphan.body.sequence == HeadSequence(d) + 1 && orphan.body.previous == HeadHash(d)
    requires e == Seal(e.body) && e.body.sequence == HeadSequence(d) + 1 && e.body.previous == HeadHash(d)
    ensures var left := Perform(d, PutEvent(orphan));
      && AuditOk(left)
      && AppendPlan(left, e) == Plan([PutEvent(e), PutHead(HeadOf(e))], None)
      && (AuditOk(PerformAll(left, AppendPlan(left, e).writes)) <==> e == orphan)
  {
    var left := Perform(d, PutEvent(orphan));
    var ws := [PutEvent(e), PutHead(HeadOf(e))];
    EventsOfKeys(HeadHash(d), d.state.value.intentId, (e.body.sequence, e.hash));
    OrphanHarmless(d, orphan);
    PrefixStep(left, ws, 0);
    PrefixStep(left, ws, 1);
    assert Upto(ws, 0) == [] && Upto(ws, 2) == ws;
    TwoFiles(d, orphan, e);
  }

  lemma OrphanHarmless(d: Disk, orphan: AuditEvent)
    requires Settled(d) && d.state.Some? && orphan.body.sequence == HeadSequence(d) + 1
    ensures AuditOk(Perform(d, PutEvent(orphan)))
    ensures Chain(Perform(d, PutEvent(orphan)), HeadSequence(d)) == Some(HeadHash(d))
  {
    ChainBelow(d, Perform(d, PutEvent(orphan)), d.state.value.intentId);
  }

  lemma TwoFiles(d: Disk, orphan: AuditEvent, e: AuditEvent)
    requires Settled(d) && d.state.Some?
    requires orphan == Seal(orphan.body) && orphan.body.sequence == HeadSequence(d) + 1
    requires e == Seal(e.body) && e.body.sequence == HeadSequence(d) + 1 && e.body.previous == HeadHash(d)
    ensures AuditOk(Perform(Perform(Perform(d, PutEvent(orphan)), PutEvent(e)), PutHead(HeadOf(e)))) <==> e == orphan
  {
    var n := HeadSequence(d) + 1;
    var d' := Perform(Perform(Perform(d, PutEvent(orphan)), PutEvent(e)), PutHead(HeadOf(e)));
    FilesAtNext(d, d.state.value.intentId, orphan, e);
    ChainBelow(d, d', d.state.value.intentId);
    LastLink(d', n, HeadHash(d), e);
  }

  lemma ChainBelow(d: Disk, d': Disk, intentId: string)
    requires AuditInv(d) && LegalLog(HeadHash(d), intentId)
    requires forall k: (nat, Hash) :: k.0 <= HeadSequence(d) ==> (k in d.events <==> k in d'.events) && (k in d.events ==> d.events[k] == d'.events[k])
    ensures Chain(d', HeadSequence(d)) == Some(HeadHash(d))
  {
    ChainHolds(d, intentId, HeadSequence(d));
    OtherChain(d, d', HeadSequence(d));
  }

  /** The last step of VerifyAudit's loop, given what it finds at the head's sequence number. */
  lemma LastLink(d: Disk, n: nat, previous: Hash, e: AuditEvent)
    requires n >= 1 && Chain(d, n - 1) == Some(previous)
    requires d.head == Some(HeadOf(e)) && e == Seal(e.body) && e.body.sequence == n && e.body.previous == previous
    requires (n, e.hash) in d.events && d.events[(n, e.hash)] == e
    ensures AuditOk(d) <==> EventsAt(d, n) == {(n, e.hash)}
  {
    assert (n, e.hash) in EventsAt(d, n);
    if |EventsAt(d, n)| == 1 {
      assert EventsAt(d, n) == {Only(EventsAt(d, n))};
      OneFile(d, n, previous, (n, e.hash));
    }
  }

  lemma OneFile(d: Disk, n: nat, previous: Hash, file: (nat, Hash))
    requires n >= 1 && Chain(d, n - 1) == Some(previous) && EventsAt(d, n) == {file}
    requires var e := d.events[file]; e.body.sequence == n && e.body.previous == previous && e.hash == Digest(e.body)
    ensures Chain(d, n) == Some(d.events[file].hash)
  {
    assert |EventsAt(d, n)| == 1;
    assert Only(EventsAt(d, n)) in {file};
  }

  lemma FilesAtNext(d: Disk, intentId: string, orphan: AuditEvent, e: AuditEvent)
    requires AuditInv(d) && LegalLog(HeadHash(d), intentId)
    requires orphan.body.sequence == e.body.sequence == HeadSequence(d) + 1
    ensures var n := HeadSequence(d) + 1;
      EventsAt(Perform(Perform(Perform(d, PutEvent(orphan)), PutEvent(e)), PutHead(HeadOf(e))), n) == {(n, orphan.hash), (n, e.hash)}
  {
    var n := HeadSequence(d) + 1;
    var d' := Perform(Perform(Perform(d, PutEvent(orphan)), PutEvent(e)), PutHead(HeadOf(e)));
    forall k: (nat, Hash) ensures k in EventsAt(d', n) <==> k == (n, orphan.hash) || k == (n, e.hash) {
      if k.0 == n { EventsOfKeys(HeadHash(d), intentId, k); }
    }
  }

  lemma {:induction false} OtherChain(d: Disk, d': Disk, n: nat)
    requires forall k: (nat, Hash) :: k.0 <= n ==> (k in d.events <==> k in d'.events) && (k in d.events ==> d.events[k] == d'.events[k])
    ensures Chain(d, n) == Chain(d', n)
  {
    if n > 0 {
      OtherChain(d, d', n - 1);
      assert EventsAt(d, n) == EventsAt(d', n);
    }
  }

  /** The log as it was left verifies; with e appended it verifies exactly if e is the orphan, and then all is settled. */
  ghost predicate OrphanEnds(left: Disk, n: nat, orphan: AuditEvent, e: AuditEvent) {
    var next := PerformAll(left, AppendPlan(left, e).writes);
    && AuditOk(left) && AppendPlan(left, e).failure.None?
    && (AuditOk(next) <==> e == orphan)
    && (if e == orphan then Settled(next) else Doubled(next, n, orphan.hash, e.hash))
  }

  /** The two together: the log of the interrupted acknowledgement verifies, and after one more append verifies exactly
      if that is of the orphan itself. Then everything is settled again; if not, two events have the same number. */
  lemma OrphanLeft(d: Disk, c: Call, e: AuditEvent) returns (orphan: AuditEvent)
    requires Settled(d) && LeavesOrphan(d, c)
    requires e == Seal(e.body) && e.body.sequence == HeadSequence(d) + 1 && e.body.previous == HeadHash(d)
    ensures OrphanEnds(After(d, c), HeadSequence(d) + 1, orphan, e)
  {
    var ack, o := InterruptedAcknowledgement(d, c);
    orphan := o;
    OrphanOn(d, ack, orphan, e, After(d, c));
  }

  lemma OrphanOn(d: Disk, ack: Ack, orphan: AuditEvent, e: AuditEvent, left: Disk)
    requires left == Perform(Perform(d, PutAck(ack)), PutEvent(orphan))
    requires Settled(Perform(d, PutAck(ack))) && AckEvent(Perform(d, PutAck(ack)), orphan)
    requires e == Seal(e.body) && e.body.sequence == HeadSequence(d) + 1 && e.body.previous == HeadHash(d)
    ensures OrphanEnds(left, HeadSequence(d) + 1, orphan, e)
  {
    OrphanOutcome(Perform(d, PutAck(ack)), orphan, e, left);
  }

  lemma OrphanOutcome(d1: Disk, orphan: AuditEvent, e: AuditEvent, left: Disk)
    requires Settled(d1) && AckEvent(d1, orphan) && left == Perform(d1, PutEvent(orphan))
    requires e == Seal(e.body) && e.body.sequence == HeadSequence(d1) + 1 && e.body.previous == HeadHash(d1)
    ensures OrphanEnds(left, HeadSequence(d1) + 1, orphan, e)
  {
    OrphanBreaksAudit(d1, orphan, e);
    if e == orphan { OrphanHeals(d1, orphan); } else { OrphanDoubles(Perform(d1, PutEvent(orphan)), orphan, e); }
  }

  /** An append of the orphan itself heals the log. */
  lemma OrphanHeals(d1: Disk, orphan: AuditEvent)
    requires Settled(d1) && AckEvent(d1, orphan)
    ensures Settled(PerformAll(Perform(d1, PutEvent(orphan)), [PutEvent(orphan), PutHead(HeadOf(orphan))]))
  {
    var left := Perform(d1, PutEvent(orphan));
    AppendedTo(left, orphan);
    AppendSettled(d1, orphan);
    assert left.events[(orphan.body.sequence, orphan.hash) := orphan] == left.events;
  }

  lemma OrphanDoubles(d: Disk, orphan: AuditEvent, e: AuditEvent)
    requires (orphan.body.sequence, orphan.hash) in d.events && orphan.body.sequence == e.body.sequence == HeadSequence(d) + 1
    requires orphan.hash == Digest(orphan.body) && e.hash == Digest(e.body) && e != orphan
    ensures Doubled(PerformAll(d, [PutEvent(e), PutHead(HeadOf(e))]), HeadSequence(d) + 1, orphan.hash, e.hash)
  {
    AppendedTo(d, e);
  }

  lemma AppendedTo(d: Disk, e: AuditEvent)
    ensures PerformAll(d, [PutEvent(e), PutHead(HeadOf(e))]) == Perform(Perform(d, PutEvent(e)), PutHead(HeadOf(e)))
  {
    var ws := [PutEvent(e), PutHead(HeadOf(e))];
    PrefixStep(d, ws, 0);
    PrefixStep(d, ws, 1);
    assert Upto(ws, 0) == [] && Upto(ws, 2) == ws;
  }

  // ---------------------------------------------------------------- a log with two events of one number

  /** Writes that move the head to number n or beyond, if at all. */
  predicate HeadsReach(ws: seq<Write>, n: nat) { forall i :: 0 <= i < |ws| && ws[i].PutHead? ==> ws[i].head.sequence >= n }

  lemma {:induction false} DoubledStays(d: Disk, ws: seq<Write>, n: nat, a: Hash, b: Hash)
    requires Doubled(d, n, a, b) && HeadsReach(ws, n)
    ensures Doubled(PerformAll(d, ws), n, a, b)
    decreases |ws|
  {
    if ws != [] {
      DoubledStep(d, ws[0], n, a, b);
      assert HeadsReach(ws[1..], n);
      DoubledStays(Perform(d, ws[0]), ws[1..], n, a, b);
    }
  }

  lemma DoubledStep(d: Disk, w: Write, n: nat, a: Hash, b: Hash)
    requires Doubled(d, n, a, b) && (w.PutHead? ==> w.head.sequence >= n)
    ensures Doubled(Perform(d, w), n, a, b)
  {
  }

  lemma FinishHeads(d: Disk, s: PromotionState, e: AuditEvent)
    ensures HeadsReach(FinishPlan(d, s, e).writes, HeadSequence(d))
  {
  }

  lemma PrepareHeads(d: Disk, r: PrepareRequest, clock: Clock)
    ensures HeadsReach(PreparePlan(d, r, clock).writes, HeadSequence(d))
  {
  }

  lemma EvaluateHeads(d: Disk, expected: int, summary: Summary, actor: string, reason: string, clock: Clock)
    ensures HeadsReach(EvaluatePlan(d, expected, summary, actor, reason, clock).writes, HeadSequence(d))
  {
  }

  lemma CanaryHeads(d: Disk, expected: int, actor: string, reason: string, clock: Clock)
    ensures HeadsReach(StartCanaryPlan(d, expected, actor, reason, clock).writes, HeadSequence(d))
  {
  }

  lemma AcknowledgeHeads(d: Disk, ack: Ack, clock: Clock)
    ensures HeadsReach(AcknowledgePlan(d, ack, clock).writes, HeadSequence(d))
  {
  }

  lemma PromoteHeads(d: Disk, expected: int, actor: string, reason: string, clock: Clock)
    ensures HeadsReach(PromotePlan(d, expected, actor, reason, clock).writes, HeadSequence(d))
  {
  }

  lemma RollbackHeads(d: Disk, expected: int, actor: string, reason: string, clock: Clock)
    ensures HeadsReach(RollbackPlan(d, expected, actor, reason, clock).writes, HeadSequence(d))
  {
  }

  /** Every operation moves the head upwards, if at all. */
  lemma OpHeads(d: Disk, op: Op, clock: Clock)
    ensures HeadsReach(OpPlan(d, op, clock).writes, HeadSequence(d))
  {
    match op
    case Prepare(r) => PrepareHeads(d, r, clock);
    case Evaluate(expected, summary, actor, reason) => EvaluateHeads(d, expected, summary, actor, reason, clock);
    case StartCanary(expected, actor, reason) => CanaryHeads(d, expected, actor, reason, clock);
    case Acknowledge(ack) => AcknowledgeHeads(d, ack, clock);
    case Promote(expected, actor, reason) => PromoteHeads(d, expected, actor, reason, clock);
    case Rollback(expected, actor, reason) => RollbackHeads(d, expected, actor, reason, clock);
  }

  lemma {:induction false} DoubledRecovers(d: Disk, crashes: seq<nat>, n: nat, a: Hash, b: Hash)
    requires Doubled(d, n, a, b)
    ensures Doubled(RecoverAll(d, crashes), n, a, b)
    decreases |crashes|
  {
    var ws := RecoverPlan(d).writes;
    if d.pending.Some? { FinishHeads(d, d.pending.value.state, d.pending.value.event); }
    assert HeadsReach(ws, n);
    if crashes == [] {
      DoubledStays(d, ws, n, a, b);
    } else {
      DoubledStays(d, Upto(ws, crashes[0]), n, a, b);
      DoubledRecovers(PerformAll(d, Upto(ws, crashes[0])), crashes[1..], n, a, b);
    }
  }

  /** Once two events have one number, the log never verifies again, whatever is called and wherever it is interrupted. */
  lemma DoubledForever(d: Disk, c: Call, n: nat, a: Hash, b: Hash)
    requires Doubled(d, n, a, b)
    ensures Doubled(After(d, c), n, a, b) && !AuditOk(After(d, c))
  {
    var ws := OpPlan(d, c.op, c.clock).writes;
    OpHeads(d, c.op, c.clock);
    if c.crash < |ws| {
      DoubledStays(d, Upto(ws, c.crash), n, a, b);
      DoubledRecovers(PerformAll(d, Upto(ws, c.crash)), c.recoveries, n, a, b);
    } else {
      DoubledStays(d, ws, n, a, b);
    }
    DoubledFails(After(d, c), n, a, b);
  }

  // ---------------------------------------------------------------- files without their commit: trying again

  /** A canary start goes through exactly if the next revision's snapshot file does not hold another state. */
  lemma CanaryRetry(d: Disk, actor: string, reason: string, clock: Clock)
    requires Sound(d) && Loaded(d) && d.state.value.phase == Validated
    ensures OpPlan(d, StartCanary(d.state.value.revision, actor, reason), clock).failure.None?
      <==> !OtherTaken(d, InCanary(d.state.value, clock.document))
  {
    var s, b := d.state.value, Base(d);
    SoundPlan(d, StartCanary(s.revision, actor, reason), clock);
    CommitShape(b, InCanary(s, clock.document), CanaryStarted, actor, reason, NoPayload, clock.event);
  }

  /** The state an evaluation of the summary commits. */
  function EvaluatedBy(d: Disk, summary: Summary, at: Time): PromotionState
    requires Loaded(d)
  {
    Evaluated(d.state.value, summary, EvaluateSummary(IntentOf(d).thresholds, summary), at)
  }

  /** An evaluation goes through exactly if neither its report file nor the next revision's snapshot file holds anything else. */
  lemma EvaluationRetry(d: Disk, summary: Summary, actor: string, reason: string, clock: Clock)
    requires Sound(d) && Loaded(d) && d.state.value.phase in {Prepared, Validated, Blocked}
    requires summary.intentId == d.state.value.intentId != "" && summary.screeningItems >= 1
    ensures OpPlan(d, Evaluate(d.state.value.revision, summary, actor, reason), clock).failure.None?
      <==> WritableOnce(d.reports, (summary.intentId, summary), summary) && !OtherTaken(d, EvaluatedBy(d, summary, clock.document))
  {
    var s, b := d.state.value, Base(d);
    var blockers := EvaluateSummary(IntentOf(d).thresholds, summary);
    SoundPlan(d, Evaluate(s.revision, summary, actor, reason), clock);
    CommitShape(b, Evaluated(s, summary, blockers, clock.document), if blockers == [] then PromotionValidated else PromotionBlocked,
                actor, reason, Evaluation(summary, blockers), clock.event);
  }

  /** The checks of Prepare. */
  predicate PreparePasses(d: Disk, r: PrepareRequest) {
    && PrepareRequestOk(r) && d.state.None? && d.active in d.documents && r.candidate in d.documents
    && r.candidate != d.active && d.documents[r.candidate] == d.active
  }

  /** A preparation goes through exactly if neither its intent file nor the first snapshot file holds anything else. */
  lemma PreparationRetry(d: Disk, r: PrepareRequest, clock: Clock)
    requires Sound(d) && PreparePasses(d, r)
    ensures OpPlan(d, Prepare(r), clock).failure.None?
      <==> WritableOnce(d.intents, r.intentId, IntentFor(d, r, clock.intent)) && !OtherTaken(d, FirstState(d, r, clock.document))
  {
    var intent, b := IntentFor(d, r, clock.intent), Base(d);
    SoundPlan(d, Prepare(r), clock);
    CommitShape(b, FirstState(d, r, clock.document), PromotionPrepared, intent.operator, intent.reason,
                Activations(d.active, r.candidate), clock.event);
  }

  /** Writes that come before the pending record are all that is left of an operation cut off after them. */
  lemma CutAfterOne(d: Disk, ws: seq<Write>, recoveries: seq<nat>)
    requires d.pending.None? && |ws| > 1 && (ws[0].PutIntent? || ws[0].PutReport? || ws[0].PutSnapshot?)
    ensures DiskAfter(d, ws, 1, recoveries) == Perform(d, ws[0])
  {
    PrefixStep(d, ws, 0);
    assert Upto(ws, 0) == [];
    CleanRecovery(Perform(d, ws[0]), recoveries);
  }

  lemma CutAfterSnapshot(d: Disk, ws: seq<Write>, recoveries: seq<nat>)
    requires d.pending.None? && |ws| > 2 && (ws[0].PutIntent? || ws[0].PutReport?) && ws[1].PutSnapshot?
    ensures DiskAfter(d, ws, 2, recoveries) == Perform(Perform(d, ws[0]), ws[1])
  {
    FirstTwo(d, ws);
    CleanRecovery(Perform(Perform(d, ws[0]), ws[1]), recoveries);
  }

  /** A canary start interrupted after its snapshot goes through again exactly at the same time. */
  lemma CanaryAgain(d: Disk, c: Call, actor: string, reason: string, clock: Clock)
    requires Sound(d) && c.op.StartCanary? && OpPlan(d, c.op, c.clock).failure.None? && c.crash == 1
    ensures var left := After(d, c);
      && left.state == d.state && NextTaken(left, InCanary(d.state.value, c.clock.document))
      && (OpPlan(left, StartCanary(d.state.value.revision, actor, reason), clock).failure.None? <==> clock.document == c.clock.document)
  {
    CanaryLeft(d, c);
    CanaryTwice(d, c.clock.document, After(d, c), actor, reason, clock);
  }

  /** What a transition that writes no other file leaves when it is interrupted after its snapshot. */
  predicate SnapshotOf(d: Disk, next: PromotionState, left: Disk) {
    && d.state.Some? && left.state == d.state && left.intents == d.intents
    && left.snapshots == d.snapshots[(d.state.value.intentId, d.state.value.revision + 1) := next]
  }

  lemma CanaryLeft(d: Disk, c: Call)
    requires Sound(d) && c.op.StartCanary? && OpPlan(d, c.op, c.clock).failure.None? && c.crash == 1
    ensures Loaded(d) && d.state.value.phase == Validated
    ensures SnapshotOf(d, InCanary(d.state.value, c.clock.document), After(d, c)) && Sound(After(d, c))
  {
    CanaryWrites(d, c.op, c.clock);
    CutAfterOne(d, OpPlan(d, c.op, c.clock).writes, c.recoveries);
    CallKeepsSound(d, c);
  }

  lemma CanaryTwice(d: Disk, at: Time, left: Disk, actor: string, reason: string, clock: Clock)
    requires Loaded(d) && d.state.value.phase == Validated && SnapshotOf(d, InCanary(d.state.value, at), left) && Sound(left)
    ensures NextTaken(left, InCanary(d.state.value, at))
    ensures OpPlan(left, StartCanary(d.state.value.revision, actor, reason), clock).failure.None? <==> clock.document == at
  {
    CanaryRetry(left, actor, reason, clock);
  }

  lemma CanaryWrites(d: Disk, op: Op, clock: Clock)
    requires op.StartCanary? && OpPlan(d, op, clock).failure.None?
    ensures Loaded(d) && d.state.value.phase == Validated
    ensures var ws := OpPlan(d, op, clock).writes; |ws| >= 2 && ws[0] == PutSnapshot(InCanary(d.state.value, clock.document))
  {
  }

  /** An evaluation interrupted after its snapshot goes through again exactly with the same summary at the same time. */
  lemma EvaluationAgain(d: Disk, c: Call, summary: Summary, actor: string, reason: string, clock: Clock)
    requires Sound(d) && c.op.Evaluate? && OpPlan(d, c.op, c.clock).failure.None? && c.crash == 2
    requires summary.intentId == d.state.value.intentId && summary.screeningItems >= 1
    ensures var left := After(d, c);
      && left.state == d.state && NextTaken(left, EvaluatedBy(d, c.op.summary, c.clock.document))
      && (OpPlan(left, Evaluate(d.state.value.revision, summary, actor, reason), clock).failure.None?
          <==> summary == c.op.summary && clock.document == c.clock.document)
  {
    EvaluationLeft(d, c);
    EvaluationTwice(d, c.op.summary, c.clock.document, After(d, c), summary, actor, reason, clock);
  }

  lemma EvaluationTwice(d: Disk, first: Summary, at: Time, left: Disk, summary: Summary, actor: string, reason: string, clock: Clock)
    requires Loaded(d) && d.state.value.phase in {Prepared, Validated, Blocked} && d.state.value.intentId != ""
    requires SnapshotOf(d, EvaluatedBy(d, first, at), left) && Sound(left)
    requires left.reports == d.reports[(d.state.value.intentId, first) := first]
    requires summary.intentId == d.state.value.intentId && summary.screeningItems >= 1
    ensures NextTaken(left, EvaluatedBy(d, first, at))
    ensures OpPlan(left, Evaluate(d.state.value.revision, summary, actor, reason), clock).failure.None?
      <==> summary == first && clock.document == at
  {
    EvaluationRetry(left, summary, actor, reason, clock);
  }

  lemma EvaluationLeft(d: Disk, c: Call)
    requires Sound(d) && c.op.Evaluate? && OpPlan(d, c.op, c.clock).failure.None? && c.crash == 2
    ensures Loaded(d) && d.state.value.phase in {Prepared, Validated, Blocked} && d.state.value.intentId != ""
    ensures SnapshotOf(d, EvaluatedBy(d, c.op.summary, c.clock.document), After(d, c)) && Sound(After(d, c))
    ensures After(d, c).reports == d.reports[(d.state.value.intentId, c.op.summary) := c.op.summary]
  {
    EvaluationWrites(d, c.op, c.clock);
    CutAfterSnapshot(d, OpPlan(d, c.op, c.clock).writes, c.recoveries);
    CallKeepsSound(d, c);
  }

  lemma EvaluationWrites(d: Disk, op: Op, clock: Clock)
    requires op.Evaluate? && OpPlan(d, op, clock).failure.None?
    ensures Loaded(d) && d.state.value.phase in {Prepared, Validated, Blocked}
    ensures op.summary.intentId == d.state.value.intentId != "" && op.summary.screeningItems >= 1
    ensures var ws := OpPlan(d, op, clock).writes;
      |ws| >= 3 && ws[0] == PutReport(d.state.value.intentId, op.summary) && ws[1] == PutSnapshot(EvaluatedBy(d, op.summary, clock.document))
  {
  }

  /** A preparation interrupted after its intent file, or after the first snapshot too, goes through again under the same
      intent id exactly if the new intent is the same to the last field, time included, and the new first state too. */
  lemma PreparationAgain(d: Disk, c: Call, r: PrepareRequest, clock: Clock)
    requires Sound(d) && c.op.Prepare? && OpPlan(d, c.op, c.clock).failure.None? && 1 <= c.crash <= 2
    requires PreparePasses(d, r) && r.intentId == c.op.request.intentId
    ensures var left := After(d, c);
      && left.state == d.state
      && (OpPlan(left, Prepare(r), clock).failure.None?
          <==> && IntentFor(d, r, clock.intent) == IntentFor(d, c.op.request, c.clock.intent)
               && (if c.crash == 2 then FirstState(d, r, clock.document) == FirstState(d, c.op.request, c.clock.document)
                   else !OtherTaken(d, FirstState(d, r, clock.document))))
  {
    PreparationLeft(d, c);
    CallKeepsSound(d, c);
    PreparationRetry(After(d, c), r, clock);
  }

  /** What a preparation interrupted before its pending record leaves. */
  predicate LeftByPreparation(d: Disk, r: PrepareRequest, clock: Clock, snapshot: bool, left: Disk) {
    && left.state == d.state && left.active == d.active && left.documents == d.documents
    && left.intents == d.intents[r.intentId := IntentFor(d, r, clock.intent)]
    && left.snapshots == (if snapshot then d.snapshots[(r.intentId, 1) := FirstState(d, r, clock.document)] else d.snapshots)
  }

  lemma PreparationLeft(d: Disk, c: Call)
    requires d.pending.None? && c.op.Prepare? && OpPlan(d, c.op, c.clock).failure.None? && 1 <= c.crash <= 2
    ensures LeftByPreparation(d, c.op.request, c.clock, c.crash == 2, After(d, c))
  {
    PreparationWrites(d, c.op, c.clock);
    PreparationCut(d, c.op.request, c.clock, OpPlan(d, c.op, c.clock).writes, c.crash, c.recoveries);
  }

  lemma PreparationCut(d: Disk, r: PrepareRequest, clock: Clock, ws: seq<Write>, crash: nat, recoveries: seq<nat>)
    requires d.pending.None? && |ws| >= 3 && 1 <= crash <= 2
    requires ws[0] == PutIntent(IntentFor(d, r, clock.intent)) && ws[1] == PutSnapshot(FirstState(d, r, clock.document))
    ensures LeftByPreparation(d, r, clock, crash == 2, DiskAfter(d, ws, crash, recoveries))
  {
    if crash == 1 { CutAfterOne(d, ws, recoveries); } else { CutAfterSnapshot(d, ws, recoveries); }
  }

  lemma PreparationWrites(d: Disk, op: Op, clock: Clock)
    requires op.Prepare? && OpPlan(d, op, clock).failure.None?
    ensures var ws := OpPlan(d, op, clock).writes;
      |ws| >= 3 && ws[0] == PutIntent(IntentFor(d, op.request, clock.intent)) && ws[1] == PutSnapshot(FirstState(d, op.request, clock.document))
  {
  }

  /** A promotion or rollback that was torn never goes through again, with any revision, actor, reason or time. */
  lemma SwitchNeverAgain(d: Disk, c: Call, op: Op, clock: Clock)
    requires Sound(d) && InStep(d) && Torn(d, c) && (op.Promote? || op.Rollback?)
    ensures OpPlan(After(d, c), op, clock).failure.Some? && OpPlan(After(d, c), op, clock).writes == []
  {
    HalfwayStep(d, c);
    HalfwayRefuses(After(d, c), op, clock);
  }

  // ---------------------------------------------------------------- a snapshot without its commit: what else it blocks

  /** The snapshot of the state's next revision exists and holds x. */
  predicate NextTaken(d: Disk, x: PromotionState) {
    d.state.Some? &&
    var k := (d.state.value.intentId, d.state.value.revision + 1);
    k in d.snapshots && d.snapshots[k] == x
  }

  /** The call moved on to x, or left the state, and the snapshot in the way, as they were. */
  predicate BlockedBy(d: Disk, d': Disk, x: PromotionState) { d'.state == Some(x) || (d'.state == d.state && NextTaken(d', x)) }

  lemma NextIsTaken(d: Disk, p: Plan, pre: seq<Write>, next: PromotionState, e: AuditEvent, x: PromotionState)
    requires PlansCommit(d, p, pre, next, e) && p.failure.None? && NextTaken(d, x)
    ensures next == x && d.snapshots[(next.intentId, next.revision) := next] == d.snapshots
  {
    CommitsNext(d, p, pre, next, e);
  }

  lemma CommitBlocked(d: Disk, c: Call, pre: seq<Write>, next: PromotionState, e: AuditEvent, x: PromotionState)
    requires Settled(d) && NextTaken(d, x) && PlansCommit(d, OpPlan(d, c.op, c.clock), pre, next, e)
    ensures After(d, c).state in {d.state, Some(x)} && After(d, c).snapshots == d.snapshots
  {
    CallOutcome(d, c, pre, next, e);
    CallSnapshots(d, c, pre, next, e);
    if OpPlan(d, c.op, c.clock).failure.None? { NextIsTaken(d, OpPlan(d, c.op, c.clock), pre, next, e, x); }
  }

  lemma SettledBlocked(d: Disk, c: Call, x: PromotionState)
    requires Settled(d) && NextTaken(d, x)
    ensures After(d, c).state in {d.state, Some(x)} && After(d, c).snapshots == d.snapshots
  {
    if c.op.Acknowledge? {
      AcknowledgeKeeps(d, c);
    } else {
      var pre, next, e := OpCommits(d, c.op, c.clock);
      CommitBlocked(d, c, pre, next, e, x);
    }
  }

  /** With the next revision's snapshot on disk, by whatever interrupted transition, no call commits any other state. */
  lemma TakenBlocks(d: Disk, c: Call, x: PromotionState)
    requires Sound(d) && NextTaken(d, x)
    ensures BlockedBy(d, After(d, c), x)
  {
    SoundOutcome(d, c);
    BaseBlocked(Base(d), c, x, d, After(d, c));
  }

  lemma BaseBlocked(b: Disk, c: Call, x: PromotionState, d: Disk, d': Disk)
    requires Settled(b) && NextTaken(d, x) && b.state == d.state && b.snapshots == d.snapshots
    requires d'.state == After(b, c).state && d'.snapshots == After(b, c).snapshots
    ensures BlockedBy(d, d', x)
  {
    SettledBlocked(b, c, x);
    StillBlocked(d, d', x);
  }

  lemma StillBlocked(d: Disk, d': Disk, x: PromotionState)
    requires NextTaken(d, x) && d'.state in {d.state, Some(x)} && d'.snapshots == d.snapshots
    ensures BlockedBy(d, d', x)
  {
  }

  lemma TakenStep(disks: seq<Disk>, calls: seq<Call>, i: nat, x: PromotionState)
    requires |disks| == |calls| + 1 && 0 < i < |disks| && Leads(disks, calls, i) && Sound(disks[i - 1]) && NextTaken(disks[i - 1], x)
    ensures BlockedBy(disks[i - 1], disks[i], x)
  {
    TakenBlocks(disks[i - 1], calls[i - 1], x);
  }

  /** So in every history the state stays what it is until exactly the snapshot's state is committed. */
  lemma {:induction false} TakenStays(disks: seq<Disk>, calls: seq<Call>, i: nat, j: nat, x: PromotionState)
    requires IsHistory(disks, calls) && i <= j < |disks| && NextTaken(disks[i], x)
    requires forall m :: i < m <= j ==> disks[m].state != Some(x)
    ensures disks[j].state == disks[i].state && NextTaken(disks[j], x)
  {
    if i < j {
      TakenStays(disks, calls, i, j - 1, x);
      HistorySound(disks, calls, j - 1);
      TakenStep(disks, calls, j, x);
    }
  }
}

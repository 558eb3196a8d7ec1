/** Operations interrupted after any of their writes: recovery, and what every call leaves. */
module PromotionCalls {
  import opened Wrappers
  import opened ActivationPromotion
  import opened PromotionRecovery
  import opened PromotionOperations

  predicate WritesPending(ws: seq<Write>, k: nat) { exists i :: 0 <= i < k && i < |ws| && ws[i].PutPending? }

  /** Crash recovery. An operation is interrupted after any number k of its writes, and Recover runs
      next, itself interrupted and restarted any number of times. If the pending record was written,
      the disk ends as an uninterrupted run leaves it, file for file; if not, the state, the audit log
      and the pending record are as before the operation. Recover reports success in both cases. */
  lemma CrashRecovery(d: Disk, op: Op, clock: Clock, k: nat, recoveries: seq<nat>)
    requires Settled(d) && !op.Acknowledge? && k < |OpPlan(d, op, clock).writes|
    ensures var ws := OpPlan(d, op, clock).writes;
      var crashed := PerformAll(d, Upto(ws, k));
      var recovered := RecoverAll(crashed, recoveries);
      && RecoverPlan(crashed).failure.None?
      && (if WritesPending(ws, k) then recovered == PerformAll(d, ws)
          else recovered.state == d.state && recovered.head == d.head && recovered.events == d.events && recovered.pending == None)
  {
    var p := OpPlan(d, op, clock);
    var pre, next, e := OpCommits(d, op, clock);
    if p.failure.Some? {
      assert Upto(p.writes, k) == [];
      CleanRecovery(d, recoveries);
      SettledAudit(d);
    } else {
      PendingIndex(pre, next, e);
      CommitRecovery(d, p, pre, next, e, k, recoveries);
    }
  }

  lemma PendingIndex(pre: seq<Write>, next: PromotionState, e: AuditEvent)
    requires forall w :: w in pre ==> Preamble(w)
    ensures forall k: nat :: WritesPending(pre + CommitWrites(next, e), k) <==> k >= |pre| + 2
  {
    var ws := pre + CommitWrites(next, e);
    assert ws[|pre| + 1].PutPending?;
    forall i | 0 <= i < |ws| ensures ws[i].PutPending? <==> i == |pre| + 1 {
      if i < |pre| { assert ws[i] in pre; } else { assert ws[i] == CommitWrites(next, e)[i - |pre|]; }
    }
  }

  lemma CommitRecovery(d: Disk, p: Plan, pre: seq<Write>, next: PromotionState, e: AuditEvent, k: nat, recoveries: seq<nat>)
    requires Settled(d) && p.failure.None? && PlansCommit(d, p, pre, next, e) && k < |p.writes|
    ensures var crashed := PerformAll(d, Upto(p.writes, k));
      var recovered := RecoverAll(crashed, recoveries);
      && RecoverPlan(crashed).failure.None?
      && (if k >= |pre| + 2 then recovered == PerformAll(d, p.writes)
          else recovered == crashed && recovered.state == d.state && recovered.head == d.head && recovered.events == d.events && recovered.pending == None)
  {
    FreshEvent(d, next, e);
    CommitCrash(d, p, pre, next, e, k);
    var crashed := PerformAll(d, Upto(p.writes, k));
    if k < |pre| + 2 {
      CleanRecovery(crashed, recoveries);
      SettledAudit(d);
      SameAudit(d, crashed);
    } else {
      CommittedSettled(d, p, pre, next, e);
      SettledAudit(PerformAll(d, p.writes));
      RecoveryCompletes(crashed, recoveries);
    }
  }

  lemma FreshEvent(d: Disk, next: PromotionState, e: AuditEvent)
    requires Settled(d) && e.body.sequence == HeadSequence(d) + 1
    requires d.state.Some? ==> d.state.value.intentId == next.intentId
    ensures (e.body.sequence, e.hash) !in d.events
  {
    EventsOfKeys(HeadHash(d), next.intentId, (e.body.sequence, e.hash));
  }

  lemma {:induction false} SameChain(d: Disk, d': Disk, n: nat)
    requires d.events == d'.events
    ensures Chain(d, n) == Chain(d', n)
  {
    if n > 0 {
      SameChain(d, d', n - 1);
      assert EventsAt(d, n) == EventsAt(d', n);
    }
  }

  lemma SameAudit(d: Disk, d': Disk)
    requires d.events == d'.events && d.head == d'.head
    ensures AuditOk(d) == AuditOk(d')
  {
    if d.head.Some? { SameChain(d, d', d.head.value.sequence); }
  }

  lemma CommittedSettled(d: Disk, p: Plan, pre: seq<Write>, next: PromotionState, e: AuditEvent)
    requires Settled(d) && p.failure.None? && PlansCommit(d, p, pre, next, e)
    ensures Settled(PerformAll(d, p.writes))
    ensures PerformAll(d, p.writes).state == Some(next) && PerformAll(d, p.writes).active == AfterPreamble(d, pre).active
  {
    OperationByWrites(d, p, pre, next, e, |p.writes|);
    assert Upto(p.writes, |p.writes|) == p.writes;
    CommitSettled(d, AfterPreamble(d, pre), next, e);
  }

  // ---------------------------------------------------------------- calls

  /** One call: an operation, interrupted after `crash` writes if it makes more than that, in which
      case Recover runs next until it completes. */
  datatype Call = Call(op: Op, clock: Clock, crash: nat, recoveries: seq<nat>)

  ghost function After(d: Disk, c: Call): Disk { DiskAfter(d, OpPlan(d, c.op, c.clock).writes, c.crash, c.recoveries) }

  /** The disk after these writes, or as many of them as the process lives to make and a recovery. */
  ghost function DiskAfter(d: Disk, ws: seq<Write>, crash: nat, recoveries: seq<nat>): Disk {
    if crash < |ws| then RecoverAll(PerformAll(d, Upto(ws, crash)), recoveries) else PerformAll(d, ws)
  }

  /** A call leads from the disk before disk i to disk i. */
  ghost predicate Leads(disks: seq<Disk>, calls: seq<Call>, i: nat)
    requires |disks| == |calls| + 1 && 0 < i < |disks|
  {
    disks[i] == After(disks[i - 1], calls[i - 1])
  }

  /** The one interruption the log does not survive: Acknowledge between its event and the head. */
  predicate LeavesOrphan(d: Disk, c: Call) {
    c.op.Acknowledge? && c.crash == 2 < |OpPlan(d, c.op, c.clock).writes|
  }

  /** The acknowledgement event e continues the log of d. */
  predicate AckEvent(d: Disk, e: AuditEvent) {
    && d.state.Some? && d.state.value.phase in {Canary, Validated}
    && e == Seal(e.body) && e.body.sequence == HeadSequence(d) + 1 && e.body.previous == HeadHash(d)
    && e.body.eventType == InstanceAcknowledged && e.body.intentId == d.state.value.intentId
    && e.body.revision == d.state.value.revision
  }

  /** Acknowledge fails without a write, or writes the acknowledgement, its event and the head. */
  lemma AcknowledgeShape(d: Disk, a: Ack, clock: Clock) returns (ack: Ack, e: AuditEvent)
    requires Settled(d)
    ensures var p := AcknowledgePlan(d, a, clock);
      if p.failure.Some? then p.writes == []
      else p.writes == [PutAck(ack), PutEvent(e), PutHead(HeadOf(e))] && Harmless(d, PutAck(ack)) && AckEvent(d, e)
  {
    ack, e := a.(observedAt := clock.document), NO_EVENT;
    if AcknowledgePlan(d, a, clock).writes != [] || AcknowledgePlan(d, a, clock).failure.None? {
      e := NextEvent(d, InstanceAcknowledged, d.state.value, a.instanceId, "", Acknowledged(a.ready, a.activationId, a.tuple), clock.event);
      AppendShape(d, e, d.state.value.intentId);
    }
  }

  lemma AppendSettled(d: Disk, e: AuditEvent)
    requires Settled(d) && AckEvent(d, e)
    ensures Settled(Perform(Perform(d, PutEvent(e)), PutHead(HeadOf(e))))
  {
    var d' := Perform(Perform(d, PutEvent(e)), PutHead(HeadOf(e)));
    GateCarries(d, d');
    assert HeadHash(d') == e.hash;
  }

  lemma AcknowledgeWrites(d: Disk, a: Write, b: Write, c: Write, k: nat)
    requires k == 1 || k >= 3
    ensures PerformAll(d, Upto([a, b, c], k)) == (if k == 1 then Perform(d, a) else Perform(Perform(Perform(d, a), b), c))
  {
    var ws := [a, b, c];
    PrefixStep(d, ws, 0);
    PrefixStep(d, ws, 1);
    PrefixStep(d, ws, 2);
    assert Upto(ws, 0) == [] && Upto(ws, 3) == ws;
  }

  lemma AcknowledgeSettled(d: Disk, a: Ack, clock: Clock, k: nat)
    requires Settled(d) && (k == 2 ==> |AcknowledgePlan(d, a, clock).writes| <= 2)
    ensures var d' := PerformAll(d, Upto(AcknowledgePlan(d, a, clock).writes, k)); Settled(d') && d'.state == d.state && d'.active == d.active
  {
    var ws := AcknowledgePlan(d, a, clock).writes;
    var ack, e := AcknowledgeShape(d, a, clock);
    if ws == [] {
      assert Upto(ws, k) == [];
    } else {
      AcknowledgedUpto(d, ack, e, k);
    }
  }

  lemma AcknowledgedUpto(d: Disk, ack: Ack, e: AuditEvent, k: nat)
    requires Settled(d) && Harmless(d, PutAck(ack)) && AckEvent(d, e) && k != 2
    ensures var d' := PerformAll(d, Upto([PutAck(ack), PutEvent(e), PutHead(HeadOf(e))], k));
      Settled(d') && d'.state == d.state && d'.active == d.active
  {
    if k == 0 {
      assert Upto([PutAck(ack), PutEvent(e), PutHead(HeadOf(e))], k) == [];
    } else {
      AcknowledgeWrites(d, PutAck(ack), PutEvent(e), PutHead(HeadOf(e)), k);
      AcknowledgeAppends(d, ack, e);
    }
  }

  lemma AcknowledgeAppends(d: Disk, ack: Ack, e: AuditEvent)
    requires Settled(d) && Harmless(d, PutAck(ack)) && AckEvent(d, e)
    ensures Settled(Perform(d, PutAck(ack))) && Settled(Perform(Perform(Perform(d, PutAck(ack)), PutEvent(e)), PutHead(HeadOf(e))))
  {
    HarmlessSettled(d, PutAck(ack));
    AppendSettled(Perform(d, PutAck(ack)), e);
  }

  /** Any call, interrupted anywhere, leaves the manager settled; only the orphan is excluded. */
  lemma CallKeepsSettled(d: Disk, c: Call)
    requires Settled(d) && !LeavesOrphan(d, c)
    ensures Settled(After(d, c))
  {
    var p := OpPlan(d, c.op, c.clock);
    if c.op.Acknowledge? {
      AcknowledgeSettled(d, c.op.ack, c.clock, c.crash);
      var d' := PerformAll(d, Upto(p.writes, c.crash));
      CleanRecovery(d', c.recoveries);
    } else {
      var pre, next, e := OpCommits(d, c.op, c.clock);
      if p.failure.Some? {
        HarmlessPreamble(d, pre);
        if c.crash < |p.writes| { assert Upto(p.writes, c.crash) == []; CleanRecovery(d, c.recoveries); }
      } else {
        CommittedSettled(d, p, pre, next, e);
        if c.crash < |p.writes| { InterruptedSettled(d, c, p, pre, next, e); }
      }
    }
  }

  lemma HarmlessPreamble(d: Disk, pre: seq<Write>)
    requires Settled(d) && |pre| <= 1 && forall w :: w in pre ==> Preamble(w) && Harmless(d, w)
    ensures Settled(PerformAll(d, pre)) && Settled(AfterPreamble(d, pre))
  {
    PreambleDisk(d, pre);
    if pre != [] { HarmlessSettled(d, pre[0]); }
  }

  lemma InterruptedSettled(d: Disk, c: Call, p: Plan, pre: seq<Write>, next: PromotionState, e: AuditEvent)
    requires Settled(d) && p == OpPlan(d, c.op, c.clock) && p.failure.None? && PlansCommit(d, p, pre, next, e)
    requires c.crash < |p.writes|
    ensures Settled(After(d, c))
    ensures After(d, c).state == (if c.crash < |pre| + 2 then d.state else Some(next))
    ensures After(d, c).active in {d.active, AfterPreamble(d, pre).active}
  {
    CommitRecovery(d, p, pre, next, e, c.crash, c.recoveries);
    if c.crash < |pre| + 2 {
      UnpendedSettled(d, p, pre, next, e, c.crash);
    } else {
      CommittedSettled(d, p, pre, next, e);
    }
  }

  /** Up to the pending record nothing is settled anew. */
  lemma UnpendedSettled(d: Disk, p: Plan, pre: seq<Write>, next: PromotionState, e: AuditEvent, k: nat)
    requires Settled(d) && p.failure.None? && PlansCommit(d, p, pre, next, e) && k < |pre| + 2
    ensures var d' := PerformAll(d, Upto(p.writes, k));
      Settled(d') && d'.state == d.state && d'.active in {d.active, AfterPreamble(d, pre).active}
  {
    OperationByWrites(d, p, pre, next, e, k);
    HarmlessPreamble(d, pre);
    PreambleDisk(d, pre);
    if k >= |pre| { SnapshotSettled(AfterPreamble(d, pre), next, e, k - |pre|); }
  }

  lemma SnapshotSettled(d: Disk, next: PromotionState, e: AuditEvent, k: nat)
    requires Settled(d) && k <= 1
    ensures Settled(CommitDisk(d, next, e, k)) && CommitDisk(d, next, e, k).state == d.state && CommitDisk(d, next, e, k).active == d.active
  {
    if d.state.Some? { GateCarries(d, CommitDisk(d, next, e, k)); }
  }
}

/** The audit log as the hash chain it is, what holds between operations, and why recovery completes a commit. */
module PromotionRecovery {
  import opened Wrappers
  import opened ActivationPromotion

  function Depth(h: Hash): nat { if h.NoHash? then 0 else Depth(h.body.previous) + 1 }

  /** The events that commit a state, as opposed to acknowledgements. */
  function Commits(h: Hash): nat {
    if h.NoHash? then 0 else Commits(h.body.previous) + (if h.body.eventType.InstanceAcknowledged? then 0 else 1)
  }

  /** The phase a commit event leads to. */
  function PhaseOf(kind: EventType): Option<Phase> {
    match kind
    case PromotionPrepared => Some(Prepared)
    case PromotionValidated => Some(Validated)
    case PromotionBlocked => Some(Blocked)
    case CanaryStarted => Some(Canary)
    case InstanceAcknowledged => None
    case PromotionCompleted => Some(Promoted)
    case PromotionRolledBack => Some(RolledBack)
  }

  function PhaseAfter(h: Hash): Option<Phase> {
    if h.NoHash? then None
    else if h.body.eventType.InstanceAcknowledged? then PhaseAfter(h.body.previous)
    else PhaseOf(h.body.eventType)
  }

  predicate MayFollow(phase: Option<Phase>, kind: EventType) {
    match kind
    case PromotionPrepared => phase == None
    case PromotionValidated => phase in {Some(Prepared), Some(Validated), Some(Blocked)}
    case PromotionBlocked => phase in {Some(Prepared), Some(Validated), Some(Blocked)}
    case CanaryStarted => phase == Some(Validated)
    case InstanceAcknowledged => phase in {Some(Canary), Some(Validated)}
    case PromotionCompleted => phase == Some(Canary)
    case PromotionRolledBack => phase == Some(Promoted)
  }

  /** A log of one promotion: contiguous sequence numbers, commits with revisions 1, 2, 3, ...,
      acknowledgements with the revision of the state they saw, and a legal phase at each event. */
  predicate LegalLog(h: Hash, intentId: string) {
    h.Digest? ==>
      && LegalLog(h.body.previous, intentId)
      && h.body.sequence == Depth(h)
      && h.body.intentId == intentId
      && h.body.revision == Commits(h)
      && MayFollow(PhaseAfter(h.body.previous), h.body.eventType)
  }

  /** What the latest evaluation, and the latest promotion, put on record. */
  function LastEvaluated(h: Hash): Option<Payload> {
    if h.NoHash? then None
    else if h.body.eventType.PromotionValidated? || h.body.eventType.PromotionBlocked? then Some(h.body.payload)
    else LastEvaluated(h.body.previous)
  }

  function LastCompleted(h: Hash): Option<Payload> {
    if h.NoHash? then None
    else if h.body.eventType.PromotionCompleted? then Some(h.body.payload)
    else LastCompleted(h.body.previous)
  }

  /** The log records what the state rests on: its report with the blockers found, and enough ready instances. */
  predicate LogRecords(h: Hash, s: PromotionState, intent: Intent) {
    && LastEvaluated(h) == (if s.lastReport.None? then None
                            else Some(Evaluation(s.lastReport.value, EvaluateSummary(intent.thresholds, s.lastReport.value))))
    && (s.phase in {Promoted, RolledBack} ==> EnoughReady(LastCompleted(h), intent.requiredReadyAcks))
  }

  predicate EnoughReady(p: Option<Payload>, required: int) { p.Some? && p.value.ReadyAcks? && p.value.count >= required }

  function EventsOf(h: Hash): map<(nat, Hash), AuditEvent> {
    if h.NoHash? then map[] else EventsOf(h.body.previous)[(h.body.sequence, h) := AuditEvent(h.body, h)]
  }

  // ---------------------------------------------------------------- invariant between operations

  predicate AuditInv(d: Disk) {
    && HeadSequence(d) == Depth(HeadHash(d))
    && (d.head.Some? ==> HeadHash(d).Digest?)
    && d.events == EventsOf(HeadHash(d))
  }

  predicate Gate(d: Disk)
    requires Loaded(d)
  {
    var s, intent := d.state.value, IntentOf(d);
    && (s.phase in {Validated, Canary, Promoted, RolledBack} ==>
          && s.lastReport.Some? && (s.intentId, s.lastReport.value) in d.reports
          && EvaluateSummary(intent.thresholds, s.lastReport.value) == [])
    && (s.phase == Blocked ==>
          && s.lastReport.Some? && (s.intentId, s.lastReport.value) in d.reports
          && s.blockers == EvaluateSummary(intent.thresholds, s.lastReport.value) != [])
    && (s.phase in {Promoted, RolledBack} ==>
          intent.requiredReadyAcks <= |ReadyInstances(d, intent.intentId, intent.candidate)|)
  }

  predicate StateInv(d: Disk) {
    && Loaded(d)
    && var s := d.state.value;
       && s.revision == Commits(HeadHash(d)) && PhaseAfter(HeadHash(d)) == Some(s.phase)
       && LegalLog(HeadHash(d), s.intentId)
       && s.current == IntentOf(d).current && s.candidate == IntentOf(d).candidate != IntentOf(d).current
       && Gate(d) && LogRecords(HeadHash(d), s, IntentOf(d))
  }

  /** What holds whenever no operation is in flight. */
  predicate Settled(d: Disk) {
    && d.pending.None?
    && AuditInv(d)
    && (if d.state.None? then d.head.None? else StateInv(d))
  }

  // ---------------------------------------------------------------- VerifyAudit succeeds

  function HashAt(h: Hash, i: nat): Hash
    requires 1 <= i <= Depth(h)
  {
    if i == Depth(h) then h else HashAt(h.body.previous, i)
  }

  lemma {:induction false} EventsOfKeys(h: Hash, intentId: string, k: (nat, Hash))
    requires LegalLog(h, intentId)
    ensures k in EventsOf(h) <==> 1 <= k.0 <= Depth(h) && k.1 == HashAt(h, k.0)
    ensures k in EventsOf(h) ==> k.1.Digest? && EventsOf(h)[k] == AuditEvent(k.1.body, k.1) && k.1.body.sequence == k.0
  {
    if h.Digest? {
      EventsOfKeys(h.body.previous, intentId, k);
      if k in EventsOf(h.body.previous) { assert k.0 != Depth(h); }
    }
  }

  lemma {:induction false} HashAtPrevious(h: Hash, i: nat)
    requires 1 <= i <= Depth(h)
    ensures HashAt(h, i).Digest? && Depth(HashAt(h, i)) == i
    ensures HashAt(h, i).body.previous == (if i == 1 then NoHash else HashAt(h, i - 1))
  {
    if i < Depth(h) { HashAtPrevious(h.body.previous, i); }
    else if i > 1 { assert HashAt(h, i - 1) == HashAt(h.body.previous, i - 1); }
    else { assert Depth(h.body.previous) == 0; }
  }

  lemma {:induction false} ChainHolds(d: Disk, intentId: string, n: nat)
    requires AuditInv(d) && LegalLog(HeadHash(d), intentId) && n <= HeadSequence(d)
    ensures Chain(d, n) == Some(if n == 0 then NoHash else HashAt(HeadHash(d), n))
  {
    if n > 0 {
      ChainHolds(d, intentId, n - 1);
      var h := HeadHash(d);
      HashAtPrevious(h, n);
      forall k: (nat, Hash) ensures k in EventsAt(d, n) <==> k == (n, HashAt(h, n)) {
        EventsOfKeys(h, intentId, k);
      }
      assert EventsAt(d, n) == {(n, HashAt(h, n))};
      EventsOfKeys(h, intentId, (n, HashAt(h, n)));
    }
  }

  /** A broken chain stays broken. */
  lemma {:induction false} ChainBroken(d: Disk, n: nat, m: nat)
    requires n <= m && Chain(d, n).None?
    ensures Chain(d, m).None?
  {
    if n < m { ChainBroken(d, n, m - 1); }
  }

  /** Between operations the audit log verifies. */
  lemma SettledAudit(d: Disk)
    requires Settled(d)
    ensures AuditOk(d)
  {
    if d.head.Some? { ChainHolds(d, d.state.value.intentId, HeadSequence(d)); }
  }

  // ---------------------------------------------------------------- a commit, write by write

  lemma {:induction false} PerformAppend(d: Disk, a: seq<Write>, b: seq<Write>)
    ensures PerformAll(d, a + b) == PerformAll(PerformAll(d, a), b)
    decreases |a|
  {
    if a == [] {
      assert a + b == b;
    } else {
      assert (a + b)[1..] == a[1..] + b;
      PerformAppend(Perform(d, a[0]), a[1..], b);
    }
  }

  function CommitWrites(s: PromotionState, e: AuditEvent): seq<Write> {
    [PutSnapshot(s), PutPending(Pending(s, e)), PutEvent(e), PutHead(HeadOf(e)), PutState(s), DropPending]
  }

  /** Between operations a commit can only fail on its snapshot file. */
  lemma CommitShape(d: Disk, s: PromotionState, kind: EventType, actor: string, reason: string, payload: Payload, stamp: Time)
    requires AuditInv(d) && (d.head.Some? ==> LegalLog(HeadHash(d), s.intentId))
    ensures CommitPlan(d, s, kind, actor, reason, payload, stamp)
         == if WritableOnce(d.snapshots, (s.intentId, s.revision), s)
            then Plan(CommitWrites(s, NextEvent(d, kind, s, actor, reason, payload, stamp)), None)
            else Fails(ImmutableConflict)
  {
    var e := NextEvent(d, kind, s, actor, reason, payload, stamp);
    AppendShape(d, e, s.intentId);
    assert [PutSnapshot(s)] + ([PutPending(Pending(s, e))] + ([PutEvent(e), PutHead(HeadOf(e))] + [PutState(s), DropPending]))
        == CommitWrites(s, e);
  }

  lemma AppendShape(d: Disk, e: AuditEvent, intentId: string)
    requires AuditInv(d) && LegalLog(HeadHash(d), intentId)
    requires e.hash == Digest(e.body) && e.body.sequence == HeadSequence(d) + 1 && e.body.previous == HeadHash(d)
    ensures AppendPlan(d, e) == Plan([PutEvent(e), PutHead(HeadOf(e))], None)
  {
    EventsOfKeys(HeadHash(d), intentId, (e.body.sequence, e.hash));
  }

  // ---------------------------------------------------------------- crash recovery

  /** A pending transaction whose event is either the head or ready to become it. */
  predicate InFlight(d: Disk) {
    d.pending.Some?
    && var e := d.pending.value.event;
       && e.hash == Digest(e.body) && e.body.sequence >= 1
       && WritableOnce(d.events, (e.body.sequence, e.hash), e)
       && (if d.head == Some(HeadOf(e)) then (e.body.sequence, e.hash) in d.events
           else e.body.sequence == HeadSequence(d) + 1 && e.body.previous == HeadHash(d))
  }

  /** The disk once the pending transaction is complete. */
  function Completed(d: Disk): Disk
    requires d.pending.Some?
  {
    var p := d.pending.value;
    d.(events := d.events[(p.event.body.sequence, p.event.hash) := p.event],
       head := Some(HeadOf(p.event)), state := Some(p.state), pending := None)
  }

  /** Recover, started over after each crash; the last start runs to its end. */
  ghost function RecoverAll(d: Disk, crashes: seq<nat>): Disk
    decreases |crashes|
  {
    if crashes == [] then PerformAll(d, RecoverPlan(d).writes)
    else RecoverAll(PerformAll(d, Upto(RecoverPlan(d).writes, crashes[0])), crashes[1..])
  }

  function RecoverWrites(p: Pending, appended: bool): seq<Write> {
    if appended then [PutState(p.state), DropPending]
    else [PutEvent(p.event), PutHead(HeadOf(p.event)), PutState(p.state), DropPending]
  }

  lemma RecoverShape(d: Disk)
    requires InFlight(d)
    ensures RecoverPlan(d) == Plan(RecoverWrites(d.pending.value, d.head == Some(HeadOf(d.pending.value.event))), None)
  {
    var p := d.pending.value;
    var shape := RecoverWrites(p, false);
    assert [PutEvent(p.event), PutHead(HeadOf(p.event))] + [PutState(p.state), DropPending] == shape;
    assert [] + [PutState(p.state), DropPending] == RecoverWrites(p, true);
  }

  lemma PrefixStep(d: Disk, ws: seq<Write>, k: nat)
    requires k < |ws|
    ensures PerformAll(d, Upto(ws, k + 1)) == Perform(PerformAll(d, Upto(ws, k)), ws[k])
  {
    assert Upto(ws, k + 1) == ws[..k] + [ws[k]];
    PerformAppend(d, ws[..k], [ws[k]]);
    var before := PerformAll(d, ws[..k]);
    assert PerformAll(before, [ws[k]]) == PerformAll(Perform(before, ws[k]), []);
  }

  /** The disk after k writes of a recovery. */
  function RecoverDisk(d: Disk, p: Pending, appended: bool, k: nat): Disk {
    var j := if appended then k + 2 else k;
    d.(events := if j >= 1 && !appended then d.events[(p.event.body.sequence, p.event.hash) := p.event] else d.events,
       head := if j >= 2 && !appended then Some(HeadOf(p.event)) else d.head,
       state := if j >= 3 then Some(p.state) else d.state,
       pending := if j >= 4 then None else d.pending)
  }

  lemma {:induction false} RecoverByWrites(d: Disk, p: Pending, appended: bool, k: nat)
    requires k <= |RecoverWrites(p, appended)|
    ensures PerformAll(d, Upto(RecoverWrites(p, appended), k)) == RecoverDisk(d, p, appended, k)
  {
    if k > 0 {
      RecoverByWrites(d, p, appended, k - 1);
      PrefixStep(d, RecoverWrites(p, appended), k - 1);
    }
  }

  lemma RecoverCrash(d: Disk, k: nat)
    requires InFlight(d)
    ensures var d' := PerformAll(d, Upto(RecoverPlan(d).writes, k));
      if k >= |RecoverPlan(d).writes| then d' == Completed(d)
      else InFlight(d') && Completed(d') == Completed(d)
  {
    RecoverShape(d);
    var p := d.pending.value;
    var appended := d.head == Some(HeadOf(p.event));
    var n := |RecoverWrites(p, appended)|;
    var j := if k < n then k else n;
    assert Upto(RecoverPlan(d).writes, k) == Upto(RecoverWrites(p, appended), j);
    RecoverByWrites(d, p, appended, j);
    RecoverDiskInFlight(d, j);
  }

  lemma RecoverDiskInFlight(d: Disk, k: nat)
    requires InFlight(d)
    ensures var p := d.pending.value;
      var appended := d.head == Some(HeadOf(p.event));
      var d' := RecoverDisk(d, p, appended, k);
      if k >= |RecoverWrites(p, appended)| then d' == Completed(d)
      else InFlight(d') && Completed(d') == Completed(d)
  {
    var p := d.pending.value;
    var key := (p.event.body.sequence, p.event.hash);
    assert d.events[key := p.event][key := p.event] == d.events[key := p.event];
    if key in d.events { assert d.events[key := p.event] == d.events; }
  }

  /** However often recovery itself crashes, it ends with the transaction complete. */
  lemma {:induction false} RecoveryCompletes(d: Disk, crashes: seq<nat>)
    requires InFlight(d) && AuditOk(Completed(d))
    ensures RecoverAll(d, crashes) == Completed(d) && RecoverPlan(d).failure.None?
    decreases |crashes|
  {
    RecoverShape(d);
    if crashes == [] {
      RecoverCrash(d, |RecoverPlan(d).writes|);
    } else {
      RecoverCrash(d, crashes[0]);
      var d' := PerformAll(d, Upto(RecoverPlan(d).writes, crashes[0]));
      if crashes[0] < |RecoverPlan(d).writes| {
        RecoveryCompletes(d', crashes[1..]);
      } else {
        CleanRecovery(d', crashes[1..]);
      }
    }
  }

  lemma {:induction false} CleanRecovery(d: Disk, crashes: seq<nat>)
    requires d.pending.None?
    ensures RecoverAll(d, crashes) == d
    decreases |crashes|
  {
    if crashes != [] { CleanRecovery(d, crashes[1..]); }
  }
}

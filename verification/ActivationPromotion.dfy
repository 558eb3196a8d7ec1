/** The activation promotion manager of internal/activationpromotion.

    The files of the state directory are the fields of a class, every file write is one
    step, and a process may die between any two writes. An operation is a list of writes
    (its plan) possibly ending in an error; a crash performs a prefix of the list. */
module ActivationPromotion {
  import opened Wrappers
  import opened Text

  type Time = int

  // ---------------------------------------------------------------- documents

  datatype Phase = Prepared | Validated | Canary | Promoted | RolledBack | Blocked

  datatype Thresholds = Thresholds(
    maxScoreDelta: int,
    maxTopCandidateChangeBps: int,
    maxCandidateSetChangeBps: int,
    maxCoverageLossCount: int,
    maxAdditionalBlockerCount: int)

  datatype Intent = Intent(
    intentId: string,
    createdAt: Time,
    operator: string,
    reason: string,
    current: string,
    candidate: string,
    canaryBasisPoints: int,
    requiredReadyAcks: int,
    thresholds: Thresholds)

  /** A shadow summary; its checksum is injective, so the summary stands for it. */
  datatype Summary = Summary(
    intentId: string,
    screeningItems: int,
    maxAbsoluteScoreDelta: int,
    topCandidateChangeBps: int,
    candidateSetChangeBps: int,
    coverageLossCount: int,
    additionalBlockerCount: int)

  datatype Blocker =
    | MaxScoreDeltaExceeded
    | TopCandidateChangeRateExceeded
    | CandidateSetChangeRateExceeded
    | CoverageLossExceeded
    | AdditionalBlockerCountExceeded

  datatype PromotionState = PromotionState(
    intentId: string,
    revision: nat,
    phase: Phase,
    current: string,
    candidate: string,
    updatedAt: Time,
    lastReport: Option<Summary>,
    blockers: seq<Blocker>)

  datatype Ack = Ack(intentId: string, instanceId: string, activationId: string, ready: bool, tuple: string, observedAt: Time)

  datatype EventType = PromotionPrepared | PromotionValidated | PromotionBlocked | CanaryStarted | InstanceAcknowledged | PromotionCompleted | PromotionRolledBack

  datatype Payload =
    | NoPayload
    | Activations(current: string, candidate: string)
    | Evaluation(summary: Summary, blockers: seq<Blocker>)
    | Acknowledged(ready: bool, activationId: string, tuple: string)
    | ReadyAcks(count: nat)

  /** SHA-256 as an injective function: the digest of an audit event is its content, and so
      contains the digests of all events before it. */
  datatype Hash = NoHash | Digest(body: EventBody)

  datatype EventBody = EventBody(
    sequence: nat,
    timestamp: Time,
    eventType: EventType,
    intentId: string,
    revision: nat,
    actor: string,
    reason: string,
    payload: Payload,
    previous: Hash)

  datatype AuditEvent = AuditEvent(body: EventBody, hash: Hash)

  datatype AuditHead = AuditHead(sequence: nat, hash: Hash)

  datatype Pending = Pending(state: PromotionState, event: AuditEvent)

  /** The state directory, and the active-activation register of the scoring activation manager.
      `documents` gives each registered activation the one it is linked to. */
  datatype Disk = Disk(
    documents: map<string, string>,
    active: string,
    intents: map<string, Intent>,
    snapshots: map<(string, nat), PromotionState>,
    reports: map<(string, Summary), Summary>,
    acks: map<(string, string), Ack>,
    events: map<(nat, Hash), AuditEvent>,
    head: Option<AuditHead>,
    state: Option<PromotionState>,
    pending: Option<Pending>)

  datatype Error =
    | InvalidRequest
    | AlreadyActive
    | NotFound
    | NotLinked
    | RevisionMismatch
    | WrongPhase
    | ImmutableConflict
    | AuditMismatch
    | AuditCorrupt
    | NotReady
    | ActivationMismatch

  // ---------------------------------------------------------------- writes, plans and crashes

  datatype Write =
    | PutIntent(intent: Intent)
    | PutSnapshot(snapshot: PromotionState)
    | PutReport(reportIntent: string, report: Summary)
    | PutAck(ack: Ack)
    | PutPending(pending: Pending)
    | PutEvent(event: AuditEvent)
    | PutHead(head: AuditHead)
    | PutState(state: PromotionState)
    | DropPending
    | SetActive(activation: string)

  function Perform(d: Disk, w: Write): Disk {
    match w
    case PutIntent(i) => d.(intents := d.intents[i.intentId := i])
    case PutSnapshot(s) => d.(snapshots := d.snapshots[(s.intentId, s.revision) := s])
    case PutReport(id, r) => d.(reports := d.reports[(id, r) := r])
    case PutAck(a) => d.(acks := d.acks[(a.intentId, a.instanceId) := a])
    case PutPending(p) => d.(pending := Some(p))
    case PutEvent(e) => d.(events := d.events[(e.body.sequence, e.hash) := e])
    case PutHead(h) => d.(head := Some(h))
    case PutState(s) => d.(state := Some(s))
    case DropPending => d.(pending := None)
    case SetActive(id) => d.(active := id)
  }

  function PerformAll(d: Disk, ws: seq<Write>): Disk
    decreases |ws|
  {
    if ws == [] then d else PerformAll(Perform(d, ws[0]), ws[1..])
  }

  /** The writes of an operation in order, and the error it reports after them, if any. */
  datatype Plan = Plan(writes: seq<Write>, failure: Option<Error>)

  function Fails(e: Error): Plan { Plan([], Some(e)) }

  function Then(writes: seq<Write>, rest: Plan): Plan { Plan(writes + rest.writes, rest.failure) }

  datatype Outcome = Done | Failed(error: Error) | Crashed

  /** How a plan ends when the process dies after `budget` writes. */
  function OutcomeOf(p: Plan, budget: nat): Outcome {
    if budget < |p.writes| then Crashed
    else if p.failure.Some? then Failed(p.failure.value)
    else Done
  }

  function Upto(ws: seq<Write>, k: nat): seq<Write> { if k < |ws| then ws[..k] else ws }

  /** A file that may be written once: it must be absent or hold the same bytes. */
  predicate WritableOnce<K, V(==)>(files: map<K, V>, key: K, value: V) { key in files ==> files[key] == value }

  // ---------------------------------------------------------------- audit log

  function HeadSequence(d: Disk): nat { if d.head.Some? then d.head.value.sequence else 0 }

  function HeadHash(d: Disk): Hash { if d.head.Some? then d.head.value.hash else NoHash }

  function Seal(body: EventBody): AuditEvent { AuditEvent(body, Digest(body)) }

  function NextEvent(d: Disk, kind: EventType, s: PromotionState, actor: string, reason: string, payload: Payload, stamp: Time): AuditEvent {
    Seal(EventBody(HeadSequence(d) + 1, stamp, kind, s.intentId, s.revision, actor, reason, payload, HeadHash(d)))
  }

  function HeadOf(e: AuditEvent): AuditHead { AuditHead(e.body.sequence, e.hash) }

  function AppendPlan(d: Disk, e: AuditEvent): Plan {
    if e.body.sequence < 1 || e.hash != Digest(e.body) then Fails(AuditCorrupt)
    else if d.head == Some(HeadOf(e)) then Plan([], None)
    else if e.body.sequence != HeadSequence(d) + 1 || e.body.previous != HeadHash(d) then Fails(AuditMismatch)
    else if !WritableOnce(d.events, (e.body.sequence, e.hash), e) then Fails(ImmutableConflict)
    else Plan([PutEvent(e), PutHead(HeadOf(e))], None)
  }

  /** The files whose name starts with the sequence number. */
  function EventsAt(d: Disk, sequence: nat): set<(nat, Hash)> { set k | k in d.events && k.0 == sequence }

  ghost function Only<T>(s: set<T>): (x: T)
    requires |s| == 1
    ensures s == {x}
  {
    var x :| x in s;
    assert |s - {x}| == 0;
    x
  }

  /** VerifyAudit's loop: the hash it holds after n events, or None once it has failed. */
  ghost function Chain(d: Disk, n: nat): Option<Hash> {
    if n == 0 then Some(NoHash)
    else
      var previous := Chain(d, n - 1);
      if previous.None? || |EventsAt(d, n)| != 1 then None
      else
        var e := d.events[Only(EventsAt(d, n))];
        if e.body.sequence != n || e.body.previous != previous.value || e.hash != Digest(e.body) then None
        else Some(e.hash)
  }

  /** VerifyAudit succeeds. */
  ghost predicate AuditOk(d: Disk) {
    d.head.Some? ==> Chain(d, d.head.value.sequence) == Some(d.head.value.hash)
  }

  // ---------------------------------------------------------------- operations

  /** The common end of a commit and of a recovery: event, head, state, pending record removed. */
  function FinishPlan(d: Disk, s: PromotionState, event: AuditEvent): Plan {
    var append := AppendPlan(d, event);
    if append.failure.Some? then append else Plan(append.writes + [PutState(s), DropPending], None)
  }

  function StagePlan(d: Disk, s: PromotionState, event: AuditEvent): Plan {
    Then([PutPending(Pending(s, event))], FinishPlan(d, s, event))
  }

  function CommitPlan(d: Disk, s: PromotionState, kind: EventType, actor: string, reason: string, payload: Payload, stamp: Time): Plan {
    if !WritableOnce(d.snapshots, (s.intentId, s.revision), s) then Fails(ImmutableConflict)
    else Then([PutSnapshot(s)], StagePlan(d, s, NextEvent(d, kind, s, actor, reason, payload, stamp)))
  }

  ghost function RecoverPlan(d: Disk): Plan {
    if d.pending.None? then Plan([], if AuditOk(d) then None else Some(AuditCorrupt))
    else FinishPlan(d, d.pending.value.state, d.pending.value.event)
  }

  predicate SafeIdentifier(s: string) {
    && 1 <= |s| <= 128 && AlphaNumeric(s[0])
    && forall i :: 1 <= i < |s| ==> AlphaNumeric(s[i]) || s[i] == '.' || s[i] == '_' || s[i] == '-'
  }

  predicate ThresholdsInRange(t: Thresholds) {
    && 0 <= t.maxScoreDelta <= 1000
    && 0 <= t.maxTopCandidateChangeBps <= 10000
    && 0 <= t.maxCandidateSetChangeBps <= 10000
    && 0 <= t.maxCoverageLossCount && 0 <= t.maxAdditionalBlockerCount
  }

  datatype PrepareRequest = PrepareRequest(
    intentId: string,
    candidate: string,
    operator: string,
    reason: string,
    canaryBasisPoints: int,
    requiredReadyAcks: int,
    thresholds: Thresholds)

  predicate PrepareRequestOk(r: PrepareRequest) {
    && SafeIdentifier(r.intentId) && SafeIdentifier(r.candidate)
    && !IsBlank(r.operator) && !IsBlank(r.reason)
    && 1 <= r.canaryBasisPoints <= 5000
    && 1 <= r.requiredReadyAcks <= 10000
    && ThresholdsInRange(r.thresholds)
  }

  /** The readings of the clock an operation makes: for an intent, for the state or acknowledgement, and for the event. */
  datatype Clock = Clock(intent: Time, document: Time, event: Time)

  /** The intent and the first state of a promotion. */
  function IntentFor(d: Disk, r: PrepareRequest, at: Time): Intent {
    Intent(r.intentId, at, Trim(r.operator), Trim(r.reason), d.active, r.candidate, r.canaryBasisPoints, r.requiredReadyAcks, r.thresholds)
  }

  function FirstState(d: Disk, r: PrepareRequest, at: Time): PromotionState {
    PromotionState(r.intentId, 1, Prepared, d.active, r.candidate, at, None, [])
  }

  /** The states that the transitions after it commit. */
  function Evaluated(s: PromotionState, summary: Summary, blockers: seq<Blocker>, at: Time): PromotionState {
    s.(revision := s.revision + 1, updatedAt := at, lastReport := Some(summary),
       blockers := blockers, phase := if blockers == [] then Validated else Blocked)
  }

  function InCanary(s: PromotionState, at: Time): PromotionState { s.(revision := s.revision + 1, phase := Canary, updatedAt := at) }

  function Promoting(s: PromotionState, at: Time): PromotionState { s.(revision := s.revision + 1, phase := Promoted, updatedAt := at, blockers := []) }

  function RollingBack(s: PromotionState, at: Time): PromotionState { s.(revision := s.revision + 1, phase := RolledBack, updatedAt := at) }

  function PreparePlan(d: Disk, r: PrepareRequest, clock: Clock): Plan {
    if !PrepareRequestOk(r) then Fails(InvalidRequest)
    else if d.state.Some? then Fails(AlreadyActive)
    else if d.active !in d.documents || r.candidate !in d.documents then Fails(NotFound)
    else if r.candidate == d.active || d.documents[r.candidate] != d.active then Fails(NotLinked)
    else
      var intent := IntentFor(d, r, clock.intent);
      if !WritableOnce(d.intents, r.intentId, intent) then Fails(ImmutableConflict)
      else
        Then([PutIntent(intent)],
             CommitPlan(d, FirstState(d, r, clock.document),
                        PromotionPrepared, intent.operator, intent.reason, Activations(d.active, r.candidate), clock.event))
  }

  /** The state and its intent, as every operation after Prepare loads them. */
  predicate Loaded(d: Disk) {
    d.state.Some? && d.state.value.intentId in d.intents && d.intents[d.state.value.intentId].intentId == d.state.value.intentId
  }

  function IntentOf(d: Disk): Intent
    requires Loaded(d)
  {
    d.intents[d.state.value.intentId]
  }

  function EvaluateSummary(t: Thresholds, s: Summary): seq<Blocker> {
    (if s.maxAbsoluteScoreDelta > t.maxScoreDelta then [MaxScoreDeltaExceeded] else [])
    + (if s.topCandidateChangeBps > t.maxTopCandidateChangeBps then [TopCandidateChangeRateExceeded] else [])
    + (if s.candidateSetChangeBps > t.maxCandidateSetChangeBps then [CandidateSetChangeRateExceeded] else [])
    + (if s.coverageLossCount > t.maxCoverageLossCount then [CoverageLossExceeded] else [])
    + (if s.additionalBlockerCount > t.maxAdditionalBlockerCount then [AdditionalBlockerCountExceeded] else [])
  }

  function EvaluatePlan(d: Disk, expected: int, summary: Summary, actor: string, reason: string, clock: Clock): Plan {
    if !Loaded(d) then Fails(NotFound)
    else
      var s := d.state.value;
      if s.revision != expected then Fails(RevisionMismatch)
      else if !s.phase.Prepared? && !s.phase.Validated? && !s.phase.Blocked? then Fails(WrongPhase)
      else if summary.intentId != s.intentId || summary.intentId == "" || summary.screeningItems < 1 then Fails(InvalidRequest)
      else if !WritableOnce(d.reports, (s.intentId, summary), summary) then Fails(ImmutableConflict)
      else EvaluationPlan(d, s, EvaluateSummary(IntentOf(d).thresholds, summary), summary, actor, reason, clock)
  }

  function EvaluationPlan(d: Disk, s: PromotionState, blockers: seq<Blocker>, summary: Summary, actor: string, reason: string, clock: Clock): Plan {
    Then([PutReport(s.intentId, summary)],
         CommitPlan(d, Evaluated(s, summary, blockers, clock.document), if blockers == [] then PromotionValidated else PromotionBlocked, actor, reason,
                    Evaluation(summary, blockers), clock.event))
  }

  function StartCanaryPlan(d: Disk, expected: int, actor: string, reason: string, clock: Clock): Plan {
    if !Loaded(d) then Fails(NotFound)
    else
      var s := d.state.value;
      if s.revision != expected then Fails(RevisionMismatch)
      else if !s.phase.Validated? then Fails(WrongPhase)
      else CommitPlan(d, InCanary(s, clock.document), CanaryStarted, actor, reason, NoPayload, clock.event)
  }

  function AcknowledgePlan(d: Disk, a: Ack, clock: Clock): Plan {
    if !Loaded(d) then Fails(NotFound)
    else
      var s := d.state.value;
      if !s.phase.Canary? && !s.phase.Validated? then Fails(WrongPhase)
      else if a.intentId != s.intentId || !SafeIdentifier(a.instanceId) || IsBlank(a.tuple) then Fails(InvalidRequest)
      else if a.activationId != IntentOf(d).candidate then Fails(InvalidRequest)
      else
        var ack := a.(observedAt := clock.document);
        if !WritableOnce(d.acks, (a.intentId, a.instanceId), ack) then Fails(ImmutableConflict)
        else
          Then([PutAck(ack)],
               AppendPlan(d, NextEvent(d, InstanceAcknowledged, s, a.instanceId, "",
                                       Acknowledged(a.ready, a.activationId, a.tuple), clock.event)))
  }

  /** The instances whose acknowledgement of the candidate says ready; one file per instance. */
  function ReadyInstances(d: Disk, intentId: string, activationId: string): set<string> {
    set k | k in d.acks && k.0 == intentId && d.acks[k].intentId == intentId
            && d.acks[k].activationId == activationId && d.acks[k].ready :: k.1
  }

  /** PromoteExisting of the activation register: a compare-and-set to a linked activation. */
  function SwitchError(d: Disk, target: string, expected: string): Option<Error> {
    if d.active !in d.documents || d.active != expected then Some(ActivationMismatch)
    else if target !in d.documents then Some(NotFound)
    else if d.documents[target] != expected && target != d.documents[d.active] then Some(NotLinked)
    else None
  }

  function PromotePlan(d: Disk, expected: int, actor: string, reason: string, clock: Clock): Plan {
    if !Loaded(d) then Fails(NotFound)
    else
      var s, intent := d.state.value, IntentOf(d);
      var ready := |ReadyInstances(d, intent.intentId, intent.candidate)|;
      if s.revision != expected then Fails(RevisionMismatch)
      else if !s.phase.Canary? then Fails(WrongPhase)
      else if ready < intent.requiredReadyAcks then Fails(NotReady)
      else
        var switch := SwitchError(d, intent.candidate, intent.current);
        if switch.Some? then Fails(switch.value)
        else
          Then([SetActive(intent.candidate)],
               CommitPlan(d, Promoting(s, clock.document), PromotionCompleted, actor, reason, ReadyAcks(ready), clock.event))
  }

  function RollbackPlan(d: Disk, expected: int, actor: string, reason: string, clock: Clock): Plan {
    if !Loaded(d) then Fails(NotFound)
    else
      var s, intent := d.state.value, IntentOf(d);
      if s.revision != expected then Fails(RevisionMismatch)
      else if !s.phase.Promoted? then Fails(WrongPhase)
      else
        var switch := SwitchError(d, intent.current, intent.candidate);
        if switch.Some? then Fails(switch.value)
        else
          Then([SetActive(intent.current)],
               CommitPlan(d, RollingBack(s, clock.document), PromotionRolledBack, actor, reason, NoPayload, clock.event))
  }

  datatype Op =
    | Prepare(request: PrepareRequest)
    | Evaluate(expected: int, summary: Summary, actor: string, reason: string)
    | StartCanary(expected: int, actor: string, reason: string)
    | Acknowledge(ack: Ack)
    | Promote(expected: int, actor: string, reason: string)
    | Rollback(expected: int, actor: string, reason: string)

  function OpPlan(d: Disk, op: Op, clock: Clock): Plan {
    match op
    case Prepare(r) => PreparePlan(d, r, clock)
    case Evaluate(expected, summary, actor, reason) => EvaluatePlan(d, expected, summary, actor, reason, clock)
    case StartCanary(expected, actor, reason) => StartCanaryPlan(d, expected, actor, reason, clock)
    case Acknowledge(ack) => AcknowledgePlan(d, ack, clock)
    case Promote(expected, actor, reason) => PromotePlan(d, expected, actor, reason, clock)
    case Rollback(expected, actor, reason) => RollbackPlan(d, expected, actor, reason, clock)
  }
}

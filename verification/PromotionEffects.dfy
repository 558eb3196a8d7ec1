/** What each operation needs, and what it leaves on disk when it is not interrupted. */
module PromotionEffects {
  import opened Wrappers
  import opened Text
  import opened ActivationPromotion
  import opened PromotionRecovery
  import opened PromotionOperations
  import opened PromotionCalls
  import opened PromotionOrphans
  import opened PromotionHistory

  /** The disk when the operation has made all its writes. */
  function Done(d: Disk, op: Op, clock: Clock): Disk { PerformAll(d, OpPlan(d, op, clock).writes) }

  predicate Succeeds(d: Disk, op: Op, clock: Clock) { OpPlan(d, op, clock).failure.None? }

  /** The operation reports this error, and has written nothing. */
  predicate Refused(d: Disk, op: Op, clock: Clock, e: Error) {
    OpPlan(d, op, clock).failure == Some(e) && Done(d, op, clock) == d
  }

  /** One sealed event is appended to the log, and the head moves on to it. */
  predicate Logged(d: Disk, d': Disk, kind: EventType, revision: nat, actor: string, reason: string, payload: Payload, at: Time) {
    d'.state.Some? && d'.head.Some? && d'.head.value.hash.Digest? &&
    var n, body := HeadSequence(d) + 1, d'.head.value.hash.body;
    && body.sequence == d'.head.value.sequence == n && body.previous == HeadHash(d)
    && body.eventType == kind && body.intentId == d'.state.value.intentId && body.revision == revision
    && body.actor == actor && body.reason == reason && body.payload == payload && body.timestamp == at
    && d'.events == d.events[(n, d'.head.value.hash) := AuditEvent(body, d'.head.value.hash)]
  }

  /** A state is committed: it is the state, its revision's snapshot, and the subject of the last event. */
  predicate Committed(d: Disk, d': Disk, next: PromotionState) {
    && d'.state == Some(next) && d'.pending == None
    && d'.snapshots == d.snapshots[(next.intentId, next.revision) := next]
  }

  /** The operation committed `next` by this event, after its own first write. */
  predicate CommittedBy(d: Disk, d': Disk, pre: seq<Write>, next: PromotionState, kind: EventType,
                        actor: string, reason: string, payload: Payload, at: Time)
  {
    && Committed(d, d', next) && Logged(d, d', kind, next.revision, actor, reason, payload, at)
    && d' == AfterPreamble(d, pre).(snapshots := d'.snapshots, state := d'.state, head := d'.head, events := d'.events, pending := None)
  }

  lemma CommitPlanned(d: Disk, pre: seq<Write>, next: PromotionState, kind: EventType, actor: string, reason: string, payload: Payload, at: Time)
    requires Sound(d) && (d.state.Some? ==> next.intentId == d.state.value.intentId)
    ensures var p := Then(pre, CommitPlan(d, next, kind, actor, reason, payload, at));
      if WritableOnce(d.snapshots, (next.intentId, next.revision), next)
      then p == Plan(pre + CommitWrites(next, NextEvent(d, kind, next, actor, reason, payload, at)), None)
      else p == Plan(pre, Some(ImmutableConflict))
  {
    SoundIsWith(d);
    CommitWith(Base(d), d.events, next, kind, actor, reason, payload, at);
    CommitShape(Base(d), next, kind, actor, reason, payload, at);
  }

  lemma CommitDone(d: Disk, p: Plan, pre: seq<Write>, next: PromotionState, kind: EventType, actor: string, reason: string, payload: Payload, at: Time)
    requires Sound(d) && |pre| <= 1 && (forall w :: w in pre ==> Preamble(w))
    requires p.writes == pre + CommitWrites(next, NextEvent(d, kind, next, actor, reason, payload, at))
    ensures CommittedBy(d, PerformAll(d, p.writes), pre, next, kind, actor, reason, payload, at)
  {
    var e := NextEvent(d, kind, next, actor, reason, payload, at);
    PreambleDisk(d, pre);
    PerformAppend(d, pre, CommitWrites(next, e));
    CommitByWrites(AfterPreamble(d, pre), next, e, 6);
    assert Upto(CommitWrites(next, e), 6) == CommitWrites(next, e);
  }

  /** Without a state and its intent nothing but Prepare is possible. */
  lemma NeedsPreparation(d: Disk, op: Op, clock: Clock)
    requires !Loaded(d) && !op.Prepare?
    ensures Refused(d, op, clock, NotFound)
  {
  }

  // ---------------------------------------------------------------- Promote and Rollback

  lemma SameReady(d: Disk, intent: Intent, ids: set<string>)
    requires Ready(d, intent, ids)
    ensures ids == ReadyInstances(d, intent.intentId, intent.candidate)
  {
    ReadyInstancesAre(d, intent);
  }

  /** The activation register switches from one activation to another: the first is active, both are
      registered, and one of them is linked to the other. */
  predicate Switchable(d: Disk, from: string, to: string) {
    && d.active == from && from in d.documents && to in d.documents
    && (d.documents[to] == from || d.documents[from] == to)
  }

  /** The states the transitions commit: the next revision, in its phase and at its time. */
  function Moved(s: PromotionState, phase: Phase, at: Time): PromotionState {
    PromotionState(s.intentId, s.revision + 1, phase, s.current, s.candidate, at, s.lastReport, if phase == Promoted then [] else s.blockers)
  }

  predicate Free(d: Disk, next: PromotionState) { WritableOnce(d.snapshots, (next.intentId, next.revision), next) }

  /** Nothing but the state, its snapshots, the log and the active activation differ. */
  predicate OnlyState(d: Disk, d': Disk) {
    d'.documents == d.documents && d'.intents == d.intents && d'.reports == d.reports && d'.acks == d.acks
  }

  lemma PromotePlanned(d: Disk, expected: int, actor: string, reason: string, clock: Clock, ids: set<string>)
    requires Loaded(d) && Ready(d, IntentOf(d), ids)
    ensures var s, intent, op := d.state.value, IntentOf(d), Promote(expected, actor, reason);
      if s.revision == expected && s.phase == Canary && |ids| >= intent.requiredReadyAcks && Switchable(d, intent.current, intent.candidate)
      then OpPlan(d, op, clock) == Then([SetActive(intent.candidate)],
             CommitPlan(d, Moved(s, Promoted, clock.document), PromotionCompleted, actor, reason, ReadyAcks(|ids|), clock.event))
      else OpPlan(d, op, clock).failure.Some? && OpPlan(d, op, clock).writes == []
  {
    SameReady(d, IntentOf(d), ids);
  }

  /** Promote needs a canary of the expected revision, enough ready instances, an activation that can
      be switched, and a free snapshot file. */
  lemma PromoteNeeds(d: Disk, expected: int, actor: string, reason: string, clock: Clock, ids: set<string>)
    requires Sound(d) && Loaded(d) && Ready(d, IntentOf(d), ids)
    ensures var s, intent := d.state.value, IntentOf(d);
      Succeeds(d, Promote(expected, actor, reason), clock) <==>
        && s.revision == expected && s.phase == Canary && |ids| >= intent.requiredReadyAcks
        && Switchable(d, intent.current, intent.candidate) && Free(d, Moved(s, Promoted, clock.document))
  {
    PromotePlanned(d, expected, actor, reason, clock, ids);
    CommitPlanned(d, [SetActive(IntentOf(d).candidate)], Moved(d.state.value, Promoted, clock.document), PromotionCompleted, actor, reason,
                  ReadyAcks(|ids|), clock.event);
  }

  /** Without enough ready instances the activation is not switched. */
  lemma PromoteRefuses(d: Disk, expected: int, actor: string, reason: string, clock: Clock, ids: set<string>)
    requires Loaded(d) && Ready(d, IntentOf(d), ids)
    ensures var s, op := d.state.value, Promote(expected, actor, reason);
      && (s.revision != expected ==> Refused(d, op, clock, RevisionMismatch))
      && (s.revision == expected && s.phase != Canary ==> Refused(d, op, clock, WrongPhase))
      && (s.revision == expected && s.phase == Canary && |ids| < IntentOf(d).requiredReadyAcks ==> Refused(d, op, clock, NotReady))
  {
    SameReady(d, IntentOf(d), ids);
  }

  /** Promote makes the candidate active and commits the phase, with the number of ready instances. */
  lemma PromoteDoes(d: Disk, expected: int, actor: string, reason: string, clock: Clock, ids: set<string>)
    requires Sound(d) && Loaded(d) && Ready(d, IntentOf(d), ids) && Succeeds(d, Promote(expected, actor, reason), clock)
    ensures var s, d' := d.state.value, Done(d, Promote(expected, actor, reason), clock);
      && Committed(d, d', Moved(s, Promoted, clock.document))
      && Logged(d, d', PromotionCompleted, s.revision + 1, actor, reason, ReadyAcks(|ids|), clock.event)
      && d'.active == IntentOf(d).candidate && OnlyState(d, d')
  {
    var pre, next := [SetActive(IntentOf(d).candidate)], Moved(d.state.value, Promoted, clock.document);
    PromotePlanned(d, expected, actor, reason, clock, ids);
    CommitPlanned(d, pre, next, PromotionCompleted, actor, reason, ReadyAcks(|ids|), clock.event);
    CommitDone(d, OpPlan(d, Promote(expected, actor, reason), clock), pre, next, PromotionCompleted, actor, reason, ReadyAcks(|ids|), clock.event);
  }

  lemma RollbackPlanned(d: Disk, expected: int, actor: string, reason: string, clock: Clock)
    requires Loaded(d)
    ensures var s, intent, op := d.state.value, IntentOf(d), Rollback(expected, actor, reason);
      if s.revision == expected && s.phase == Promoted && Switchable(d, intent.candidate, intent.current)
      then OpPlan(d, op, clock) == Then([SetActive(intent.current)],
             CommitPlan(d, Moved(s, RolledBack, clock.document), PromotionRolledBack, actor, reason, NoPayload, clock.event))
      else OpPlan(d, op, clock).failure.Some? && OpPlan(d, op, clock).writes == []
  {
  }

  lemma RollbackNeeds(d: Disk, expected: int, actor: string, reason: string, clock: Clock)
    requires Sound(d) && Loaded(d)
    ensures var s, intent := d.state.value, IntentOf(d);
      Succeeds(d, Rollback(expected, actor, reason), clock) <==>
        && s.revision == expected && s.phase == Promoted
        && Switchable(d, intent.candidate, intent.current) && Free(d, Moved(s, RolledBack, clock.document))
  {
    RollbackPlanned(d, expected, actor, reason, clock);
    CommitPlanned(d, [SetActive(IntentOf(d).current)], Moved(d.state.value, RolledBack, clock.document), PromotionRolledBack, actor, reason,
                  NoPayload, clock.event);
  }

  lemma RollbackRefuses(d: Disk, expected: int, actor: string, reason: string, clock: Clock)
    requires Loaded(d)
    ensures var s, op := d.state.value, Rollback(expected, actor, reason);
      && (s.revision != expected ==> Refused(d, op, clock, RevisionMismatch))
      && (s.revision == expected && s.phase != Promoted ==> Refused(d, op, clock, WrongPhase))
  {
  }

  /** Rollback makes the activation that was current active again. */
  lemma RollbackDoes(d: Disk, expected: int, actor: string, reason: string, clock: Clock)
    requires Sound(d) && Loaded(d) && Succeeds(d, Rollback(expected, actor, reason), clock)
    ensures var s, d' := d.state.value, Done(d, Rollback(expected, actor, reason), clock);
      && Committed(d, d', Moved(s, RolledBack, clock.document))
      && Logged(d, d', PromotionRolledBack, s.revision + 1, actor, reason, NoPayload, clock.event)
      && d'.active == IntentOf(d).current && OnlyState(d, d')
  {
    var pre, next := [SetActive(IntentOf(d).current)], Moved(d.state.value, RolledBack, clock.document);
    RollbackPlanned(d, expected, actor, reason, clock);
    CommitPlanned(d, pre, next, PromotionRolledBack, actor, reason, NoPayload, clock.event);
    CommitDone(d, OpPlan(d, Rollback(expected, actor, reason), clock), pre, next, PromotionRolledBack, actor, reason, NoPayload, clock.event);
  }

  // ---------------------------------------------------------------- StartCanary and Evaluate

  lemma CanaryPlanned(d: Disk, expected: int, actor: string, reason: string, clock: Clock)
    requires Loaded(d)
    ensures var s, op := d.state.value, StartCanary(expected, actor, reason);
      if s.revision == expected && s.phase == Validated
      then OpPlan(d, op, clock) == Then([], CommitPlan(d, Moved(s, Canary, clock.document), CanaryStarted, actor, reason, NoPayload, clock.event))
      else OpPlan(d, op, clock).failure.Some? && OpPlan(d, op, clock).writes == []
  {
    var p := CommitPlan(d, Moved(d.state.value, Canary, clock.document), CanaryStarted, actor, reason, NoPayload, clock.event);
    assert Then([], p) == p;
  }

  lemma CanaryNeeds(d: Disk, expected: int, actor: string, reason: string, clock: Clock)
    requires Sound(d) && Loaded(d)
    ensures var s := d.state.value;
      Succeeds(d, StartCanary(expected, actor, reason), clock) <==>
        s.revision == expected && s.phase == Validated && Free(d, Moved(s, Canary, clock.document))
  {
    CanaryPlanned(d, expected, actor, reason, clock);
    CommitPlanned(d, [], Moved(d.state.value, Canary, clock.document), CanaryStarted, actor, reason, NoPayload, clock.event);
  }

  lemma CanaryRefuses(d: Disk, expected: int, actor: string, reason: string, clock: Clock)
    requires Loaded(d)
    ensures var s, op := d.state.value, StartCanary(expected, actor, reason);
      && (s.revision != expected ==> Refused(d, op, clock, RevisionMismatch))
      && (s.revision == expected && s.phase != Validated ==> Refused(d, op, clock, WrongPhase))
  {
  }

  lemma CanaryDoes(d: Disk, expected: int, actor: string, reason: string, clock: Clock)
    requires Sound(d) && Loaded(d) && Succeeds(d, StartCanary(expected, actor, reason), clock)
    ensures var s, d' := d.state.value, Done(d, StartCanary(expected, actor, reason), clock);
      && Committed(d, d', Moved(s, Canary, clock.document))
      && Logged(d, d', CanaryStarted, s.revision + 1, actor, reason, NoPayload, clock.event)
      && d'.active == d.active && OnlyState(d, d')
  {
    var next := Moved(d.state.value, Canary, clock.document);
    CanaryPlanned(d, expected, actor, reason, clock);
    CommitPlanned(d, [], next, CanaryStarted, actor, reason, NoPayload, clock.event);
    CommitDone(d, OpPlan(d, StartCanary(expected, actor, reason), clock), [], next, CanaryStarted, actor, reason, NoPayload, clock.event);
  }

  /** The summary shows more of what the blocker names than the threshold allows. */
  predicate Exceeds(t: Thresholds, s: Summary, b: Blocker) {
    match b
    case MaxScoreDeltaExceeded => s.maxAbsoluteScoreDelta > t.maxScoreDelta
    case TopCandidateChangeRateExceeded => s.topCandidateChangeBps > t.maxTopCandidateChangeBps
    case CandidateSetChangeRateExceeded => s.candidateSetChangeBps > t.maxCandidateSetChangeBps
    case CoverageLossExceeded => s.coverageLossCount > t.maxCoverageLossCount
    case AdditionalBlockerCountExceeded => s.additionalBlockerCount > t.maxAdditionalBlockerCount
  }

  /** The blockers of a summary, in the order in which its measures are compared. */
  function Position(b: Blocker): nat {
    match b
    case MaxScoreDeltaExceeded => 0
    case TopCandidateChangeRateExceeded => 1
    case CandidateSetChangeRateExceeded => 2
    case CoverageLossExceeded => 3
    case AdditionalBlockerCountExceeded => 4
  }

  predicate BlockersOf(t: Thresholds, s: Summary, blockers: seq<Blocker>) {
    (forall b :: b in blockers <==> Exceeds(t, s, b)) && InOrder(blockers)
  }

  /** Each blocker named is one whose threshold is exceeded, each such blocker is named, once and in order. */
  lemma BlockersNamed(t: Thresholds, s: Summary)
    ensures BlockersOf(t, s, EvaluateSummary(t, s))
  {
    var a := More(t, s, [], MaxScoreDeltaExceeded);
    var b := More(t, s, a, TopCandidateChangeRateExceeded);
    var c := More(t, s, b, CandidateSetChangeRateExceeded);
    var e := More(t, s, c, CoverageLossExceeded);
    OneMoreBlocker(t, s, [], MaxScoreDeltaExceeded);
    OneMoreBlocker(t, s, a, TopCandidateChangeRateExceeded);
    OneMoreBlocker(t, s, b, CandidateSetChangeRateExceeded);
    OneMoreBlocker(t, s, c, CoverageLossExceeded);
    OneMoreBlocker(t, s, e, AdditionalBlockerCountExceeded);
    ComparedInTurn(t, s, a, b, c, e);
  }

  lemma ComparedInTurn(t: Thresholds, s: Summary, a: seq<Blocker>, b: seq<Blocker>, c: seq<Blocker>, e: seq<Blocker>)
    requires a == More(t, s, [], MaxScoreDeltaExceeded) && b == More(t, s, a, TopCandidateChangeRateExceeded)
    requires c == More(t, s, b, CandidateSetChangeRateExceeded) && e == More(t, s, c, CoverageLossExceeded)
    ensures EvaluateSummary(t, s) == More(t, s, e, AdditionalBlockerCountExceeded)
  {
  }

  /** The blockers once the measure of x has been compared too. */
  function More(t: Thresholds, s: Summary, blockers: seq<Blocker>, x: Blocker): seq<Blocker> {
    blockers + if Exceeds(t, s, x) then [x] else []
  }

  /** The blockers of the measures compared before position n. */
  predicate BlockersBelow(t: Thresholds, s: Summary, blockers: seq<Blocker>, n: nat) {
    (forall b :: b in blockers <==> Exceeds(t, s, b) && Position(b) < n) && InOrder(blockers)
  }

  lemma OneMoreBlocker(t: Thresholds, s: Summary, blockers: seq<Blocker>, x: Blocker)
    requires BlockersBelow(t, s, blockers, Position(x))
    ensures BlockersBelow(t, s, More(t, s, blockers, x), Position(x) + 1)
  {
    var more := More(t, s, blockers, x);
    forall b ensures b in more <==> Exceeds(t, s, b) && Position(b) < Position(x) + 1 {
      assert Position(b) == Position(x) <==> b == x;
    }
    forall i, j | 0 <= i < j < |more| ensures Position(more[i]) < Position(more[j]) {
      assert more[i] == blockers[i] && blockers[i] in blockers;
    }
  }

  predicate InOrder(blockers: seq<Blocker>) { forall i, j :: 0 <= i < j < |blockers| ==> Position(blockers[i]) < Position(blockers[j]) }

  lemma {:induction false} OneOrder(a: seq<Blocker>, b: seq<Blocker>)
    requires InOrder(a) && InOrder(b) && forall x :: x in a <==> x in b
    ensures a == b
  {
    if a == [] {
      if b != [] { HeadIn(b); }
    } else {
      assert a[0] in b && b[0] in a;
      assert a[0] == b[0] by {
        var i, j :| 0 <= i < |b| && b[i] == a[0] && 0 <= j < |a| && a[j] == b[0];
      }
      forall x ensures x in a[1..] <==> x in b[1..] {
        if x in a[1..] { LaterOnly(a, x); } else if x in b[1..] { LaterOnly(b, x); }
      }
      OneOrder(a[1..], b[1..]);
    }
  }

  lemma HeadIn(a: seq<Blocker>)
    requires a != []
    ensures a[0] in a
  {
  }

  lemma LaterOnly(a: seq<Blocker>, x: Blocker)
    requires InOrder(a) && a != [] && x in a[1..]
    ensures x != a[0] && x in a
  {
    var i :| 0 <= i < |a[1..]| && a[1..][i] == x;
    assert a[i + 1] == x;
  }

  lemma BlockersAre(t: Thresholds, s: Summary, blockers: seq<Blocker>)
    requires BlockersOf(t, s, blockers)
    ensures blockers == EvaluateSummary(t, s)
  {
    BlockersNamed(t, s);
    OneOrder(blockers, EvaluateSummary(t, s));
  }

  /** The state after an evaluation that found these blockers. */
  function Judged(s: PromotionState, summary: Summary, blockers: seq<Blocker>, at: Time): PromotionState {
    PromotionState(s.intentId, s.revision + 1, if blockers == [] then Validated else Blocked, s.current, s.candidate, at, Some(summary), blockers)
  }

  predicate WellFormed(s: PromotionState, summary: Summary) { summary.intentId == s.intentId != "" && summary.screeningItems >= 1 }

  predicate Verdict(blockers: seq<Blocker>, kind: EventType) { kind == if blockers == [] then PromotionValidated else PromotionBlocked }

  lemma EvaluatePlanned(d: Disk, expected: int, summary: Summary, actor: string, reason: string, clock: Clock, blockers: seq<Blocker>, kind: EventType)
    requires Loaded(d) && BlockersOf(IntentOf(d).thresholds, summary, blockers) && Verdict(blockers, kind)
    ensures var s, op := d.state.value, Evaluate(expected, summary, actor, reason);
      if s.revision == expected && s.phase in {Prepared, Validated, Blocked} && WellFormed(s, summary)
         && WritableOnce(d.reports, (s.intentId, summary), summary)
      then OpPlan(d, op, clock) == Then([PutReport(s.intentId, summary)],
             CommitPlan(d, Judged(s, summary, blockers, clock.document), kind, actor, reason, Evaluation(summary, blockers), clock.event))
      else OpPlan(d, op, clock).failure.Some? && OpPlan(d, op, clock).writes == []
  {
    BlockersAre(IntentOf(d).thresholds, summary, blockers);
  }

  /** Evaluate needs the expected revision, a phase before the canary, a well-formed summary of this
      promotion, and free files. */
  lemma EvaluateNeeds(d: Disk, expected: int, summary: Summary, actor: string, reason: string, clock: Clock, blockers: seq<Blocker>)
    requires Sound(d) && Loaded(d) && BlockersOf(IntentOf(d).thresholds, summary, blockers)
    ensures var s := d.state.value;
      Succeeds(d, Evaluate(expected, summary, actor, reason), clock) <==>
        && s.revision == expected && s.phase in {Prepared, Validated, Blocked} && WellFormed(s, summary)
        && WritableOnce(d.reports, (s.intentId, summary), summary) && Free(d, Judged(s, summary, blockers, clock.document))
  {
    var s, kind := d.state.value, if blockers == [] then PromotionValidated else PromotionBlocked;
    EvaluatePlanned(d, expected, summary, actor, reason, clock, blockers, kind);
    CommitPlanned(d, [PutReport(s.intentId, summary)], Judged(s, summary, blockers, clock.document), kind, actor, reason,
                  Evaluation(summary, blockers), clock.event);
  }

  lemma EvaluateRefuses(d: Disk, expected: int, summary: Summary, actor: string, reason: string, clock: Clock)
    requires Loaded(d)
    ensures var s, op := d.state.value, Evaluate(expected, summary, actor, reason);
      var early := s.phase in {Prepared, Validated, Blocked};
      && (s.revision != expected ==> Refused(d, op, clock, RevisionMismatch))
      && (s.revision == expected && !early ==> Refused(d, op, clock, WrongPhase))
      && (s.revision == expected && early && !WellFormed(s, summary) ==> Refused(d, op, clock, InvalidRequest))
  {
  }

  /** Evaluate files the summary and commits its verdict: validated without a blocker, blocked with one. */
  lemma EvaluateDoes(d: Disk, expected: int, summary: Summary, actor: string, reason: string, clock: Clock, blockers: seq<Blocker>, kind: EventType)
    requires Sound(d) && Loaded(d) && BlockersOf(IntentOf(d).thresholds, summary, blockers) && Verdict(blockers, kind)
    requires Succeeds(d, Evaluate(expected, summary, actor, reason), clock)
    ensures var s, d' := d.state.value, Done(d, Evaluate(expected, summary, actor, reason), clock);
      && Committed(d, d', Judged(s, summary, blockers, clock.document))
      && Logged(d, d', kind, s.revision + 1, actor, reason, Evaluation(summary, blockers), clock.event)
      && d'.reports == d.reports[(s.intentId, summary) := summary]
      && d'.active == d.active && d'.documents == d.documents && d'.intents == d.intents && d'.acks == d.acks
  {
    var s := d.state.value;
    var pre, next := [PutReport(s.intentId, summary)], Judged(s, summary, blockers, clock.document);
    EvaluatePlanned(d, expected, summary, actor, reason, clock, blockers, kind);
    CommitPlanned(d, pre, next, kind, actor, reason, Evaluation(summary, blockers), clock.event);
    CommitDone(d, OpPlan(d, Evaluate(expected, summary, actor, reason), clock), pre, next, kind, actor, reason,
               Evaluation(summary, blockers), clock.event);
  }

  // ---------------------------------------------------------------- Prepare and Acknowledge

  /** The pattern of an identifier: a letter or digit, and at most 127 letters, digits, dots, underscores and dashes. */
  predicate Identifier(s: string) {
    1 <= |s| <= 128 && (forall c :: c in s ==> AlphaNumeric(c) || c in {'.', '_', '-'}) && s[0] !in {'.', '_', '-'}
  }

  lemma IdentifiersAre(s: string)
    ensures SafeIdentifier(s) <==> Identifier(s)
  {
    if Identifier(s) { forall i | 0 <= i < |s| ensures AlphaNumeric(s[i]) || s[i] in {'.', '_', '-'} { assert s[i] in s; } }
  }

  /** A request that Prepare may act on. */
  predicate Acceptable(r: PrepareRequest) {
    && Identifier(r.intentId) && Identifier(r.candidate) && !IsBlank(r.operator) && !IsBlank(r.reason)
    && 1 <= r.canaryBasisPoints <= 5000 && 1 <= r.requiredReadyAcks <= 10000
    && var t := r.thresholds;
       && 0 <= t.maxScoreDelta <= 1000 && 0 <= t.maxTopCandidateChangeBps <= 10000 && 0 <= t.maxCandidateSetChangeBps <= 10000
       && t.maxCoverageLossCount >= 0 && t.maxAdditionalBlockerCount >= 0
  }

  /** The intent and first state of the request, against the activation that is active. */
  function Intended(d: Disk, r: PrepareRequest, at: Time): Intent {
    Intent(intentId := r.intentId, createdAt := at, operator := Trim(r.operator), reason := Trim(r.reason),
           current := d.active, candidate := r.candidate, canaryBasisPoints := r.canaryBasisPoints,
           requiredReadyAcks := r.requiredReadyAcks, thresholds := r.thresholds)
  }

  function Begun(d: Disk, r: PrepareRequest, at: Time): PromotionState {
    PromotionState(intentId := r.intentId, revision := 1, phase := Prepared, current := d.active, candidate := r.candidate,
                   updatedAt := at, lastReport := None, blockers := [])
  }

  predicate Linked(d: Disk, candidate: string) {
    d.active in d.documents && candidate in d.documents && candidate != d.active && d.documents[candidate] == d.active
  }

  lemma PreparePlanned(d: Disk, r: PrepareRequest, clock: Clock)
    ensures if Acceptable(r) && d.state.None? && Linked(d, r.candidate) && WritableOnce(d.intents, r.intentId, Intended(d, r, clock.intent))
      then OpPlan(d, Prepare(r), clock) == Then([PutIntent(Intended(d, r, clock.intent))],
             CommitPlan(d, Begun(d, r, clock.document), PromotionPrepared, Trim(r.operator), Trim(r.reason), Activations(d.active, r.candidate), clock.event))
      else OpPlan(d, Prepare(r), clock).failure.Some? && OpPlan(d, Prepare(r), clock).writes == []
  {
    IdentifiersAre(r.intentId);
    IdentifiersAre(r.candidate);
  }

  /** Prepare needs an acceptable request, no promotion under way, a registered candidate that is
      linked to the active activation, and free files. */
  lemma PrepareNeeds(d: Disk, r: PrepareRequest, clock: Clock)
    requires Sound(d)
    ensures Succeeds(d, Prepare(r), clock) <==>
      && Acceptable(r) && d.state.None? && Linked(d, r.candidate)
      && WritableOnce(d.intents, r.intentId, Intended(d, r, clock.intent)) && Free(d, Begun(d, r, clock.document))
  {
    PreparePlanned(d, r, clock);
    if d.state.None? {
      CommitPlanned(d, [PutIntent(Intended(d, r, clock.intent))], Begun(d, r, clock.document), PromotionPrepared,
                    Trim(r.operator), Trim(r.reason), Activations(d.active, r.candidate), clock.event);
    }
  }

  lemma PrepareRefuses(d: Disk, r: PrepareRequest, clock: Clock)
    ensures !Acceptable(r) ==> Refused(d, Prepare(r), clock, InvalidRequest)
    ensures Acceptable(r) && d.state.Some? ==> Refused(d, Prepare(r), clock, AlreadyActive)
  {
    IdentifiersAre(r.intentId);
    IdentifiersAre(r.candidate);
  }

  /** Prepare files the intent, with who, why and against what, and commits the first state. */
  lemma PrepareDoes(d: Disk, r: PrepareRequest, clock: Clock)
    requires Sound(d) && Succeeds(d, Prepare(r), clock)
    ensures var d' := Done(d, Prepare(r), clock);
      && Committed(d, d', Begun(d, r, clock.document))
      && Logged(d, d', PromotionPrepared, 1, Trim(r.operator), Trim(r.reason), Activations(d.active, r.candidate), clock.event)
      && d'.intents == d.intents[r.intentId := Intended(d, r, clock.intent)]
      && d'.active == d.active && d'.documents == d.documents && d'.reports == d.reports && d'.acks == d.acks
  {
    var pre, next := [PutIntent(Intended(d, r, clock.intent))], Begun(d, r, clock.document);
    PreparePlanned(d, r, clock);
    CommitPlanned(d, pre, next, PromotionPrepared, Trim(r.operator), Trim(r.reason), Activations(d.active, r.candidate), clock.event);
    CommitDone(d, OpPlan(d, Prepare(r), clock), pre, next, PromotionPrepared, Trim(r.operator), Trim(r.reason),
               Activations(d.active, r.candidate), clock.event);
  }

  /** Acknowledge needs a validated promotion or a canary, and a well-formed acknowledgement of its candidate
      that is the instance's first, or the same again. */
  lemma AcknowledgeNeeds(d: Disk, a: Ack, clock: Clock)
    requires Sound(d) && Loaded(d)
    ensures var s, op := d.state.value, Acknowledge(a);
      var open := s.phase in {Canary, Validated};
      var formed := a.intentId == s.intentId && Identifier(a.instanceId) && !IsBlank(a.tuple) && a.activationId == IntentOf(d).candidate;
      && (Succeeds(d, op, clock) <==> open && formed && WritableOnce(d.acks, (a.intentId, a.instanceId), a.(observedAt := clock.document)))
      && (!open ==> Refused(d, op, clock, WrongPhase))
      && (open && !formed ==> Refused(d, op, clock, InvalidRequest))
  {
    IdentifiersAre(a.instanceId);
    NextAppends(d, Answer(d, a, clock));
  }

  /** The event of an acknowledgement. */
  function Answer(d: Disk, a: Ack, clock: Clock): AuditEvent
    requires d.state.Some?
  {
    NextEvent(d, InstanceAcknowledged, d.state.value, a.instanceId, "", Acknowledged(a.ready, a.activationId, a.tuple), clock.event)
  }

  lemma NextAppends(d: Disk, e: AuditEvent)
    requires Sound(d) && d.state.Some? && e == Seal(e.body) && e.body.sequence == HeadSequence(d) + 1 && e.body.previous == HeadHash(d)
    ensures AppendPlan(d, e) == Plan([PutEvent(e), PutHead(HeadOf(e))], None)
  {
    SoundIsWith(d);
    AppendWith(Base(d), d.events, e);
    AppendShape(Base(d), e, d.state.value.intentId);
  }

  /** Acknowledge files the acknowledgement, stamped, and appends its event; the state stays. */
  lemma AcknowledgeDoes(d: Disk, a: Ack, clock: Clock)
    requires Sound(d) && Loaded(d) && Succeeds(d, Acknowledge(a), clock)
    ensures var s, d' := d.state.value, Done(d, Acknowledge(a), clock);
      && d'.acks == d.acks[(a.intentId, a.instanceId) := Ack(a.intentId, a.instanceId, a.activationId, a.ready, a.tuple, clock.document)]
      && Logged(d, d', InstanceAcknowledged, s.revision, a.instanceId, "", Acknowledged(a.ready, a.activationId, a.tuple), clock.event)
      && d' == d.(acks := d'.acks, events := d'.events, head := d'.head)
  {
    var e, ack := Answer(d, a, clock), a.(observedAt := clock.document);
    NextAppends(d, e);
    var ws := [PutAck(ack), PutEvent(e), PutHead(HeadOf(e))];
    assert OpPlan(d, Acknowledge(a), clock).writes == ws;
    AcknowledgeWrites(d, ws[0], ws[1], ws[2], 3);
    assert Upto(ws, 3) == ws;
  }
}

/** The manager itself: a class whose fields are the files, proved against the plans. */
module PromotionManager {
  import opened Wrappers
  import opened Text
  import opened ActivationPromotion
  import opened PromotionRecovery
  import opened PromotionOperations

  /** A plan ran on disk d with `budget` writes to live, ending with d', `left` and outcome o. */
  ghost predicate Ran(d: Disk, p: Plan, budget: nat, d': Disk, left: nat, o: Outcome) {
    && d' == PerformAll(d, Upto(p.writes, budget))
    && o == OutcomeOf(p, budget)
    && left == (if |p.writes| <= budget then budget - |p.writes| else 0)
  }

  lemma RanStep(d: Disk, w: Write, rest: Plan, budget: nat, d': Disk, left: nat, o: Outcome)
    requires budget > 0 && Ran(Perform(d, w), rest, budget - 1, d', left, o)
    ensures Ran(d, Then([w], rest), budget, d', left, o)
  {
    var ws := [w] + rest.writes;
    assert Upto(ws, budget) == [w] + Upto(rest.writes, budget - 1);
    assert Upto(ws, budget)[1..] == Upto(rest.writes, budget - 1);
  }

  lemma RanDead(d: Disk, w: Write, rest: Plan)
    ensures Ran(d, Then([w], rest), 0, d, 0, Crashed)
  {
  }

  /** A commit looks at nothing its preamble writes. */
  lemma PreambleIndependent(d: Disk, w: Write, s: PromotionState, kind: EventType, actor: string, reason: string, payload: Payload, stamp: Time)
    requires Preamble(w)
    ensures CommitPlan(Perform(d, w), s, kind, actor, reason, payload, stamp) == CommitPlan(d, s, kind, actor, reason, payload, stamp)
    ensures NextEvent(Perform(d, w), kind, s, actor, reason, payload, stamp) == NextEvent(d, kind, s, actor, reason, payload, stamp)
  {
  }

  lemma StagingIndependent(d: Disk, w: Write, s: PromotionState, event: AuditEvent)
    requires w.PutSnapshot? || w.PutPending?
    ensures FinishPlan(Perform(d, w), s, event) == FinishPlan(d, s, event)
    ensures StagePlan(Perform(d, w), s, event) == StagePlan(d, s, event)
  {
  }

  lemma RanAfter(d: Disk, p: Plan, q: Plan, budget: nat, d1: Disk, left1: nat, d2: Disk, left2: nat, o: Outcome)
    requires p.failure.None? && Ran(d, p, budget, d1, left1, Done) && Ran(d1, q, left1, d2, left2, o)
    ensures Ran(d, Plan(p.writes + q.writes, q.failure), budget, d2, left2, o)
  {
    assert Upto(p.writes, budget) == p.writes;
    assert Upto(p.writes + q.writes, budget) == p.writes + Upto(q.writes, left1);
    PerformAppend(d, p.writes, Upto(q.writes, left1));
  }

  lemma RanCrashed(d: Disk, p: Plan, more: Plan, budget: nat, d': Disk, left: nat)
    requires Ran(d, p, budget, d', left, Crashed)
    ensures Ran(d, Plan(p.writes + more.writes, more.failure), budget, d', left, Crashed)
  {
    assert Upto(p.writes + more.writes, budget) == Upto(p.writes, budget);
  }

  /** The state directory as mutable fields. `budget` is the number of file writes the process
      lives to make; a write beyond it does not happen and the operation ends as `Crashed`. */
  class Manager {
    const documents: map<string, string>
    var active: string
    var intents: map<string, Intent>
    var snapshots: map<(string, nat), PromotionState>
    var reports: map<(string, Summary), Summary>
    var acks: map<(string, string), Ack>
    var events: map<(nat, Hash), AuditEvent>
    var head: Option<AuditHead>
    var state: Option<PromotionState>
    var pending: Option<Pending>
    var budget: nat

    function Files(): Disk
      reads this
    {
      Disk(documents, active, intents, snapshots, reports, acks, events, head, state, pending)
    }

    constructor (documents: map<string, string>, active: string)
      ensures Files() == Disk(documents, active, map[], map[], map[], map[], map[], None, None, None)
      ensures Settled(Files())
    {
      this.documents, this.active := documents, active;
      intents, snapshots, reports, acks, events := map[], map[], map[], map[], map[];
      head, state, pending := None, None, None;
    }

    method Write(w: Write) returns (alive: bool)
      modifies this
      ensures alive <==> old(budget) > 0
      ensures alive ==> Files() == Perform(old(Files()), w) && budget == old(budget) - 1
      ensures !alive ==> Files() == old(Files()) && budget == 0
    {
      alive := budget > 0;
      if alive {
        budget := budget - 1;
        match w {
          case PutIntent(i) => intents := intents[i.intentId := i];
          case PutSnapshot(s) => snapshots := snapshots[(s.intentId, s.revision) := s];
          case PutReport(id, r) => reports := reports[(id, r) := r];
          case PutAck(a) => acks := acks[(a.intentId, a.instanceId) := a];
          case PutPending(p) => pending := Some(p);
          case PutEvent(e) => events := events[(e.body.sequence, e.hash) := e];
          case PutHead(h) => head := Some(h);
          case PutState(s) => state := Some(s);
          case DropPending => pending := None;
          case SetActive(id) => active := id;
        }
      }
    }

    method AppendAudit(e: AuditEvent) returns (o: Outcome)
      modifies this
      ensures Ran(old(Files()), AppendPlan(old(Files()), e), old(budget), Files(), budget, o)
    {
      ghost var d := Files();
      if e.body.sequence < 1 || e.hash != Digest(e.body) { return Failed(AuditCorrupt); }
      if head == Some(AuditHead(e.body.sequence, e.hash)) { return Done; }
      if e.body.sequence != HeadSequence(Files()) + 1 || e.body.previous != HeadHash(Files()) { return Failed(AuditMismatch); }
      var key := (e.body.sequence, e.hash);
      if key in events && events[key] != e { return Failed(ImmutableConflict); }
      ghost var ws := [PutEvent(e), PutHead(HeadOf(e))];
      PrefixStep(d, ws, 0);
      PrefixStep(d, ws, 1);
      var alive := Write(PutEvent(e));
      if !alive { return Crashed; }
      alive := Write(PutHead(HeadOf(e)));
      if !alive { return Crashed; }
      o := Done;
    }

    method CommitState(s: PromotionState, kind: EventType, actor: string, reason: string, payload: Payload, stamp: Time) returns (o: Outcome)
      modifies this
      ensures Ran(old(Files()), CommitPlan(old(Files()), s, kind, actor, reason, payload, stamp), old(budget), Files(), budget, o)
    {
      ghost var d, b := Files(), budget;
      ghost var e := NextEvent(d, kind, s, actor, reason, payload, stamp);
      var key := (s.intentId, s.revision);
      if key in snapshots && snapshots[key] != s { return Failed(ImmutableConflict); }
      var alive := Write(PutSnapshot(s));
      if !alive {
        RanDead(d, PutSnapshot(s), StagePlan(d, s, e));
        return Crashed;
      }
      StagingIndependent(d, PutSnapshot(s), s, e);
      var event := NextEvent(Files(), kind, s, actor, reason, payload, stamp);
      assert event == e;
      o := Stage(s, event);
      RanStep(d, PutSnapshot(s), StagePlan(d, s, e), b, Files(), budget, o);
    }

    method Stage(s: PromotionState, event: AuditEvent) returns (o: Outcome)
      modifies this
      ensures Ran(old(Files()), StagePlan(old(Files()), s, event), old(budget), Files(), budget, o)
    {
      ghost var d, b := Files(), budget;
      var alive := Write(PutPending(Pending(s, event)));
      if !alive {
        RanDead(d, PutPending(Pending(s, event)), FinishPlan(d, s, event));
        return Crashed;
      }
      StagingIndependent(d, PutPending(Pending(s, event)), s, event);
      o := Finish(s, event);
      RanStep(d, PutPending(Pending(s, event)), FinishPlan(d, s, event), b, Files(), budget, o);
    }

    method Finish(s: PromotionState, event: AuditEvent) returns (o: Outcome)
      modifies this
      ensures Ran(old(Files()), FinishPlan(old(Files()), s, event), old(budget), Files(), budget, o)
    {
      ghost var d, b := Files(), budget;
      ghost var append := AppendPlan(d, event);
      ghost var last := Plan([PutState(s), DropPending], None);
      o := AppendAudit(event);
      if o == Crashed { RanCrashed(d, append, last, b, Files(), budget); }
      if o != Done { return; }
      ghost var d1, b1 := Files(), budget;
      PrefixStep(d1, last.writes, 0);
      PrefixStep(d1, last.writes, 1);
      var alive := Write(PutState(s));
      if alive { alive := Write(DropPending); }
      o := if alive then Done else Crashed;
      assert Ran(d1, last, b1, Files(), budget, o);
      RanAfter(d, append, last, b, d1, b1, Files(), budget, o);
    }

    /** The audit check reads the event files in order and follows the chain. */
    method VerifyAudit() returns (ok: bool)
      ensures ok <==> AuditOk(Files())
    {
      if head.None? { return true; }
      var previous := NoHash;
      var sequence := 1;
      while sequence <= head.value.sequence
        invariant 1 <= sequence <= head.value.sequence + 1
        invariant Chain(Files(), sequence - 1) == Some(previous)
      {
        var matches := EventsAt(Files(), sequence);
        if |matches| != 1 {
          ChainBroken(Files(), sequence, head.value.sequence);
          return false;
        }
        var file :| file in matches;
        ghost var only := Only(matches);
        var event := events[file];
        if event.body.sequence != sequence || event.body.previous != previous || event.hash != Digest(event.body) {
          ChainBroken(Files(), sequence, head.value.sequence);
          return false;
        }
        previous := event.hash;
        sequence := sequence + 1;
      }
      ok := previous == head.value.hash;
    }

    method Recover() returns (o: Outcome)
      modifies this
      ensures Ran(old(Files()), RecoverPlan(old(Files())), old(budget), Files(), budget, o)
    {
      if pending.None? {
        var ok := VerifyAudit();
        o := if ok then Done else Failed(AuditCorrupt);
      } else {
        o := Finish(pending.value.state, pending.value.event);
      }
    }

    /** One more write, then a commit that does not depend on it. */
    method WriteAndCommit(w: Write, s: PromotionState, kind: EventType, actor: string, reason: string, payload: Payload, stamp: Time) returns (o: Outcome)
      requires Preamble(w)
      modifies this
      ensures Ran(old(Files()), Then([w], CommitPlan(old(Files()), s, kind, actor, reason, payload, stamp)), old(budget), Files(), budget, o)
    {
      ghost var d, b := Files(), budget;
      PreambleIndependent(d, w, s, kind, actor, reason, payload, stamp);
      var alive := Write(w);
      if !alive {
        RanDead(d, w, CommitPlan(d, s, kind, actor, reason, payload, stamp));
        return Crashed;
      }
      o := CommitState(s, kind, actor, reason, payload, stamp);
      RanStep(d, w, CommitPlan(d, s, kind, actor, reason, payload, stamp), b, Files(), budget, o);
    }

    method Prepare(r: PrepareRequest, clock: Clock) returns (o: Outcome)
      modifies this
      ensures Ran(old(Files()), PreparePlan(old(Files()), r, clock), old(budget), Files(), budget, o)
    {
      if !PrepareRequestOk(r) { return Failed(InvalidRequest); }
      if state.Some? { return Failed(AlreadyActive); }
      if active !in documents || r.candidate !in documents { return Failed(NotFound); }
      if r.candidate == active || documents[r.candidate] != active { return Failed(NotLinked); }
      var intent := Intent(r.intentId, clock.intent, Trim(r.operator), Trim(r.reason), active, r.candidate,
                           r.canaryBasisPoints, r.requiredReadyAcks, r.thresholds);
      if r.intentId in intents && intents[r.intentId] != intent { return Failed(ImmutableConflict); }
      var next := PromotionState(r.intentId, 1, Prepared, active, r.candidate, clock.document, None, []);
      o := WriteAndCommit(PutIntent(intent), next, PromotionPrepared, intent.operator, intent.reason, Activations(active, r.candidate), clock.event);
    }

    method Evaluate(expected: int, summary: Summary, actor: string, reason: string, clock: Clock) returns (o: Outcome)
      modifies this
      ensures Ran(old(Files()), EvaluatePlan(old(Files()), expected, summary, actor, reason, clock), old(budget), Files(), budget, o)
    {
      if !Loaded(Files()) { return Failed(NotFound); }
      var s, intent := state.value, intents[state.value.intentId];
      if s.revision != expected { return Failed(RevisionMismatch); }
      if s.phase != Prepared && s.phase != Validated && s.phase != Blocked { return Failed(WrongPhase); }
      if summary.intentId != s.intentId || summary.intentId == "" || summary.screeningItems < 1 { return Failed(InvalidRequest); }
      var key := (s.intentId, summary);
      if key in reports && reports[key] != summary { return Failed(ImmutableConflict); }
      o := CommitEvaluation(s, EvaluateSummary(intent.thresholds, summary), summary, actor, reason, clock);
    }

    method CommitEvaluation(s: PromotionState, blockers: seq<Blocker>, summary: Summary, actor: string, reason: string, clock: Clock) returns (o: Outcome)
      modifies this
      ensures Ran(old(Files()), EvaluationPlan(old(Files()), s, blockers, summary, actor, reason, clock), old(budget), Files(), budget, o)
    {
      var next := s.(revision := s.revision + 1, updatedAt := clock.document, lastReport := Some(summary), blockers := blockers, phase := Validated);
      var kind := PromotionValidated;
      if |blockers| > 0 {
        next := next.(phase := Blocked);
        kind := PromotionBlocked;
      }
      o := WriteAndCommit(PutReport(s.intentId, summary), next, kind, actor, reason, Evaluation(summary, blockers), clock.event);
    }

    method StartCanary(expected: int, actor: string, reason: string, clock: Clock) returns (o: Outcome)
      modifies this
      ensures Ran(old(Files()), StartCanaryPlan(old(Files()), expected, actor, reason, clock), old(budget), Files(), budget, o)
    {
      if !Loaded(Files()) { return Failed(NotFound); }
      var s := state.value;
      if s.revision != expected { return Failed(RevisionMismatch); }
      if s.phase != Validated { return Failed(WrongPhase); }
      o := CommitState(InCanary(s, clock.document), CanaryStarted, actor, reason, NoPayload, clock.event);
    }

    method Acknowledge(a: Ack, clock: Clock) returns (o: Outcome)
      modifies this
      ensures Ran(old(Files()), AcknowledgePlan(old(Files()), a, clock), old(budget), Files(), budget, o)
    {
      if !Loaded(Files()) { return Failed(NotFound); }
      var s, intent := state.value, intents[state.value.intentId];
      if s.phase != Canary && s.phase != Validated { return Failed(WrongPhase); }
      if a.intentId != s.intentId || !SafeIdentifier(a.instanceId) || IsBlank(a.tuple) { return Failed(InvalidRequest); }
      if a.activationId != intent.candidate { return Failed(InvalidRequest); }
      var ack := a.(observedAt := clock.document);
      var key := (a.intentId, a.instanceId);
      if key in acks && acks[key] != ack { return Failed(ImmutableConflict); }
      o := WriteAndAppend(ack, s, Acknowledged(a.ready, a.activationId, a.tuple), clock.event);
    }

    method WriteAndAppend(ack: Ack, s: PromotionState, payload: Payload, stamp: Time) returns (o: Outcome)
      modifies this
      ensures var e := NextEvent(old(Files()), InstanceAcknowledged, s, ack.instanceId, "", payload, stamp);
        Ran(old(Files()), Then([PutAck(ack)], AppendPlan(old(Files()), e)), old(budget), Files(), budget, o)
    {
      ghost var d, b := Files(), budget;
      ghost var e := NextEvent(d, InstanceAcknowledged, s, ack.instanceId, "", payload, stamp);
      var alive := Write(PutAck(ack));
      if !alive {
        RanDead(d, PutAck(ack), AppendPlan(d, e));
        return Crashed;
      }
      assert AppendPlan(Files(), e) == AppendPlan(d, e);
      var event := NextEvent(Files(), InstanceAcknowledged, s, ack.instanceId, "", payload, stamp);
      assert event == e;
      o := AppendAudit(event);
      RanStep(d, PutAck(ack), AppendPlan(d, e), b, Files(), budget, o);
    }

    method Promote(expected: int, actor: string, reason: string, clock: Clock) returns (o: Outcome)
      modifies this
      ensures Ran(old(Files()), PromotePlan(old(Files()), expected, actor, reason, clock), old(budget), Files(), budget, o)
    {
      if !Loaded(Files()) { return Failed(NotFound); }
      var s, intent := state.value, intents[state.value.intentId];
      if s.revision != expected { return Failed(RevisionMismatch); }
      if s.phase != Canary { return Failed(WrongPhase); }
      var ready := |ReadyInstances(Files(), intent.intentId, intent.candidate)|;
      if ready < intent.requiredReadyAcks { return Failed(NotReady); }
      var switch := SwitchError(Files(), intent.candidate, intent.current);
      if switch.Some? { return Failed(switch.value); }
      o := WriteAndCommit(SetActive(intent.candidate),
                          Promoting(s, clock.document),
                          PromotionCompleted, actor, reason, ReadyAcks(ready), clock.event);
    }

    method Rollback(expected: int, actor: string, reason: string, clock: Clock) returns (o: Outcome)
      modifies this
      ensures Ran(old(Files()), RollbackPlan(old(Files()), expected, actor, reason, clock), old(budget), Files(), budget, o)
    {
      if !Loaded(Files()) { return Failed(NotFound); }
      var s, intent := state.value, intents[state.value.intentId];
      if s.revision != expected { return Failed(RevisionMismatch); }
      if s.phase != Promoted { return Failed(WrongPhase); }
      var switch := SwitchError(Files(), intent.current, intent.candidate);
      if switch.Some? { return Failed(switch.value); }
      o := WriteAndCommit(SetActive(intent.current),
                          RollingBack(s, clock.document),
                          PromotionRolledBack, actor, reason, NoPayload, clock.event);
    }
  }
}

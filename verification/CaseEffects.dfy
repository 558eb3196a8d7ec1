/** Which requests the store accepts, and what an accepted one leaves. */
module CaseEffects {
  import opened Wrappers
  import opened Text
  import opened Ordering
  import opened AlertCase
  import opened CaseInvariant
  import opened CaseRuns
  import opened CaseLog

  /** The states an action may start from. */
  predicate From(a: Action, s: CaseState) {
    match a
    case Assign => s in {Open, Assigned, Investigating, Reopened}
    case StartInvestigation => s in {Assigned, Reopened}
    case RequestEvidence => s in {Assigned, Investigating, PendingEvidence}
    case SubmitEvidence => s in {PendingEvidence, Investigating}
    case ProposeDecision => s in {Assigned, Investigating, PendingEvidence, Reopened}
    case ApproveDecision => s == PendingApproval
    case RejectDecision => s == PendingApproval
    case Reopen => s == Resolved
    case LinkRescreen => s != Resolved
    case _ => false
  }

  predicate Supported(a: Action) { !a.CaseCreated? && !a.Unknown? }

  /** What the payload must say for the action. */
  predicate SaysEnough(a: Action, p: Payload) {
    match a
    case Assign => !SaysNothing(p, "assignee")
    case ProposeDecision => p.Fields? && "decision" in p.fields && p.fields["decision"] != JNull
    case LinkRescreen => !SaysNothing(p, "screening_event_id")
    case _ => true
  }

  /** The case and its revision, the actor and a time are given, and the payload is JSON. */
  predicate Addressed(db: Db, r: EventRequest) {
    && r.caseId in db.cases && r.expectedRevision == db.cases[r.caseId].projection.revision
    && r.actor != "" && r.occurredAt.Some?
  }

  /** Someone other than the actor has proposed what is to be decided. */
  predicate OtherEyes(p: Projection, r: EventRequest) {
    r.action.ApproveDecision? || r.action.RejectDecision? ==> p.proposer != "" && p.proposer != r.actor
  }

  /** No receipt is on file for the request's scope and key. */
  predicate FirstTime(db: Db, r: EventRequest) { !IsBlank(r.key) && (EventScope(r.caseId, r.action), r.key) !in db.receipts }

  lemma TransitionNeeds(p: Projection, r: EventRequest)
    ensures Transition(p, r).Ok? <==>
      !r.payload.Malformed? && Supported(r.action) && From(r.action, p.state) && SaysEnough(r.action, r.payload) && OtherEyes(p, r)
  {
  }

  lemma TransitionRefuses(p: Projection, r: EventRequest)
    ensures var t := Transition(p, r);
      && (r.payload.Malformed? ==> t == Err(InvalidPayload))
      && (!r.payload.Malformed? && !Supported(r.action) ==> t == Err(UnsupportedAction))
      && (!r.payload.Malformed? && Supported(r.action) && !From(r.action, p.state) ==> t == Err(NotAllowed))
      && (!r.payload.Malformed? && From(r.action, p.state) && !SaysEnough(r.action, r.payload) ==> t == Err(MissingFields))
      && (!r.payload.Malformed? && From(r.action, p.state) && !OtherEyes(p, r) ==> t == Err(FourEyes))
  {
  }

  /** A new event is accepted if and only if it addresses the case at its revision, comes from a state
      its action may start from, says what its action must, and decides on another's proposal if on any. */
  lemma EventNeeds(db: Db, r: EventRequest)
    requires FirstTime(db, r)
    ensures Apply(db, r).1.Accepted? <==>
      && Addressed(db, r) && !r.payload.Malformed? && Supported(r.action)
      && From(r.action, db.cases[r.caseId].projection.state)
      && SaysEnough(r.action, r.payload) && OtherEyes(db.cases[r.caseId].projection, r)
  {
    if r.caseId in db.cases { TransitionNeeds(db.cases[r.caseId].projection, r); }
  }

  /** A refused event changes nothing, and is told why. */
  lemma EventRefuses(db: Db, r: EventRequest)
    requires FirstTime(db, r) && !Apply(db, r).1.Accepted?
    ensures Apply(db, r).0 == db
    ensures r.caseId !in db.cases ==> Apply(db, r).1 == Rejected(NotFound)
    ensures r.caseId in db.cases && r.expectedRevision != db.cases[r.caseId].projection.revision ==> Apply(db, r).1 == Rejected(RevisionConflict)
    ensures Addressed(db, r) && r.action != Unknown("") ==>
      var p, reply := db.cases[r.caseId].projection, Apply(db, r).1;
      && (r.payload.Malformed? ==> reply == Rejected(InvalidPayload))
      && (!r.payload.Malformed? && !Supported(r.action) ==> reply == Rejected(UnsupportedAction))
      && (!r.payload.Malformed? && Supported(r.action) && !From(r.action, p.state) ==> reply == Rejected(NotAllowed))
      && (!r.payload.Malformed? && From(r.action, p.state) && !SaysEnough(r.action, r.payload) ==> reply == Rejected(MissingFields))
      && (!r.payload.Malformed? && From(r.action, p.state) && !OtherEyes(p, r) ==> reply == Rejected(FourEyes))
  {
    if r.caseId in db.cases { TransitionRefuses(db.cases[r.caseId].projection, r); }
  }

  /** What is appended to the audit log. */
  predicate Audited(db: Db, after: Db, at: Time, action: Action, actor: string, c: CaseId, e: CaseEvent) {
    && |after.audit| == |db.audit| + 1 && after.audit[..|db.audit|] == db.audit
    && var a := after.audit[|db.audit|].audit;
       && a.sequence == db.auditHead.sequence + 1 && a.previous == db.auditHead.hash
       && a.occurredAt == at && a.action == action && a.actor == actor && a.objectId == c && a.details == e
       && after.audit[|db.audit|].hash == AuditDigest(a) && after.auditHead == AuditHead(a.sequence, AuditDigest(a))
  }

  /** The event the request becomes: numbered after the last one, linked to it, and with all it says. */
  predicate Records(e: CaseEvent, r: EventRequest, last: CaseEvent, n: nat) {
    && e.hash == Digest(e.body) && e.body.sequence == e.body.revision == n && e.body.previous == last.hash
    && e.body.caseId == r.caseId && e.body.action == r.action && e.body.actor == r.actor
    && e.body.reason == r.reason && e.body.payload == r.payload && Some(e.body.occurredAt) == r.occurredAt
  }

  /** The request's event is the last of its case, and its receipt is on file. */
  predicate Stored(after: Db, r: EventRequest, e: CaseEvent, reply: Reply) {
    && r.caseId in after.cases && reply == Accepted(after.cases[r.caseId].projection, Some(e), false)
    && after.cases[r.caseId].events != [] && after.cases[r.caseId].events[|after.cases[r.caseId].events| - 1] == e
  }

  lemma AppliedDoes(db: Db, r: EventRequest)
    requires Apply(db, r).1.Accepted? && !Apply(db, r).1.replayed
    ensures MayApply(db, r) && r.occurredAt.Some? && Apply(db, r).0 == AppliedDb(db, r, r.occurredAt.value)
    ensures Apply(db, r).1.event.Some? && Stored(Apply(db, r).0, r, Apply(db, r).1.event.value, Apply(db, r).1)
    ensures Apply(db, r).1.event.value == NextEvent(db.cases[r.caseId].head, r, r.occurredAt.value)
  {
  }

  /** An accepted event is appended to its case's log as the request says, the answer is the case with
      that event, and no other case, audit entry or receipt changes. */
  lemma EventDoes(ops: seq<Op>, r: EventRequest)
    requires Apply(Run(ops), r).1.Accepted? && !Apply(Run(ops), r).1.replayed
    ensures var db, after, reply := Run(ops), Apply(Run(ops), r).0, Apply(Run(ops), r).1;
      && r.caseId in db.cases && reply.event.Some? && db.cases[r.caseId].events != []
      && var events, e := db.cases[r.caseId].events, reply.event.value;
         && Records(e, r, events[|events| - 1], |events| + 1)
         && Stored(after, r, e, reply) && after.cases[r.caseId].events == events + [e]
         && after.cases == db.cases[r.caseId := after.cases[r.caseId]]
         && Audited(db, after, e.body.occurredAt, r.action, r.actor, r.caseId, e)
         && after.receipts == db.receipts[(EventScope(r.caseId, r.action), r.key) := Receipt(ToApply(r), r.caseId, e.body.occurredAt)]
  {
    var db := Run(ops);
    AppliedDoes(db, r);
    RunInv(ops);
    assert CaseInv(r.caseId, db.cases[r.caseId]);
  }

  // ---------------------------------------------------------------- new cases

  /** Every alert named is on record and the tenant's. */
  predicate AlertsFit(alerts: map<string, string>, ids: seq<string>, tenant: string) {
    forall x :: x in ids ==> x in alerts && alerts[x] == tenant
  }

  lemma {:induction false} AlertsErrorIs(alerts: map<string, string>, ids: seq<string>, tenant: string)
    ensures AlertsError(alerts, ids, tenant).None? <==> AlertsFit(alerts, ids, tenant)
    ensures AlertsError(alerts, ids, tenant) in {None, Some(UnknownAlert), Some(OtherTenant)}
    ensures AlertsError(alerts, ids, tenant) == Some(UnknownAlert) ==> exists x :: x in ids && x !in alerts
    ensures AlertsError(alerts, ids, tenant) == Some(OtherTenant) ==> exists x :: x in ids && x in alerts && alerts[x] != tenant
  {
    if ids != [] {
      assert ids == [ids[0]] + ids[1..];
      AlertsErrorIs(alerts, ids[1..], tenant);
    }
  }

  /** The alerts of a request: trimmed, without blanks, in order and each once. */
  ghost predicate Alerts(r: CreateRequest, ids: seq<string>) {
    Ascending(ids) && forall x :: x in ids <==> x != "" && exists i :: 0 <= i < |r.alertIds| && Trim(r.alertIds[i]) == x
  }

  predicate FirstCreation(db: Db, r: CreateRequest) { !IsBlank(r.key) && (CreateScope, r.key) !in db.receipts }

  lemma AlertsAre(r: CreateRequest, ids: seq<string>)
    requires Alerts(r, ids)
    ensures ids == SortedDistinct(r.alertIds)
  {
    SortedDistinctIs(r.alertIds);
    AscendingSame(ids, SortedDistinct(r.alertIds));
  }

  /** A creation is accepted if and only if tenant, creator, reason, alerts and time are given and every
      alert is on record for the tenant. */
  lemma CreationNeeds(db: Db, r: CreateRequest, alerts: map<string, string>, ids: seq<string>)
    requires FirstCreation(db, r) && Alerts(r, ids)
    ensures Create(db, r, alerts).1.Accepted? <==>
      r.tenant != "" && r.createdBy != "" && r.reason != "" && r.alertIds != [] && r.occurredAt.Some? && AlertsFit(alerts, ids, r.tenant)
    ensures !Create(db, r, alerts).1.Accepted? ==> Create(db, r, alerts).0 == db
  {
    AlertsAre(r, ids);
    assert CheckReceipt(db, CreateScope, r.key, ToCreate(r)) == Ok(None);
    AlertsErrorIs(alerts, ids, r.tenant);
  }

  /** The log of a new case: one event with all the request says. */
  predicate Opens(f: CaseFiles, c: CaseId, r: CreateRequest) {
    |f.events| == 1 &&
    var e := f.events[0];
    && e.hash == Digest(e.body) && e.body.sequence == e.body.revision == 1 && e.body.previous == NoHash
    && e.body.caseId == c && e.body.action == CaseCreated && e.body.actor == r.createdBy && e.body.reason == r.reason
    && Some(e.body.occurredAt) == r.occurredAt && e.body.payload == Creation(c.tenant, c.alertIds, c.groupingKey)
  }

  /** A creation is of the case its tenant, alerts and grouping key name: a new one is opened, one on
      record is answered as it is; either way the request has its receipt. */
  lemma CreationDoes(db: Db, r: CreateRequest, alerts: map<string, string>, ids: seq<string>)
    requires FirstCreation(db, r) && Alerts(r, ids) && Create(db, r, alerts).1.Accepted?
    ensures var c, after, reply := CaseId(r.tenant, ids, r.groupingKey), Create(db, r, alerts).0, Create(db, r, alerts).1;
      && c in after.cases && r.occurredAt.Some?
      && reply == Accepted(after.cases[c].projection, None, c in db.cases)
      && after.receipts == db.receipts[(CreateScope, r.key) := Receipt(ToCreate(r), c, r.occurredAt.value)]
      && (c in db.cases ==> after.cases == db.cases && after.audit == db.audit && after.auditHead == db.auditHead)
      && (c !in db.cases ==>
            && after.cases == db.cases[c := after.cases[c]] && Opens(after.cases[c], c, r)
            && Audited(db, after, r.occurredAt.value, CaseCreated, r.createdBy, c, after.cases[c].events[0]))
  {
    AlertsAre(r, ids);
  }

  /** Without a key nothing is accepted or answered again. */
  lemma KeyNeeded(db: Db, create: CreateRequest, alerts: map<string, string>, event: EventRequest)
    ensures IsBlank(create.key) ==> Create(db, create, alerts) == (db, Rejected(MissingKey))
    ensures IsBlank(event.key) ==> Apply(db, event) == (db, Rejected(MissingKey))
  {
  }
}

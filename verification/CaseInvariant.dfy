/** The store invariant, and why every call keeps it. */
module CaseInvariant {
  import opened Text
  import opened AlertCase

  /** The log starts with the case's creation, which never happens again, and every event has an actor. */
  ghost predicate CreatedOnce(events: seq<CaseEvent>) {
    && events != [] && events[0].body.action.CaseCreated?
    && (forall i :: 1 <= i < |events| ==> !events[i].body.action.CaseCreated?)
    && (forall i :: 0 <= i < |events| ==> events[i].body.actor != "")
  }

  /** The stored files of a case are those of a faithful log. */
  ghost predicate CaseInv(c: CaseId, f: CaseFiles) {
    && Verified(c, f)
    && f.head == CaseHead(|f.events|, |f.events|, f.events[|f.events| - 1].hash)
    && f.projection.revision == |f.events| && f.projection.headHash == f.head.hash
    && CreatedOnce(f.events)
    && f.projection.caseId == c && f.projection.tenant == c.tenant
    && f.projection.alertIds == c.alertIds && f.projection.groupingKey == c.groupingKey
  }

  predicate ReceiptInv(db: Db, k: (Scope, string)) {
    k in db.receipts ==>
      && db.receipts[k].objectId in db.cases && !IsBlank(k.1)
      && match db.receipts[k].request
         case ToCreate(r) => k == (CreateScope, r.key)
         case ToApply(r) => k == (EventScope(r.caseId, r.action), r.key) && db.receipts[k].objectId == r.caseId
  }

  /** The receipts of accepted events of a case. */
  function EventReceipts(db: Db, c: CaseId): set<(Scope, string)> {
    set k | k in db.receipts && k.0.EventScope? && k.0.caseId == c
  }

  predicate AuditInv(db: Db) {
    && db.auditHead.sequence == |db.audit|
    && db.auditHead.hash == (if db.audit == [] then NoAudit else db.audit[|db.audit| - 1].hash)
    && AuditChained(db.audit)
  }

  predicate AuditChained(audit: seq<AuditEvent>) { forall i :: 0 <= i < |audit| ==> AuditLinked(audit, i) }

  predicate AuditLinked(audit: seq<AuditEvent>, i: nat)
    requires i < |audit|
  {
    && audit[i].audit.sequence == i + 1
    && audit[i].audit.previous == (if i == 0 then NoAudit else audit[i - 1].hash)
    && audit[i].hash == AuditDigest(audit[i].audit)
  }

  ghost predicate CasesInv(db: Db) { forall c :: c in db.cases ==> CaseInv(c, db.cases[c]) }

  ghost predicate ReceiptsInv(db: Db) { forall k :: k in db.receipts ==> ReceiptInv(db, k) }

  /** A case has one event more than accepted event receipts. */
  predicate CountOk(db: Db, c: CaseId) {
    |EventReceipts(db, c)| == (if c in db.cases then |db.cases[c].events| - 1 else 0)
  }

  ghost predicate CountsInv(db: Db) { forall c :: CountOk(db, c) }

  ghost predicate Inv(db: Db) { CasesInv(db) && ReceiptsInv(db) && CountsInv(db) && AuditInv(db) }

  /** Transition does not look at the parts of the request that replay cannot reconstruct. */
  lemma ReplayedTransition(p: Projection, r: EventRequest, e: CaseEvent)
    requires e.body.action == r.action && e.body.actor == r.actor && e.body.payload == r.payload
    requires r.expectedRevision == p.revision
    ensures Transition(p, ReplayRequest(r.caseId, p.revision, e)) == Transition(p, r)
  {
  }

  lemma TransitionKeepsIdentity(p: Projection, r: EventRequest)
    requires Transition(p, r).Ok?
    ensures var q := Transition(p, r).value;
      q.caseId == p.caseId && q.tenant == p.tenant && q.alertIds == p.alertIds && q.groupingKey == p.groupingKey
    ensures !r.action.CaseCreated?
  {
  }

  lemma ChainExtends(events: seq<CaseEvent>, e: CaseEvent)
    requires events != [] && Chained(events)
    requires e == Seal(e.body) && e.body.sequence == e.body.revision == |events| + 1
    requires e.body.previous == events[|events| - 1].hash
    ensures Chained(events + [e])
  {
    var all := events + [e];
    forall i | 0 <= i < |all| ensures Linked(all, i) {
      if i < |events| { assert Linked(events, i) && all[i] == events[i]; }
      if i > 0 { assert all[i - 1] == events[i - 1]; }
    }
  }

  lemma ExtendedCase(c: CaseId, f: CaseFiles, r: EventRequest, at: Time)
    requires CaseInv(c, f) && r.caseId == c && r.expectedRevision == f.projection.revision && r.actor != ""
    requires Transition(f.projection, r).Ok?
    ensures var e := NextEvent(f.head, r, at);
      CaseInv(c, CaseFiles(f.events + [e], Stamp(Transition(f.projection, r).value, e), CaseHead(e.body.sequence, e.body.revision, e.hash)))
  {
    var e := NextEvent(f.head, r, at);
    var all := f.events + [e];
    ChainExtends(f.events, e);
    TransitionKeepsIdentity(f.projection, r);
    ReplayedTransition(f.projection, r, e);
    assert all[..|all| - 1] == f.events;
    assert Replay(c, all) == ReplayStep(c, f.projection, e);
  }

  lemma CreatedCase(c: CaseId, r: CreateRequest, at: Time)
    requires c == CaseId(r.tenant, c.alertIds, r.groupingKey) && r.createdBy != ""
    ensures var e := CreationEvent(c, r, at);
      CaseInv(c, CaseFiles([e], NewProjection(c, r.tenant, c.alertIds, r.groupingKey, at, e.hash), CaseHead(1, 1, e.hash)))
  {
    var log := [CreationEvent(c, r, at)];
    assert log[..0] == [];
    assert Replay(c, log) == ReplayStep(c, BLANK, log[0]);
    assert Linked(log, 0);
  }

  lemma AppendAuditInv(db: Db, at: Time, action: Action, actor: string, id: CaseId, details: CaseEvent)
    requires AuditInv(db)
    ensures AuditInv(AppendAudit(db, at, action, actor, id, details))
  {
    var audit := AppendAudit(db, at, action, actor, id, details).audit;
    forall i | 0 <= i < |audit| ensures AuditLinked(audit, i) {
      if i < |db.audit| { assert AuditLinked(db.audit, i) && audit[i] == db.audit[i]; }
      if i > 0 { assert audit[i - 1] == db.audit[i - 1]; }
    }
  }

  lemma NewEventReceipt(db: Db, k: (Scope, string), r: Receipt, c: CaseId)
    requires k !in db.receipts
    ensures var db' := SaveReceipt(db, k.0, k.1, r);
      EventReceipts(db', c) == EventReceipts(db, c) + (if k.0.EventScope? && k.0.caseId == c then {k} else {})
    ensures |EventReceipts(SaveReceipt(db, k.0, k.1, r), c)|
         == |EventReceipts(db, c)| + (if k.0.EventScope? && k.0.caseId == c then 1 else 0)
  {
    var db' := SaveReceipt(db, k.0, k.1, r);
    assert (k.0, k.1) == k;
    assert EventReceipts(db', c) == EventReceipts(db, c) + (if k.0.EventScope? && k.0.caseId == c then {k} else {});
  }

  /** Receipts other than the new one keep their invariant when cases are only added or extended. */
  lemma ReceiptsStay(db: Db, db': Db, added: (Scope, string))
    requires ReceiptsInv(db) && ReceiptInv(db', added)
    requires forall c :: c in db.cases ==> c in db'.cases
    requires forall k :: k in db'.receipts && k != added ==> k in db.receipts && db'.receipts[k] == db.receipts[k]
    ensures ReceiptsInv(db')
  {
    forall k | k in db'.receipts ensures ReceiptInv(db', k) {
      if k != added { assert ReceiptInv(db, k); }
    }
  }

  /** What Create does when it changes the store: it saves a receipt, and creates the case if it is new. */
  function CreatedDb(db: Db, r: CreateRequest, c: CaseId, at: Time): Db {
    var receipt := Receipt(ToCreate(r), c, at);
    if c in db.cases then SaveReceipt(db, CreateScope, r.key, receipt)
    else
      var e := CreationEvent(c, r, at);
      var p := NewProjection(c, r.tenant, c.alertIds, r.groupingKey, at, e.hash);
      var stored := db.(cases := db.cases[c := CaseFiles([e], p, CaseHead(1, 1, e.hash))]);
      SaveReceipt(AppendAudit(stored, at, CaseCreated, r.createdBy, c, e), CreateScope, r.key, receipt)
  }

  predicate MayCreate(db: Db, r: CreateRequest, c: CaseId) {
    (CreateScope, r.key) !in db.receipts && !IsBlank(r.key) && r.createdBy != "" && c == CaseId(r.tenant, c.alertIds, r.groupingKey)
  }

  lemma CreateShape(db: Db, r: CreateRequest, alerts: map<string, string>)
    requires Create(db, r, alerts).0 != db
    ensures r.occurredAt.Some?
    ensures var c := CaseId(r.tenant, SortedDistinct(r.alertIds), r.groupingKey);
      MayCreate(db, r, c) && Create(db, r, alerts).0 == CreatedDb(db, r, c, r.occurredAt.value)
  {
  }

  lemma CreatedCases(db: Db, r: CreateRequest, c: CaseId, at: Time)
    requires CasesInv(db) && MayCreate(db, r, c)
    ensures CasesInv(CreatedDb(db, r, c, at))
  {
    if c !in db.cases { CreatedCase(c, r, at); }
  }

  lemma CreatedReceipts(db: Db, r: CreateRequest, c: CaseId, at: Time)
    requires ReceiptsInv(db) && MayCreate(db, r, c)
    ensures ReceiptsInv(CreatedDb(db, r, c, at))
  {
    ReceiptsStay(db, CreatedDb(db, r, c, at), (CreateScope, r.key));
  }

  lemma CreatedCounts(db: Db, r: CreateRequest, c: CaseId, at: Time)
    requires CountsInv(db) && MayCreate(db, r, c)
    ensures CountsInv(CreatedDb(db, r, c, at))
  {
    var db' := CreatedDb(db, r, c, at);
    forall x ensures CountOk(db', x) {
      assert CountOk(db, x);
      assert EventReceipts(db', x) == EventReceipts(db, x);
    }
  }

  lemma CreatedAudit(db: Db, r: CreateRequest, c: CaseId, at: Time)
    requires AuditInv(db)
    ensures AuditInv(CreatedDb(db, r, c, at))
  {
    var e := CreationEvent(c, r, at);
    AppendAuditInv(db, at, CaseCreated, r.createdBy, c, e);
  }

  lemma CreateKeepsInv(db: Db, r: CreateRequest, alerts: map<string, string>)
    requires Inv(db)
    ensures Inv(Create(db, r, alerts).0)
  {
    if Create(db, r, alerts).0 != db {
      CreateShape(db, r, alerts);
      var c, at := CaseId(r.tenant, SortedDistinct(r.alertIds), r.groupingKey), r.occurredAt.value;
      CreatedCases(db, r, c, at);
      CreatedReceipts(db, r, c, at);
      CreatedCounts(db, r, c, at);
      CreatedAudit(db, r, c, at);
    }
  }

  /** The store after the request's event was accepted. */
  function AppliedDb(db: Db, r: EventRequest, at: Time): Db
    requires MayApply(db, r)
  {
    var files := db.cases[r.caseId];
    var e := NextEvent(files.head, r, at);
    var next := Stamp(Transition(files.projection, r).value, e);
    var stored := db.(cases := db.cases[r.caseId := CaseFiles(files.events + [e], next, CaseHead(e.body.sequence, e.body.revision, e.hash))]);
    SaveReceipt(AppendAudit(stored, at, r.action, r.actor, r.caseId, e), EventScope(r.caseId, r.action), r.key, Receipt(ToApply(r), r.caseId, at))
  }

  predicate MayApply(db: Db, r: EventRequest) {
    && (EventScope(r.caseId, r.action), r.key) !in db.receipts && !IsBlank(r.key)
    && r.caseId in db.cases && r.expectedRevision == db.cases[r.caseId].projection.revision && r.actor != ""
    && Transition(db.cases[r.caseId].projection, r).Ok?
  }

  lemma ApplyShape(db: Db, r: EventRequest)
    requires Apply(db, r).0 != db
    ensures r.occurredAt.Some? && MayApply(db, r) && Apply(db, r).0 == AppliedDb(db, r, r.occurredAt.value)
  {
  }

  lemma AppliedCases(db: Db, r: EventRequest, at: Time)
    requires CasesInv(db) && MayApply(db, r)
    ensures CasesInv(AppliedDb(db, r, at))
  {
    assert CaseInv(r.caseId, db.cases[r.caseId]);
    ExtendedCase(r.caseId, db.cases[r.caseId], r, at);
    forall c | c in AppliedDb(db, r, at).cases ensures CaseInv(c, AppliedDb(db, r, at).cases[c]) {
      if c != r.caseId { assert CaseInv(c, db.cases[c]); }
    }
  }

  lemma AppliedReceipts(db: Db, r: EventRequest, at: Time)
    requires ReceiptsInv(db) && MayApply(db, r)
    ensures ReceiptsInv(AppliedDb(db, r, at))
  {
    ReceiptsStay(db, AppliedDb(db, r, at), (EventScope(r.caseId, r.action), r.key));
  }

  lemma AppliedCounts(db: Db, r: EventRequest, at: Time)
    requires CasesInv(db) && CountsInv(db) && MayApply(db, r)
    ensures CountsInv(AppliedDb(db, r, at))
  {
    var db' := AppliedDb(db, r, at);
    forall c ensures CountOk(db', c) {
      assert CountOk(db, c);
      NewEventReceipt(db, (EventScope(r.caseId, r.action), r.key), Receipt(ToApply(r), r.caseId, at), c);
      assert EventReceipts(db', c) == EventReceipts(SaveReceipt(db, EventScope(r.caseId, r.action), r.key, Receipt(ToApply(r), r.caseId, at)), c);
    }
  }

  lemma AppliedAudit(db: Db, r: EventRequest, at: Time)
    requires AuditInv(db) && MayApply(db, r)
    ensures AuditInv(AppliedDb(db, r, at))
  {
    AppendAuditInv(db, at, r.action, r.actor, r.caseId, NextEvent(db.cases[r.caseId].head, r, at));
  }

  lemma ApplyKeepsInv(db: Db, r: EventRequest)
    requires Inv(db)
    ensures Inv(Apply(db, r).0)
  {
    if Apply(db, r).0 != db {
      ApplyShape(db, r);
      AppliedCases(db, r, r.occurredAt.value);
      AppliedReceipts(db, r, r.occurredAt.value);
      AppliedCounts(db, r, r.occurredAt.value);
      AppliedAudit(db, r, r.occurredAt.value);
    }
  }

  lemma {:induction false} RunInv(ops: seq<Op>)
    ensures Inv(Run(ops))
  {
    if ops != [] {
      var last := |ops| - 1;
      RunInv(ops[..last]);
      match ops[last] {
        case OpCreate(r, alerts) => CreateKeepsInv(Run(ops[..last]), r, alerts);
        case OpApply(r) => ApplyKeepsInv(Run(ops[..last]), r);
      }
    }
  }
}

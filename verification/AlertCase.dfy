/** The case event store of internal/alertcase: an event log per case, a stored projection that
    must equal the fold of the log, idempotency receipts, a four-eyes rule and an audit chain. */
module AlertCase {
  import opened Wrappers
  import opened Text
  import opened Ordering

  type Time = int

  // ---------------------------------------------------------------- documents

  datatype Json = JString(text: string) | JNull | JOther(raw: string)

  datatype Payload =
    | NoPayload
    | Malformed
    | Fields(fields: map<string, Json>)
    | Creation(tenant: string, alertIds: seq<string>, groupingKey: string)

  /** A content-addressed case id: a digest of the identity, here the identity itself. */
  datatype CaseId = CaseId(tenant: string, alertIds: seq<string>, groupingKey: string)

  datatype Action =
    | CaseCreated | Assign | StartInvestigation | RequestEvidence | SubmitEvidence
    | ProposeDecision | ApproveDecision | RejectDecision | Reopen | LinkRescreen
    | Unknown(name: string)

  datatype CaseState = Unset | Open | Assigned | Investigating | PendingEvidence | PendingApproval | Resolved | Reopened

  /** SHA-256 as an injective function: the digest of an event is its content. */
  datatype Hash = NoHash | Digest(body: EventBody)

  datatype EventBody = EventBody(
    caseId: CaseId,
    sequence: nat,
    revision: nat,
    previous: Hash,
    action: Action,
    actor: string,
    reason: string,
    occurredAt: Time,
    payload: Payload)

  datatype CaseEvent = CaseEvent(body: EventBody, hash: Hash)

  datatype Projection = Projection(
    caseId: CaseId,
    tenant: string,
    alertIds: seq<string>,
    groupingKey: string,
    state: CaseState,
    revision: nat,
    assignedTo: string,
    proposer: string,
    proposed: Option<Json>,
    approved: Option<Json>,
    evidenceRequests: seq<string>,
    evidenceSubmissions: seq<string>,
    rescreens: seq<string>,
    createdAt: Time,
    updatedAt: Time,
    headHash: Hash)

  datatype CaseHead = CaseHead(sequence: nat, revision: nat, hash: Hash)

  /** The directory of one case: its event files in name order, its projection and its head. */
  datatype CaseFiles = CaseFiles(events: seq<CaseEvent>, projection: Projection, head: CaseHead)

  datatype CreateRequest = CreateRequest(
    tenant: string,
    alertIds: seq<string>,
    groupingKey: string,
    createdBy: string,
    reason: string,
    occurredAt: Option<Time>,
    key: string)

  datatype EventRequest = EventRequest(
    caseId: CaseId,
    expectedRevision: nat,
    action: Action,
    actor: string,
    reason: string,
    occurredAt: Option<Time>,
    key: string,
    payload: Payload)

  datatype Scope = CreateScope | EventScope(caseId: CaseId, action: Action)

  datatype Request = ToCreate(create: CreateRequest) | ToApply(event: EventRequest)

  datatype Receipt = Receipt(request: Request, objectId: CaseId, createdAt: Time)

  datatype AuditHash = NoAudit | AuditDigest(audited: AuditBody)

  datatype AuditBody = AuditBody(sequence: nat, previous: AuditHash, occurredAt: Time, action: Action, actor: string, objectId: CaseId, details: CaseEvent)

  datatype AuditEvent = AuditEvent(audit: AuditBody, hash: AuditHash)

  datatype AuditHead = AuditHead(sequence: nat, hash: AuditHash)

  datatype Db = Db(
    cases: map<CaseId, CaseFiles>,
    receipts: map<(Scope, string), Receipt>,
    audit: seq<AuditEvent>,
    auditHead: AuditHead)

  datatype Error =
    | MissingKey
    | Conflict
    | MissingFields
    | InvalidTime
    | UnknownAlert
    | OtherTenant
    | NotFound
    | RevisionConflict
    | InvalidPayload
    | NotAllowed
    | FourEyes
    | UnsupportedAction
    | NoEvents
    | ChainMismatch
    | ChecksumMismatch
    | ProjectionMismatch

  // ---------------------------------------------------------------- canonical forms

  /** The text whose digest names an evidence record; the digest is the text. */
  function GeneratedId(prefix: string, c: CaseId, revision: nat): string {
    prefix + c.tenant + "/" + Join(c.alertIds, ",") + "/" + c.groupingKey + ":" + NumberText(revision)
  }

  /** Trimmed, without blanks and repetitions, in order of first appearance. */
  function Distinct(xs: seq<string>): (r: seq<string>)
    ensures forall x :: x in r <==> x != "" && exists i :: 0 <= i < |xs| && Trim(xs[i]) == x
    ensures forall i, j :: 0 <= i < j < |r| ==> r[i] != r[j]
  {
    if xs == [] then []
    else
      var rest := Distinct(xs[..|xs| - 1]);
      var x := Trim(xs[|xs| - 1]);
      if x == "" || x in rest then rest else rest + [x]
  }

  function SortedDistinct(xs: seq<string>): seq<string> { SortStrings(Distinct(xs)) }

  // ---------------------------------------------------------------- transitions

  function GetString(p: Payload, key: string): string {
    if p.Fields? && key in p.fields && p.fields[key].JString? then Trim(p.fields[key].text) else ""
  }

  function DecisionOf(p: Payload): Option<Json> {
    if p.Fields? && "decision" in p.fields && !p.fields["decision"].JNull? then Some(p.fields["decision"]) else None
  }

  /** applyTransition: the case actions and the states they are allowed from. */
  function Transition(p: Projection, r: EventRequest): Result<Projection, Error> {
    Moved(p, r.caseId, r.expectedRevision, r.action, r.actor, r.payload)
  }

  /** The same, by the parts of the request it looks at. */
  function Moved(p: Projection, c: CaseId, revision: nat, action: Action, actor: string, payload: Payload): Result<Projection, Error> {
    if payload.Malformed? then Err(InvalidPayload)
    else
      match action
      case Assign =>
        if p.state !in {Open, Assigned, Investigating, Reopened} then Err(NotAllowed)
        else
          var assignee := GetString(payload, "assignee");
          if assignee == "" then Err(MissingFields)
          else Ok(p.(assignedTo := assignee, state := Assigned))
      case StartInvestigation =>
        if p.state !in {Assigned, Reopened} then Err(NotAllowed) else Ok(p.(state := Investigating))
      case RequestEvidence =>
        if p.state !in {Assigned, Investigating, PendingEvidence} then Err(NotAllowed)
        else
          var given := GetString(payload, "evidence_request_id");
          var id := if given == "" then GeneratedId("evidence_request_", c, revision + 1) else given;
          Ok(p.(evidenceRequests := SortedDistinct(p.evidenceRequests + [id]), state := PendingEvidence))
      case SubmitEvidence =>
        if p.state !in {PendingEvidence, Investigating} then Err(NotAllowed)
        else
          var given := GetString(payload, "evidence_submission_id");
          var id := if given == "" then GeneratedId("evidence_submission_", c, revision + 1) else given;
          Ok(p.(evidenceSubmissions := SortedDistinct(p.evidenceSubmissions + [id]), state := Investigating))
      case ProposeDecision =>
        if p.state !in {Assigned, Investigating, PendingEvidence, Reopened} then Err(NotAllowed)
        else if DecisionOf(payload).None? then Err(MissingFields)
        else Ok(p.(proposer := actor, proposed := DecisionOf(payload), state := PendingApproval))
      case ApproveDecision =>
        if p.state != PendingApproval then Err(NotAllowed)
        else if p.proposer == "" || p.proposer == actor then Err(FourEyes)
        else Ok(p.(approved := p.proposed, state := Resolved))
      case RejectDecision =>
        if p.state != PendingApproval then Err(NotAllowed)
        else if p.proposer == "" || p.proposer == actor then Err(FourEyes)
        else Ok(p.(proposer := "", proposed := None, state := Investigating))
      case Reopen =>
        if p.state != Resolved then Err(NotAllowed)
        else Ok(p.(state := Reopened, proposer := "", proposed := None))
      case LinkRescreen =>
        if p.state == Resolved then Err(NotAllowed)
        else
          var id := GetString(payload, "screening_event_id");
          if id == "" then Err(MissingFields)
          else Ok(p.(rescreens := SortedDistinct(p.rescreens + [id])))
      case _ => Err(UnsupportedAction)
  }

  function Stamp(p: Projection, e: CaseEvent): Projection {
    p.(revision := e.body.revision, updatedAt := e.body.occurredAt, headHash := e.hash)
  }

  function Seal(body: EventBody): CaseEvent { CaseEvent(body, Digest(body)) }

  function NewProjection(c: CaseId, tenant: string, alertIds: seq<string>, groupingKey: string, at: Time, hash: Hash): Projection {
    Projection(c, tenant, alertIds, groupingKey, Open, 1, "", "", None, None, [], [], [], at, at, hash)
  }

  // ---------------------------------------------------------------- replay

  /** The request VerifyCase reconstructs from a stored event. */
  function ReplayRequest(c: CaseId, revision: nat, e: CaseEvent): EventRequest {
    EventRequest(c, revision, e.body.action, e.body.actor, e.body.reason, Some(e.body.occurredAt), "replay", e.body.payload)
  }

  /** The projection before the first event: every field unset. */
  const BLANK := Projection(CaseId("", [], ""), "", [], "", Unset, 0, "", "", None, None, [], [], [], 0, 0, NoHash)

  /** The event's effect on the projection so far. */
  function ReplayStep(c: CaseId, p: Projection, e: CaseEvent): Result<Projection, Error> {
    if e.body.action.CaseCreated? then
      if e.body.payload.Creation? then
        Ok(NewProjection(c, e.body.payload.tenant, e.body.payload.alertIds, e.body.payload.groupingKey, e.body.occurredAt, e.hash))
      else Err(InvalidPayload)
    else
      match Transition(p, ReplayRequest(c, p.revision, e))
      case Err(error) => Err(error)
      case Ok(next) => Ok(Stamp(next, e))
  }

  /** The fold of the event log. */
  function Replay(c: CaseId, events: seq<CaseEvent>): Result<Projection, Error> {
    if events == [] then Ok(BLANK)
    else
      match Replay(c, events[..|events| - 1])
      case Err(error) => Err(error)
      case Ok(p) => ReplayStep(c, p, events[|events| - 1])
  }

  /** Contiguous sequence and revision numbers, each event sealed and linked to the one before. */
  predicate Chained(events: seq<CaseEvent>) { forall i :: 0 <= i < |events| ==> Linked(events, i) }

  predicate Linked(events: seq<CaseEvent>, i: nat)
    requires i < |events|
  {
    && events[i].body.sequence == i + 1 && events[i].body.revision == i + 1
    && events[i].body.previous == (if i == 0 then NoHash else events[i - 1].hash)
    && events[i].hash == Digest(events[i].body)
  }

  /** VerifyCase: the chain must hold and the fold of the log must be the stored projection. */
  ghost predicate Verified(c: CaseId, f: CaseFiles) {
    f.events != [] && Chained(f.events) && Replay(c, f.events) == Ok(f.projection)
  }

  // ---------------------------------------------------------------- operations

  function AppendAudit(db: Db, at: Time, action: Action, actor: string, id: CaseId, details: CaseEvent): Db {
    var body := AuditBody(db.auditHead.sequence + 1, db.auditHead.hash, at, action, actor, id, details);
    db.(audit := db.audit + [AuditEvent(body, AuditDigest(body))], auditHead := AuditHead(body.sequence, AuditDigest(body)))
  }

  datatype Reply =
    | Accepted(projection: Projection, event: Option<CaseEvent>, replayed: bool)
    | Rejected(error: Error)

  /** A receipt under the key, if any; a receipt for another request is a conflict. */
  function CheckReceipt(db: Db, scope: Scope, key: string, request: Request): Result<Option<Receipt>, Error> {
    if IsBlank(key) then Err(MissingKey)
    else if (scope, key) !in db.receipts then Ok(None)
    else if db.receipts[(scope, key)].request != request then Err(Conflict)
    else Ok(Some(db.receipts[(scope, key)]))
  }

  function SaveReceipt(db: Db, scope: Scope, key: string, r: Receipt): Db {
    db.(receipts := db.receipts[(scope, key) := r])
  }

  /** The error of the first alert, in sorted order, that is unknown or belongs to another tenant. */
  function AlertsError(alerts: map<string, string>, ids: seq<string>, tenant: string): Option<Error> {
    if ids == [] then None
    else if ids[0] !in alerts then Some(UnknownAlert)
    else if alerts[ids[0]] != tenant then Some(OtherTenant)
    else AlertsError(alerts, ids[1..], tenant)
  }

  function CreationEvent(c: CaseId, r: CreateRequest, at: Time): CaseEvent {
    Seal(EventBody(c, 1, 1, NoHash, CaseCreated, r.createdBy, r.reason, at, Creation(c.tenant, c.alertIds, c.groupingKey)))
  }

  /** CreateCase; `alerts` gives the tenant of every alert on record. */
  function Create(db: Db, r: CreateRequest, alerts: map<string, string>): (Db, Reply) {
    match CheckReceipt(db, CreateScope, r.key, ToCreate(r))
    case Err(error) => (db, Rejected(error))
    case Ok(Some(receipt)) =>
      if receipt.objectId in db.cases then (db, Accepted(db.cases[receipt.objectId].projection, None, true)) else (db, Rejected(NotFound))
    case Ok(None) =>
      if r.tenant == "" || r.createdBy == "" || r.reason == "" || r.alertIds == [] then (db, Rejected(MissingFields))
      else if r.occurredAt.None? then (db, Rejected(InvalidTime))
      else
        var ids, at := SortedDistinct(r.alertIds), r.occurredAt.value;
        var alertError := AlertsError(alerts, ids, r.tenant);
        if alertError.Some? then (db, Rejected(alertError.value))
        else
          var c := CaseId(r.tenant, ids, r.groupingKey);
          var receipt := Receipt(ToCreate(r), c, at);
          if c in db.cases then (SaveReceipt(db, CreateScope, r.key, receipt), Accepted(db.cases[c].projection, None, true))
          else
            var e := CreationEvent(c, r, at);
            var p := NewProjection(c, r.tenant, ids, r.groupingKey, at, e.hash);
            var stored := db.(cases := db.cases[c := CaseFiles([e], p, CaseHead(1, 1, e.hash))]);
            (SaveReceipt(AppendAudit(stored, at, CaseCreated, r.createdBy, c, e), CreateScope, r.key, receipt), Accepted(p, None, false))
  }

  function NextEvent(head: CaseHead, r: EventRequest, at: Time): CaseEvent {
    Seal(EventBody(r.caseId, head.sequence + 1, head.revision + 1, head.hash, r.action, r.actor, r.reason, at, r.payload))
  }

  /** The event files of one sequence number. */
  function Numbered(events: seq<CaseEvent>, n: nat): seq<CaseEvent> {
    if events == [] then []
    else Numbered(events[..|events| - 1], n) + (if events[|events| - 1].body.sequence == n then [events[|events| - 1]] else [])
  }

  /** The answer to a request received before: the case as it is now, with the event at its head. */
  function Replayed(files: CaseFiles): Reply {
    var found := Numbered(files.events, files.head.sequence);
    if |found| != 1 then Rejected(NotFound) else Accepted(files.projection, Some(found[0]), true)
  }

  /** ApplyCaseEvent. */
  function Apply(db: Db, r: EventRequest): (Db, Reply) {
    var scope := EventScope(r.caseId, r.action);
    match CheckReceipt(db, scope, r.key, ToApply(r))
    case Err(error) => (db, Rejected(error))
    case Ok(Some(receipt)) =>
      (db, if r.caseId in db.cases then Replayed(db.cases[r.caseId]) else Rejected(NotFound))
    case Ok(None) =>
      if r.caseId !in db.cases then (db, Rejected(NotFound))
      else
        var files := db.cases[r.caseId];
        if r.expectedRevision != files.projection.revision then (db, Rejected(RevisionConflict))
        else if r.actor == "" || r.action == Unknown("") then (db, Rejected(MissingFields))
        else if r.occurredAt.None? then (db, Rejected(InvalidTime))
        else
          match Transition(files.projection, r)
          case Err(error) => (db, Rejected(error))
          case Ok(moved) =>
            var at := r.occurredAt.value;
            var e := NextEvent(files.head, r, at);
            var next := Stamp(moved, e);
            var stored := db.(cases := db.cases[r.caseId :=
              CaseFiles(files.events + [e], next, CaseHead(e.body.sequence, e.body.revision, e.hash))]);
            (SaveReceipt(AppendAudit(stored, at, r.action, r.actor, r.caseId, e), scope, r.key, Receipt(ToApply(r), r.caseId, at)),
             Accepted(next, Some(e), false))
  }

  datatype Op = OpCreate(create: CreateRequest, alerts: map<string, string>) | OpApply(apply: EventRequest)

  function Perform(db: Db, op: Op): (Db, Reply) {
    match op
    case OpCreate(r, alerts) => Create(db, r, alerts)
    case OpApply(r) => Apply(db, r)
  }

  const EMPTY := Db(map[], map[], [], AuditHead(0, NoAudit))

  /** The store after a run of calls. */
  function Run(ops: seq<Op>): Db {
    if ops == [] then EMPTY else Perform(Run(ops[..|ops| - 1]), ops[|ops| - 1]).0
  }
}

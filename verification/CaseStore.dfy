/** The store itself, proved against the specification of its calls. */
module CaseStore {
  import opened Wrappers
  import opened Text
  import opened AlertCase
  import opened CaseInvariant

  /** The state directory: cases, receipts and the audit stream. */
  class Store {
    var cases: map<CaseId, CaseFiles>
    var receipts: map<(Scope, string), Receipt>
    var audit: seq<AuditEvent>
    var auditHead: AuditHead

    ghost function Data(): Db
      reads this
    {
      Db(cases, receipts, audit, auditHead)
    }

    constructor ()
      ensures Data() == EMPTY
    {
      cases, receipts, audit, auditHead := map[], map[], [], AuditHead(0, NoAudit);
    }

    method Lookup(scope: Scope, key: string, request: Request) returns (r: Result<Option<Receipt>, Error>)
      ensures r == CheckReceipt(Data(), scope, key, request)
    {
      if IsBlank(key) { return Err(MissingKey); }
      if (scope, key) !in receipts { return Ok(None); }
      if receipts[(scope, key)].request != request { return Err(Conflict); }
      return Ok(Some(receipts[(scope, key)]));
    }

    method Append(at: Time, action: Action, actor: string, id: CaseId, details: CaseEvent)
      modifies this`audit, this`auditHead
      ensures Data() == AppendAudit(old(Data()), at, action, actor, id, details)
    {
      var body := AuditBody(auditHead.sequence + 1, auditHead.hash, at, action, actor, id, details);
      audit := audit + [AuditEvent(body, AuditDigest(body))];
      auditHead := AuditHead(body.sequence, AuditDigest(body));
    }

    /** The loop over the sorted alert ids of CreateCase. */
    method CheckAlerts(alerts: map<string, string>, ids: seq<string>, tenant: string) returns (error: Option<Error>)
      ensures error == AlertsError(alerts, ids, tenant)
      ensures error.None? <==> forall i :: 0 <= i < |ids| ==> ids[i] in alerts && alerts[ids[i]] == tenant
    {
      var i := 0;
      while i < |ids|
        invariant 0 <= i <= |ids|
        invariant AlertsError(alerts, ids, tenant) == AlertsError(alerts, ids[i..], tenant)
        invariant forall j :: 0 <= j < i ==> ids[j] in alerts && alerts[ids[j]] == tenant
      {
        if ids[i] !in alerts { return Some(UnknownAlert); }
        if alerts[ids[i]] != tenant { return Some(OtherTenant); }
        i := i + 1;
      }
      return None;
    }

    method CreateCase(r: CreateRequest, alerts: map<string, string>) returns (reply: Reply)
      modifies this
      ensures (Data(), reply) == Create(old(Data()), r, alerts)
    {
      var found := Lookup(CreateScope, r.key, ToCreate(r));
      if found.Err? { return Rejected(found.error); }
      if found.value.Some? {
        var id := found.value.value.objectId;
        if id !in cases { return Rejected(NotFound); }
        return Accepted(cases[id].projection, None, true);
      }
      if r.tenant == "" || r.createdBy == "" || r.reason == "" || r.alertIds == [] { return Rejected(MissingFields); }
      if r.occurredAt.None? { return Rejected(InvalidTime); }
      var ids, at := SortedDistinct(r.alertIds), r.occurredAt.value;
      var alertError := CheckAlerts(alerts, ids, r.tenant);
      if alertError.Some? { return Rejected(alertError.value); }
      var c := CaseId(r.tenant, ids, r.groupingKey);
      if c in cases {
        receipts := receipts[(CreateScope, r.key) := Receipt(ToCreate(r), c, at)];
        return Accepted(cases[c].projection, None, true);
      }
      var e := CreationEvent(c, r, at);
      var p := NewProjection(c, r.tenant, ids, r.groupingKey, at, e.hash);
      cases := cases[c := CaseFiles([e], p, CaseHead(1, 1, e.hash))];
      Append(at, CaseCreated, r.createdBy, c, e);
      receipts := receipts[(CreateScope, r.key) := Receipt(ToCreate(r), c, at)];
      return Accepted(p, None, false);
    }

    /** The one event file with the sequence number. */
    method EventBySequence(events: seq<CaseEvent>, n: nat) returns (event: Option<CaseEvent>)
      ensures event == if |Numbered(events, n)| == 1 then Some(Numbered(events, n)[0]) else None
    {
      var matches := [];
      for i := 0 to |events|
        invariant matches == Numbered(events[..i], n)
      {
        assert events[..i + 1][..i] == events[..i];
        if events[i].body.sequence == n { matches := matches + [events[i]]; }
      }
      assert events[..|events|] == events;
      return if |matches| == 1 then Some(matches[0]) else None;
    }

    method ApplyCaseEvent(r: EventRequest) returns (reply: Reply)
      modifies this
      ensures (Data(), reply) == Apply(old(Data()), r)
    {
      var scope := EventScope(r.caseId, r.action);
      var found := Lookup(scope, r.key, ToApply(r));
      if found.Err? { return Rejected(found.error); }
      if r.caseId !in cases { return Rejected(NotFound); }
      if found.value.Some? {
        var event := EventBySequence(cases[r.caseId].events, cases[r.caseId].head.sequence);
        if event.None? { return Rejected(NotFound); }
        return Accepted(cases[r.caseId].projection, event, true);
      }
      var files := cases[r.caseId];
      if r.expectedRevision != files.projection.revision { return Rejected(RevisionConflict); }
      if r.actor == "" || r.action == Unknown("") { return Rejected(MissingFields); }
      if r.occurredAt.None? { return Rejected(InvalidTime); }
      var moved := Transition(files.projection, r);
      if moved.Err? { return Rejected(moved.error); }
      var at := r.occurredAt.value;
      var e := NextEvent(files.head, r, at);
      var next := Stamp(moved.value, e);
      cases := cases[r.caseId := CaseFiles(files.events + [e], next, CaseHead(e.body.sequence, e.body.revision, e.hash))];
      Append(at, r.action, r.actor, r.caseId, e);
      receipts := receipts[(scope, r.key) := Receipt(ToApply(r), r.caseId, at)];
      return Accepted(next, Some(e), false);
    }

    /** The chain checks VerifyCase makes of one event. */
    method CheckLink(events: seq<CaseEvent>, i: nat, previous: Hash) returns (error: Option<Error>)
      requires i < |events| && previous == if i == 0 then NoHash else events[i - 1].hash
      ensures error.None? <==> Linked(events, i)
    {
      var e := events[i];
      if e.body.sequence != i + 1 || e.body.revision != i + 1 || e.body.previous != previous { return Some(ChainMismatch); }
      if e.hash != Digest(e.body) { return Some(ChecksumMismatch); }
      return None;
    }

    /** VerifyCase's loop: fold the log as long as it is chained and its transitions are allowed. */
    method ReplayLog(c: CaseId, events: seq<CaseEvent>) returns (r: Result<Projection, Error>)
      ensures r.Ok? <==> Chained(events) && Replay(c, events).Ok?
      ensures r.Ok? ==> r == Replay(c, events)
    {
      var replay, previous := BLANK, NoHash;
      var i := 0;
      CheckedNone(c, events);
      while i < |events|
        invariant 0 <= i <= |events| && CheckedUpto(c, events, i, previous, replay)
      {
        var broken := CheckLink(events, i, previous);
        if broken.Some? { return Err(broken.value); }
        var step := ReplayStep(c, replay, events[i]);
        CheckedNext(c, events, i, previous, replay);
        if step.Err? { return Err(step.error); }
        replay, previous := step.value, events[i].hash;
        i := i + 1;
      }
      CheckedAll(c, events, previous, replay);
      return Ok(replay);
    }

    /** The check succeeds on exactly the files whose chain holds and whose fold is the stored projection. */
    method VerifyCase(c: CaseId) returns (r: Result<Projection, Error>)
      ensures r.Ok? <==> c in cases && Verified(c, cases[c])
      ensures r.Ok? ==> r.value == cases[c].projection
    {
      if c !in cases || cases[c].events == [] { return Err(NoEvents); }
      r := ReplayLog(c, cases[c].events);
      if r.Ok? && r.value != cases[c].projection { return Err(ProjectionMismatch); }
    }

    /** The number of audit events, when every one of them is sealed and linked to the one before. */
    method VerifyAudit() returns (r: Result<nat, Error>)
      ensures r.Ok? <==> AuditChained(audit)
      ensures r.Ok? ==> r.value == |audit|
    {
      var previous := NoAudit;
      var i := 0;
      while i < |audit|
        invariant 0 <= i <= |audit|
        invariant previous == if i == 0 then NoAudit else audit[i - 1].hash
        invariant forall j :: 0 <= j < i ==> AuditLinked(audit, j)
      {
        var e := audit[i];
        if e.audit.sequence != i + 1 || e.audit.previous != previous {
          assert !AuditLinked(audit, i);
          return Err(ChainMismatch);
        }
        if e.hash != AuditDigest(e.audit) {
          assert !AuditLinked(audit, i);
          return Err(ChecksumMismatch);
        }
        previous := e.hash;
        i := i + 1;
      }
      return Ok(|audit|);
    }
  }

  /** The first i events are chained, and `replay` is their fold. */
  predicate CheckedUpto(c: CaseId, events: seq<CaseEvent>, i: nat, previous: Hash, replay: Projection)
    requires i <= |events|
  {
    && previous == (if i == 0 then NoHash else events[i - 1].hash) && (forall j :: 0 <= j < i ==> Linked(events, j))
    && Replay(c, events[..i]) == Ok(replay)
  }

  lemma CheckedNone(c: CaseId, events: seq<CaseEvent>)
    ensures CheckedUpto(c, events, 0, NoHash, BLANK)
  {
  }

  lemma CheckedAll(c: CaseId, events: seq<CaseEvent>, previous: Hash, replay: Projection)
    requires CheckedUpto(c, events, |events|, previous, replay)
    ensures Chained(events) && Replay(c, events) == Ok(replay)
  {
    assert events[..|events|] == events;
  }

  lemma CheckedNext(c: CaseId, events: seq<CaseEvent>, i: nat, previous: Hash, replay: Projection)
    requires i < |events| && CheckedUpto(c, events, i, previous, replay) && Linked(events, i)
    ensures var step := ReplayStep(c, replay, events[i]);
      if step.Ok? then CheckedUpto(c, events, i + 1, events[i].hash, step.value) else Replay(c, events).Err?
  {
    ReplayNext(c, events, i);
    if ReplayStep(c, replay, events[i]).Err? { ReplayFails(c, events, i + 1); }
  }

  lemma ReplayNext(c: CaseId, events: seq<CaseEvent>, i: nat)
    requires i < |events| && Replay(c, events[..i]).Ok?
    ensures Replay(c, events[..i + 1]) == ReplayStep(c, Replay(c, events[..i]).value, events[i])
  {
    assert events[..i + 1][..i] == events[..i];
  }

  lemma {:induction false} ReplayFails(c: CaseId, events: seq<CaseEvent>, k: nat)
    requires k <= |events| && Replay(c, events[..k]).Err?
    ensures Replay(c, events).Err?
    decreases |events|
  {
    if k == |events| {
      assert events[..k] == events;
    } else {
      assert events[..|events| - 1][..k] == events[..k];
      ReplayFails(c, events[..|events| - 1], k);
    }
  }

  /** The audit chain of every reachable store verifies, and its head names its last event. */
  lemma AuditVerifies(ops: seq<Op>)
    ensures AuditInv(Run(ops))
  {
    RunInv(ops);
  }
}

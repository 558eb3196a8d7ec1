/** The theorems about runs of the store. */
module CaseRuns {
  import opened Wrappers
  import opened AlertCase
  import opened CaseInvariant

  /** Whatever was called, the fold of a case's log is its stored projection and all counters agree. */
  lemma ReplayAgrees(ops: seq<Op>, c: CaseId)
    requires c in Run(ops).cases
    ensures var f := Run(ops).cases[c];
      && Verified(c, f)
      && |f.events| == f.head.sequence == f.head.revision == f.projection.revision
      && f.projection.headHash == f.head.hash
  {
    RunInv(ops);
    assert CaseInv(c, Run(ops).cases[c]);
  }

  /** One event more than the distinct receipts of accepted events. */
  lemma EventsMatchReceipts(ops: seq<Op>, c: CaseId)
    ensures |EventReceipts(Run(ops), c)| == (if c in Run(ops).cases then |Run(ops).cases[c].events| - 1 else 0)
  {
    RunInv(ops);
    assert CountOk(Run(ops), c);
  }

  // ---------------------------------------------------------------- exactly-once effects

  lemma CreateKeepsReceipts(db: Db, r: CreateRequest, alerts: map<string, string>, k: (Scope, string))
    requires k in db.receipts
    ensures k in Create(db, r, alerts).0.receipts && Create(db, r, alerts).0.receipts[k] == db.receipts[k]
  {
    if Create(db, r, alerts).0 != db { CreateShape(db, r, alerts); }
  }

  lemma ApplyKeepsReceipts(db: Db, r: EventRequest, k: (Scope, string))
    requires k in db.receipts
    ensures k in Apply(db, r).0.receipts && Apply(db, r).0.receipts[k] == db.receipts[k]
  {
    if Apply(db, r).0 != db { ApplyShape(db, r); }
  }

  lemma PerformKeepsReceipts(db: Db, op: Op, k: (Scope, string))
    requires k in db.receipts
    ensures k in Perform(db, op).0.receipts && Perform(db, op).0.receipts[k] == db.receipts[k]
  {
    match op
    case OpCreate(r, alerts) => CreateKeepsReceipts(db, r, alerts, k);
    case OpApply(r) => ApplyKeepsReceipts(db, r, k);
  }

  lemma RunNext(ops: seq<Op>, more: seq<Op>)
    requires more != []
    ensures Run(ops + more) == Perform(Run(ops + more[..|more| - 1]), more[|more| - 1]).0
  {
    assert (ops + more)[..|ops + more| - 1] == ops + more[..|more| - 1];
  }

  /** A receipt, once saved, is never changed or removed. */
  lemma {:induction false} ReceiptsArePermanent(ops: seq<Op>, more: seq<Op>, k: (Scope, string))
    requires k in Run(ops).receipts
    ensures k in Run(ops + more).receipts && Run(ops + more).receipts[k] == Run(ops).receipts[k]
  {
    if more == [] {
      assert ops + more == ops;
    } else {
      ReceiptsArePermanent(ops, more[..|more| - 1], k);
      RunNext(ops, more);
      PerformKeepsReceipts(Run(ops + more[..|more| - 1]), more[|more| - 1], k);
    }
  }

  function ScopeOf(r: Request): (Scope, string) {
    match r
    case ToCreate(create) => (CreateScope, create.key)
    case ToApply(event) => (EventScope(event.caseId, event.action), event.key)
  }

  function Submit(db: Db, r: Request, alerts: map<string, string>): (Db, Reply) {
    match r
    case ToCreate(create) => Create(db, create, alerts)
    case ToApply(event) => Apply(db, event)
  }

  lemma CreationReceipt(db: Db, r: CreateRequest, alerts: map<string, string>)
    requires Create(db, r, alerts).1.Accepted?
    ensures var k := (CreateScope, r.key); k in Create(db, r, alerts).0.receipts && Create(db, r, alerts).0.receipts[k].request == ToCreate(r)
  {
  }

  lemma EventReceipt(db: Db, r: EventRequest)
    requires Apply(db, r).1.Accepted?
    ensures var k := (EventScope(r.caseId, r.action), r.key); k in Apply(db, r).0.receipts && Apply(db, r).0.receipts[k].request == ToApply(r)
  {
  }

  /** An accepted request leaves its receipt. */
  lemma AcceptedLeavesReceipt(db: Db, r: Request, alerts: map<string, string>)
    requires Submit(db, r, alerts).1.Accepted?
    ensures ScopeOf(r) in Submit(db, r, alerts).0.receipts && Submit(db, r, alerts).0.receipts[ScopeOf(r)].request == r
  {
    match r
    case ToCreate(create) => CreationReceipt(db, create, alerts);
    case ToApply(event) => EventReceipt(db, event);
  }

  lemma {:induction false} NumberedLast(events: seq<CaseEvent>, n: nat)
    requires Chained(events) && n >= |events|
    ensures Numbered(events, n) == (if n == |events| > 0 then [events[n - 1]] else [])
  {
    if events != [] {
      var front := events[..|events| - 1];
      forall i | 0 <= i < |front| ensures Linked(front, i) { assert Linked(events, i); }
      NumberedLast(front, n);
      assert Linked(events, |events| - 1);
    }
  }

  /** In an invariant store a repeated event is answered with the case and its last event. */
  lemma ReplayedAnswer(db: Db, c: CaseId)
    requires Inv(db) && c in db.cases
    ensures var f := db.cases[c]; f.events != [] && Replayed(f) == Accepted(f.projection, Some(f.events[|f.events| - 1]), true)
  {
    assert CaseInv(c, db.cases[c]);
    NumberedLast(db.cases[c].events, |db.cases[c].events|);
  }

  lemma CreationDecided(db: Db, r: CreateRequest, request: Request, alerts: map<string, string>)
    requires ReceiptInv(db, (CreateScope, r.key)) && (CreateScope, r.key) in db.receipts && db.receipts[(CreateScope, r.key)].request == request
    ensures Create(db, r, alerts).0 == db
    ensures request == ToCreate(r) ==> Create(db, r, alerts).1.Accepted? && Create(db, r, alerts).1.replayed
    ensures request != ToCreate(r) ==> Create(db, r, alerts).1 == Rejected(Conflict)
  {
  }

  lemma EventDecided(db: Db, r: EventRequest, request: Request)
    requires var k := (EventScope(r.caseId, r.action), r.key); ReceiptInv(db, k) && k in db.receipts && db.receipts[k].request == request
    requires request == ToApply(r) ==> r.caseId in db.cases && Replayed(db.cases[r.caseId]).Accepted?
    ensures Apply(db, r).0 == db
    ensures request == ToApply(r) ==> Apply(db, r).1 == Replayed(db.cases[r.caseId])
    ensures request != ToApply(r) ==> Apply(db, r).1 == Rejected(Conflict)
  {
  }

  /** With a receipt on record, its request changes nothing and any other under the same key is refused. */
  lemma ReceiptDecides(db: Db, r: Request, s: Request, alerts: map<string, string>)
    requires Inv(db) && ScopeOf(r) in db.receipts && db.receipts[ScopeOf(r)].request == r && ScopeOf(s) == ScopeOf(r)
    ensures Submit(db, s, alerts).0 == db
    ensures s == r ==> Submit(db, s, alerts).1.Accepted? && Submit(db, s, alerts).1.replayed
    ensures s != r ==> Submit(db, s, alerts).1 == Rejected(Conflict)
  {
    assert ReceiptInv(db, ScopeOf(r));
    match s {
      case ToCreate(create) => CreationDecided(db, create, r, alerts);
      case ToApply(event) =>
        if s == r { ReplayedAnswer(db, event.caseId); }
        EventDecided(db, event, r);
    }
  }

  function OpOf(r: Request, alerts: map<string, string>): Op {
    match r
    case ToCreate(create) => OpCreate(create, alerts)
    case ToApply(event) => OpApply(event)
  }

  /** Exactly once: after a request was accepted, and whatever happened since, submitting it again
      changes nothing and is accepted as a replay; another request under its scope and key is refused. */
  lemma ExactlyOnce(ops: seq<Op>, r: Request, alerts: map<string, string>, more: seq<Op>, s: Request, later: map<string, string>)
    requires Submit(Run(ops), r, alerts).1.Accepted? && ScopeOf(s) == ScopeOf(r)
    ensures var db := Run(ops + [OpOf(r, alerts)] + more);
      && Submit(db, s, later).0 == db
      && (s == r ==> Submit(db, s, later).1.Accepted? && Submit(db, s, later).1.replayed)
      && (s != r ==> Submit(db, s, later).1 == Rejected(Conflict))
  {
    var once := ops + [OpOf(r, alerts)];
    assert once[..|once| - 1] == ops;
    assert Run(once) == Submit(Run(ops), r, alerts).0;
    AcceptedLeavesReceipt(Run(ops), r, alerts);
    ReceiptsArePermanent(once, more, ScopeOf(r));
    RunInv(once + more);
    ReceiptDecides(Run(once + more), r, s, later);
  }

  // ---------------------------------------------------------------- what a repeated event is answered

  /** The files either stay or get one more event. */
  predicate Grows(f: CaseFiles, g: CaseFiles) { g == f || (|g.events| > |f.events| && g.events[..|f.events|] == f.events) }

  lemma GrowsTwice(f: CaseFiles, g: CaseFiles, h: CaseFiles)
    requires Grows(f, g) && Grows(g, h)
    ensures Grows(f, h)
  {
    if g != f && h != g { assert h.events[..|f.events|] == h.events[..|g.events|][..|f.events|]; }
  }

  lemma PerformGrows(db: Db, op: Op, c: CaseId)
    requires c in db.cases
    ensures c in Perform(db, op).0.cases && Grows(db.cases[c], Perform(db, op).0.cases[c])
  {
    match op
    case OpCreate(r, alerts) => if Create(db, r, alerts).0 != db { CreateShape(db, r, alerts); }
    case OpApply(r) => if Apply(db, r).0 != db { ApplyShape(db, r); }
  }

  lemma {:induction false} RunGrows(ops: seq<Op>, more: seq<Op>, c: CaseId)
    requires c in Run(ops).cases
    ensures c in Run(ops + more).cases && Grows(Run(ops).cases[c], Run(ops + more).cases[c])
  {
    if more == [] {
      assert ops + more == ops;
    } else {
      var before := Run(ops + more[..|more| - 1]);
      RunGrows(ops, more[..|more| - 1], c);
      RunNext(ops, more);
      PerformGrows(before, more[|more| - 1], c);
      GrowsTwice(Run(ops).cases[c], before.cases[c], Run(ops + more).cases[c]);
    }
  }

  /** What accepting a new event answers: the case with that event at its head. */
  lemma AppliedAnswer(db: Db, r: EventRequest)
    requires Apply(db, r).1.Accepted? && !Apply(db, r).1.replayed
    ensures var after, reply := Apply(db, r).0, Apply(db, r).1;
      && r.caseId in after.cases && after.cases[r.caseId].events != []
      && AnswersLast(after.cases[r.caseId], reply.(replayed := true))
  {
  }

  /** Submitting an accepted event again is answered with the case as it is by then and its last event. That is the
      answer of the first time exactly if no event of the case was accepted in between. */
  lemma SameAnswer(ops: seq<Op>, r: EventRequest, more: seq<Op>)
    requires Apply(Run(ops), r).1.Accepted? && !Apply(Run(ops), r).1.replayed
    ensures var first, db := Apply(Run(ops), r), Run(ops + [OpApply(r)] + more);
      && r.caseId in first.0.cases && r.caseId in db.cases
      && (Apply(db, r).1 == first.1.(replayed := true) <==> |db.cases[r.caseId].events| == |first.0.cases[r.caseId].events|)
  {
    AppliedAnswer(Run(ops), r);
    AnsweredLater(ops, r, more);
    var first, db := Apply(Run(ops), r), Run(ops + [OpApply(r)] + more);
    SameIff(first.0.cases[r.caseId], db.cases[r.caseId], first.1, Apply(db, r).1);
  }

  lemma AnsweredLater(ops: seq<Op>, r: EventRequest, more: seq<Op>)
    requires Apply(Run(ops), r).1.Accepted? && r.caseId in Apply(Run(ops), r).0.cases
    ensures var db := Run(ops + [OpApply(r)] + more);
      && r.caseId in db.cases && Grows(Apply(Run(ops), r).0.cases[r.caseId], db.cases[r.caseId])
      && Chained(db.cases[r.caseId].events) && AnswersLast(db.cases[r.caseId], Apply(db, r).1)
  {
    var once := ops + [OpApply(r)];
    RunOnce(ops, r);
    RunGrows(once, more, r.caseId);
    ReceiptLater(ops, r, more);
    RunInv(once + more);
    AnsweredAgain(Run(once + more), r);
    InvChained(Run(once + more), r.caseId);
  }

  /** A replayed answer with the case and its last event. */
  predicate AnswersLast(f: CaseFiles, reply: Reply) {
    f.events != [] && reply == Accepted(f.projection, Some(f.events[|f.events| - 1]), true)
  }

  lemma ReceiptLater(ops: seq<Op>, r: EventRequest, more: seq<Op>)
    requires Apply(Run(ops), r).1.Accepted?
    ensures var db := Run(ops + [OpApply(r)] + more); var k := (EventScope(r.caseId, r.action), r.key);
      k in db.receipts && db.receipts[k].request == ToApply(r)
  {
    RunOnce(ops, r);
    EventReceipt(Run(ops), r);
    ReceiptsArePermanent(ops + [OpApply(r)], more, (EventScope(r.caseId, r.action), r.key));
  }

  lemma InvChained(db: Db, c: CaseId)
    requires Inv(db) && c in db.cases
    ensures Chained(db.cases[c].events) && db.cases[c].events != []
  {
    assert CaseInv(c, db.cases[c]);
  }

  lemma SameIff(f: CaseFiles, g: CaseFiles, first: Reply, again: Reply)
    requires first.Accepted? && AnswersLast(f, first.(replayed := true)) && AnswersLast(g, again) && Grows(f, g) && Chained(g.events)
    ensures again == first.(replayed := true) <==> |g.events| == |f.events|
  {
    if g != f { LaterDiffers(g.events, f.events); }
  }

  lemma RunOnce(ops: seq<Op>, r: EventRequest)
    ensures Run(ops + [OpApply(r)]) == Apply(Run(ops), r).0
  {
    RunNext(ops, [OpApply(r)]);
    assert ops + [OpApply(r)][..0] == ops;
  }

  lemma AnsweredAgain(db: Db, r: EventRequest)
    requires Inv(db) && r.caseId in db.cases
    requires var k := (EventScope(r.caseId, r.action), r.key); k in db.receipts && db.receipts[k].request == ToApply(r)
    ensures AnswersLast(db.cases[r.caseId], Apply(db, r).1)
  {
    ReplayedAnswer(db, r.caseId);
    assert ReceiptInv(db, (EventScope(r.caseId, r.action), r.key));
    EventDecided(db, r, ToApply(r));
  }

  /** A longer log ends with another event. */
  lemma LaterDiffers(events: seq<CaseEvent>, first: seq<CaseEvent>)
    requires Chained(events) && 0 < |first| <= |events| && events[..|first|] == first
    ensures |events| > |first| ==> events[|events| - 1] != first[|first| - 1]
  {
    assert first[|first| - 1] == events[..|first|][|first| - 1];
    assert Linked(events, |first| - 1) && Linked(events, |events| - 1);
  }

  // ---------------------------------------------------------------- four eyes

  /** The index of the last proposal in the log. */
  function LatestProposal(events: seq<CaseEvent>): (r: Option<nat>)
    ensures r.Some? ==> r.value < |events| && events[r.value].body.action.ProposeDecision?
    ensures forall i :: (if r.Some? then r.value + 1 else 0) <= i < |events| ==> !events[i].body.action.ProposeDecision?
  {
    if events == [] then None
    else if events[|events| - 1].body.action.ProposeDecision? then Some(|events| - 1)
    else LatestProposal(events[..|events| - 1])
  }

  predicate Decides(e: CaseEvent) { e.body.action.ApproveDecision? || e.body.action.RejectDecision? }

  /** Event k, by someone else, decides the latest proposal before it. */
  predicate DecidesOther(events: seq<CaseEvent>, k: nat)
    requires k < |events|
  {
    var j := LatestProposal(events[..k]);
    j.Some? && events[j.value].body.actor != events[k].body.actor
  }

  /** Event k approves decision d, proposed by someone else. */
  predicate ApprovesOther(events: seq<CaseEvent>, k: nat, d: Option<Json>)
    requires k < |events|
  {
    && events[k].body.action.ApproveDecision? && DecidesOther(events, k)
    && DecisionOf(events[LatestProposal(events[..k]).value].body.payload) == d
  }

  /** What a case's projection remembers of its log's proposals. */
  ghost predicate Remembers(events: seq<CaseEvent>, p: Projection) {
    && (p.state in {PendingApproval, Resolved} <==> p.proposer != "")
    && (p.proposer != "" <==> p.proposed.Some?)
    && (p.proposer != "" ==> Proposed(events, p))
    && (p.approved.Some? ==> exists k: nat :: k < |events| && ApprovesOther(events, k, p.approved))
  }

  predicate Proposed(events: seq<CaseEvent>, p: Projection) {
    var j := LatestProposal(events);
    j.Some? && p.proposer == events[j.value].body.actor && p.proposed == DecisionOf(events[j.value].body.payload)
  }

  lemma PrefixDecides(events: seq<CaseEvent>, more: seq<CaseEvent>, k: nat)
    requires k < |events|
    ensures DecidesOther(events + more, k) == DecidesOther(events, k)
    ensures forall d :: ApprovesOther(events + more, k, d) == ApprovesOther(events, k, d)
  {
    assert (events + more)[..k] == events[..k];
    assert (events + more)[k] == events[k];
    var j := LatestProposal(events[..k]);
    assert j.Some? ==> (events + more)[j.value] == events[j.value];
  }

  /** What one transition does to the remembered proposal. */
  lemma TransitionMemory(p: Projection, r: EventRequest)
    requires Transition(p, r).Ok? && r.actor != ""
    requires p.state in {PendingApproval, Resolved} <==> p.proposer != ""
    requires p.proposer != "" <==> p.proposed.Some?
    ensures var q := Transition(p, r).value;
      && (q.state in {PendingApproval, Resolved} <==> q.proposer != "")
      && (q.proposer != "" <==> q.proposed.Some?)
      && (if r.action.ProposeDecision? then q.proposer == r.actor && q.proposed == DecisionOf(r.payload) && q.approved == p.approved
          else q.proposer != "" ==> q.proposer == p.proposer && q.proposed == p.proposed)
      && (r.action.ApproveDecision? || r.action.RejectDecision? ==> p.proposer != "" && p.proposer != r.actor)
      && q.approved == (if r.action.ApproveDecision? then p.proposed else p.approved)
  {
  }

  lemma MemoryStep(c: CaseId, before: seq<CaseEvent>, p: Projection, e: CaseEvent)
    requires Remembers(before, p) && e.body.actor != "" && !e.body.action.CaseCreated?
    requires ReplayStep(c, p, e).Ok?
    ensures Remembers(before + [e], ReplayStep(c, p, e).value)
    ensures Decides(e) ==> DecidesOther(before + [e], |before|)
  {
    var events := before + [e];
    var r := ReplayRequest(c, p.revision, e);
    TransitionMemory(p, r);
    var q := Transition(p, r).value;
    assert events[..|before|] == before;
    assert LatestProposal(events) == if e.body.action.ProposeDecision? then Some(|before|) else LatestProposal(before);
    if q.approved.Some? {
      if r.action.ApproveDecision? {
        assert ApprovesOther(events, |before|, q.approved);
      } else {
        var k: nat :| k < |before| && ApprovesOther(before, k, p.approved);
        PrefixDecides(before, [e], k);
        assert ApprovesOther(events, k, q.approved);
      }
    }
  }

  lemma LogSplits(c: CaseId, events: seq<CaseEvent>)
    requires |events| > 1 && CreatedOnce(events) && Replay(c, events).Ok?
    ensures var before, e := events[..|events| - 1], events[|events| - 1];
      && before + [e] == events && CreatedOnce(before) && e.body.actor != "" && !e.body.action.CaseCreated?
      && Replay(c, before).Ok? && ReplayStep(c, Replay(c, before).value, e) == Replay(c, events)
  {
  }

  /** By induction over the log, the projection remembers its proposals. */
  lemma {:induction false} LogMemory(c: CaseId, events: seq<CaseEvent>)
    requires CreatedOnce(events) && Replay(c, events).Ok?
    ensures Remembers(events, Replay(c, events).value)
  {
    if |events| == 1 {
      FirstMemory(c, events);
    } else {
      var before, e := events[..|events| - 1], events[|events| - 1];
      LogSplits(c, events);
      LogMemory(c, before);
      MemoryStep(c, before, Replay(c, before).value, e);
    }
  }

  /** By induction over the log, every decision was by other eyes. */
  lemma {:induction false} LogDecides(c: CaseId, events: seq<CaseEvent>, k: nat)
    requires CreatedOnce(events) && Replay(c, events).Ok? && k < |events| && Decides(events[k])
    ensures DecidesOther(events, k)
  {
    if |events| == 1 {
      FirstMemory(c, events);
    } else {
      var before, e := events[..|events| - 1], events[|events| - 1];
      LogSplits(c, events);
      if k == |before| {
        LogMemory(c, before);
        MemoryStep(c, before, Replay(c, before).value, e);
      } else {
        LogDecides(c, before, k);
        PrefixDecides(before, [e], k);
      }
    }
  }

  lemma FirstMemory(c: CaseId, events: seq<CaseEvent>)
    requires |events| == 1 && CreatedOnce(events) && Replay(c, events).Ok?
    ensures Remembers(events, Replay(c, events).value) && !Decides(events[0])
  {
    assert events[..0] == [];
  }

  /** Four eyes over whole runs: nobody decides on their own latest proposal. */
  lemma FourEyesHold(ops: seq<Op>, c: CaseId, k: nat)
    requires c in Run(ops).cases && k < |Run(ops).cases[c].events|
    requires Decides(Run(ops).cases[c].events[k])
    ensures DecidesOther(Run(ops).cases[c].events, k)
  {
    RunInv(ops);
    assert CaseInv(c, Run(ops).cases[c]);
    LogDecides(c, Run(ops).cases[c].events, k);
  }

  /** An approved decision was proposed by one person and approved by another, and the proposer is
      on record exactly while a decision is pending or resolved. */
  lemma ApprovedByAnother(ops: seq<Op>, c: CaseId)
    requires c in Run(ops).cases
    ensures var f := Run(ops).cases[c];
      && (f.projection.approved.Some? ==> exists k: nat :: k < |f.events| && ApprovesOther(f.events, k, f.projection.approved))
      && (f.projection.proposer != "" <==> f.projection.state in {PendingApproval, Resolved})
      && (f.projection.proposed.Some? <==> f.projection.state in {PendingApproval, Resolved})
  {
    RunInv(ops);
    assert CaseInv(c, Run(ops).cases[c]);
    LogMemory(c, Run(ops).cases[c].events);
  }
}

/** What a case's projection says, read off its event log alone. */
module CaseLog {
  import opened Wrappers
  import opened Text
  import opened Ordering
  import opened AlertCase
  import opened CaseInvariant
  import opened CaseRuns

  /** The events that decide a field of the projection. */
  datatype Kind = Moving | Assigning | Proposing | Approving

  /** A proposal stands from the event that makes it until it is rejected or the case is reopened. */
  predicate Is(a: Action, kind: Kind) {
    match kind
    case Moving => !a.LinkRescreen? && !a.Unknown?
    case Assigning => a.Assign?
    case Proposing => a.ProposeDecision? || a.RejectDecision? || a.Reopen?
    case Approving => a.ApproveDecision?
  }

  /** Event k is the last of its kind. */
  ghost predicate Latest(events: seq<CaseEvent>, kind: Kind, k: int) {
    0 <= k < |events| && Is(events[k].body.action, kind) && forall i :: k < i < |events| ==> !Is(events[i].body.action, kind)
  }

  ghost predicate Never(events: seq<CaseEvent>, kind: Kind) {
    forall i :: 0 <= i < |events| ==> !Is(events[i].body.action, kind)
  }

  lemma LatestNext(events: seq<CaseEvent>, e: CaseEvent, kind: Kind, k: int)
    ensures Latest(events + [e], kind, k) <==> if Is(e.body.action, kind) then k == |events| else Latest(events, kind, k)
  {
    var all := events + [e];
    assert all[|events|] == e;
    assert forall i :: 0 <= i < |events| ==> all[i] == events[i];
  }

  lemma NeverNext(events: seq<CaseEvent>, e: CaseEvent, kind: Kind)
    ensures Never(events + [e], kind) <==> !Is(e.body.action, kind) && Never(events, kind)
  {
    var all := events + [e];
    assert all[|events|] == e;
    assert forall i :: 0 <= i < |events| ==> all[i] == events[i];
  }

  // ---------------------------------------------------------------- what payloads say

  /** The payload has this text, without surrounding white space, under the key. */
  predicate Says(p: Payload, key: string, text: string) {
    p.Fields? && key in p.fields && p.fields[key].JString? && Trim(p.fields[key].text) == text != ""
  }

  predicate SaysNothing(p: Payload, key: string) {
    p.Fields? && key in p.fields && p.fields[key].JString? ==> IsBlank(p.fields[key].text)
  }

  /** The payload carries this decision. */
  predicate Decided(p: Payload, decision: Json) {
    p.Fields? && "decision" in p.fields && p.fields["decision"] == decision != JNull
  }

  // ---------------------------------------------------------------- state, assignee, proposal, approval

  /** The state an action leads to. */
  function Target(a: Action): CaseState
    requires Is(a, Moving)
  {
    match a
    case CaseCreated => Open
    case Assign => Assigned
    case StartInvestigation => Investigating
    case RequestEvidence => PendingEvidence
    case SubmitEvidence => Investigating
    case ProposeDecision => PendingApproval
    case ApproveDecision => Resolved
    case RejectDecision => Investigating
    case Reopen => Reopened
  }

  ghost predicate StateTold(events: seq<CaseEvent>, p: Projection) {
    forall k :: Latest(events, Moving, k) ==> p.state == Target(events[k].body.action)
  }

  ghost predicate AssigneeTold(events: seq<CaseEvent>, p: Projection) {
    && (Never(events, Assigning) ==> p.assignedTo == "")
    && (forall k :: Latest(events, Assigning, k) ==> Says(events[k].body.payload, "assignee", p.assignedTo))
  }

  ghost predicate ProposalTold(events: seq<CaseEvent>, p: Projection) {
    && (Never(events, Proposing) ==> p.proposer == "" && p.proposed == None)
    && (forall k :: Latest(events, Proposing, k) ==> ProposalIs(events[k].body, p))
  }

  predicate ProposalIs(e: EventBody, p: Projection) {
    if e.action.ProposeDecision? then p.proposer == e.actor && p.proposed.Some? && Decided(e.payload, p.proposed.value)
    else p.proposer == "" && p.proposed == None
  }

  /** Event k approves the decision that the last proposal before it carried. */
  ghost predicate Approves(events: seq<CaseEvent>, k: nat, decision: Option<Json>)
    requires k < |events|
  {
    decision.Some? && exists j :: Latest(events[..k], Proposing, j) && events[j].body.action.ProposeDecision? && Decided(events[j].body.payload, decision.value)
  }

  ghost predicate ApprovalTold(events: seq<CaseEvent>, p: Projection) {
    && (Never(events, Approving) ==> p.approved == None)
    && (forall k :: Latest(events, Approving, k) ==> Approves(events, k, p.approved))
  }

  ghost predicate TimesTold(events: seq<CaseEvent>, p: Projection) {
    events != [] && p.createdAt == events[0].body.occurredAt && p.updatedAt == events[|events| - 1].body.occurredAt
  }

  // ---------------------------------------------------------------- one more event

  /** What the event makes of each field that follows the last event of some kind. */
  predicate TellsState(p: Projection, e: EventBody, q: Projection) {
    if Is(e.action, Moving) then q.state == Target(e.action) else q.state == p.state
  }

  predicate TellsAssignee(p: Projection, e: EventBody, q: Projection) {
    if e.action.Assign? then Says(e.payload, "assignee", q.assignedTo) else q.assignedTo == p.assignedTo
  }

  predicate TellsProposal(p: Projection, e: EventBody, q: Projection) {
    if Is(e.action, Proposing) then ProposalIs(e, q) else q.proposer == p.proposer && q.proposed == p.proposed
  }

  predicate TellsApproval(p: Projection, e: EventBody, q: Projection) {
    if e.action.ApproveDecision? then q.approved == p.proposed && p.proposer != "" else q.approved == p.approved
  }

  predicate Tells(p: Projection, e: EventBody, q: Projection) {
    TellsState(p, e, q) && TellsAssignee(p, e, q) && TellsProposal(p, e, q) && TellsApproval(p, e, q)
    && q.createdAt == p.createdAt
  }

  lemma TransitionTellsState(p: Projection, r: EventRequest, e: EventBody)
    requires Transition(p, r).Ok? && r.action == e.action
    ensures TellsState(p, e, Transition(p, r).value) && Transition(p, r).value.createdAt == p.createdAt
  {
  }

  lemma TransitionTellsAssignee(p: Projection, r: EventRequest, e: EventBody)
    requires Transition(p, r).Ok? && r.action == e.action && r.payload == e.payload
    ensures TellsAssignee(p, e, Transition(p, r).value)
  {
  }

  lemma TransitionTellsProposal(p: Projection, r: EventRequest, e: EventBody)
    requires Transition(p, r).Ok? && r.action == e.action && r.payload == e.payload && r.actor == e.actor
    ensures TellsProposal(p, e, Transition(p, r).value)
  {
  }

  lemma TransitionTellsApproval(p: Projection, r: EventRequest, e: EventBody)
    requires Transition(p, r).Ok? && r.action == e.action
    ensures TellsApproval(p, e, Transition(p, r).value)
  {
  }

  lemma TransitionTells(p: Projection, r: EventRequest, e: EventBody, q: Projection)
    requires Transition(p, r) == Ok(q) && r.action == e.action && r.payload == e.payload && r.actor == e.actor
    ensures Tells(p, e, q)
  {
    TransitionTellsState(p, r, e);
    TransitionTellsAssignee(p, r, e);
    TransitionTellsProposal(p, r, e);
    TransitionTellsApproval(p, r, e);
  }

  lemma StateNext(events: seq<CaseEvent>, p: Projection, e: CaseEvent, q: Projection)
    requires StateTold(events, p) && Tells(p, e.body, q)
    ensures StateTold(events + [e], q)
  {
    forall k | Latest(events + [e], Moving, k) ensures q.state == Target((events + [e])[k].body.action) {
      LatestNext(events, e, Moving, k);
    }
  }

  lemma AssigneeNext(events: seq<CaseEvent>, p: Projection, e: CaseEvent, q: Projection)
    requires AssigneeTold(events, p) && Tells(p, e.body, q)
    ensures AssigneeTold(events + [e], q)
  {
    NeverNext(events, e, Assigning);
    forall k | Latest(events + [e], Assigning, k) ensures Says((events + [e])[k].body.payload, "assignee", q.assignedTo) {
      LatestNext(events, e, Assigning, k);
    }
  }

  lemma ProposalNext(events: seq<CaseEvent>, p: Projection, e: CaseEvent, q: Projection)
    requires ProposalTold(events, p) && Tells(p, e.body, q)
    ensures ProposalTold(events + [e], q)
  {
    NeverNext(events, e, Proposing);
    forall k | Latest(events + [e], Proposing, k) ensures ProposalIs((events + [e])[k].body, q) {
      LatestNext(events, e, Proposing, k);
      if Is(e.body.action, Proposing) { assert (events + [e])[k] == e; }
    }
  }

  /** A standing proposal was made by the last event of its kind. */
  lemma StandingProposal(events: seq<CaseEvent>, p: Projection) returns (j: int)
    requires ProposalTold(events, p) && p.proposer != ""
    ensures Latest(events, Proposing, j) && events[j].body.action.ProposeDecision?
    ensures p.proposed.Some? && Decided(events[j].body.payload, p.proposed.value) && events[j].body.actor == p.proposer
  {
    j := LastOf(events, Proposing);
    assert ProposalIs(events[j].body, p);
  }

  lemma {:induction false} LastOf(events: seq<CaseEvent>, kind: Kind) returns (j: int)
    requires !Never(events, kind)
    ensures Latest(events, kind, j)
  {
    var n := |events| - 1;
    var before, e := events[..n], events[n];
    assert before + [e] == events;
    NeverNext(before, e, kind);
    if Is(e.body.action, kind) {
      j := n;
    } else {
      j := LastOf(before, kind);
    }
    LatestNext(before, e, kind, j);
  }

  lemma ApprovalNext(events: seq<CaseEvent>, p: Projection, e: CaseEvent, q: Projection)
    requires ApprovalTold(events, p) && ProposalTold(events, p) && Tells(p, e.body, q)
    ensures ApprovalTold(events + [e], q)
  {
    var all := events + [e];
    NeverNext(events, e, Approving);
    forall k | Latest(all, Approving, k) ensures Approves(all, k, q.approved) {
      LatestNext(events, e, Approving, k);
      assert all[..k] == events[..k];
      if e.body.action.ApproveDecision? {
        var j := StandingProposal(events, p);
        assert all[..k] == events;
      } else {
        assert Approves(events, k, p.approved);
      }
    }
  }

  // ---------------------------------------------------------------- evidence and rescreenings

  /** The three lists of ids, each with the action that adds to it, the key of a given id and, for
      evidence, the name a missing id is generated under. */
  datatype List = Requests | Submissions | Rescreenings

  function ActionOf(l: List): Action {
    match l
    case Requests => RequestEvidence
    case Submissions => SubmitEvidence
    case Rescreenings => LinkRescreen
  }

  function KeyOf(l: List): string {
    match l
    case Requests => "evidence_request_id"
    case Submissions => "evidence_submission_id"
    case Rescreenings => "screening_event_id"
  }

  function PrefixOf(l: List): string
    requires !l.Rescreenings?
  {
    if l.Requests? then "evidence_request_" else "evidence_submission_"
  }

  function IdsOf(l: List, p: Projection): seq<string> {
    match l
    case Requests => p.evidenceRequests
    case Submissions => p.evidenceSubmissions
    case Rescreenings => p.rescreens
  }

  /** The event adds this id: the one it gives, or else one generated from the case and the event's revision. */
  predicate Adds(l: List, c: CaseId, e: EventBody, id: string) {
    && e.action == ActionOf(l)
    && (Says(e.payload, KeyOf(l), id)
        || (!l.Rescreenings? && SaysNothing(e.payload, KeyOf(l)) && id == GeneratedId(PrefixOf(l), c, e.revision)))
  }

  /** The list holds exactly the ids its events add, in order and each once. */
  ghost predicate IdsTold(l: List, c: CaseId, events: seq<CaseEvent>, p: Projection) {
    && (forall id :: id in IdsOf(l, p) <==> AddedIn(l, c, events, id))
    && Ascending(IdsOf(l, p))
  }

  ghost predicate AddedIn(l: List, c: CaseId, events: seq<CaseEvent>, id: string) {
    exists k :: 0 <= k < |events| && Adds(l, c, events[k].body, id)
  }

  lemma AddedNext(l: List, c: CaseId, events: seq<CaseEvent>, e: CaseEvent, id: string)
    ensures AddedIn(l, c, events + [e], id) <==> Adds(l, c, e.body, id) || AddedIn(l, c, events, id)
  {
    var all := events + [e];
    assert all[|events|] == e;
    assert forall i :: 0 <= i < |events| ==> all[i] == events[i];
    if Adds(l, c, e.body, id) { assert Adds(l, c, all[|events|].body, id); }
    if AddedIn(l, c, events, id) {
      var k :| 0 <= k < |events| && Adds(l, c, events[k].body, id);
      assert Adds(l, c, all[k].body, id);
    }
  }

  lemma SortedDistinctIs(xs: seq<string>)
    ensures forall x :: x in SortedDistinct(xs) <==> x != "" && exists i :: 0 <= i < |xs| && Trim(xs[i]) == x
    ensures Ascending(SortedDistinct(xs))
  {
    SortedAscends(Distinct(xs));
  }

  lemma GeneratedFixed(l: List, c: CaseId, revision: nat)
    requires !l.Rescreenings?
    ensures var id := GeneratedId(PrefixOf(l), c, revision); id != "" && Trim(id) == id
  {
    var id, n := GeneratedId(PrefixOf(l), c, revision), NumberText(revision);
    assert id[|id| - 1] == n[|n| - 1] && n[|n| - 1] in n;
    assert id[0] == PrefixOf(l)[0];
    TrimFixed(id);
  }

  /** A list gets exactly this id more, if any. */
  predicate Gets(l: List, p: Projection, q: Projection, id: string) {
    IdsOf(l, q) == SortedDistinct(IdsOf(l, p) + [id])
  }

  /** The id a transition adds to its list. */
  function IdFor(l: List, c: CaseId, payload: Payload, revision: nat): string {
    var given := GetString(payload, KeyOf(l));
    if given == "" && !l.Rescreenings? then GeneratedId(PrefixOf(l), c, revision) else given
  }

  lemma RequestsGet(p: Projection, r: EventRequest, q: Projection)
    requires Transition(p, r) == Ok(q) && r.action == ActionOf(Requests)
    ensures Gets(Requests, p, q, IdFor(Requests, r.caseId, r.payload, r.expectedRevision + 1))
  {
    var id := IdFor(Requests, r.caseId, r.payload, r.expectedRevision + 1);
    assert KeyOf(Requests) == "evidence_request_id" && PrefixOf(Requests) == "evidence_request_";
    assert q == p.(evidenceRequests := SortedDistinct(p.evidenceRequests + [id]), state := q.state);
  }

  lemma SubmissionsGet(p: Projection, r: EventRequest, q: Projection)
    requires Transition(p, r) == Ok(q) && r.action == ActionOf(Submissions)
    ensures Gets(Submissions, p, q, IdFor(Submissions, r.caseId, r.payload, r.expectedRevision + 1))
  {
    var id := IdFor(Submissions, r.caseId, r.payload, r.expectedRevision + 1);
    assert KeyOf(Submissions) == "evidence_submission_id" && PrefixOf(Submissions) == "evidence_submission_";
    assert q == p.(evidenceSubmissions := SortedDistinct(p.evidenceSubmissions + [id]), state := q.state);
  }

  lemma RescreeningsGet(p: Projection, r: EventRequest, q: Projection)
    requires Transition(p, r) == Ok(q) && r.action == ActionOf(Rescreenings)
    ensures Gets(Rescreenings, p, q, IdFor(Rescreenings, r.caseId, r.payload, r.expectedRevision + 1))
    ensures GetString(r.payload, KeyOf(Rescreenings)) != ""
  {
  }

  lemma TransitionGets(l: List, p: Projection, r: EventRequest, q: Projection)
    requires Transition(p, r) == Ok(q) && r.action == ActionOf(l)
    ensures Gets(l, p, q, IdFor(l, r.caseId, r.payload, r.expectedRevision + 1))
    ensures l.Rescreenings? ==> GetString(r.payload, KeyOf(l)) != ""
  {
    match l
    case Requests => RequestsGet(p, r, q);
    case Submissions => SubmissionsGet(p, r, q);
    case Rescreenings => RescreeningsGet(p, r, q);
  }

  lemma TransitionLeaves(l: List, p: Projection, r: EventRequest, q: Projection)
    requires Transition(p, r) == Ok(q) && r.action != ActionOf(l)
    ensures IdsOf(l, q) == IdsOf(l, p)
  {
  }

  lemma AddsExactly(l: List, c: CaseId, e: EventBody, id: string)
    requires e.action == ActionOf(l) && id == IdFor(l, c, e.payload, e.revision)
    requires l.Rescreenings? ==> GetString(e.payload, KeyOf(l)) != ""
    ensures Trim(id) == id != "" && forall x :: Adds(l, c, e, x) <==> x == id
  {
    if e.payload.Fields? && KeyOf(l) in e.payload.fields && e.payload.fields[KeyOf(l)].JString? {
      Visible(e.payload.fields[KeyOf(l)].text);
    }
    if !l.Rescreenings? { GeneratedFixed(l, c, e.revision); }
  }

  lemma IdsNext(l: List, c: CaseId, events: seq<CaseEvent>, p: Projection, e: CaseEvent, q: Projection, id: string)
    requires IdsTold(l, c, events, p) && (forall x :: x in IdsOf(l, p) ==> Trim(x) == x != "")
    requires e.body.action == ActionOf(l) ==>
      Gets(l, p, q, id) && Trim(id) == id != "" && forall x :: Adds(l, c, e.body, x) <==> x == id
    requires e.body.action != ActionOf(l) ==> IdsOf(l, q) == IdsOf(l, p)
    ensures IdsTold(l, c, events + [e], q) && (forall x :: x in IdsOf(l, q) ==> Trim(x) == x != "")
  {
    forall x ensures x in IdsOf(l, q) <==> AddedIn(l, c, events + [e], x) {
      AddedNext(l, c, events, e, x);
      if e.body.action == ActionOf(l) { OneMoreId(IdsOf(l, p), id, x); }
    }
    if e.body.action == ActionOf(l) {
      SortedDistinctIs(IdsOf(l, p) + [id]);
      forall x | x in IdsOf(l, q) ensures Trim(x) == x != "" { OneMoreId(IdsOf(l, p), id, x); }
    }
  }

  lemma OneMoreId(ids: seq<string>, id: string, x: string)
    requires (forall y :: y in ids ==> Trim(y) == y != "") && Trim(id) == id != ""
    ensures x in SortedDistinct(ids + [id]) <==> x == id || x in ids
  {
    var all := ids + [id];
    SortedDistinctIs(all);
    if x == id { assert all[|ids|] == id; }
    if x in ids { var i :| 0 <= i < |ids| && ids[i] == x; assert all[i] == x; }
    if i :| 0 <= i < |all| && Trim(all[i]) == x { assert all[i] == id || all[i] in ids; }
  }

  // ---------------------------------------------------------------- whole logs

  /** The projection says what the log says, and nothing else. */
  ghost predicate Told(c: CaseId, events: seq<CaseEvent>, p: Projection) {
    && StateTold(events, p) && AssigneeTold(events, p) && ProposalTold(events, p) && ApprovalTold(events, p) && TimesTold(events, p)
    && ListsTold(c, events, p)
  }

  ghost predicate ListsTold(c: CaseId, events: seq<CaseEvent>, p: Projection) {
    IdsTold(Requests, c, events, p) && IdsTold(Submissions, c, events, p) && IdsTold(Rescreenings, c, events, p)
  }

  ghost predicate ListTrimmed(l: List, p: Projection) { forall x :: x in IdsOf(l, p) ==> Trim(x) == x != "" }

  lemma IdsStep(l: List, c: CaseId, events: seq<CaseEvent>, p: Projection, r: EventRequest, e: CaseEvent, q: Projection)
    requires IdsTold(l, c, events, p) && ListTrimmed(l, p)
    requires Transition(p, r) == Ok(q) && r.caseId == c
    requires r.action == e.body.action && r.payload == e.body.payload && r.expectedRevision + 1 == e.body.revision
    ensures IdsTold(l, c, events + [e], q) && ListTrimmed(l, q)
  {
    var id := IdFor(l, c, r.payload, r.expectedRevision + 1);
    if r.action == ActionOf(l) {
      TransitionGets(l, p, r, q);
      AddsExactly(l, c, e.body, id);
    } else {
      TransitionLeaves(l, p, r, q);
    }
    IdsNext(l, c, events, p, e, q, id);
  }

  lemma ToldStep(c: CaseId, events: seq<CaseEvent>, p: Projection, e: CaseEvent, q: Projection)
    requires StateTold(events, p) && AssigneeTold(events, p) && ProposalTold(events, p) && ApprovalTold(events, p)
    requires Tells(p, e.body, q)
    ensures StateTold(events + [e], q) && AssigneeTold(events + [e], q) && ProposalTold(events + [e], q) && ApprovalTold(events + [e], q)
  {
    StateNext(events, p, e, q);
    AssigneeNext(events, p, e, q);
    ProposalNext(events, p, e, q);
    ApprovalNext(events, p, e, q);
  }

  lemma {:induction false} FoldTold(c: CaseId, events: seq<CaseEvent>)
    requires CreatedOnce(events) && Chained(events) && Replay(c, events).Ok?
    ensures var p := Replay(c, events).value;
      Told(c, events, p) && ListTrimmed(Requests, p) && ListTrimmed(Submissions, p) && ListTrimmed(Rescreenings, p) && p.revision == |events|
  {
    var n := |events| - 1;
    var before, e := events[..n], events[n];
    assert before + [e] == events && Linked(events, n);
    if n == 0 {
      FirstTold(c, events);
    } else {
      LogSplits(c, events);
      forall i | 0 <= i < n ensures Linked(before, i) { assert Linked(events, i); }
      FoldTold(c, before);
      EventTold(c, before, Replay(c, before).value, e);
    }
  }

  lemma FirstTold(c: CaseId, events: seq<CaseEvent>)
    requires CreatedOnce(events) && Chained(events) && |events| == 1 && Replay(c, events).Ok?
    ensures var p := Replay(c, events).value;
      Told(c, events, p) && ListTrimmed(Requests, p) && ListTrimmed(Submissions, p) && ListTrimmed(Rescreenings, p) && p.revision == 1
  {
    assert events[..0] == [];
    assert Linked(events, 0);
    NewTold(c, events, Replay(c, events).value);
    NewLists(Requests, c, events, Replay(c, events).value);
    NewLists(Submissions, c, events, Replay(c, events).value);
    NewLists(Rescreenings, c, events, Replay(c, events).value);
  }

  lemma NewTold(c: CaseId, events: seq<CaseEvent>, p: Projection)
    requires |events| == 1 && events[0].body.action.CaseCreated?
    requires p.state == Open && p.assignedTo == p.proposer == "" && p.proposed == p.approved == None
    requires p.createdAt == p.updatedAt == events[0].body.occurredAt
    ensures StateTold(events, p) && AssigneeTold(events, p) && ProposalTold(events, p) && ApprovalTold(events, p) && TimesTold(events, p)
  {
  }

  lemma NewLists(l: List, c: CaseId, events: seq<CaseEvent>, p: Projection)
    requires |events| == 1 && events[0].body.action.CaseCreated? && IdsOf(l, p) == []
    ensures IdsTold(l, c, events, p) && ListTrimmed(l, p)
  {
  }

  lemma EventTold(c: CaseId, before: seq<CaseEvent>, p: Projection, e: CaseEvent)
    requires Told(c, before, p) && ListTrimmed(Requests, p) && ListTrimmed(Submissions, p) && ListTrimmed(Rescreenings, p)
    requires p.revision == |before| && e.body.revision == |before| + 1 && !e.body.action.CaseCreated? && ReplayStep(c, p, e).Ok?
    ensures var q := ReplayStep(c, p, e).value;
      && Told(c, before + [e], q) && ListTrimmed(Requests, q) && ListTrimmed(Submissions, q) && ListTrimmed(Rescreenings, q)
      && q.revision == |before| + 1
  {
    var r := ReplayRequest(c, p.revision, e);
    var q := Transition(p, r).value;
    TransitionTells(p, r, e.body, q);
    ToldStep(c, before, p, e, q);
    IdsStep(Requests, c, before, p, r, e, q);
    IdsStep(Submissions, c, before, p, r, e, q);
    IdsStep(Rescreenings, c, before, p, r, e, q);
    StampTold(c, before + [e], q, e);
  }

  /** The stamp touches none of these but the time. */
  lemma StampTold(c: CaseId, events: seq<CaseEvent>, q: Projection, e: CaseEvent)
    requires StateTold(events, q) && AssigneeTold(events, q) && ProposalTold(events, q) && ApprovalTold(events, q) && ListsTold(c, events, q)
    requires events != [] && events[|events| - 1] == e && q.createdAt == events[0].body.occurredAt
    ensures Told(c, events, Stamp(q, e))
  {
  }

  /** After any run: the state is that of the latest action that changes it; the assignee, proposer,
      proposed and approved decision are those of the latest events that set or clear them; the
      evidence and rescreening ids are exactly those its events gave or had generated, in order; and the
      times are those of the first and the last event. */
  lemma ProjectionTold(ops: seq<Op>, c: CaseId)
    requires c in Run(ops).cases
    ensures var f := Run(ops).cases[c];
      && Told(c, f.events, f.projection)
      && CaseId(f.projection.tenant, f.projection.alertIds, f.projection.groupingKey) == f.projection.caseId == c
  {
    RunInv(ops);
    assert CaseInv(c, Run(ops).cases[c]);
    FoldTold(c, Run(ops).cases[c].events);
  }
}

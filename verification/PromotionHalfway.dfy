/** The active activation and the phase: when a crash leaves them apart, and that nothing brings them together again. */
module PromotionHalfway {
  import opened Wrappers
  import opened ActivationPromotion
  import opened PromotionRecovery
  import opened PromotionOperations
  import opened PromotionCalls
  import opened PromotionOrphans
  import opened PromotionHistory

  /** The switch of a promotion was made, its commit was not. */
  predicate HalfPromoted(d: Disk) {
    d.pending.None? && Loaded(d) && d.state.value.phase == Canary && d.active == IntentOf(d).candidate != IntentOf(d).current
  }

  /** The switch of a rollback was made, its commit was not. */
  predicate HalfRolledBack(d: Disk) {
    d.pending.None? && Loaded(d) && d.state.value.phase == Promoted && d.active == IntentOf(d).current != IntentOf(d).candidate
  }

  // ---------------------------------------------------------------- nothing leads out

  predicate AckWrite(w: Write) { w.PutAck? || w.PutEvent? || w.PutHead? }

  lemma {:induction false} AckWritesKeep(d: Disk, ws: seq<Write>)
    requires forall w :: w in ws ==> AckWrite(w)
    ensures var d' := PerformAll(d, ws);
      d'.state == d.state && d'.active == d.active && d'.pending == d.pending && d'.intents == d.intents && d'.snapshots == d.snapshots
    decreases |ws|
  {
    if ws != [] {
      assert AckWrite(ws[0]);
      AckWritesKeep(Perform(d, ws[0]), ws[1..]);
    }
  }

  /** An acknowledgement, interrupted anywhere, moves neither the state nor the activation. */
  lemma AcknowledgeKeeps(d: Disk, c: Call)
    requires d.pending.None? && c.op.Acknowledge?
    ensures var d' := After(d, c);
      d'.state == d.state && d'.active == d.active && d'.pending == d.pending && d'.intents == d.intents && d'.snapshots == d.snapshots
  {
    var ws := OpPlan(d, c.op, c.clock).writes;
    assert forall w :: w in ws ==> AckWrite(w);
    AckWritesKeep(d, ws);
    if c.crash < |ws| {
      AckWritesKeep(d, Upto(ws, c.crash));
      CleanRecovery(PerformAll(d, Upto(ws, c.crash)), c.recoveries);
    }
  }

  /** Out of step, one way or the other. */
  predicate Halfway(d: Disk) { HalfPromoted(d) || HalfRolledBack(d) }

  /** From a half-done promotion or rollback every operation but an acknowledgement is refused before its first write; in
      particular the same promotion or rollback again. */
  lemma HalfwayRefuses(d: Disk, op: Op, clock: Clock)
    requires Halfway(d) && !op.Acknowledge?
    ensures OpPlan(d, op, clock).writes == [] && OpPlan(d, op, clock).failure.Some?
  {
  }

  /** A half-done promotion can be neither finished nor undone: no call, interrupted anywhere and whatever the state of
      the log, changes the state or the active activation any more. */
  lemma HalfPromotedForever(d: Disk, c: Call)
    requires HalfPromoted(d)
    ensures HalfPromoted(After(d, c)) && After(d, c).state == d.state && After(d, c).active == d.active
  {
    if c.op.Acknowledge? { AcknowledgeKeeps(d, c); } else { HalfwayRefuses(d, c.op, c.clock); }
  }

  /** Nor a half-done rollback. */
  lemma HalfRolledBackForever(d: Disk, c: Call)
    requires HalfRolledBack(d)
    ensures HalfRolledBack(After(d, c)) && After(d, c).state == d.state && After(d, c).active == d.active
  {
    if c.op.Acknowledge? { AcknowledgeKeeps(d, c); } else { HalfwayRefuses(d, c.op, c.clock); }
  }

  // ---------------------------------------------------------------- what leads in

  /** The checks of Promote: state, revision, phase, ready instances, and an activation that can be switched. */
  predicate PromotePasses(d: Disk, expected: int) {
    Loaded(d) &&
    var s, intent := d.state.value, IntentOf(d);
    && s.revision == expected && s.phase == Canary
    && intent.requiredReadyAcks <= |ReadyInstances(d, intent.intentId, intent.candidate)|
    && d.active == intent.current && SwitchError(d, intent.candidate, intent.current).None?
  }

  /** The checks of Rollback. */
  predicate RollbackPasses(d: Disk, expected: int) {
    Loaded(d) &&
    var s, intent := d.state.value, IntentOf(d);
    && s.revision == expected && s.phase == Promoted
    && d.active == intent.candidate && SwitchError(d, intent.current, intent.candidate).None?
  }

  /** The snapshot file of the state to be committed holds another. */
  predicate OtherTaken(d: Disk, next: PromotionState) { !WritableOnce(d.snapshots, (next.intentId, next.revision), next) }

  /** A promotion or rollback that passes its checks, and is interrupted right after the switch or the snapshot that
      follows, or finds another snapshot in its way. */
  predicate Torn(d: Disk, c: Call) {
    match c.op
    case Promote(expected, _, _) =>
      PromotePasses(d, expected) && 1 <= c.crash && (c.crash <= 2 || OtherTaken(d, Promoting(d.state.value, c.clock.document)))
    case Rollback(expected, _, _) =>
      RollbackPasses(d, expected) && 1 <= c.crash && (c.crash <= 2 || OtherTaken(d, RollingBack(d.state.value, c.clock.document)))
    case _ => false
  }

  /** The same in terms of the plan: the switch is made, and the pending record is not written. */
  predicate SwitchedOnly(d: Disk, c: Call) {
    (c.op.Promote? || c.op.Rollback?) &&
    var p := OpPlan(d, c.op, c.clock);
    p.writes != [] && 1 <= c.crash && (p.failure.None? ==> c.crash <= 2)
  }

  lemma PromotePlanIs(d: Disk, expected: int, actor: string, reason: string, clock: Clock)
    requires Settled(d)
    ensures var p := PromotePlan(d, expected, actor, reason, clock);
      && (p.writes != [] <==> PromotePasses(d, expected))
      && (PromotePasses(d, expected) ==> (p.failure.Some? <==> OtherTaken(d, Promoting(d.state.value, clock.document))))
  {
    if PromotePasses(d, expected) {
      var s, intent := d.state.value, IntentOf(d);
      CommitShape(d, Promoting(s, clock.document), PromotionCompleted, actor, reason,
                  ReadyAcks(|ReadyInstances(d, intent.intentId, intent.candidate)|), clock.event);
    }
  }

  lemma RollbackPlanIs(d: Disk, expected: int, actor: string, reason: string, clock: Clock)
    requires Settled(d)
    ensures var p := RollbackPlan(d, expected, actor, reason, clock);
      && (p.writes != [] <==> RollbackPasses(d, expected))
      && (RollbackPasses(d, expected) ==> (p.failure.Some? <==> OtherTaken(d, RollingBack(d.state.value, clock.document))))
  {
    if RollbackPasses(d, expected) {
      CommitShape(d, RollingBack(d.state.value, clock.document), PromotionRolledBack, actor, reason, NoPayload, clock.event);
    }
  }

  lemma TornIsSwitchedOnly(d: Disk, c: Call)
    requires Settled(d)
    ensures Torn(d, c) <==> SwitchedOnly(d, c)
  {
    match c.op
    case Promote(expected, actor, reason) => PromotePlanIs(d, expected, actor, reason, c.clock);
    case Rollback(expected, actor, reason) => RollbackPlanIs(d, expected, actor, reason, c.clock);
    case _ =>
  }

  /** Where a call that commits leaves the disk. */
  lemma CallDisk(d: Disk, c: Call, pre: seq<Write>, next: PromotionState, e: AuditEvent)
    requires Settled(d) && PlansCommit(d, OpPlan(d, c.op, c.clock), pre, next, e)
    ensures var p := OpPlan(d, c.op, c.clock);
      if p.failure.Some? then After(d, c) == (if c.crash < |pre| then d else AfterPreamble(d, pre))
      else After(d, c) == (if c.crash < |pre| then d
                           else CommitDisk(AfterPreamble(d, pre), next, e, if c.crash < |pre| + 2 then c.crash - |pre| else 6))
  {
    var p := OpPlan(d, c.op, c.clock);
    PreambleDisk(d, pre);
    if p.failure.Some? {
      if c.crash < |p.writes| {
        assert Upto(p.writes, c.crash) == [];
        CleanRecovery(d, c.recoveries);
      }
    } else {
      CommittedDisk(d, c, p, pre, next, e);
    }
  }

  lemma CommittedDisk(d: Disk, c: Call, p: Plan, pre: seq<Write>, next: PromotionState, e: AuditEvent)
    requires Settled(d) && p == OpPlan(d, c.op, c.clock) && p.failure.None? && PlansCommit(d, p, pre, next, e)
    ensures After(d, c) == (if c.crash < |pre| then d
                            else CommitDisk(AfterPreamble(d, pre), next, e, if c.crash < |pre| + 2 then c.crash - |pre| else 6))
  {
    OperationByWrites(d, p, pre, next, e, |p.writes|);
    assert Upto(p.writes, |p.writes|) == p.writes;
    if c.crash < |p.writes| {
      CommitRecovery(d, p, pre, next, e, c.crash, c.recoveries);
      OperationByWrites(d, p, pre, next, e, c.crash);
    }
  }

  /** The same for what the state and the activation depend on. */
  lemma CallOutcome(d: Disk, c: Call, pre: seq<Write>, next: PromotionState, e: AuditEvent)
    requires Settled(d) && PlansCommit(d, OpPlan(d, c.op, c.clock), pre, next, e)
    ensures var d' := After(d, c); var d0 := if c.crash < |pre| then d else AfterPreamble(d, pre);
      && d'.pending == None && d'.intents == d0.intents && d'.active == d0.active
      && d'.state == (if OpPlan(d, c.op, c.clock).failure.None? && c.crash >= |pre| + 2 then Some(next) else d.state)
  {
    CallDisk(d, c, pre, next, e);
    PreambleDisk(d, pre);
  }

  /** A commit is of the next revision, whose snapshot is its own or absent. */
  lemma CommitsNext(d: Disk, p: Plan, pre: seq<Write>, next: PromotionState, e: AuditEvent)
    requires PlansCommit(d, p, pre, next, e) && p.failure.None? && d.state.Some?
    ensures next.intentId == d.state.value.intentId && next.revision == d.state.value.revision + 1
    ensures WritableOnce(d.snapshots, (next.intentId, next.revision), next)
  {
  }

  lemma CallSnapshots(d: Disk, c: Call, pre: seq<Write>, next: PromotionState, e: AuditEvent)
    requires Settled(d) && PlansCommit(d, OpPlan(d, c.op, c.clock), pre, next, e)
    ensures After(d, c).snapshots == d.snapshots ||
            (OpPlan(d, c.op, c.clock).failure.None? && After(d, c).snapshots == d.snapshots[(next.intentId, next.revision) := next])
  {
    CallDisk(d, c, pre, next, e);
    PreambleDisk(d, pre);
  }

  /** What a promotion that passes its checks sets out to do. */
  lemma PromoteSwitches(d: Disk, op: Op, clock: Clock)
    requires op.Promote? && OpPlan(d, op, clock).writes != []
    ensures Loaded(d) && d.state.value.phase == Canary && d.active == IntentOf(d).current
    ensures var p := OpPlan(d, op, clock);
      && p.writes[0] == SetActive(IntentOf(d).candidate)
      && (p.failure.None? ==> |p.writes| > 1 && p.writes[1].PutSnapshot? && p.writes[1].snapshot.phase == Promoted
                              && p.writes[1].snapshot.candidate == d.state.value.candidate)
  {
  }

  lemma RollbackSwitches(d: Disk, op: Op, clock: Clock)
    requires op.Rollback? && OpPlan(d, op, clock).writes != []
    ensures Loaded(d) && d.state.value.phase == Promoted && d.active == IntentOf(d).candidate
    ensures var p := OpPlan(d, op, clock);
      && p.writes[0] == SetActive(IntentOf(d).current)
      && (p.failure.None? ==> |p.writes| > 1 && p.writes[1].PutSnapshot? && p.writes[1].snapshot.phase == RolledBack
                              && p.writes[1].snapshot.current == d.state.value.current)
  {
  }

  /** A call that makes the switch: what is active, and whether the commit follows. */
  lemma SwitchOutcome(d: Disk, c: Call, to: string) returns (next: PromotionState)
    requires Settled(d) && !c.op.Acknowledge? && OpPlan(d, c.op, c.clock).writes != [] && OpPlan(d, c.op, c.clock).writes[0] == SetActive(to)
    ensures var p, d' := OpPlan(d, c.op, c.clock), After(d, c);
      && d'.pending == None && d'.intents == d.intents
      && d'.active == (if c.crash == 0 then d.active else to)
      && d'.state == (if p.failure.None? && c.crash > 2 then Some(next) else d.state)
      && (p.failure.None? ==> |p.writes| > 1 && p.writes[1] == PutSnapshot(next))
  {
    var pre, n, e := OpCommits(d, c.op, c.clock);
    PreambleOf(OpPlan(d, c.op, c.clock), pre, n, e);
    CallOutcome(d, c, pre, n, e);
    next := n;
  }

  lemma PromotionSettled(d: Disk, c: Call)
    requires Settled(d) && !HalfPromoted(d) && c.op.Promote?
    ensures HalfPromoted(After(d, c)) <==> SwitchedOnly(d, c)
  {
    if OpPlan(d, c.op, c.clock).writes != [] {
      PromoteSwitches(d, c.op, c.clock);
      var next := SwitchOutcome(d, c, IntentOf(d).candidate);
    }
  }

  lemma RollbackSettled(d: Disk, c: Call)
    requires Settled(d) && !HalfRolledBack(d) && c.op.Rollback?
    ensures HalfRolledBack(After(d, c)) <==> SwitchedOnly(d, c)
  {
    if OpPlan(d, c.op, c.clock).writes != [] {
      RollbackSwitches(d, c.op, c.clock);
      var next := SwitchOutcome(d, c, IntentOf(d).current);
    }
  }

  /** Nothing here looks at event files. */
  lemma WithSame(b: Disk, x: map<(nat, Hash), AuditEvent>, c: Call)
    ensures HalfPromoted(With(b, x)) == HalfPromoted(b) && HalfRolledBack(With(b, x)) == HalfRolledBack(b)
    ensures InStep(With(b, x)) == InStep(b) && Torn(With(b, x), c) == Torn(b, c)
  {
    if Loaded(b) {
      var intent := IntentOf(b);
      assert ReadyInstances(With(b, x), intent.intentId, intent.candidate) == ReadyInstances(b, intent.intentId, intent.candidate);
    }
  }

  /** A promotion ends half done if and only if it is torn. */
  lemma HalfPromotion(d: Disk, c: Call)
    requires Sound(d) && !HalfPromoted(d) && c.op.Promote?
    ensures HalfPromoted(After(d, c)) <==> Torn(d, c)
  {
    var b := Base(d);
    SoundIsWith(d);
    SoundAfter(d, c);
    WithSame(b, d.events, c);
    WithSame(After(b, c), d.events, c);
    TornIsSwitchedOnly(b, c);
    PromotionSettled(b, c);
  }

  /** A rollback ends half done if and only if it is torn. */
  lemma HalfRollback(d: Disk, c: Call)
    requires Sound(d) && !HalfRolledBack(d) && c.op.Rollback?
    ensures HalfRolledBack(After(d, c)) <==> Torn(d, c)
  {
    var b := Base(d);
    SoundIsWith(d);
    SoundAfter(d, c);
    WithSame(b, d.events, c);
    WithSame(After(b, c), d.events, c);
    TornIsSwitchedOnly(b, c);
    RollbackSettled(b, c);
  }

  /** The preamble of a plan that starts with anything but a snapshot is its first write. */
  lemma PreambleOf(p: Plan, pre: seq<Write>, next: PromotionState, e: AuditEvent)
    requires |pre| <= 1 && p.writes != [] && !p.writes[0].PutSnapshot?
    requires if p.failure.Some? then p.writes == pre else p.writes == pre + CommitWrites(next, e)
    ensures pre == [p.writes[0]]
  {
  }

  /** The snapshot a plan writes is the state it commits. */
  lemma SnapshotNext(p: Plan, pre: seq<Write>, next: PromotionState, e: AuditEvent)
    requires p.writes == pre + CommitWrites(next, e)
    ensures |pre| < |p.writes| && p.writes[|pre|] == PutSnapshot(next)
  {
  }

  // ---------------------------------------------------------------- whole histories

  /** The candidate is active exactly while the phase says promoted. */
  predicate InStep(d: Disk) {
    d.state.Some? ==> d.active == (if d.state.value.phase == Promoted then d.state.value.candidate else d.state.value.current)
  }

  lemma TornLeaves(d: Disk, c: Call)
    requires Settled(d) && InStep(d) && SwitchedOnly(d, c)
    ensures Halfway(After(d, c))
  {
    if c.op.Promote? { PromotionSettled(d, c); } else { RollbackSettled(d, c); }
  }

  /** What the other operations set out to do: no switch, and no phase next to promoted. */
  predicate SwitchesNothing(d: Disk, p: Plan) {
    && (p.writes != [] ==> !p.writes[0].SetActive?)
    && (p.failure.None? ==> d.state.Some? ==> d.state.value.phase != Promoted)
    && forall i :: 0 <= i < |p.writes| ==> CommitsInStep(d, p.writes[i])
  }

  predicate CommitsInStep(d: Disk, w: Write) {
    w.PutSnapshot? ==> w.snapshot.phase != Promoted && w.snapshot.current == (if d.state.None? then d.active else d.state.value.current)
  }

  lemma PrepareSwitchesNothing(d: Disk, r: PrepareRequest, clock: Clock)
    ensures SwitchesNothing(d, PreparePlan(d, r, clock))
  {
  }

  lemma EvaluateSwitchesNothing(d: Disk, expected: int, summary: Summary, actor: string, reason: string, clock: Clock)
    ensures SwitchesNothing(d, EvaluatePlan(d, expected, summary, actor, reason, clock))
  {
  }

  lemma CanarySwitchesNothing(d: Disk, expected: int, actor: string, reason: string, clock: Clock)
    ensures SwitchesNothing(d, StartCanaryPlan(d, expected, actor, reason, clock))
  {
  }

  lemma OthersSwitchNothing(d: Disk, op: Op, clock: Clock)
    requires op.Prepare? || op.Evaluate? || op.StartCanary?
    ensures SwitchesNothing(d, OpPlan(d, op, clock))
  {
    match op
    case Prepare(r) => PrepareSwitchesNothing(d, r, clock);
    case Evaluate(expected, summary, actor, reason) => EvaluateSwitchesNothing(d, expected, summary, actor, reason, clock);
    case StartCanary(expected, actor, reason) => CanarySwitchesNothing(d, expected, actor, reason, clock);
  }

  /** Such a plan's commit is in step. */
  lemma CommitInStep(d: Disk, p: Plan, pre: seq<Write>, next: PromotionState, e: AuditEvent)
    requires |pre| <= 1 && (if p.failure.Some? then p.writes == pre else p.writes == pre + CommitWrites(next, e)) && SwitchesNothing(d, p)
    ensures AfterPreamble(d, pre).active == d.active
    ensures p.failure.None? ==> CommitsInStep(d, PutSnapshot(next))
  {
    if p.failure.None? {
      SnapshotNext(p, pre, next, e);
      assert CommitsInStep(d, p.writes[|pre|]);
    }
    if pre != [] { FirstWrite(d, p, pre[0]); }
  }

  lemma FirstWrite(d: Disk, p: Plan, w: Write)
    requires p.writes != [] && p.writes[0] == w && SwitchesNothing(d, p)
    ensures Perform(d, w).active == d.active
  {
  }

  lemma OthersKeep(d: Disk, c: Call)
    requires Settled(d) && InStep(d) && !c.op.Acknowledge? && !c.op.Promote? && !c.op.Rollback?
    ensures InStep(After(d, c))
  {
    var pre, next, e := OpCommits(d, c.op, c.clock);
    OthersSwitchNothing(d, c.op, c.clock);
    CommitInStep(d, OpPlan(d, c.op, c.clock), pre, next, e);
    CallOutcome(d, c, pre, next, e);
  }

  /** A call that switches nothing, or all the way, keeps activation and phase in step. */
  lemma WholeKeeps(d: Disk, c: Call)
    requires Settled(d) && InStep(d) && !SwitchedOnly(d, c)
    ensures InStep(After(d, c))
  {
    if c.op.Acknowledge? {
      AcknowledgeKeeps(d, c);
    } else if !c.op.Promote? && !c.op.Rollback? {
      OthersKeep(d, c);
    } else if OpPlan(d, c.op, c.clock).writes != [] {
      SwitchKeeps(d, c);
    }
  }

  lemma SwitchKeeps(d: Disk, c: Call)
    requires Settled(d) && InStep(d) && !SwitchedOnly(d, c) && (c.op.Promote? || c.op.Rollback?) && OpPlan(d, c.op, c.clock).writes != []
    ensures InStep(After(d, c))
  {
    if c.op.Promote? {
      PromoteSwitches(d, c.op, c.clock);
      var next := SwitchOutcome(d, c, IntentOf(d).candidate);
    } else {
      RollbackSwitches(d, c.op, c.clock);
      var next := SwitchOutcome(d, c, IntentOf(d).current);
    }
  }

  lemma HalfwayOutOfStep(d: Disk)
    requires Settled(d) && Halfway(d)
    ensures !InStep(d)
  {
  }

  lemma StepSettled(d: Disk, c: Call)
    requires Settled(d) && (InStep(d) || Halfway(d))
    ensures if Halfway(d) || SwitchedOnly(d, c) then Halfway(After(d, c)) else InStep(After(d, c))
  {
    if HalfPromoted(d) {
      HalfPromotedForever(d, c);
    } else if HalfRolledBack(d) {
      HalfRolledBackForever(d, c);
    } else if SwitchedOnly(d, c) {
      TornLeaves(d, c);
    } else {
      WholeKeeps(d, c);
    }
  }

  lemma HalfwayStep(d: Disk, c: Call)
    requires Sound(d) && (InStep(d) || Halfway(d))
    ensures if Halfway(d) || Torn(d, c) then Halfway(After(d, c)) else InStep(After(d, c))
  {
    var b := Base(d);
    SoundIsWith(d);
    SoundAfter(d, c);
    WithSame(b, d.events, c);
    WithSame(After(b, c), d.events, c);
    TornIsSwitchedOnly(b, c);
    StepSettled(b, c);
  }

  predicate TornBefore(disks: seq<Disk>, calls: seq<Call>, i: nat)
    requires |disks| == |calls| + 1 && i < |disks|
  {
    exists j :: 0 <= j < i && TornAt(disks, calls, j)
  }

  predicate TornAt(disks: seq<Disk>, calls: seq<Call>, j: nat)
    requires |disks| == |calls| + 1 && j < |calls|
  {
    Torn(disks[j], calls[j])
  }

  lemma TornNext(disks: seq<Disk>, calls: seq<Call>, i: nat)
    requires |disks| == |calls| + 1 && 0 < i < |disks|
    ensures TornBefore(disks, calls, i) <==> TornBefore(disks, calls, i - 1) || TornAt(disks, calls, i - 1)
  {
  }

  /** Half done if torn, and in step if not. */
  predicate Tells(d: Disk, torn: bool) { if torn then Halfway(d) && !InStep(d) else InStep(d) && !Halfway(d) }

  lemma StartTells(d: Disk)
    requires Empty(d)
    ensures Tells(d, false)
  {
  }

  lemma TellsNext(d: Disk, c: Call, torn: bool, d': Disk)
    requires Sound(d) && Tells(d, torn) && d' == After(d, c)
    ensures Tells(d', torn || Torn(d, c))
  {
    HalfwayStep(d, c);
    CallKeepsSound(d, c);
    NeverBoth(After(d, c));
  }

  lemma NeverBoth(d: Disk)
    requires Sound(d)
    ensures !(Halfway(d) && InStep(d))
  {
    SoundIsWith(d);
    if Halfway(Base(d)) { HalfwayOutOfStep(Base(d)); }
  }

  lemma TellsStep(disks: seq<Disk>, calls: seq<Call>, i: nat, torn: bool)
    requires |disks| == |calls| + 1 && 0 < i < |disks| && Leads(disks, calls, i) && Sound(disks[i - 1]) && Tells(disks[i - 1], torn)
    ensures Tells(disks[i], torn || TornAt(disks, calls, i - 1))
  {
    TellsNext(disks[i - 1], calls[i - 1], torn, disks[i]);
  }

  /** In every history activation and phase are in step until the first torn call, and half done ever after. */
  lemma {:induction false} InStepUntilTorn(disks: seq<Disk>, calls: seq<Call>, i: nat)
    requires IsHistory(disks, calls) && i < |disks|
    ensures Tells(disks[i], TornBefore(disks, calls, i))
  {
    if i == 0 {
      StartTells(disks[0]);
    } else {
      InStepUntilTorn(disks, calls, i - 1);
      HistorySound(disks, calls, i - 1);
      TornNext(disks, calls, i);
      TellsStep(disks, calls, i, TornBefore(disks, calls, i - 1));
    }
  }
}

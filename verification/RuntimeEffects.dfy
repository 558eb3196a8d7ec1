/** What a call has done by the time it returns, over runs. */
module RuntimeEffects {
  import opened Wrappers
  import opened CatalogRuntime
  import opened RuntimeSteps
  import opened RuntimeRuns

  /** Turn k of the run is thread t's. */
  ghost predicate TurnOf(trace: seq<State>, k: nat, t: ThreadId) {
    && k + 1 < |trace| && t < |trace[k].threads| && InRange(trace[k])
    && exists a: Action :: trace[k + 1] == Step(trace[k], t, a)
  }

  /** At turn j the idle thread t makes call a, which returns as turn k - 1 ends. */
  ghost predicate CallSpan(trace: seq<State>, j: nat, k: nat, t: ThreadId, a: Action) {
    && j + 1 < k < |trace| && InRange(trace[j])
    && (forall m :: j <= m <= k ==> t < |trace[m].threads|)
    && trace[j].threads[t] == Idle && trace[j + 1] == Step(trace[j], t, a)
    && (forall m :: j < m < k ==> trace[m].threads[t] != Idle)
    && trace[k].threads[t] == Idle
  }

  /** A call starts, unless it names a lease or generation that does not exist; making a generation is
      done in the one turn. */
  lemma CallsStart(s: State, t: ThreadId, a: Action)
    requires InRange(s) && t < |s.threads| && s.threads[t] == Idle
    ensures t < |Step(s, t, a).threads|
    ensures Step(s, t, a).threads[t] == Idle <==>
      a.CallNew? || (a.CallRelease? && a.lease >= |s.leases|) || (a.CallActivate? && a.generation >= |s.gens|)
    ensures a.CallNew? ==> Step(s, t, a).gens == s.gens + [Generation(0, a.isPackaged, 0, false, false)]
  {
    StepMoves(s, t, a);
  }

  /** A turn is either t's own, or another thread's that leaves t where it is. */
  lemma WhoseTurn(n: nat, trace: seq<State>, k: nat, t: ThreadId)
    requires IsRun(n, trace) && k + 1 < |trace| && t < |trace[k].threads|
    ensures |trace[k + 1].threads| == |trace[k].threads|
    ensures trace[k + 1].threads[t] != trace[k].threads[t] ==> TurnOf(trace, k, t)
  {
    assert StepAt(trace, k);
    var u: ThreadId, a: Action :| trace[k + 1] == Step(trace[k], u, a);
    if u < |trace[k].threads| { StepMoves(trace[k], u, a); }
  }

  // ---------------------------------------------------------------- Release

  predicate Out(s: State, l: LeaseId) { l < |s.leases| && !s.leases[l].released }

  predicate Returned(s: State, l: LeaseId) { l < |s.leases| && s.leases[l].released }

  /** Where a thread may stand in Release of l: before the claim, with the lease claimed but its
      reader not dropped, or past both. */
  ghost predicate Releasing(s: State, pc: Pc, l: LeaseId) {
    || (pc == InRelease(Claim(l)) && l < |s.leases|)
    || (Returned(s, l) && (pc == InRelease(DropReader(s.leases[l].generation)) || Dropped(pc)))
  }

  predicate Dropped(pc: Pc) { pc == Idle || (pc.InSignal? && pc.after.ReturnToCaller?) }

  lemma ReleaseTurn(s: State, t: ThreadId, u: ThreadId, a: Action, l: LeaseId)
    requires InRange(s) && t < |s.threads| && u < |s.threads| && s.threads[t] != Idle && Releasing(s, s.threads[t], l)
    ensures t < |Step(s, u, a).threads| && Releasing(Step(s, u, a), Step(s, u, a).threads[t], l)
  {
    StepMoves(s, u, a);
    assert PcInRange(s, s.threads[u]);
  }

  /** Release returns a lease for good: once released, a lease stays released. */
  lemma ReturnedStays(s: State, u: ThreadId, a: Action, l: LeaseId)
    requires InRange(s) && u < |s.threads| && Returned(s, l)
    ensures Returned(Step(s, u, a), l)
  {
    StepMoves(s, u, a);
    assert PcInRange(s, s.threads[u]);
  }

  /** Some thread moves at every turn: if it is not t, a statement about t's place carries over. */
  lemma {:induction false} ReleasingAt(n: nat, trace: seq<State>, j: nat, k: nat, t: ThreadId, l: LeaseId, m: nat)
    requires IsRun(n, trace) && CallSpan(trace, j, k, t, CallRelease(l)) && l < |trace[j].leases| && j < m <= k
    ensures Releasing(trace[m], trace[m].threads[t], l)
  {
    if m > j + 1 {
      ReleasingAt(n, trace, j, k, t, l, m - 1);
      assert StepAt(trace, m - 1);
      var u: ThreadId, a: Action :| trace[m] == Step(trace[m - 1], u, a);
      if u < |trace[m - 1].threads| { ReleaseTurn(trace[m - 1], t, u, a, l); }
    }
  }

  /** The first turn from j on that moves t. */
  lemma {:induction false} NextTurn(n: nat, trace: seq<State>, j: nat, k: nat, t: ThreadId) returns (c: nat)
    requires IsRun(n, trace) && j < k < |trace| && t < |trace[j].threads| && t < |trace[k].threads|
    requires trace[k].threads[t] != trace[j].threads[t]
    ensures j <= c < k && TurnOf(trace, c, t)
    ensures forall m :: j <= m <= c ==> t < |trace[m].threads| && trace[m].threads[t] == trace[j].threads[t]
    ensures t < |trace[c + 1].threads| && trace[c + 1].threads[t] != trace[c].threads[t]
    decreases k - j
  {
    WhoseTurn(n, trace, j, t);
    if trace[j + 1].threads[t] != trace[j].threads[t] {
      c := j;
    } else {
      c := NextTurn(n, trace, j + 1, k, t);
    }
  }

  ghost predicate SameReaders(s: State, s': State) {
    |s'.gens| == |s.gens| && forall g :: 0 <= g < |s.gens| ==> s'.gens[g].readers == s.gens[g].readers
  }

  ghost predicate LosesReader(s: State, s': State, g: GenId) {
    && |s'.gens| == |s.gens| && g < |s.gens| && s'.gens[g].readers == s.gens[g].readers - 1
    && forall h :: 0 <= h < |s.gens| && h != g ==> s'.gens[h].readers == s.gens[h].readers
  }

  /** None of t's turns from j up to k changes a reader count. */
  ghost predicate NoReaderTurns(trace: seq<State>, j: nat, k: nat, t: ThreadId)
    requires k < |trace|
  {
    forall m :: j <= m < k && TurnOf(trace, m, t) ==> SameReaders(trace[m], trace[m + 1])
  }

  /** Waiting at one place of Release is not moving. */
  lemma WaitingKeepsReaders(trace: seq<State>, j: nat, k: nat, t: ThreadId)
    requires j <= k < |trace| && t < |trace[j].threads| && trace[j].threads[t].InRelease?
    requires forall m :: j <= m <= k ==> t < |trace[m].threads| && trace[m].threads[t] == trace[j].threads[t]
    ensures NoReaderTurns(trace, j, k, t)
  {
    forall m | j <= m < k ensures !TurnOf(trace, m, t) {
      if TurnOf(trace, m, t) { ReleaseMoves(trace, m, t); }
    }
  }

  lemma ReleaseMoves(trace: seq<State>, m: nat, t: ThreadId)
    requires TurnOf(trace, m, t) && trace[m].threads[t].InRelease?
    ensures t < |trace[m + 1].threads| && trace[m + 1].threads[t] != trace[m].threads[t]
  {
    assert PcInRange(trace[m], trace[m].threads[t]);
  }

  lemma DroppedTurn(s: State, t: ThreadId, u: ThreadId, a: Action)
    requires InRange(s) && t < |s.threads| && u < |s.threads| && s.threads[t] != Idle && Dropped(s.threads[t])
    ensures t < |Step(s, u, a).threads| && Dropped(Step(s, u, a).threads[t])
    ensures u == t ==> SameReaders(s, Step(s, u, a))
  {
    StepMoves(s, u, a);
  }

  lemma {:induction false} DroppedKeepsReaders(n: nat, trace: seq<State>, j: nat, k: nat, t: ThreadId)
    requires IsRun(n, trace) && j <= k < |trace| && t < |trace[j].threads| && Dropped(trace[j].threads[t])
    requires forall m :: j <= m < k ==> t < |trace[m].threads| && trace[m].threads[t] != Idle
    ensures t < |trace[k].threads| && Dropped(trace[k].threads[t]) && NoReaderTurns(trace, j, k, t)
  {
    if j < k {
      DroppedKeepsReaders(n, trace, j, k - 1, t);
      var s := trace[k - 1];
      assert StepAt(trace, k - 1);
      var u: ThreadId, a: Action :| trace[k] == Step(s, u, a);
      if u < |s.threads| { DroppedTurn(s, t, u, a); }
      forall m | j <= m < k && TurnOf(trace, m, t) ensures SameReaders(trace[m], trace[m + 1]) {
        if m == k - 1 {
          var b: Action :| trace[m + 1] == Step(trace[m], t, b);
          DroppedTurn(s, t, t, b);
        }
      }
    }
  }

  /** Release returns with its lease released, for good. At the turn c that claims the lease, either
      it was released before and no turn of this call changes a reader count; or exactly the turn d
      takes one reader off exactly the lease's generation. */
  lemma ReleaseReturns(n: nat, trace: seq<State>, j: nat, k: nat, t: ThreadId, l: LeaseId) returns (c: nat, d: nat)
    requires IsRun(n, trace) && CallSpan(trace, j, k, t, CallRelease(l)) && l < |trace[j].leases|
    ensures Returned(trace[k], l)
    ensures j < c < k && TurnOf(trace, c, t) && l < |trace[c].leases|
    ensures Returned(trace[c], l) ==> trace[c + 1].leases == trace[c].leases && NoReaderTurns(trace, j + 1, k, t)
    ensures Out(trace[c], l) ==>
      && trace[c + 1].leases == trace[c].leases[l := trace[c].leases[l].(released := true)]
      && c < d < k && TurnOf(trace, d, t) && LosesReader(trace[d], trace[d + 1], trace[c].leases[l].generation)
      && NoReaderTurns(trace, j + 1, d, t) && NoReaderTurns(trace, d + 1, k, t)
  {
    ReleasingAt(n, trace, j, k, t, l, k);
    c := ClaimHappens(n, trace, j, k, t, l);
    d := c;
    if Out(trace[c], l) {
      d := DropHappens(n, trace, c + 1, k, t, trace[c].leases[l].generation);
      assert NoReaderTurns(trace, j + 1, d, t);
    } else {
      assert NoReaderTurns(trace, j + 1, k, t);
    }
  }

  lemma ClaimHappens(n: nat, trace: seq<State>, j: nat, k: nat, t: ThreadId, l: LeaseId) returns (c: nat)
    requires IsRun(n, trace) && CallSpan(trace, j, k, t, CallRelease(l)) && l < |trace[j].leases|
    ensures j < c < k && TurnOf(trace, c, t) && trace[c].threads[t] == InRelease(Claim(l)) && l < |trace[c].leases|
    ensures NoReaderTurns(trace, j + 1, c + 1, t)
    ensures Returned(trace[c], l) ==> trace[c + 1].leases == trace[c].leases && c + 1 == k
    ensures Out(trace[c], l) ==>
      && trace[c + 1].leases == trace[c].leases[l := trace[c].leases[l].(released := true)]
      && trace[c + 1].threads[t] == InRelease(DropReader(trace[c].leases[l].generation))
  {
    c := NextTurn(n, trace, j + 1, k, t);
    ReleasingAt(n, trace, j, k, t, l, c);
    WaitingKeepsReaders(trace, j + 1, c, t);
    ClaimTurn(trace, c, t, l);
  }

  lemma DropHappens(n: nat, trace: seq<State>, j: nat, k: nat, t: ThreadId, g: GenId) returns (d: nat)
    requires IsRun(n, trace) && j < k < |trace|
    requires forall m :: j <= m <= k ==> t < |trace[m].threads|
    requires trace[j].threads[t] == InRelease(DropReader(g)) && trace[k].threads[t] == Idle
    requires forall m :: j <= m < k ==> trace[m].threads[t] != Idle
    ensures j <= d < k && TurnOf(trace, d, t) && LosesReader(trace[d], trace[d + 1], g)
    ensures NoReaderTurns(trace, j, d, t) && NoReaderTurns(trace, d + 1, k, t)
  {
    d := NextTurn(n, trace, j, k, t);
    WaitingKeepsReaders(trace, j, d, t);
    DropTurn(trace, d, t, g);
    DroppedKeepsReaders(n, trace, d + 1, k, t);
  }

  lemma ClaimTurn(trace: seq<State>, c: nat, t: ThreadId, l: LeaseId)
    requires TurnOf(trace, c, t) && trace[c].threads[t] == InRelease(Claim(l)) && l < |trace[c].leases|
    ensures t < |trace[c + 1].threads| && SameReaders(trace[c], trace[c + 1])
    ensures Returned(trace[c], l) ==> trace[c + 1].leases == trace[c].leases && trace[c + 1].threads[t] == Idle
    ensures Out(trace[c], l) ==>
      && trace[c + 1].leases == trace[c].leases[l := trace[c].leases[l].(released := true)]
      && trace[c + 1].threads[t] == InRelease(DropReader(trace[c].leases[l].generation))
  {
  }

  lemma DropTurn(trace: seq<State>, d: nat, t: ThreadId, g: GenId)
    requires TurnOf(trace, d, t) && trace[d].threads[t] == InRelease(DropReader(g))
    ensures t < |trace[d + 1].threads| && LosesReader(trace[d], trace[d + 1], g) && Dropped(trace[d + 1].threads[t])
  {
    assert PcInRange(trace[d], trace[d].threads[t]);
  }

  // ---------------------------------------------------------------- Acquire

  predicate Acquiring(pc: Pc) { pc.InAcquire? || (pc.InSignal? && pc.after.RetryAcquire?) }

  /** Where an Acquire call may end: it found nothing active, or its two re-checks passed. */
  ghost predicate AcquireEnds(s: State, s': State, t: ThreadId)
    requires t < |s.threads|
  {
    || (s.active == None && s'.leases == s.leases)
    || (s.threads[t].InAcquire? && s.threads[t].acquire.CheckRetired? && s'.leases == s.leases + [Lease(s.threads[t].acquire.g, false)])
  }

  lemma AcquireTurn(s: State, t: ThreadId, u: ThreadId, a: Action)
    requires InRange(s) && t < |s.threads| && u < |s.threads| && Acquiring(s.threads[t])
    ensures t < |Step(s, u, a).threads|
    ensures Acquiring(Step(s, u, a).threads[t]) || (u == t && AcquireEnds(s, Step(s, u, a), t))
  {
    StepMoves(s, u, a);
  }

  lemma {:induction false} AcquiringAt(n: nat, trace: seq<State>, j: nat, k: nat, t: ThreadId, m: nat)
    requires IsRun(n, trace) && CallSpan(trace, j, k, t, CallAcquire) && j < m < k
    ensures Acquiring(trace[m].threads[t])
  {
    if m > j + 1 {
      AcquiringAt(n, trace, j, k, t, m - 1);
      AcquireTurnAt(n, trace, m - 1, t);
    }
  }

  lemma AcquireTurnAt(n: nat, trace: seq<State>, m: nat, t: ThreadId)
    requires IsRun(n, trace) && m + 1 < |trace| && t < |trace[m].threads| && Acquiring(trace[m].threads[t])
    ensures t < |trace[m + 1].threads|
    ensures Acquiring(trace[m + 1].threads[t]) || (TurnOf(trace, m, t) && AcquireEnds(trace[m], trace[m + 1], t))
    ensures trace[m + 1].threads[t] != Idle ==> Acquiring(trace[m + 1].threads[t])
  {
    var s := trace[m];
    assert StepAt(trace, m);
    var u: ThreadId, a: Action :| trace[m + 1] == Step(s, u, a);
    if u < |s.threads| {
      AcquireTurn(s, t, u, a);
      AcquireStays(s, t, u, a);
    }
  }

  lemma AcquireStays(s: State, t: ThreadId, u: ThreadId, a: Action)
    requires InRange(s) && t < |s.threads| && u < |s.threads| && Acquiring(s.threads[t])
    ensures var s' := Step(s, u, a); t < |s'.threads| && (s'.threads[t] != Idle ==> Acquiring(s'.threads[t]))
  {
    StepMoves(s, u, a);
  }

  /** Acquire returns without a lease only if nothing was active when it last looked; otherwise its
      last turn grants exactly one lease, on the generation this attempt found active. */
  lemma AcquireReturns(n: nat, trace: seq<State>, j: nat, k: nat, t: ThreadId) returns (i: nat)
    requires IsRun(n, trace) && CallSpan(trace, j, k, t, CallAcquire)
    ensures TurnOf(trace, k - 1, t)
    ensures |trace[k].leases| == |trace[k - 1].leases| ==> trace[k - 1].active == None
    ensures |trace[k].leases| != |trace[k - 1].leases| ==>
      && |trace[k].leases| == |trace[k - 1].leases| + 1
      && var g := trace[k].leases[|trace[k - 1].leases|].generation;
         Grants(trace, k - 1, t, |trace[k - 1].leases|, g) && AttemptSince(trace, i, k - 1, t, g) && j < i
  {
    i := 0;
    AcquiringAt(n, trace, j, k, t, k - 1);
    AcquireTurnAt(n, trace, k - 1, t);
    if |trace[k].leases| != |trace[k - 1].leases| {
      var u := GrantStep(n, trace, k - 1);
      WhoseTurn(n, trace, k - 1, t);
      SameTurn(n, trace, k - 1, t, u);
      i := AttemptStart(n, trace, k - 1, t, trace[k].leases[|trace[k - 1].leases|].generation);
    }
  }

  /** Two threads do not move in one turn. */
  lemma SameTurn(n: nat, trace: seq<State>, k: nat, t: ThreadId, u: ThreadId)
    requires IsRun(n, trace) && k + 1 < |trace| && t < |trace[k].threads| && u < |trace[k].threads|
    requires |trace[k + 1].threads| == |trace[k].threads|
    requires trace[k + 1].threads[t] != trace[k].threads[t] && trace[k + 1].threads[u] != trace[k].threads[u]
    ensures t == u
  {
    assert StepAt(trace, k);
    var v: ThreadId, a: Action :| trace[k + 1] == Step(trace[k], v, a);
    assert v < |trace[k].threads|;
    StepMoves(trace[k], v, a);
  }

  // ---------------------------------------------------------------- Activate

  /** From s0 to s nothing was swapped in. */
  ghost predicate NothingSwapped(s0: State, s: State) {
    s.swaps == s0.swaps && s.active == s0.active
  }

  /** From s0 to s exactly g was swapped in, in place of what was active. */
  ghost predicate SwappedIn(s0: State, s: State, g: GenId) {
    s.swaps == s0.swaps + [g] && s.active == Some(g) && g < |s.gens| && s.gens[g].epoch == s0.epoch + 1
  }

  ghost predicate RetiredIn(s: State, g: Option<GenId>) {
    g.None? || (g.value < |s.gens| && s.gens[g.value].retired)
  }

  predicate Fresh(s0: State, g: GenId)
    requires g < |s0.gens|
  {
    !s0.gens[g].retired && s0.gens[g].epoch == 0
  }

  /** What was active when the lock was taken gives way to g. */
  ghost predicate Replaced(s0: State, s: State, g: GenId) {
    SwappedIn(s0, s, g) && RetiredIn(s, s0.active)
  }

  ghost predicate SameMarks(s0: State, s: State, g: GenId)
    requires g < |s0.gens| && g < |s.gens|
  {
    s.epoch == s0.epoch && s.gens[g].epoch == s0.gens[g].epoch && s.gens[g].retired == s0.gens[g].retired
  }

  /** What Activate of g, having taken the lock in s0, returns with. */
  ghost predicate Activated(s0: State, s: State, g: GenId)
    requires g < |s0.gens|
  {
    if Fresh(s0, g) then Replaced(s0, s, g) else NothingSwapped(s0, s)
  }

  /** Where Activate of g may stand, by what has changed since the state s0 in which it took the lock. */
  ghost predicate Activating(s0: State, s: State, g: GenId, pc: Pc) {
    && g < |s0.gens| <= |s.gens|
    && match pc {
      case Holding(CheckNextRetired(h)) => h == g && NothingSwapped(s0, s) && SameMarks(s0, s, g)
      case Holding(CheckNextEpoch(h)) =>
        h == g && NothingSwapped(s0, s) && SameMarks(s0, s, g) && !s0.gens[g].retired
      case Holding(BumpEpoch(h)) => h == g && NothingSwapped(s0, s) && s.epoch == s0.epoch && Fresh(s0, g)
      case Holding(StampEpoch(h, e)) => h == g && NothingSwapped(s0, s) && e == s0.epoch + 1 && Fresh(s0, g)
      case Holding(SwapActive(h)) => h == g && NothingSwapped(s0, s) && s.gens[g].epoch == s0.epoch + 1 && Fresh(s0, g)
      case Holding(Retire(p)) => s0.active == Some(p) && SwappedIn(s0, s, g) && Fresh(s0, g)
      case InSignal(_, _, after) => after.ReleaseMutex? && Replaced(s0, s, g) && Fresh(s0, g)
      case Holding(Unlock) => Activated(s0, s, g)
      case _ => false
    }
  }

  /** Where the call stands, or what it has returned with. */
  ghost predicate ActivatingOn(s0: State, s: State, g: GenId, t: ThreadId)
    requires g < |s0.gens|
  {
    t < |s.threads| && if s.threads[t] == Idle then Activated(s0, s, g) else Activating(s0, s, g, s.threads[t])
  }

  lemma ChecksActivating(s0: State, s: State, t: ThreadId, a: Action, g: GenId)
    requires InRange(s) && t < |s.threads| && Activating(s0, s, g, s.threads[t])
    requires s.threads[t].Holding? && (s.threads[t].critical.CheckNextRetired? || s.threads[t].critical.CheckNextEpoch? || s.threads[t].critical.BumpEpoch?)
    ensures ActivatingOn(s0, Step(s, t, a), g, t)
  {
    StepMoves(s, t, a);
    assert PcInRange(s, s.threads[t]);
  }

  lemma EndsActivating(s0: State, s: State, t: ThreadId, a: Action, g: GenId)
    requires InRange(s) && t < |s.threads| && Activating(s0, s, g, s.threads[t])
    requires !(s.threads[t].Holding? && (s.threads[t].critical.CheckNextRetired? || s.threads[t].critical.CheckNextEpoch? || s.threads[t].critical.BumpEpoch?))
    ensures ActivatingOn(s0, Step(s, t, a), g, t)
  {
    StepMoves(s, t, a);
    assert PcInRange(s, s.threads[t]);
  }

  lemma OwnActivating(s0: State, s: State, t: ThreadId, a: Action, g: GenId)
    requires InRange(s) && t < |s.threads| && Activating(s0, s, g, s.threads[t])
    ensures ActivatingOn(s0, Step(s, t, a), g, t)
  {
    if s.threads[t].Holding? && (s.threads[t].critical.CheckNextRetired? || s.threads[t].critical.CheckNextEpoch? || s.threads[t].critical.BumpEpoch?) {
      ChecksActivating(s0, s, t, a, g);
    } else {
      EndsActivating(s0, s, t, a, g);
    }
  }

  lemma OthersActivating(s0: State, s: State, s': State, g: GenId, pc: Pc)
    requires Activating(s0, s, g, pc) && SameOrder(s, s')
    ensures Activating(s0, s', g, pc)
  {
  }

  lemma ActivatingTurn(n: nat, trace: seq<State>, s0: State, m: nat, t: ThreadId, g: GenId)
    requires IsRun(n, trace) && m + 1 < |trace| && t < |trace[m].threads| && Activating(s0, trace[m], g, trace[m].threads[t])
    ensures ActivatingOn(s0, trace[m + 1], g, t)
  {
    var s := trace[m];
    RunInv(n, trace, m);
    assert StepAt(trace, m);
    var u: ThreadId, a: Action :| trace[m + 1] == Step(s, u, a);
    if u == t {
      OwnActivating(s0, s, t, a, g);
    } else if u < |s.threads| {
      StepMoves(s, u, a);
      OthersOutside(s, t, u);
      OutsideSameOrder(s, u, a);
      OthersActivating(s0, s, trace[m + 1], g, s.threads[t]);
    }
  }

  lemma OthersOutside(s: State, t: ThreadId, u: ThreadId)
    requires MutualExclusion(s) && t < |s.threads| && u < |s.threads| && u != t && Critical(s.threads[t])
    ensures !s.threads[u].Holding?
  {
    assert Critical(s.threads[u]) <==> s.mutex == Some(u);
  }

  lemma {:induction false} ActivatingAt(n: nat, trace: seq<State>, s0: State, j: nat, k: nat, t: ThreadId, g: GenId)
    requires IsRun(n, trace) && j <= k < |trace| && t < |trace[j].threads| && Activating(s0, trace[j], g, trace[j].threads[t])
    requires forall m :: j <= m < k ==> t < |trace[m].threads| && trace[m].threads[t] != Idle
    ensures ActivatingOn(s0, trace[k], g, t)
  {
    if j < k {
      ActivatingAt(n, trace, s0, j, k - 1, t, g);
      ActivatingTurn(n, trace, s0, k - 1, t, g);
    }
  }

  /** Turn m takes the mutex for t. */
  ghost predicate TakesLock(trace: seq<State>, m: nat, t: ThreadId) {
    TurnOf(trace, m, t) && trace[m].mutex == None && trace[m + 1].mutex == Some(t)
  }

  lemma LockTurn(trace: seq<State>, m: nat, t: ThreadId, who: Activation)
    requires TurnOf(trace, m, t) && trace[m].threads[t] == AwaitMutex(who)
    requires t < |trace[m + 1].threads| && trace[m + 1].threads[t] != trace[m].threads[t]
    ensures TakesLock(trace, m, t) && trace[m + 1] == Goto(trace[m].(mutex := Some(t)), t, trace[m + 1].threads[t])
    ensures trace[m + 1].threads[t]
         == Holding(if who.Plain? then CheckNextRetired(who.generation) else LoadOld(who.accepted))
  {
    assert PcInRange(trace[m], trace[m].threads[t]);
  }

  /** Activate of g swaps in exactly g, and retires what it replaces, if g was neither retired nor
      activated before when the lock was taken; otherwise it swaps in nothing. */
  lemma ActivateReturns(n: nat, trace: seq<State>, j: nat, k: nat, t: ThreadId, g: GenId) returns (m: nat)
    requires IsRun(n, trace) && CallSpan(trace, j, k, t, CallActivate(g)) && g < |trace[j].gens|
    ensures j < m < k && TakesLock(trace, m, t)
    ensures g < |trace[m].gens|
    ensures !trace[m].gens[g].retired && trace[m].gens[g].epoch == 0 ==> Replaced(trace[m], trace[k], g)
    ensures trace[m].gens[g].retired || trace[m].gens[g].epoch != 0 ==> NothingSwapped(trace[m], trace[k])
  {
    m := NextTurn(n, trace, j + 1, k, t);
    RunLater(n, trace, j, m);
    LockTurn(trace, m, t, Plain(g));
    ActivatingAt(n, trace, trace[m], m + 1, k, t, g);
  }

  // ---------------------------------------------------------------- the package path

  /** A package may take over from no generation, or from one that came with a package. */
  ghost predicate Replaceable(s0: State) {
    s0.active.None? || (s0.active.value < |s0.gens| && s0.gens[s0.active.value].packaged)
  }

  /** What was active when the lock was taken gives way to a packaged generation made by this call. */
  ghost predicate PackageReplaced(s0: State, s: State, g: GenId) {
    Replaced(s0, s, g) && |s0.gens| <= g && s.gens[g].packaged
  }

  ghost predicate Made(s0: State, s: State, g: GenId) {
    |s0.gens| <= g < |s.gens| && s.gens[g].packaged && s.gens[g].epoch == s0.epoch + 1
  }

  ghost predicate Packaged(s0: State, s: State, accepted: bool) {
    if accepted && Replaceable(s0) then s.active.Some? && PackageReplaced(s0, s, s.active.value)
    else NothingSwapped(s0, s)
  }

  /** Where a package activation may stand, by what has changed since it took the lock in s0. */
  ghost predicate Packaging(s0: State, s: State, accepted: bool, pc: Pc) {
    && |s0.gens| <= |s.gens|
    && match pc {
      case Holding(LoadOld(b)) =>
        b == accepted && NothingSwapped(s0, s) && s.epoch == s0.epoch && SameActive(s0, s)
      case Holding(CheckRegistryEpoch(e)) =>
        accepted && NothingSwapped(s0, s) && s.epoch == s0.epoch && e == s0.epoch + 1 && Replaceable(s0)
      case Holding(StoreEpoch(g, e)) => accepted && NothingSwapped(s0, s) && Made(s0, s, g) && Replaceable(s0)
      case Holding(SwapActive(g)) => accepted && NothingSwapped(s0, s) && Made(s0, s, g) && Replaceable(s0)
      case Holding(Retire(p)) =>
        && accepted && Replaceable(s0) && s0.active == Some(p)
        && s.active.Some? && SwappedIn(s0, s, s.active.value) && Made(s0, s, s.active.value)
      case InSignal(_, _, after) => after.ReleaseMutex? && accepted && Replaceable(s0) && Packaged(s0, s, accepted)
      case Holding(Unlock) => Packaged(s0, s, accepted)
      case _ => false
    }
  }

  /** The generation that was active is still what it was. */
  ghost predicate SameActive(s0: State, s: State) {
    s0.active.Some? ==>
      var g := s0.active.value;
      g < |s0.gens| && g < |s.gens| && s.gens[g].packaged == s0.gens[g].packaged && s.gens[g].epoch == s0.gens[g].epoch
  }

  /** Outside the critical section generations are made but not altered in kind. */
  ghost predicate SameKinds(s: State, s': State) {
    |s.gens| <= |s'.gens| && forall g :: 0 <= g < |s.gens| ==> s'.gens[g].packaged == s.gens[g].packaged
  }

  lemma StepSameKinds(s: State, t: ThreadId, a: Action)
    requires InRange(s) && t < |s.threads|
    ensures SameKinds(s, Step(s, t, a))
  {
  }

  /** Where the call stands, or what it has returned with. */
  ghost predicate PackagingOn(s0: State, s: State, accepted: bool, t: ThreadId) {
    t < |s.threads| && if s.threads[t] == Idle then Packaged(s0, s, accepted) else Packaging(s0, s, accepted, s.threads[t])
  }

  lemma ChecksPackaging(s0: State, s: State, t: ThreadId, a: Action, accepted: bool)
    requires InRange(s) && History(s) && t < |s.threads| && Packaging(s0, s, accepted, s.threads[t])
    requires Pending(s) == (if s.threads[t].Holding? then s.threads[t].critical else Unlock)
    requires s.threads[t].Holding? && (s.threads[t].critical.LoadOld? || s.threads[t].critical.CheckRegistryEpoch?)
    ensures PackagingOn(s0, Step(s, t, a), accepted, t)
  {
    StepMoves(s, t, a);
    assert PcInRange(s, s.threads[t]);
  }

  lemma SwapsPackaging(s0: State, s: State, t: ThreadId, a: Action, accepted: bool)
    requires InRange(s) && History(s) && t < |s.threads| && Packaging(s0, s, accepted, s.threads[t])
    requires Pending(s) == (if s.threads[t].Holding? then s.threads[t].critical else Unlock)
    requires s.threads[t].Holding? && (s.threads[t].critical.StoreEpoch? || s.threads[t].critical.SwapActive?)
    ensures PackagingOn(s0, Step(s, t, a), accepted, t)
  {
    StepMoves(s, t, a);
    assert PcInRange(s, s.threads[t]);
  }

  lemma EndsPackaging(s0: State, s: State, t: ThreadId, a: Action, accepted: bool)
    requires InRange(s) && History(s) && t < |s.threads| && Packaging(s0, s, accepted, s.threads[t])
    requires Pending(s) == (if s.threads[t].Holding? then s.threads[t].critical else Unlock)
    requires s.threads[t].InSignal? || (s.threads[t].Holding? && (s.threads[t].critical.Retire? || s.threads[t].critical.Unlock?))
    ensures PackagingOn(s0, Step(s, t, a), accepted, t)
  {
    StepMoves(s, t, a);
    assert PcInRange(s, s.threads[t]);
  }

  lemma OwnPackaging(s0: State, s: State, t: ThreadId, a: Action, accepted: bool)
    requires InRange(s) && History(s) && t < |s.threads| && Packaging(s0, s, accepted, s.threads[t])
    requires Pending(s) == (if s.threads[t].Holding? then s.threads[t].critical else Unlock)
    ensures PackagingOn(s0, Step(s, t, a), accepted, t)
  {
    var pc := s.threads[t];
    if pc.Holding? && (pc.critical.LoadOld? || pc.critical.CheckRegistryEpoch?) {
      ChecksPackaging(s0, s, t, a, accepted);
    } else if pc.Holding? && (pc.critical.StoreEpoch? || pc.critical.SwapActive?) {
      SwapsPackaging(s0, s, t, a, accepted);
    } else {
      EndsPackaging(s0, s, t, a, accepted);
    }
  }

  lemma OthersPackaging(s0: State, s: State, s': State, accepted: bool, pc: Pc)
    requires Packaging(s0, s, accepted, pc) && SameOrder(s, s') && SameKinds(s, s')
    ensures Packaging(s0, s', accepted, pc)
  {
  }

  lemma PackagingTurn(n: nat, trace: seq<State>, s0: State, m: nat, t: ThreadId, accepted: bool)
    requires IsRun(n, trace) && m + 1 < |trace| && t < |trace[m].threads|
    requires Packaging(s0, trace[m], accepted, trace[m].threads[t])
    ensures PackagingOn(s0, trace[m + 1], accepted, t)
  {
    var s := trace[m];
    RunInv(n, trace, m);
    assert StepAt(trace, m);
    var u: ThreadId, a: Action :| trace[m + 1] == Step(s, u, a);
    assert Critical(s.threads[t]);
    if u == t {
      OwnPackaging(s0, s, t, a, accepted);
    } else if u < |s.threads| {
      StepMoves(s, u, a);
      OthersOutside(s, t, u);
      OutsideSameOrder(s, u, a);
      StepSameKinds(s, u, a);
      OthersPackaging(s0, s, trace[m + 1], accepted, s.threads[t]);
    }
  }

  lemma {:induction false} PackagingAt(n: nat, trace: seq<State>, s0: State, j: nat, k: nat, t: ThreadId, accepted: bool)
    requires IsRun(n, trace) && j <= k < |trace| && t < |trace[j].threads|
    requires Packaging(s0, trace[j], accepted, trace[j].threads[t])
    requires forall m :: j <= m < k ==> t < |trace[m].threads| && trace[m].threads[t] != Idle
    ensures PackagingOn(s0, trace[k], accepted, t)
  {
    if j < k {
      PackagingAt(n, trace, s0, j, k - 1, t, accepted);
      PackagingTurn(n, trace, s0, k - 1, t, accepted);
    }
  }

  /** The package path swaps in exactly one new generation, made by this call, if its record is
      accepted and what it replaces came with a package or nothing was active; otherwise nothing. */
  lemma PackageReturns(n: nat, trace: seq<State>, j: nat, k: nat, t: ThreadId, accepted: bool) returns (m: nat)
    requires IsRun(n, trace) && CallSpan(trace, j, k, t, CallActivatePackage(accepted))
    ensures j < m < k && TakesLock(trace, m, t)
    ensures accepted && Replaceable(trace[m]) ==>
      trace[k].active.Some? && PackageReplaced(trace[m], trace[k], trace[k].active.value)
    ensures !accepted || !Replaceable(trace[m]) ==> NothingSwapped(trace[m], trace[k])
  {
    m := NextTurn(n, trace, j + 1, k, t);
    LockTurn(trace, m, t, Package(accepted));
    PackagingAt(n, trace, trace[m], m + 1, k, t, accepted);
  }

  // ---------------------------------------------------------------- progress

  /** The turns a call has left at most, unless it starts over. */
  function TurnsLeft(pc: Pc): nat {
    match pc
    case Idle => 0
    case InSignal(p, _, after) => (if p.LoadRetired? then 3 else if p.LoadReaders? then 2 else 1) + (if after.ReleaseMutex? then 1 else 0)
    case InRelease(p) => if p.Claim? then 5 else 4
    case InAcquire(p) =>
      (match p
       case LoadActive => 9
       case AddReader(_) => 8
       case RecheckActive(_) => 7
       case CheckRetired(_) => 6
       case BackOff(_) => 5)
    case AwaitMutex(_) => 11
    case Holding(p) =>
      (match p
       case CheckNextRetired(_) => 10
       case CheckNextEpoch(_) => 9
       case BumpEpoch(_) => 8
       case StampEpoch(_, _) => 7
       case LoadOld(_) => 9
       case CheckRegistryEpoch(_) => 8
       case StoreEpoch(_, _) => 7
       case SwapActive(_) => 6
       case Retire(_) => 5
       case Unlock => 1)
  }

  /** A turn brings t's call nearer to its end, waits for a mutex another thread holds, or goes back
      to load `active` once more after the back-off of an attempt. */
  predicate Progress(s: State, s': State, t: ThreadId)
    requires t < |s.threads| && t < |s'.threads|
  {
    var pc, pc' := s.threads[t], s'.threads[t];
    || TurnsLeft(pc') < TurnsLeft(pc)
    || (pc.AwaitMutex? && pc' == pc && s.mutex.Some? && s.mutex != Some(t))
    || (pc' == InAcquire(LoadActive) && (pc.InSignal? || (pc.InAcquire? && pc.acquire.BackOff?)))
  }

  lemma AcquireProgress(s: State, t: ThreadId, pc: AcquirePc)
    requires InRange(s) && t < |s.threads| && s.threads[t] == InAcquire(pc)
    ensures Progress(s, StepAcquire(s, t, pc), t)
  {
  }

  lemma ReleaseProgress(s: State, t: ThreadId, pc: ReleasePc)
    requires InRange(s) && t < |s.threads| && s.threads[t] == InRelease(pc)
    ensures Progress(s, StepRelease(s, t, pc), t)
  {
  }

  lemma SignalProgress(s: State, t: ThreadId, pc: SignalPc, g: GenId, after: After)
    requires InRange(s) && t < |s.threads| && s.threads[t] == InSignal(pc, g, after)
    ensures Progress(s, StepSignal(s, t, pc, g, after), t)
  {
  }

  lemma LockProgress(s: State, t: ThreadId, who: Activation)
    requires InRange(s) && MutualExclusion(s) && t < |s.threads| && s.threads[t] == AwaitMutex(who)
    ensures Progress(s, StepLock(s, t, who), t)
  {
  }

  lemma CriticalProgress(s: State, t: ThreadId, pc: CriticalPc)
    requires InRange(s) && t < |s.threads| && s.threads[t] == Holding(pc)
    ensures Progress(s, StepCritical(s, t, pc), t)
  {
  }

  /** No call waits, except for the mutex while another thread holds it, and none starts over, except
      Acquire when it has lost its generation to a swap: every other turn brings its end nearer. */
  lemma CallsProgress(n: nat, trace: seq<State>, k: nat, t: ThreadId)
    requires IsRun(n, trace) && TurnOf(trace, k, t) && trace[k].threads[t] != Idle
    ensures t < |trace[k + 1].threads| && Progress(trace[k], trace[k + 1], t)
  {
    RunInv(n, trace, k);
    var s := trace[k];
    var a: Action :| trace[k + 1] == Step(s, t, a);
    assert PcInRange(s, s.threads[t]);
    match s.threads[t] {
      case InAcquire(pc) => AcquireProgress(s, t, pc);
      case InRelease(pc) => ReleaseProgress(s, t, pc);
      case InSignal(pc, g, after) => SignalProgress(s, t, pc, g, after);
      case AwaitMutex(who) => LockProgress(s, t, who);
      case Holding(pc) => CriticalProgress(s, t, pc);
    }
  }
}

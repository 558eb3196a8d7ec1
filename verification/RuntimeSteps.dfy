/** Every step of every thread keeps the invariant. */
module RuntimeSteps {
  import opened Wrappers
  import opened CatalogRuntime

  lemma {:induction false} HeldUpdate(threads: seq<Pc>, t: nat, pc: Pc, g: GenId)
    requires t < |threads|
    ensures Held(threads[t := pc], g)
         == Held(threads, g) - (if Holds(threads[t], g) then 1 else 0) + (if Holds(pc, g) then 1 else 0)
  {
    if t == 0 {
      assert threads[t := pc][1..] == threads[1..];
    } else {
      assert threads[t := pc][1..] == threads[1..][t - 1 := pc];
      HeldUpdate(threads[1..], t - 1, pc, g);
    }
  }

  lemma {:induction false} HeldPositive(threads: seq<Pc>, t: nat, g: GenId)
    requires t < |threads| && Holds(threads[t], g)
    ensures Held(threads, g) > 0
  {
    if t > 0 { HeldPositive(threads[1..], t - 1, g); }
  }

  lemma {:induction false} HeldNone(threads: seq<Pc>, g: GenId)
    requires forall t :: 0 <= t < |threads| ==> !Holds(threads[t], g)
    ensures Held(threads, g) == 0
  {
    if threads != [] { HeldNone(threads[1..], g); }
  }

  lemma {:induction false} LiveUpdate(leases: seq<Lease>, l: nat, lease: Lease, g: GenId)
    requires l < |leases|
    ensures Live(leases[l := lease], g)
         == Live(leases, g) - (if leases[l] == Lease(g, false) then 1 else 0) + (if lease == Lease(g, false) then 1 else 0)
  {
    if l == 0 {
      assert leases[l := lease][1..] == leases[1..];
    } else {
      assert leases[l := lease][1..] == leases[1..][l - 1 := lease];
      LiveUpdate(leases[1..], l - 1, lease, g);
    }
  }

  lemma {:induction false} LiveAppend(leases: seq<Lease>, lease: Lease, g: GenId)
    ensures Live(leases + [lease], g) == Live(leases, g) + (if lease == Lease(g, false) then 1 else 0)
  {
    if leases == [] {
      assert leases + [lease] == [lease];
    } else {
      assert (leases + [lease])[1..] == leases[1..] + [lease];
      LiveAppend(leases[1..], lease, g);
    }
  }

  lemma {:induction false} LivePositive(leases: seq<Lease>, l: nat, g: GenId)
    requires l < |leases| && leases[l] == Lease(g, false)
    ensures Live(leases, g) > 0
  {
    if l > 0 { LivePositive(leases[1..], l - 1, g); }
  }

  lemma {:induction false} LiveNone(leases: seq<Lease>, g: GenId)
    requires forall i :: 0 <= i < |leases| ==> leases[i] != Lease(g, false)
    ensures Live(leases, g) == 0
  {
    if leases != [] { LiveNone(leases[1..], g); }
  }

  // ---------------------------------------------------------------- preservation: ranges and the mutex

  lemma StepMoves(s: State, t: ThreadId, a: Action)
    requires InRange(s) && t < |s.threads|
    ensures Moves(s, Step(s, t, a), t)
  {
  }

  lemma StepInRange(s: State, t: ThreadId, a: Action)
    requires InRange(s)
    ensures InRange(Step(s, t, a))
  {
    if t < |s.threads| {
      var s' := Step(s, t, a);
      StepMoves(s, t, a);
      forall u | 0 <= u < |s'.threads| ensures PcInRange(s', s'.threads[u]) {
        if u != t { assert PcInRange(s, s.threads[u]); }
      }
    }
  }

  /** Thread t is in the critical section exactly if it holds the mutex, which only it may take or release. */
  predicate MutexMoves(s: State, s': State, t: ThreadId)
    requires t < |s'.threads|
  {
    && (Critical(s'.threads[t]) <==> s'.mutex == Some(t))
    && (s'.mutex != s.mutex ==> s.mutex in {None, Some(t)} && s'.mutex in {None, Some(t)})
  }

  lemma CallMutex(s: State, t: ThreadId, a: Action)
    requires InRange(s) && MutualExclusion(s) && t < |s.threads| && s.threads[t] == Idle
    ensures MutexMoves(s, StartCall(s, t, a), t)
  {
  }

  lemma AcquireMutex(s: State, t: ThreadId, pc: AcquirePc)
    requires InRange(s) && MutualExclusion(s) && t < |s.threads| && s.threads[t] == InAcquire(pc)
    ensures MutexMoves(s, StepAcquire(s, t, pc), t)
  {
  }

  lemma ReleaseMutex(s: State, t: ThreadId, pc: ReleasePc)
    requires InRange(s) && MutualExclusion(s) && t < |s.threads| && s.threads[t] == InRelease(pc)
    ensures MutexMoves(s, StepRelease(s, t, pc), t)
  {
  }

  lemma SignalMutex(s: State, t: ThreadId, pc: SignalPc, g: GenId, after: After)
    requires InRange(s) && MutualExclusion(s) && t < |s.threads| && s.threads[t] == InSignal(pc, g, after)
    ensures MutexMoves(s, StepSignal(s, t, pc, g, after), t)
  {
  }

  lemma LockMutex(s: State, t: ThreadId, who: Activation)
    requires InRange(s) && MutualExclusion(s) && t < |s.threads| && s.threads[t] == AwaitMutex(who)
    ensures MutexMoves(s, StepLock(s, t, who), t)
  {
  }

  lemma CriticalMutex(s: State, t: ThreadId, pc: CriticalPc)
    requires InRange(s) && MutualExclusion(s) && t < |s.threads| && s.threads[t] == Holding(pc)
    ensures MutexMoves(s, StepCritical(s, t, pc), t)
  {
  }

  lemma StepMutex(s: State, t: ThreadId, a: Action)
    requires InRange(s) && MutualExclusion(s) && t < |s.threads|
    ensures |Step(s, t, a).threads| == |s.threads| && MutexMoves(s, Step(s, t, a), t)
  {
    StepMoves(s, t, a);
    match s.threads[t] {
      case Idle => CallMutex(s, t, a);
      case InAcquire(pc) => AcquireMutex(s, t, pc);
      case InRelease(pc) => ReleaseMutex(s, t, pc);
      case InSignal(pc, g, after) => SignalMutex(s, t, pc, g, after);
      case AwaitMutex(who) => LockMutex(s, t, who);
      case Holding(pc) => CriticalMutex(s, t, pc);
    }
  }

  lemma StepMutualExclusion(s: State, t: ThreadId, a: Action)
    requires InRange(s) && MutualExclusion(s)
    ensures MutualExclusion(Step(s, t, a))
  {
    if t < |s.threads| {
      StepMoves(s, t, a);
      StepMutex(s, t, a);
    }
  }

  // ---------------------------------------------------------------- preservation: the order of activations

  /** A step outside the critical section leaves the activation order alone. */
  ghost predicate SameOrder(s: State, s': State) {
    && s'.active == s.active && s'.epoch == s.epoch && s'.swaps == s.swaps
    && |s.gens| <= |s'.gens|
    && (forall g :: 0 <= g < |s.gens| ==> s'.gens[g].epoch == s.gens[g].epoch && s'.gens[g].retired == s.gens[g].retired)
    && (forall g :: |s.gens| <= g < |s'.gens| ==> !s'.gens[g].retired)
  }

  lemma OutsideSameOrder(s: State, t: ThreadId, a: Action)
    requires InRange(s) && t < |s.threads| && !s.threads[t].Holding?
    ensures SameOrder(s, Step(s, t, a))
  {
  }

  lemma HistoryFrame(s: State, s': State)
    requires InRange(s) && InRange(s') && SameOrder(s, s') && History(s)
    requires Pending(s') == Pending(s) || (PendingFacts(s') && !Ahead(Pending(s)) && !Ahead(Pending(s')) && !Pending(s).Retire?)
    ensures History(s')
  {
    forall i | 0 <= i < |s'.swaps| ensures s'.gens[s'.swaps[i]].epoch == i + 1 {
      assert s.swaps[i] < |s.gens|;
    }
  }

  lemma OutsideHistory(s: State, t: ThreadId, a: Action)
    requires InRange(s) && MutualExclusion(s) && History(s) && t < |s.threads| && !s.threads[t].Holding?
    ensures InRange(Step(s, t, a)) && History(Step(s, t, a))
  {
    StepInRange(s, t, a);
    StepMoves(s, t, a);
    OutsideSameOrder(s, t, a);
    OutsidePending(s, t, a);
    HistoryFrame(s, Step(s, t, a));
  }

  lemma OutsidePending(s: State, t: ThreadId, a: Action)
    requires InRange(s) && MutualExclusion(s) && t < |s.threads| && !s.threads[t].Holding?
    ensures var p, p' := Pending(s), Pending(Step(s, t, a));
      p' == p || (p == Unlock && (p'.CheckNextRetired? || p'.LoadOld?))
  {
    StepMoves(s, t, a);
  }

  lemma CheckingHistory(s: State, t: ThreadId, a: Action)
    requires InRange(s) && MutualExclusion(s) && History(s) && t < |s.threads| && s.threads[t].Holding?
    requires var c := s.threads[t].critical; c.CheckNextRetired? || c.CheckNextEpoch? || c.LoadOld? || c.CheckRegistryEpoch? || c.Unlock?
    ensures InRange(Step(s, t, a)) && History(Step(s, t, a))
  {
    StepInRange(s, t, a);
    StepMoves(s, t, a);
    var s' := Step(s, t, a);
    HistoryFrame(s, s');
  }

  lemma EpochHistory(s: State, t: ThreadId, a: Action)
    requires InRange(s) && MutualExclusion(s) && History(s) && t < |s.threads| && s.threads[t].Holding?
    requires var c := s.threads[t].critical; c.BumpEpoch? || c.StampEpoch? || c.StoreEpoch?
    ensures InRange(Step(s, t, a)) && History(Step(s, t, a))
  {
    StepInRange(s, t, a);
    StepMoves(s, t, a);
  }

  lemma RetireHistory(s: State, t: ThreadId, a: Action)
    requires InRange(s) && MutualExclusion(s) && History(s) && t < |s.threads| && s.threads[t].Holding?
    requires s.threads[t].critical.Retire?
    ensures InRange(Step(s, t, a)) && History(Step(s, t, a))
  {
    StepInRange(s, t, a);
    StepMoves(s, t, a);
  }

  lemma SwappingHistory(s: State, t: ThreadId, a: Action)
    requires InRange(s) && MutualExclusion(s) && History(s) && t < |s.threads| && s.threads[t].Holding?
    requires s.threads[t].critical.SwapActive?
    ensures InRange(Step(s, t, a)) && History(Step(s, t, a))
  {
    StepInRange(s, t, a);
    StepMoves(s, t, a);
  }

  lemma StepHistory(s: State, t: ThreadId, a: Action)
    requires InRange(s) && MutualExclusion(s) && History(s)
    ensures InRange(Step(s, t, a)) && History(Step(s, t, a))
  {
    StepInRange(s, t, a);
    if t >= |s.threads| {
    } else if !s.threads[t].Holding? {
      OutsideHistory(s, t, a);
    } else {
      match s.threads[t].critical {
        case SwapActive(_) => SwappingHistory(s, t, a);
        case BumpEpoch(_) => EpochHistory(s, t, a);
        case StampEpoch(_, _) => EpochHistory(s, t, a);
        case StoreEpoch(_, _) => EpochHistory(s, t, a);
        case Retire(_) => RetireHistory(s, t, a);
        case _ => CheckingHistory(s, t, a);
      }
    }
  }

  // ---------------------------------------------------------------- preservation: reader counts

  function Flag(b: bool): nat { if b then 1 else 0 }

  /** The change of `readers` on g that a step makes equals the change of the two sums. */
  ghost predicate ReadersMove(s: State, s': State, t: ThreadId, g: GenId)
    requires t < |s.threads| == |s'.threads| && g < |s.gens| <= |s'.gens|
  {
    s'.gens[g].readers - s.gens[g].readers
      == Flag(Holds(s'.threads[t], g)) - Flag(Holds(s.threads[t], g)) + Live(s'.leases, g) - Live(s.leases, g)
  }

  lemma AcquireReaders(s: State, t: ThreadId, pc: AcquirePc, g: GenId)
    requires InRange(s) && t < |s.threads| && g < |s.gens| && s.threads[t] == InAcquire(pc)
    ensures ReadersMove(s, StepAcquire(s, t, pc), t, g)
  {
    if pc.CheckRetired? { LiveAppend(s.leases, Lease(pc.g, false), g); }
  }

  lemma ReleaseReaders(s: State, t: ThreadId, pc: ReleasePc, g: GenId)
    requires InRange(s) && t < |s.threads| && g < |s.gens| && s.threads[t] == InRelease(pc)
    ensures ReadersMove(s, StepRelease(s, t, pc), t, g)
  {
    if pc.Claim? { LiveUpdate(s.leases, pc.lease, s.leases[pc.lease].(released := true), g); }
  }

  lemma CallReaders(s: State, t: ThreadId, a: Action, g: GenId)
    requires InRange(s) && t < |s.threads| && g < |s.gens| && s.threads[t].Idle?
    ensures var s' := StartCall(s, t, a);
      g < |s'.gens| && s'.gens[g].readers == s.gens[g].readers && s'.leases == s.leases && !Holds(s'.threads[t], g)
  {
  }

  lemma SignalReaders(s: State, t: ThreadId, pc: SignalPc, on: GenId, after: After, g: GenId)
    requires InRange(s) && t < |s.threads| && g < |s.gens| && s.threads[t] == InSignal(pc, on, after)
    ensures var s' := StepSignal(s, t, pc, on, after);
      g < |s'.gens| && s'.gens[g].readers == s.gens[g].readers && s'.leases == s.leases && !Holds(s'.threads[t], g)
  {
  }

  lemma CriticalReaders(s: State, t: ThreadId, pc: CriticalPc, g: GenId)
    requires InRange(s) && t < |s.threads| && g < |s.gens| && s.threads[t] == Holding(pc)
    ensures var s' := StepCritical(s, t, pc);
      g < |s'.gens| && s'.gens[g].readers == s.gens[g].readers && s'.leases == s.leases && !Holds(s'.threads[t], g)
  {
  }

  lemma OtherReaders(s: State, t: ThreadId, a: Action, g: GenId)
    requires InRange(s) && t < |s.threads| && g < |s.gens| && !s.threads[t].InAcquire? && !s.threads[t].InRelease?
    ensures var s' := Step(s, t, a);
      g < |s'.gens| && s'.gens[g].readers == s.gens[g].readers && s'.leases == s.leases && !Holds(s'.threads[t], g)
  {
    match s.threads[t] {
      case Idle => CallReaders(s, t, a, g);
      case InSignal(pc, on, after) => SignalReaders(s, t, pc, on, after, g);
      case Holding(pc) => CriticalReaders(s, t, pc, g);
      case AwaitMutex(_) =>
    }
  }

  lemma StepReaders(s: State, t: ThreadId, a: Action, g: GenId)
    requires InRange(s) && t < |s.threads| && g < |s.gens|
    ensures Moves(s, Step(s, t, a), t) && ReadersMove(s, Step(s, t, a), t, g)
  {
    StepMoves(s, t, a);
    match s.threads[t] {
      case InAcquire(pc) => AcquireReaders(s, t, pc, g);
      case InRelease(pc) => ReleaseReaders(s, t, pc, g);
      case _ => OtherReaders(s, t, a, g);
    }
  }

  lemma NewGenerationUnread(s: State, t: ThreadId, a: Action, g: GenId)
    requires InRange(s) && t < |s.threads| && |s.gens| <= g < |Step(s, t, a).gens|
    ensures Step(s, t, a).gens[g].readers == 0
    ensures Held(Step(s, t, a).threads, g) == 0 && Live(Step(s, t, a).leases, g) == 0
  {
    var s' := Step(s, t, a);
    assert s.threads[t].Idle? || s.threads[t].Holding?;
    assert s'.leases == s.leases;
    forall u | 0 <= u < |s'.threads| ensures !Holds(s'.threads[u], g) {
      assert PcInRange(s, s.threads[u]);
    }
    HeldNone(s'.threads, g);
    LiveNone(s'.leases, g);
  }

  lemma StepCounted(s: State, t: ThreadId, a: Action)
    requires InRange(s) && Counted(s)
    ensures Counted(Step(s, t, a))
  {
    if t < |s.threads| {
      var s' := Step(s, t, a);
      StepMoves(s, t, a);
      forall g | 0 <= g < |s'.gens|
        ensures s'.gens[g].readers == Held(s'.threads, g) + Live(s'.leases, g)
      {
        if g < |s.gens| {
          StepReaders(s, t, a, g);
          HeldUpdate(s.threads, t, s'.threads[t], g);
        } else {
          NewGenerationUnread(s, t, a, g);
        }
      }
    }
  }

  // ---------------------------------------------------------------- preservation: draining

  lemma ZeroReadersQuiet(s: State, g: GenId)
    requires InRange(s) && Counted(s) && g < |s.gens| && s.gens[g].readers == 0
    ensures Quiet(s, g)
  {
    forall i | 0 <= i < |s.leases| ensures s.leases[i] != Lease(g, false) {
      if s.leases[i] == Lease(g, false) { LivePositive(s.leases, i, g); }
    }
    forall t | 0 <= t < |s.threads| ensures s.threads[t] != InAcquire(CheckRetired(g)) {
      if s.threads[t] == InAcquire(CheckRetired(g)) { HeldPositive(s.threads, t, g); }
    }
  }

  lemma AcquireKeepsQuiet(s: State, t: ThreadId, pc: AcquirePc, g: GenId)
    requires InRange(s) && History(s) && t < |s.threads| && s.threads[t] == InAcquire(pc)
    requires g < |s.gens| && s.gens[g].retired && Quiet(s, g)
    ensures Quiet(StepAcquire(s, t, pc), g)
  {
  }

  lemma ReleaseKeepsQuiet(s: State, t: ThreadId, pc: ReleasePc, g: GenId)
    requires InRange(s) && t < |s.threads| && s.threads[t] == InRelease(pc) && Quiet(s, g)
    ensures Quiet(StepRelease(s, t, pc), g)
  {
  }

  lemma OtherKeepsQuiet(s: State, t: ThreadId, a: Action, g: GenId)
    requires InRange(s) && t < |s.threads| && !s.threads[t].InAcquire? && !s.threads[t].InRelease? && Quiet(s, g)
    ensures Quiet(Step(s, t, a), g)
  {
    StepMoves(s, t, a);
    var s' := Step(s, t, a);
    assert s'.leases == s.leases;
    assert s'.threads[t] != InAcquire(CheckRetired(g));
  }

  /** A retired generation that is quiet stays quiet: the re-check of `active` turns late readers away. */
  lemma QuietIsStable(s: State, t: ThreadId, a: Action, g: GenId)
    requires InRange(s) && History(s)
    requires g < |s.gens| && s.gens[g].retired && Quiet(s, g)
    ensures Quiet(Step(s, t, a), g)
  {
    if t < |s.threads| {
      match s.threads[t] {
        case InAcquire(pc) => AcquireKeepsQuiet(s, t, pc, g);
        case InRelease(pc) => ReleaseKeepsQuiet(s, t, pc, g);
        case _ => OtherKeepsQuiet(s, t, a, g);
      }
    }
  }

  lemma RetiredStays(s: State, t: ThreadId, a: Action, g: GenId)
    requires InRange(s) && g < |s.gens|
    ensures g < |Step(s, t, a).gens|
    ensures s.gens[g].retired ==> Step(s, t, a).gens[g].retired
  {
  }

  lemma SignalDrainPc(s: State, t: ThreadId, pc: SignalPc, g: GenId, after: After)
    requires InRange(s) && Counted(s) && DrainFacts(s) && t < |s.threads| && s.threads[t] == InSignal(pc, g, after)
    ensures var s' := StepSignal(s, t, pc, g, after); InRange(s') && DrainPc(s', s'.threads[t])
  {
    StepInRange(s, t, CallAcquire);
    assert DrainPc(s, s.threads[t]);
    if s.gens[g].readers == 0 {
      ZeroReadersQuiet(s, g);
    }
  }

  lemma AcquireDrainPc(s: State, t: ThreadId, pc: AcquirePc)
    requires InRange(s) && History(s) && DrainFacts(s) && t < |s.threads| && s.threads[t] == InAcquire(pc)
    ensures var s' := StepAcquire(s, t, pc); InRange(s') && DrainPc(s', s'.threads[t])
  {
    StepInRange(s, t, CallAcquire);
    assert DrainPc(s, s.threads[t]);
  }

  /** Idle, releasing, waiting and lock-holding threads neither pass the re-check nor enter `signal` past its first load. */
  lemma OutsideDrainPc(s: State, t: ThreadId, a: Action)
    requires InRange(s) && t < |s.threads| && !s.threads[t].InAcquire? && !s.threads[t].InSignal?
    ensures var pc := Step(s, t, a).threads[t];
      (pc.InSignal? ==> pc.signal.LoadRetired?) && (pc.InAcquire? ==> pc.acquire.LoadActive?)
  {
  }

  lemma StepDrainPc(s: State, t: ThreadId, a: Action)
    requires InRange(s) && History(s) && Counted(s) && DrainFacts(s) && t < |s.threads|
    ensures InRange(Step(s, t, a)) && DrainPc(Step(s, t, a), Step(s, t, a).threads[t])
  {
    StepInRange(s, t, a);
    match s.threads[t] {
      case InAcquire(pc) => AcquireDrainPc(s, t, pc);
      case InSignal(pc, g, after) => SignalDrainPc(s, t, pc, g, after);
      case _ => OutsideDrainPc(s, t, a);
    }
  }

  /** No generation of the new list is drained that was not before. */
  predicate DrainsNone(s: State, s': State) {
    forall g :: 0 <= g < |s'.gens| && s'.gens[g].drained ==> g < |s.gens| && s.gens[g].drained
  }

  lemma CallDrainsNone(s: State, t: ThreadId, a: Action)
    requires InRange(s) && t < |s.threads| && s.threads[t] == Idle
    ensures DrainsNone(s, StartCall(s, t, a))
  {
  }

  lemma AcquireDrainsNone(s: State, t: ThreadId, pc: AcquirePc)
    requires InRange(s) && t < |s.threads| && s.threads[t] == InAcquire(pc)
    ensures DrainsNone(s, StepAcquire(s, t, pc))
  {
  }

  lemma ReleaseDrainsNone(s: State, t: ThreadId, pc: ReleasePc)
    requires InRange(s) && t < |s.threads| && s.threads[t] == InRelease(pc)
    ensures DrainsNone(s, StepRelease(s, t, pc))
  {
  }

  lemma CriticalDrainsNone(s: State, t: ThreadId, pc: CriticalPc)
    requires InRange(s) && t < |s.threads| && s.threads[t] == Holding(pc)
    ensures DrainsNone(s, StepCritical(s, t, pc))
  {
  }

  lemma DrainedBefore(s: State, t: ThreadId, a: Action, g: GenId)
    requires InRange(s) && t < |s.threads|
    requires g < |Step(s, t, a).gens| && Step(s, t, a).gens[g].drained
    ensures g < |s.gens|
    ensures s.gens[g].drained || (s.threads[t].InSignal? && s.threads[t].signal.CloseDrained? && s.threads[t].on == g)
  {
    match s.threads[t] {
      case Idle => CallDrainsNone(s, t, a);
      case InAcquire(pc) => AcquireDrainsNone(s, t, pc);
      case InRelease(pc) => ReleaseDrainsNone(s, t, pc);
      case Holding(pc) => CriticalDrainsNone(s, t, pc);
      case _ =>
    }
  }

  lemma StepDrained(s: State, t: ThreadId, a: Action, g: GenId)
    requires InRange(s) && History(s) && DrainFacts(s) && t < |s.threads|
    requires g < |Step(s, t, a).gens| && Step(s, t, a).gens[g].drained
    ensures Step(s, t, a).gens[g].retired && Quiet(Step(s, t, a), g)
  {
    DrainedBefore(s, t, a, g);
    assert DrainPc(s, s.threads[t]);
    RetiredStays(s, t, a, g);
    QuietIsStable(s, t, a, g);
  }

  lemma StepDrainFacts(s: State, t: ThreadId, a: Action)
    requires InRange(s) && History(s) && Counted(s) && DrainFacts(s)
    ensures InRange(Step(s, t, a)) && DrainFacts(Step(s, t, a))
  {
    StepInRange(s, t, a);
    if t < |s.threads| {
      var s' := Step(s, t, a);
      StepMoves(s, t, a);
      forall g | 0 <= g < |s'.gens| && s'.gens[g].drained ensures s'.gens[g].retired && Quiet(s', g) {
        StepDrained(s, t, a, g);
      }
      forall u | 0 <= u < |s'.threads| ensures DrainPc(s', s'.threads[u]) {
        if u == t {
          StepDrainPc(s, t, a);
        } else {
          OtherDrainPc(s, t, a, u);
        }
      }
      StepLeasesSwapped(s, t, a);
    }
  }

  lemma OtherDrainPc(s: State, t: ThreadId, a: Action, u: ThreadId)
    requires InRange(s) && History(s) && DrainFacts(s) && t < |s.threads| && u < |s.threads| && u != t
    ensures InRange(Step(s, t, a)) && DrainPc(Step(s, t, a), s.threads[u])
  {
    StepInRange(s, t, a);
    StepMoves(s, t, a);
    assert DrainPc(s, s.threads[u]);
    if s.threads[u].InSignal? && !s.threads[u].signal.LoadRetired? {
      RetiredStays(s, t, a, s.threads[u].on);
      if s.threads[u].signal.CloseDrained? { QuietIsStable(s, t, a, s.threads[u].on); }
    }
  }

  lemma StepLeasesSwapped(s: State, t: ThreadId, a: Action)
    requires InRange(s) && DrainFacts(s) && t < |s.threads|
    ensures var s' := Step(s, t, a); forall i :: 0 <= i < |s'.leases| ==> s'.leases[i].generation in s'.swaps
  {
    StepMoves(s, t, a);
    var s' := Step(s, t, a);
    assert DrainPc(s, s.threads[t]);
    forall i | 0 <= i < |s'.leases| ensures s'.leases[i].generation in s'.swaps {
      assert i < |s.leases| ==> s.leases[i].generation in s.swaps;
    }
  }

  // ---------------------------------------------------------------- preservation: no lost wakeup

  /** The only steps that make a generation ready to drain leave their thread at `signal`. */
  lemma ReadyMeansSignalling(s: State, t: ThreadId, a: Action, g: GenId)
    requires InRange(s) && Counted(s) && t < |s.threads| && g < |s.gens|
    requires !(s.gens[g].retired && s.gens[g].readers == 0)
    requires var gen := Step(s, t, a).gens[g]; gen.retired && gen.readers == 0
    ensures Step(s, t, a).threads[t].InSignal? && Step(s, t, a).threads[t].on == g
  {
    match s.threads[t] {
      case InAcquire(pc) =>
      case InRelease(pc) =>
      case Holding(pc) => OtherReaders(s, t, a, g);
      case _ => OutsideSameOrder(s, t, a); OtherReaders(s, t, a, g);
    }
  }

  /** A thread that leaves `signal` on a generation that is ready to drain leaves it drained. */
  lemma SignalFinishes(s: State, t: ThreadId, a: Action, g: GenId)
    requires InRange(s) && DrainFacts(s) && t < |s.threads| && s.threads[t].InSignal? && s.threads[t].on == g
    requires s.gens[g].retired && s.gens[g].readers == 0
    ensures var s' := Step(s, t, a); s'.gens[g].drained || (s'.threads[t].InSignal? && s'.threads[t].on == g)
  {
  }

  lemma StepWoken(s: State, t: ThreadId, a: Action)
    requires InRange(s) && Counted(s) && DrainFacts(s) && Woken(s)
    ensures Woken(Step(s, t, a))
  {
    if t < |s.threads| {
      var s' := Step(s, t, a);
      StepMoves(s, t, a);
      forall g | 0 <= g < |s'.gens| && s'.gens[g].retired && s'.gens[g].readers == 0 && !s'.gens[g].drained
        ensures SomeoneSignals(s', g)
      {
        StepNotDrained(s, t, a, g);
        if s.gens[g].retired && s.gens[g].readers == 0 {
          var u :| 0 <= u < |s.threads| && s.threads[u].InSignal? && s.threads[u].on == g;
          if u == t { SignalFinishes(s, t, a, g); }
          assert s'.threads[u].InSignal? && s'.threads[u].on == g;
        } else {
          ReadyMeansSignalling(s, t, a, g);
          assert s'.threads[t].InSignal? && s'.threads[t].on == g;
        }
      }
    }
  }

  lemma StepNotDrained(s: State, t: ThreadId, a: Action, g: GenId)
    requires InRange(s) && t < |s.threads| && g < |Step(s, t, a).gens| && Step(s, t, a).gens[g].retired
    ensures g < |s.gens| && (s.gens[g].drained ==> Step(s, t, a).gens[g].drained)
  {
  }

  lemma StepKeepsInv(s: State, t: ThreadId, a: Action)
    requires Inv(s)
    ensures Inv(Step(s, t, a))
  {
    StepInRange(s, t, a);
    StepMutualExclusion(s, t, a);
    StepHistory(s, t, a);
    StepCounted(s, t, a);
    StepDrainFacts(s, t, a);
    StepWoken(s, t, a);
  }

  lemma InitInv(threadCount: nat)
    ensures Inv(Init(threadCount))
  {
  }
}

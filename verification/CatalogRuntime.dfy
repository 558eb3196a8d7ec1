/** The generation registry of internal/catalogruntime as a state machine.

    Any number of threads run Acquire, Release, Activate and the package activation
    path. Every atomic load, store, add, swap and compare-and-swap of the program is
    one step; `Run` interleaves them in any order a schedule asks for. */
module CatalogRuntime {
  import opened Wrappers

  type GenId = nat
  type LeaseId = nat
  type ThreadId = nat

  datatype Generation = Generation(epoch: nat, packaged: bool, readers: int, retired: bool, drained: bool)

  datatype Lease = Lease(generation: GenId, released: bool)

  /** What a thread does once it leaves `signal`. */
  datatype After = RetryAcquire | ReturnToCaller | ReleaseMutex

  /** Program counters: the next atomic action a thread will take. */
  datatype Pc =
    | Idle
    | InAcquire(acquire: AcquirePc)
    | InRelease(release: ReleasePc)
    | InSignal(signal: SignalPc, on: GenId, after: After)
    | AwaitMutex(who: Activation)
    | Holding(critical: CriticalPc)

  datatype AcquirePc =
    | LoadActive
    | AddReader(g: GenId)
    | RecheckActive(g: GenId)
    | CheckRetired(g: GenId)
    | BackOff(g: GenId)

  datatype ReleasePc = Claim(lease: LeaseId) | DropReader(dropped: GenId)

  datatype SignalPc = LoadRetired | LoadReaders | CloseDrained

  /** The two activation paths, as they wait for the registry mutex. */
  datatype Activation = Plain(generation: GenId) | Package(accepted: bool)

  /** Program points between `mu.Lock` and the deferred `mu.Unlock`, outside `signal`. */
  datatype CriticalPc =
    | CheckNextRetired(next: GenId)
    | CheckNextEpoch(next: GenId)
    | BumpEpoch(next: GenId)
    | StampEpoch(next: GenId, e: nat)
    | LoadOld(accepted: bool)
    | CheckRegistryEpoch(e: nat)
    | StoreEpoch(next: GenId, e: nat)
    | SwapActive(next: GenId)
    | Retire(prior: GenId)
    | Unlock

  /** The calls an idle thread may make; a thread inside a call ignores the action. */
  datatype Action =
    | CallNew(isPackaged: bool)
    | CallAcquire
    | CallRelease(lease: LeaseId)
    | CallActivate(generation: GenId)
    | CallActivatePackage(recordAccepted: bool)

  /** `swaps` is a history variable: the generations ever stored into `active`, in order. */
  datatype State = State(
    active: Option<GenId>,
    epoch: nat,
    mutex: Option<ThreadId>,
    gens: seq<Generation>,
    leases: seq<Lease>,
    threads: seq<Pc>,
    swaps: seq<GenId>)

  function Init(threadCount: nat): State {
    State(None, 0, None, [], [], seq(threadCount, _ => Idle), [])
  }

  function Goto(s: State, t: ThreadId, pc: Pc): State
    requires t < |s.threads|
  {
    s.(threads := s.threads[t := pc])
  }

  function SetGen(s: State, g: GenId, gen: Generation): State
    requires g < |s.gens|
  {
    s.(gens := s.gens[g := gen])
  }

  /** A step moves one thread, never shortens anything, and keeps all ids in range. */
  ghost predicate Moves(s: State, s': State, t: ThreadId)
    requires t < |s.threads|
  {
    && |s'.threads| == |s.threads| && s'.threads == s.threads[t := s'.threads[t]]
    && PcInRange(s', s'.threads[t])
    && |s.gens| <= |s'.gens| && |s.leases| <= |s'.leases| && s.swaps <= s'.swaps
    && (forall i :: 0 <= i < |s.leases| ==> s'.leases[i].generation == s.leases[i].generation)
    && (forall i :: |s.leases| <= i < |s'.leases| ==> s'.leases[i].generation < |s'.gens|)
    && (forall i :: |s.swaps| <= i < |s'.swaps| ==> s'.swaps[i] < |s'.gens|)
    && (s'.active.Some? ==> s'.active.value < |s'.gens|)
  }

  function StartCall(s: State, t: ThreadId, a: Action): (r: State)
    requires InRange(s) && t < |s.threads|
    ensures Moves(s, r, t)
  {
    match a
    case CallNew(packaged) => s.(gens := s.gens + [Generation(0, packaged, 0, false, false)])
    case CallAcquire => Goto(s, t, InAcquire(LoadActive))
    case CallRelease(l) => if l < |s.leases| then Goto(s, t, InRelease(Claim(l))) else s
    case CallActivate(g) => if g < |s.gens| then Goto(s, t, AwaitMutex(Plain(g))) else s
    case CallActivatePackage(accepted) => Goto(s, t, AwaitMutex(Package(accepted)))
  }

  function StepAcquire(s: State, t: ThreadId, pc: AcquirePc): (r: State)
    requires InRange(s) && t < |s.threads| && PcInRange(s, InAcquire(pc))
    ensures Moves(s, r, t)
  {
    match pc
    case LoadActive =>
      Goto(s, t, if s.active.None? then Idle else InAcquire(AddReader(s.active.value)))
    case AddReader(g) =>
      Goto(SetGen(s, g, s.gens[g].(readers := s.gens[g].readers + 1)), t, InAcquire(RecheckActive(g)))
    case RecheckActive(g) =>
      Goto(s, t, InAcquire(if s.active == Some(g) then CheckRetired(g) else BackOff(g)))
    case CheckRetired(g) =>
      if s.gens[g].retired then Goto(s, t, InAcquire(BackOff(g)))
      else Goto(s.(leases := s.leases + [Lease(g, false)]), t, Idle)
    case BackOff(g) =>
      var n := s.gens[g].readers - 1;
      Goto(SetGen(s, g, s.gens[g].(readers := n)), t,
           if n == 0 then InSignal(LoadRetired, g, RetryAcquire) else InAcquire(LoadActive))
  }

  function StepRelease(s: State, t: ThreadId, pc: ReleasePc): (r: State)
    requires t < |s.threads| && InRange(s) && PcInRange(s, InRelease(pc))
    ensures Moves(s, r, t)
  {
    match pc
    case Claim(l) =>
      if s.leases[l].released then Goto(s, t, Idle)
      else Goto(s.(leases := s.leases[l := s.leases[l].(released := true)]), t, InRelease(DropReader(s.leases[l].generation)))
    case DropReader(g) =>
      var n := s.gens[g].readers - 1;
      Goto(SetGen(s, g, s.gens[g].(readers := n)), t,
           if n == 0 then InSignal(LoadRetired, g, ReturnToCaller) else Idle)
  }

  function Resume(after: After): Pc {
    match after
    case RetryAcquire => InAcquire(LoadActive)
    case ReturnToCaller => Idle
    case ReleaseMutex => Holding(Unlock)
  }

  function StepSignal(s: State, t: ThreadId, pc: SignalPc, g: GenId, after: After): (r: State)
    requires InRange(s) && t < |s.threads| && g < |s.gens|
    ensures Moves(s, r, t)
  {
    match pc
    case LoadRetired =>
      Goto(s, t, if s.gens[g].retired then InSignal(LoadReaders, g, after) else Resume(after))
    case LoadReaders =>
      Goto(s, t, if s.gens[g].readers == 0 then InSignal(CloseDrained, g, after) else Resume(after))
    case CloseDrained =>
      Goto(SetGen(s, g, s.gens[g].(drained := true)), t, Resume(after))
  }

  function StepLock(s: State, t: ThreadId, who: Activation): (r: State)
    requires InRange(s) && t < |s.threads| && PcInRange(s, AwaitMutex(who))
    ensures Moves(s, r, t)
  {
    if s.mutex.Some? then s
    else Goto(s.(mutex := Some(t)), t,
              Holding(if who.Plain? then CheckNextRetired(who.generation) else LoadOld(who.accepted)))
  }

  function StepCritical(s: State, t: ThreadId, pc: CriticalPc): (r: State)
    requires t < |s.threads| && InRange(s) && PcInRange(s, Holding(pc))
    ensures Moves(s, r, t)
  {
    match pc
    case CheckNextRetired(next) =>
      Goto(s, t, Holding(if s.gens[next].retired then Unlock else CheckNextEpoch(next)))
    case CheckNextEpoch(next) =>
      Goto(s, t, Holding(if s.gens[next].epoch != 0 then Unlock else BumpEpoch(next)))
    case BumpEpoch(next) =>
      Goto(s.(epoch := s.epoch + 1), t, Holding(StampEpoch(next, s.epoch + 1)))
    case StampEpoch(next, e) =>
      Goto(SetGen(s, next, s.gens[next].(epoch := e)), t, Holding(SwapActive(next)))
    case LoadOld(accepted) =>
      if (s.active.Some? && !s.gens[s.active.value].packaged) || !accepted then Goto(s, t, Holding(Unlock))
      else Goto(s, t, Holding(CheckRegistryEpoch(if s.active.None? then 1 else s.gens[s.active.value].epoch + 1)))
    case CheckRegistryEpoch(e) =>
      if e != s.epoch + 1 then Goto(s, t, Holding(Unlock))
      else Goto(s.(gens := s.gens + [Generation(e, true, 0, false, false)]), t, Holding(StoreEpoch(|s.gens|, e)))
    case StoreEpoch(next, e) =>
      Goto(s.(epoch := e), t, Holding(SwapActive(next)))
    case SwapActive(next) =>
      Goto(s.(active := Some(next), swaps := s.swaps + [next]), t,
           Holding(if s.active.None? then Unlock else Retire(s.active.value)))
    case Retire(prior) =>
      Goto(SetGen(s, prior, s.gens[prior].(retired := true)), t, InSignal(LoadRetired, prior, ReleaseMutex))
    case Unlock =>
      Goto(s.(mutex := None), t, Idle)
  }

  /** One atomic action of thread t. */
  function Step(s: State, t: ThreadId, a: Action): State
    requires InRange(s)
  {
    if t >= |s.threads| then s else
    match s.threads[t]
    case Idle => StartCall(s, t, a)
    case InAcquire(pc) => StepAcquire(s, t, pc)
    case InRelease(pc) => StepRelease(s, t, pc)
    case InSignal(pc, g, after) => StepSignal(s, t, pc, g, after)
    case AwaitMutex(who) => StepLock(s, t, who)
    case Holding(pc) => StepCritical(s, t, pc)
  }

  // ---------------------------------------------------------------- invariant

  predicate AcquireInRange(s: State, pc: AcquirePc) { !pc.LoadActive? ==> pc.g < |s.gens| }

  predicate CriticalInRange(s: State, pc: CriticalPc) {
    match pc
    case LoadOld(_) => true
    case CheckRegistryEpoch(_) => true
    case Unlock => true
    case Retire(prior) => prior < |s.gens|
    case _ => pc.next < |s.gens|
  }

  predicate PcInRange(s: State, pc: Pc) {
    match pc
    case Idle => true
    case InAcquire(p) => AcquireInRange(s, p)
    case InRelease(p) => if p.Claim? then p.lease < |s.leases| else p.dropped < |s.gens|
    case InSignal(_, g, _) => g < |s.gens|
    case AwaitMutex(who) => who.Plain? ==> who.generation < |s.gens|
    case Holding(p) => CriticalInRange(s, p)
  }

  predicate InRange(s: State) {
    && (s.active.Some? ==> s.active.value < |s.gens|)
    && (forall i :: 0 <= i < |s.leases| ==> s.leases[i].generation < |s.gens|)
    && (forall i :: 0 <= i < |s.swaps| ==> s.swaps[i] < |s.gens|)
    && (forall t :: 0 <= t < |s.threads| ==> PcInRange(s, s.threads[t]))
  }

  predicate Critical(pc: Pc) {
    pc.Holding? || (pc.InSignal? && pc.after.ReleaseMutex?)
  }

  ghost predicate MutualExclusion(s: State) {
    && (s.mutex.Some? ==> s.mutex.value < |s.threads|)
    && (forall t :: 0 <= t < |s.threads| ==> (Critical(s.threads[t]) <==> s.mutex == Some(t)))
  }

  /** Where the mutex holder is; `Unlock` stands for "nothing pending" when nobody holds it. */
  function Pending(s: State): CriticalPc {
    if s.mutex.Some? && s.mutex.value < |s.threads| && s.threads[s.mutex.value].Holding?
    then s.threads[s.mutex.value].critical
    else Unlock
  }

  predicate Ahead(pc: CriticalPc) { pc.StampEpoch? || pc.SwapActive? }

  ghost predicate Unswapped(s: State, g: GenId) { g < |s.gens| && g !in s.swaps && !s.gens[g].retired }

  /** What the mutex holder may rely on at each of its program points. */
  ghost predicate PendingFacts(s: State)
    requires InRange(s)
  {
    match Pending(s)
    case CheckRegistryEpoch(e) => e == |s.swaps| + 1
    case BumpEpoch(g) => Unswapped(s, g)
    case StampEpoch(g, e) => Unswapped(s, g) && e == |s.swaps| + 1
    case StoreEpoch(g, e) => Unswapped(s, g) && e == s.gens[g].epoch == |s.swaps| + 1
    case SwapActive(g) => Unswapped(s, g) && s.gens[g].epoch == |s.swaps| + 1
    case Retire(g) => |s.swaps| >= 2 && g == s.swaps[|s.swaps| - 2]
    case _ => true
  }

  /** The order of activations: distinct generations with epochs 1, 2, 3, ...; the last one is
      active; all earlier ones are retired, except one the mutex holder is about to retire. The
      epoch counter runs one ahead of the swaps exactly between the bump and the swap. */
  ghost predicate History(s: State)
    requires InRange(s)
  {
    && s.active == (if s.swaps == [] then None else Some(s.swaps[|s.swaps| - 1]))
    && (forall i, j :: 0 <= i < j < |s.swaps| ==> s.swaps[i] != s.swaps[j])
    && (forall i :: 0 <= i < |s.swaps| ==> s.gens[s.swaps[i]].epoch == i + 1)
    && s.epoch == |s.swaps| + (if Ahead(Pending(s)) then 1 else 0)
    && (forall g :: 0 <= g < |s.gens| && s.gens[g].retired ==> g in s.swaps && s.active != Some(g))
    && (forall i :: 0 <= i < |s.swaps| - 1 ==> s.gens[s.swaps[i]].retired || Pending(s) == Retire(s.swaps[i]))
    && PendingFacts(s)
  }

  /** A thread between its increment of `readers` and its grant or decrement. */
  predicate Holds(pc: Pc, g: GenId) {
    || pc == InAcquire(RecheckActive(g))
    || pc == InAcquire(CheckRetired(g))
    || pc == InAcquire(BackOff(g))
    || pc == InRelease(DropReader(g))
  }

  function Held(threads: seq<Pc>, g: GenId): nat {
    if threads == [] then 0
    else (if Holds(threads[0], g) then 1 else 0) + Held(threads[1..], g)
  }

  function Live(leases: seq<Lease>, g: GenId): nat {
    if leases == [] then 0
    else (if leases[0] == Lease(g, false) then 1 else 0) + Live(leases[1..], g)
  }

  ghost predicate Counted(s: State) {
    forall g :: 0 <= g < |s.gens| ==> s.gens[g].readers == Held(s.threads, g) + Live(s.leases, g)
  }

  /** No lease on g is out and no thread is past the re-check that leads to a grant. */
  ghost predicate Quiet(s: State, g: GenId) {
    && (forall i :: 0 <= i < |s.leases| ==> s.leases[i] != Lease(g, false))
    && (forall t :: 0 <= t < |s.threads| ==> s.threads[t] != InAcquire(CheckRetired(g)))
  }

  ghost predicate DrainPc(s: State, pc: Pc)
    requires PcInRange(s, pc)
  {
    && (pc.InSignal? && !pc.signal.LoadRetired? ==> s.gens[pc.on].retired)
    && (pc.InSignal? && pc.signal.CloseDrained? ==> Quiet(s, pc.on))
    && (pc.InAcquire? && !pc.acquire.LoadActive? ==> pc.acquire.g in s.swaps)
  }

  ghost predicate DrainFacts(s: State)
    requires InRange(s)
  {
    && (forall g :: 0 <= g < |s.gens| && s.gens[g].drained ==> s.gens[g].retired && Quiet(s, g))
    && (forall t :: 0 <= t < |s.threads| ==> DrainPc(s, s.threads[t]))
    && (forall i :: 0 <= i < |s.leases| ==> s.leases[i].generation in s.swaps)
  }

  ghost predicate SomeoneSignals(s: State, g: GenId) {
    exists t :: 0 <= t < |s.threads| && s.threads[t].InSignal? && s.threads[t].on == g
  }

  ghost predicate Woken(s: State) {
    forall g :: 0 <= g < |s.gens| && s.gens[g].retired && s.gens[g].readers == 0 && !s.gens[g].drained ==> SomeoneSignals(s, g)
  }

  ghost predicate Inv(s: State) {
    InRange(s) && MutualExclusion(s) && History(s) && Counted(s) && DrainFacts(s) && Woken(s)
  }
}

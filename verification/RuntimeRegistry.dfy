/** The registry itself, one atomic action at a time. */
module RuntimeRegistry {
  import opened Wrappers
  import opened CatalogRuntime
  import opened RuntimeSteps

  /** The registry, its generations and leases as mutable fields. Each method performs the one
      atomic action its thread stands at and is proved equal to the transition above. */
  class Registry {
    var active: Option<GenId>
    var epoch: nat
    var mutex: Option<ThreadId>
    var gens: seq<Generation>
    var leases: seq<Lease>
    var threads: seq<Pc>
    ghost var swaps: seq<GenId>

    ghost function Snapshot(): State
      reads this
    {
      State(active, epoch, mutex, gens, leases, threads, swaps)
    }

    ghost predicate Valid()
      reads this
    {
      Inv(Snapshot())
    }

    constructor (threadCount: nat)
      ensures Valid() && Snapshot() == Init(threadCount)
    {
      active, epoch, mutex := None, 0, None;
      gens, leases, threads, swaps := [], [], Init(threadCount).threads, [];
      InitInv(threadCount);
    }

    method Advance(t: ThreadId, a: Action)
      requires Valid()
      modifies this
      ensures Valid() && Snapshot() == Step(old(Snapshot()), t, a)
    {
      StepKeepsInv(Snapshot(), t, a);
      if t < |threads| {
        match threads[t] {
          case Idle => Call(t, a);
          case InAcquire(_) => Acquire(t);
          case InRelease(_) => Release(t);
          case InSignal(_, _, _) => Signal(t);
          case AwaitMutex(_) => Lock(t);
          case Holding(_) => Activate(t);
        }
      }
    }

    method Call(t: ThreadId, a: Action)
      requires InRange(Snapshot()) && t < |threads|
      modifies this`gens, this`threads
      ensures Snapshot() == StartCall(old(Snapshot()), t, a)
    {
      match a {
        case CallNew(packaged) => gens := gens + [Generation(0, packaged, 0, false, false)];
        case CallAcquire => threads := threads[t := InAcquire(LoadActive)];
        case CallRelease(l) => if l < |leases| { threads := threads[t := InRelease(Claim(l))]; }
        case CallActivate(g) => if g < |gens| { threads := threads[t := AwaitMutex(Plain(g))]; }
        case CallActivatePackage(accepted) => threads := threads[t := AwaitMutex(Package(accepted))];
      }
    }

    method Acquire(t: ThreadId)
      requires InRange(Snapshot()) && t < |threads| && threads[t].InAcquire?
      modifies this`gens, this`leases, this`threads
      ensures Snapshot() == StepAcquire(old(Snapshot()), t, old(threads[t].acquire))
    {
      assert PcInRange(Snapshot(), threads[t]);
      var next := Idle;
      match threads[t].acquire {
        case LoadActive =>
          if active.Some? { next := InAcquire(AddReader(active.value)); }
        case AddReader(g) =>
          gens := gens[g := gens[g].(readers := gens[g].readers + 1)];
          next := InAcquire(RecheckActive(g));
        case RecheckActive(g) =>
          next := InAcquire(if active == Some(g) then CheckRetired(g) else BackOff(g));
        case CheckRetired(g) =>
          if gens[g].retired { next := InAcquire(BackOff(g)); } else { leases := leases + [Lease(g, false)]; }
        case BackOff(g) =>
          gens := gens[g := gens[g].(readers := gens[g].readers - 1)];
          next := if gens[g].readers == 0 then InSignal(LoadRetired, g, RetryAcquire) else InAcquire(LoadActive);
      }
      threads := threads[t := next];
    }

    method Release(t: ThreadId)
      requires InRange(Snapshot()) && t < |threads| && threads[t].InRelease?
      modifies this`gens, this`leases, this`threads
      ensures Snapshot() == StepRelease(old(Snapshot()), t, old(threads[t].release))
    {
      assert PcInRange(Snapshot(), threads[t]);
      var next := Idle;
      match threads[t].release {
        case Claim(l) =>
          if !leases[l].released {
            next := InRelease(DropReader(leases[l].generation));
            leases := leases[l := leases[l].(released := true)];
          }
        case DropReader(g) =>
          gens := gens[g := gens[g].(readers := gens[g].readers - 1)];
          if gens[g].readers == 0 { next := InSignal(LoadRetired, g, ReturnToCaller); }
      }
      threads := threads[t := next];
    }

    method Signal(t: ThreadId)
      requires InRange(Snapshot()) && t < |threads| && threads[t].InSignal?
      modifies this`gens, this`threads
      ensures Snapshot() == StepSignal(old(Snapshot()), t, old(threads[t].signal), old(threads[t].on), old(threads[t].after))
    {
      assert PcInRange(Snapshot(), threads[t]);
      var InSignal(pc, g, after) := threads[t];
      var next := Resume(after);
      match pc {
        case LoadRetired => if gens[g].retired { next := InSignal(LoadReaders, g, after); }
        case LoadReaders => if gens[g].readers == 0 { next := InSignal(CloseDrained, g, after); }
        case CloseDrained => gens := gens[g := gens[g].(drained := true)];
      }
      threads := threads[t := next];
    }

    method Lock(t: ThreadId)
      requires InRange(Snapshot()) && t < |threads| && threads[t].AwaitMutex?
      modifies this`mutex, this`threads
      ensures PcInRange(old(Snapshot()), AwaitMutex(old(threads[t].who)))
      ensures Snapshot() == StepLock(old(Snapshot()), t, old(threads[t].who))
    {
      assert PcInRange(Snapshot(), threads[t]);
      if mutex.None? {
        mutex := Some(t);
        var who := threads[t].who;
        threads := threads[t := Holding(if who.Plain? then CheckNextRetired(who.generation) else LoadOld(who.accepted))];
      }
    }

    method Activate(t: ThreadId)
      requires InRange(Snapshot()) && t < |threads| && threads[t].Holding?
      modifies this
      ensures PcInRange(old(Snapshot()), Holding(old(threads[t].critical)))
      ensures Snapshot() == StepCritical(old(Snapshot()), t, old(threads[t].critical))
    {
      assert PcInRange(Snapshot(), threads[t]);
      var next := Holding(Unlock);
      match threads[t].critical {
        case CheckNextRetired(g) =>
          if !gens[g].retired { next := Holding(CheckNextEpoch(g)); }
        case CheckNextEpoch(g) =>
          if gens[g].epoch == 0 { next := Holding(BumpEpoch(g)); }
        case BumpEpoch(g) =>
          epoch := epoch + 1;
          next := Holding(StampEpoch(g, epoch));
        case StampEpoch(g, e) =>
          gens := gens[g := gens[g].(epoch := e)];
          next := Holding(SwapActive(g));
        case LoadOld(accepted) =>
          if accepted && (active.None? || gens[active.value].packaged) {
            next := Holding(CheckRegistryEpoch(if active.None? then 1 else gens[active.value].epoch + 1));
          }
        case CheckRegistryEpoch(e) =>
          if e == epoch + 1 {
            next := Holding(StoreEpoch(|gens|, e));
            gens := gens + [Generation(e, true, 0, false, false)];
          }
        case StoreEpoch(g, e) =>
          epoch := e;
          next := Holding(SwapActive(g));
        case SwapActive(g) =>
          if active.Some? { next := Holding(Retire(active.value)); }
          active, swaps := Some(g), swaps + [g];
        case Retire(g) =>
          gens := gens[g := gens[g].(retired := true)];
          next := InSignal(LoadRetired, g, ReleaseMutex);
        case Unlock =>
          mutex := None;
          next := Idle;
      }
      threads := threads[t := next];
    }
  }
}

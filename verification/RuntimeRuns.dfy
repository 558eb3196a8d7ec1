/** The theorems about runs of the registry. */
module RuntimeRuns {
  import opened Wrappers
  import opened CatalogRuntime
  import opened RuntimeSteps

  ghost predicate StepAt(trace: seq<State>, k: nat)
    requires k + 1 < |trace|
  {
    InRange(trace[k]) && exists t: ThreadId, a: Action :: trace[k + 1] == Step(trace[k], t, a)
  }

  /** Every finite run of n threads: any interleaving of their atomic actions. */
  ghost predicate IsRun(n: nat, trace: seq<State>) {
    && trace != [] && trace[0] == Init(n)
    && forall k: nat :: k + 1 < |trace| ==> StepAt(trace, k)
  }

  lemma {:induction false} RunInv(n: nat, trace: seq<State>, k: nat)
    requires IsRun(n, trace) && k < |trace|
    ensures Inv(trace[k])
  {
    if k == 0 {
      InitInv(n);
    } else {
      var j := k - 1;
      RunInv(n, trace, j);
      assert StepAt(trace, j);
      TurnKeepsInv(trace, j);
    }
  }

  lemma TurnKeepsInv(trace: seq<State>, k: nat)
    requires k + 1 < |trace| && Inv(trace[k]) && StepAt(trace, k)
    ensures Inv(trace[k + 1])
  {
    var t: ThreadId, a: Action :| trace[k + 1] == Step(trace[k], t, a);
    StepKeepsInv(trace[k], t, a);
  }

  /** What any step leaves standing. */
  ghost predicate Later(s: State, s': State) {
    && |s'.threads| == |s.threads|
    && |s.gens| <= |s'.gens|
    && s.swaps <= s'.swaps
    && |s.leases| <= |s'.leases|
    && (forall i :: 0 <= i < |s.leases| ==> s'.leases[i].generation == s.leases[i].generation)
  }

  lemma LaterStep(n: nat, trace: seq<State>, k: nat)
    requires IsRun(n, trace) && k + 1 < |trace|
    ensures Later(trace[k], trace[k + 1])
  {
    assert StepAt(trace, k);
    var t: ThreadId, a: Action :| trace[k + 1] == Step(trace[k], t, a);
    if t < |trace[k].threads| { StepMoves(trace[k], t, a); }
  }

  lemma {:induction false} RunLater(n: nat, trace: seq<State>, j: nat, k: nat)
    requires IsRun(n, trace) && j <= k < |trace|
    ensures Later(trace[j], trace[k])
  {
    if j < k {
      RunLater(n, trace, j, k - 1);
      LaterStep(n, trace, k - 1);
    }
  }

  // ---------------------------------------------------------------- no lost wakeup

  /** The reader count is never wrong: it is the number of leases that are out plus the number of
      threads between their increment and their grant or decrement. A retired generation whose
      count is 0 is drained, unless a thread is inside `signal` for it. */
  lemma NoLostWakeup(n: nat, trace: seq<State>, k: nat, g: GenId)
    requires IsRun(n, trace) && k < |trace| && g < |trace[k].gens|
    ensures var s := trace[k];
      && s.gens[g].readers == Held(s.threads, g) + Live(s.leases, g)
      && (s.gens[g].retired && s.gens[g].readers == 0 && !SomeoneSignals(s, g) ==> s.gens[g].drained)
  {
    RunInv(n, trace, k);
  }

  /** Once every call has returned, exactly the replaced generations without a lease are drained. */
  lemma DrainedWhenIdle(n: nat, trace: seq<State>, k: nat, g: GenId)
    requires IsRun(n, trace) && k < |trace| && g < |trace[k].gens|
    requires forall t :: 0 <= t < |trace[k].threads| ==> trace[k].threads[t] == Idle
    ensures var s := trace[k];
      s.gens[g].drained <==> g in s.swaps && s.active != Some(g) && (forall i :: 0 <= i < |s.leases| ==> s.leases[i] != Lease(g, false))
  {
    RunInv(n, trace, k);
    var s := trace[k];
    assert !SomeoneSignals(s, g);
    HeldNone(s.threads, g);
    if forall i :: 0 <= i < |s.leases| ==> s.leases[i] != Lease(g, false) {
      LiveNone(s.leases, g);
    }
  }

  // ---------------------------------------------------------------- drain safety

  /** Later grants are never on g. */
  ghost predicate NoGrantOn(s: State, s': State, g: GenId) {
    |s.leases| <= |s'.leases| && forall i :: |s.leases| <= i < |s'.leases| ==> s'.leases[i].generation != g
  }

  lemma StepGrants(s: State, t: ThreadId, a: Action)
    requires InRange(s)
    ensures |s.leases| == |Step(s, t, a).leases| || |s.leases| + 1 == |Step(s, t, a).leases|
    ensures |Step(s, t, a).leases| > |s.leases| ==>
      && t < |s.threads| && s.threads[t].InAcquire? && s.threads[t].acquire.CheckRetired?
      && Step(s, t, a).leases[|s.leases|] == Lease(s.threads[t].acquire.g, false)
      && !s.gens[s.threads[t].acquire.g].retired
      && Step(s, t, a).threads[t] == Idle
  {
  }

  lemma DrainedStep(n: nat, trace: seq<State>, k: nat, g: GenId)
    requires IsRun(n, trace) && k + 1 < |trace| && g < |trace[k].gens| && trace[k].gens[g].drained
    ensures g < |trace[k + 1].gens| && trace[k + 1].gens[g].drained
    ensures NoGrantOn(trace[k], trace[k + 1], g)
  {
    RunInv(n, trace, k);
    assert StepAt(trace, k);
    var t: ThreadId, a: Action :| trace[k + 1] == Step(trace[k], t, a);
    RetiredStays(trace[k], t, a, g);
    if t < |trace[k].threads| { StepNotDrained(trace[k], t, a, g); }
    StepGrants(trace[k], t, a);
  }

  lemma {:induction false} DrainedRun(n: nat, trace: seq<State>, j: nat, k: nat, g: GenId)
    requires IsRun(n, trace) && j <= k < |trace| && g < |trace[j].gens| && trace[j].gens[g].drained
    ensures g < |trace[k].gens| && trace[k].gens[g].drained
    ensures NoGrantOn(trace[j], trace[k], g)
  {
    if j < k {
      DrainedRun(n, trace, j, k - 1, g);
      DrainedStep(n, trace, k - 1, g);
      LaterStep(n, trace, k - 1);
    }
  }

  /** Once `drained` is closed it stays closed, no lease on the generation is out, and none is
      ever granted again, however the run goes on. */
  lemma DrainSafety(n: nat, trace: seq<State>, j: nat, k: nat, g: GenId)
    requires IsRun(n, trace) && j <= k < |trace| && g < |trace[j].gens| && trace[j].gens[g].drained
    ensures g < |trace[k].gens| && trace[k].gens[g].drained
    ensures forall i :: 0 <= i < |trace[k].leases| ==> trace[k].leases[i] != Lease(g, false)
    ensures NoGrantOn(trace[j], trace[k], g)
  {
    DrainedRun(n, trace, j, k, g);
    RunInv(n, trace, k);
  }

  // ---------------------------------------------------------------- grants

  /** Thread t is inside an Acquire attempt that has loaded g from `active`. */
  predicate Attempting(s: State, t: ThreadId, g: GenId) {
    t < |s.threads| && s.threads[t].InAcquire? && !s.threads[t].acquire.LoadActive? && s.threads[t].acquire.g == g
  }

  /** The attempt thread t is making at k loaded g, then active, at j, and has not left it since. */
  ghost predicate AttemptSince(trace: seq<State>, j: nat, k: nat, t: ThreadId, g: GenId) {
    && j < k < |trace| && t < |trace[j].threads|
    && trace[j].threads[t] == InAcquire(LoadActive) && trace[j].active == Some(g)
    && (forall m :: j < m <= k ==> Attempting(trace[m], t, g))
  }

  lemma StepAttempt(s: State, t: ThreadId, a: Action, u: ThreadId, g: GenId)
    requires InRange(s) && Attempting(Step(s, t, a), u, g)
    ensures u < |s.threads|
    ensures Attempting(s, u, g) || (s.threads[u] == InAcquire(LoadActive) && s.active == Some(g))
    ensures Step(s, t, a).threads[u] == InAcquire(BackOff(g)) && s.threads[u] != InAcquire(BackOff(g)) ==>
      s.active != Some(g) || (g < |s.gens| && s.gens[g].retired)
  {
    if t < |s.threads| {
      StepMoves(s, t, a);
      assert PcInRange(s, s.threads[t]);
    }
  }

  lemma AttemptStep(n: nat, trace: seq<State>, k: nat, u: ThreadId, g: GenId)
    requires IsRun(n, trace) && k + 1 < |trace| && Attempting(trace[k + 1], u, g)
    ensures u < |trace[k].threads|
    ensures Attempting(trace[k], u, g) || (trace[k].threads[u] == InAcquire(LoadActive) && trace[k].active == Some(g))
    ensures trace[k + 1].threads[u] == InAcquire(BackOff(g)) && trace[k].threads[u] != InAcquire(BackOff(g)) ==>
      trace[k].active != Some(g)
  {
    RunInv(n, trace, k);
    assert StepAt(trace, k);
    var t: ThreadId, a: Action :| trace[k + 1] == Step(trace[k], t, a);
    StepAttempt(trace[k], t, a, u, g);
  }

  lemma {:induction false} AttemptStart(n: nat, trace: seq<State>, k: nat, t: ThreadId, g: GenId) returns (j: nat)
    requires IsRun(n, trace) && k < |trace| && Attempting(trace[k], t, g)
    ensures AttemptSince(trace, j, k, t, g)
  {
    assert k > 0;
    AttemptStep(n, trace, k - 1, t, g);
    if Attempting(trace[k - 1], t, g) {
      j := AttemptStart(n, trace, k - 1, t, g);
    } else {
      j := k - 1;
    }
  }

  /** Turn k grants lease i: thread t passes both re-checks of its Acquire. */
  ghost predicate Grants(trace: seq<State>, k: nat, t: ThreadId, i: LeaseId, g: GenId) {
    && k + 1 < |trace| && t < |trace[k].threads| == |trace[k + 1].threads|
    && trace[k].threads[t] == InAcquire(CheckRetired(g)) && trace[k + 1].threads[t] == Idle
    && |trace[k].leases| == i && |trace[k + 1].leases| == i + 1 && trace[k + 1].leases[i] == Lease(g, false)
    && g < |trace[k].gens| && !trace[k].gens[g].retired
  }

  lemma {:induction false} GrantTurn(n: nat, trace: seq<State>, end: nat, i: LeaseId) returns (k: nat, t: ThreadId)
    requires IsRun(n, trace) && end < |trace| && i < |trace[end].leases|
    ensures k < end && Grants(trace, k, t, i, trace[end].leases[i].generation)
  {
    assert end > 0;
    LaterStep(n, trace, end - 1);
    if i < |trace[end - 1].leases| {
      k, t := GrantTurn(n, trace, end - 1, i);
    } else {
      k := end - 1;
      t := GrantStep(n, trace, k);
    }
  }

  lemma GrantStep(n: nat, trace: seq<State>, k: nat) returns (t: ThreadId)
    requires IsRun(n, trace) && k + 1 < |trace| && |trace[k].leases| < |trace[k + 1].leases|
    ensures Grants(trace, k, t, |trace[k].leases|, trace[k + 1].leases[|trace[k].leases|].generation)
  {
    LaterStep(n, trace, k);
    assert StepAt(trace, k);
    var u: ThreadId, a: Action :| trace[k + 1] == Step(trace[k], u, a);
    t := u;
    StepGrants(trace[k], t, a);
    assert PcInRange(trace[k], trace[k].threads[t]);
  }

  /** Every lease was granted by an Acquire attempt that found its generation active, and at the
      moment of the grant the generation was not retired. */
  lemma LeaseWasActive(n: nat, trace: seq<State>, end: nat, i: LeaseId) returns (j: nat, k: nat, t: ThreadId)
    requires IsRun(n, trace) && end < |trace| && i < |trace[end].leases|
    ensures var g := trace[end].leases[i].generation;
      k < end && Grants(trace, k, t, i, g) && AttemptSince(trace, j, k, t, g)
  {
    k, t := GrantTurn(n, trace, end, i);
    j := AttemptStart(n, trace, k, t, trace[end].leases[i].generation);
  }

  lemma {:induction false} BackedOffInactive(n: nat, trace: seq<State>, k: nat, t: ThreadId, g: GenId)
    requires IsRun(n, trace) && k < |trace| && t < |trace[k].threads| && trace[k].threads[t] == InAcquire(BackOff(g))
    ensures trace[k].active != Some(g)
  {
    assert k > 0;
    AttemptStep(n, trace, k - 1, t, g);
    if trace[k - 1].threads[t] == InAcquire(BackOff(g)) { BackedOffInactive(n, trace, k - 1, t, g); }
    var j := AttemptStart(n, trace, k, t, g);
    StaysInactive(n, trace, j, k - 1, k, g);
  }

  /** A generation that was replaced never becomes active again. */
  lemma StaysInactive(n: nat, trace: seq<State>, i: nat, j: nat, k: nat, g: GenId)
    requires IsRun(n, trace) && i <= j <= k < |trace|
    requires trace[i].active == Some(g) && trace[j].active != Some(g)
    ensures trace[k].active != Some(g)
  {
    RunLater(n, trace, i, j);
    RunLater(n, trace, j, k);
    ActiveIsLast(n, trace, i);
    ActiveIsLast(n, trace, j);
    ActiveIsLast(n, trace, k);
    var gone := |trace[i].swaps| - 1;
    assert trace[k].swaps[gone] == g && gone < |trace[j].swaps| - 1;
  }

  /** `swaps` records what it claims to: its last entry is what `active` holds, and no entry repeats. */
  lemma ActiveIsLast(n: nat, trace: seq<State>, k: nat)
    requires IsRun(n, trace) && k < |trace|
    ensures var s := trace[k];
      && s.active == (if s.swaps == [] then None else Some(s.swaps[|s.swaps| - 1]))
      && (forall i, j :: 0 <= i < j < |s.swaps| ==> s.swaps[i] != s.swaps[j])
  {
    RunInv(n, trace, k);
  }

  /** Acquire retries only when a swap has happened since its attempt loaded `active`. */
  lemma RetryMeansSwap(n: nat, trace: seq<State>, k: nat, t: ThreadId, g: GenId) returns (j: nat)
    requires IsRun(n, trace) && k < |trace| && t < |trace[k].threads| && trace[k].threads[t] == InAcquire(BackOff(g))
    ensures AttemptSince(trace, j, k, t, g)
    ensures |trace[j].swaps| < |trace[k].swaps|
  {
    j := AttemptStart(n, trace, k, t, g);
    BackedOffInactive(n, trace, k, t, g);
    RunLater(n, trace, j, k);
    RunInv(n, trace, j);
    RunInv(n, trace, k);
  }

  // ---------------------------------------------------------------- epochs

  function ActiveEpoch(s: State): nat
    requires InRange(s)
  {
    if s.active.None? then 0 else s.gens[s.active.value].epoch
  }

  /** Each change of `active`, on either activation path, installs a generation that was never
      active before and raises the active epoch by exactly one, from 0 before the first. */
  lemma EpochsRiseByOne(n: nat, trace: seq<State>, k: nat)
    requires IsRun(n, trace) && k + 1 < |trace| && trace[k + 1].active != trace[k].active
    ensures InRange(trace[k]) && InRange(trace[k + 1])
    ensures trace[k + 1].active.Some? && ActiveEpoch(trace[k + 1]) == ActiveEpoch(trace[k]) + 1
    ensures forall i :: 0 <= i <= k ==> trace[i].active != trace[k + 1].active
  {
    RunInv(n, trace, k);
    RunInv(n, trace, k + 1);
    SwapStep(n, trace, k);
    SwapRaisesEpoch(trace[k], trace[k + 1]);
    forall i | 0 <= i <= k ensures trace[i].active != trace[k + 1].active {
      if trace[i].active == trace[k + 1].active && i < k {
        if trace[k].active != trace[i].active { StaysInactive(n, trace, i, k, k + 1, trace[i].active.value); }
      }
    }
  }

  lemma SwapRaisesEpoch(s: State, s': State)
    requires InRange(s) && History(s) && InRange(s') && History(s')
    requires s'.active.Some? && s'.swaps == s.swaps + [s'.active.value]
    ensures ActiveEpoch(s') == ActiveEpoch(s) + 1
  {
  }

  lemma SwapStep(n: nat, trace: seq<State>, k: nat)
    requires IsRun(n, trace) && k + 1 < |trace| && trace[k + 1].active != trace[k].active
    ensures trace[k + 1].active.Some? && trace[k + 1].swaps == trace[k].swaps + [trace[k + 1].active.value]
  {
    assert StepAt(trace, k);
    var t: ThreadId, a: Action :| trace[k + 1] == Step(trace[k], t, a);
    assert t < |trace[k].threads|;
    if !trace[k].threads[t].Holding? { OutsideSameOrder(trace[k], t, a); }
  }

  /** The package path's guard "registry epoch differs from active generation" never fires. */
  lemma RegistryEpochAgrees(n: nat, trace: seq<State>, k: nat, t: ThreadId)
    requires IsRun(n, trace) && k < |trace| && t < |trace[k].threads|
    requires trace[k].threads[t].Holding? && trace[k].threads[t].critical.CheckRegistryEpoch?
    ensures trace[k].threads[t].critical.e == trace[k].epoch + 1
  {
    RunInv(n, trace, k);
    assert Critical(trace[k].threads[t]);
  }
}

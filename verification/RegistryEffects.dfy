/** Which activations go through, and what one leaves, read off the records and the chain alone. */
module RegistryEffects {
  import opened Wrappers
  import opened Text
  import opened Maps
  import opened Keyed
  import opened CatalogRegistry
  import opened RegistryChanges
  import opened RegistryRuns

  // ---------------------------------------------------------------- what the records say

  ghost predicate Recorded(r: Registry, component: string) { exists c :: c in r.components && c.id == component }

  ghost predicate Usable(r: Registry, component: string) { exists c :: c in r.components && c.id == component && c.status.InUse? }

  ghost predicate VersionOf(r: Registry, component: string, target: string) {
    exists v :: v in r.versions && v.id == target && v.component == component
  }

  /** Activation k is the last of the component. */
  ghost predicate Last(r: Registry, component: string, k: int) {
    && 0 <= k < |r.activations| && r.activations[k].body.component == component
    && forall i :: k < i < |r.activations| ==> r.activations[i].body.component != component
  }

  /** The last activation of the component was of this version. */
  ghost predicate Current(r: Registry, component: string, target: string) {
    exists k :: Last(r, component, k) && r.activations[k].body.target == target
  }

  /** Some activation of the component was. */
  ghost predicate Before(r: Registry, component: string, target: string) {
    exists k :: 0 <= k < |r.activations| && r.activations[k].body.component == component && r.activations[k].body.target == target
  }

  predicate Supported(a: Action) { a.Unset? || a.Activation? || a.Rollback? }

  predicate Filled(q: Request) { !IsBlank(q.reason) && !IsBlank(q.actor) && q.at != 0 }

  /** The expected version is not given, or is that of the last activation. */
  ghost predicate AsExpected(r: Registry, q: Request) {
    q.expected == "" || Current(r, Trim(q.component), Trim(q.expected))
  }

  ghost predicate MayRollBack(r: Registry, q: Request) {
    q.action.Rollback? ==> Before(r, Trim(q.component), Trim(q.target))
  }

  // ---------------------------------------------------------------- lists and what they are searched for

  lemma ComponentFound(r: Registry, component: string)
    requires ComponentsOk(r)
    ensures Recorded(r, component) <==> Find(ComponentKeyId, r.components, component).Some?
    ensures Usable(r, component) <==>
      Find(ComponentKeyId, r.components, component).Some? && Find(ComponentKeyId, r.components, component).value.status.InUse?
  {
    forall c | c in r.components && c.id == component ensures Find(ComponentKeyId, r.components, component) == Some(c) {
      FindMember(ComponentKeyId, r.components, c);
    }
  }

  lemma VersionFound(r: Registry, component: string, target: string)
    requires VersionsOk(r)
    ensures VersionOf(r, component, target) <==>
      Find(VersionKey, r.versions, target).Some? && Find(VersionKey, r.versions, target).value.component == component
  {
    forall v | v in r.versions && v.id == target ensures Find(VersionKey, r.versions, target) == Some(v) {
      FindMember(VersionKey, r.versions, v);
    }
  }

  lemma {:induction false} LastFound(acts: seq<ActivationRecord>, component: string) returns (k: int)
    ensures LastOf(acts, component).Some? ==>
      && 0 <= k < |acts| && acts[k] == LastOf(acts, component).value && acts[k].body.component == component
      && forall i :: k < i < |acts| ==> acts[i].body.component != component
    ensures LastOf(acts, component).None? ==> forall i :: 0 <= i < |acts| ==> acts[i].body.component != component
  {
    k := |acts| - 1;
    if acts != [] && acts[|acts| - 1].body.component != component {
      k := LastFound(acts[..|acts| - 1], component);
    }
  }

  /** The active version on record is that of the last activation. */
  lemma CurrentFound(r: Registry, component: string, target: string)
    requires PointersLatest(r)
    ensures var p := Find(PointerKey, r.active, component);
      Current(r, component, target) <==> p.Some? && p.value.version == target
  {
    assert PointsToLast(r, component);
    var k := LastFound(r.activations, component);
    if LastOf(r.activations, component).Some? { assert Last(r, component, k); }
  }

  lemma BeforeFound(r: Registry, component: string, target: string)
    ensures Before(r, component, target) <==> WasActivated(r.activations, component, target)
  {
  }

  // ---------------------------------------------------------------- which activations go through

  /** All that Activate asks for. */
  ghost predicate Demanded(r: Registry, q: Request) {
    && Usable(r, Trim(q.component)) && VersionOf(r, Trim(q.component), Trim(q.target))
    && AsExpected(r, q) && !Current(r, Trim(q.component), Trim(q.target))
    && MayRollBack(r, q) && Supported(q.action) && Filled(q)
  }

  /** The first demand that is not met. */
  function FirstUnmet(known: bool, usable: bool, version: bool, expected: bool, other: bool, rollback: bool, supported: bool, filled: bool): Option<Error> {
    if !known then Some(UnknownComponent)
    else if !usable then Some(NotInUse)
    else if !version then Some(WrongVersion)
    else if !expected then Some(PreconditionFailed)
    else if !other then Some(AlreadyActive)
    else if !rollback then Some(NeverActive)
    else if !supported then Some(UnsupportedAction)
    else if !filled then Some(MissingFields)
    else None
  }

  lemma RefusalIsFirst(r: Registry, q: Request)
    ensures var c, v, p := Find(ComponentKeyId, r.components, Trim(q.component)), Find(VersionKey, r.versions, Trim(q.target)),
                           Find(PointerKey, r.active, Trim(q.component));
      Refusal(r, q) == FirstUnmet(c.Some?, c.Some? && c.value.status.InUse?, v.Some? && v.value.component == Trim(q.component),
        q.expected == "" || (p.Some? && p.value.version == Trim(q.expected)), !(p.Some? && p.value.version == Trim(q.target)),
        q.action.Rollback? ==> WasActivated(r.activations, Trim(q.component), Trim(q.target)), Supported(q.action), Filled(q))
  {
  }

  lemma Checked(r: Registry, q: Request)
    requires RegistryOk(r) && PointersLatest(r)
    ensures var c, v := Trim(q.component), Trim(q.target);
      Refusal(r, q) == FirstUnmet(Recorded(r, c), Usable(r, c), VersionOf(r, c, v), AsExpected(r, q), !Current(r, c, v),
                                  MayRollBack(r, q), Supported(q.action), Filled(q))
  {
    ComponentFound(r, Trim(q.component));
    VersionFound(r, Trim(q.component), Trim(q.target));
    CurrentFound(r, Trim(q.component), Trim(q.expected));
    CurrentFound(r, Trim(q.component), Trim(q.target));
    BeforeFound(r, Trim(q.component), Trim(q.target));
    RefusalIsFirst(r, q);
  }

  lemma DemandedChecked(r: Registry, q: Request)
    requires RegistryOk(r) && PointersLatest(r)
    ensures Refusal(r, q).None? <==> Demanded(r, q)
  {
    Checked(r, q);
    ComponentFound(r, Trim(q.component));
  }

  /** After any run an activation goes through if and only if its component is on record and in use, its
      target is one of its versions and not that of its last activation, the expected version is not given
      or is, a rollback's target was activated before, the action is supported, and reason, actor and
      time are given. Otherwise nothing changes. */
  lemma ActivateNeeds(ops: seq<Op>, q: Request)
    requires Run(ops).registry.Some?
    ensures Activated(Run(ops), q).1.Ok? <==> Demanded(Run(ops).registry.value, q)
    ensures Activated(Run(ops), q).1.Err? ==> Activated(Run(ops), q).0 == Run(ops)
  {
    RunInv(ops);
    DemandedChecked(Run(ops).registry.value, q);
    ActivateIs(Run(ops), q);
  }

  predicate RefusedWith(d: Disk, q: Request, e: Error) { Activated(d, q) == (d, Err(e)) }

  /** The first demand that is not met is the one reported. */
  lemma ActivateRefuses(ops: seq<Op>, q: Request)
    requires Run(ops).registry.Some?
    ensures var r, c, v := Run(ops).registry.value, Trim(q.component), Trim(q.target);
      var e := FirstUnmet(Recorded(r, c), Usable(r, c), VersionOf(r, c, v), AsExpected(r, q), !Current(r, c, v),
                          MayRollBack(r, q), Supported(q.action), Filled(q));
      e.Some? ==> RefusedWith(Run(ops), q, e.value)
  {
    RunInv(ops);
    Checked(Run(ops).registry.value, q);
    ActivateIs(Run(ops), q);
  }

  // ---------------------------------------------------------------- what an activation leaves

  /** The record of the request: next in the chain, an activation unless a rollback was asked for. */
  ghost predicate RecordOf(r: Registry, q: Request, a: ActivationRecord) {
    && a.body.registry == r.id && a.body.sequence == |r.activations| + 1
    && a.body.component == Trim(q.component) && a.body.target == Trim(q.target)
    && a.body.action == (if q.action.Rollback? then Rollback else Activation)
    && a.body.reason == Trim(q.reason) && a.body.actor == Trim(q.actor) && a.body.at == q.at
    && a.body.previousHash == (if r.activations == [] then NoEvent else r.activations[|r.activations| - 1].hash)
    && a.id == ActivationIdOf(a.body) && a.hash == EventHashOf(a.id, a.body)
    && Succeeds(r, Trim(q.component), a.body.previous, a.body.epoch)
  }

  /** These are the version to replace and the epoch that follows, or none and the first. */
  ghost predicate Succeeds(r: Registry, component: string, previous: string, epoch: nat) {
    && (forall k :: Last(r, component, k) ==> previous == r.activations[k].body.target && epoch == r.activations[k].body.epoch + 1)
    && ((forall k :: !Last(r, component, k)) ==> previous == "" && epoch == 1)
  }

  /** The component's pointer is to the record; no other component's pointer is touched. */
  ghost predicate Repointed(r: Registry, next: Registry, a: ActivationRecord) {
    forall p :: p in next.active <==>
      || p == PointerTo(a)
      || (p in r.active && p.component != a.body.component)
  }

  lemma SuccessionIs(r: Registry, component: string)
    requires PointersLatest(r)
    ensures var p := Find(PointerKey, r.active, component);
      Succeeds(r, component, if p.Some? then p.value.version else "", if p.Some? then p.value.epoch + 1 else 1)
  {
    assert PointsToLast(r, component);
    var k := LastFound(r.activations, component);
    if LastOf(r.activations, component).Some? { assert Last(r, component, k); }
  }

  lemma RecordIs(r: Registry, q: Request)
    requires ActivationsOk(r) && PointersLatest(r) && Supported(q.action)
    ensures RecordOf(r, q, NextActivation(r, q))
  {
    SuccessionIs(r, Trim(q.component));
  }

  function PointerTo(a: ActivationRecord): Pointer {
    Pointer(component := a.body.component, version := a.body.target, activation := a.id, epoch := a.body.epoch, at := a.body.at, actor := a.body.actor)
  }

  lemma RepointedTo(r: Registry, a: ActivationRecord)
    requires ActiveOk(r)
    ensures Repointed(r, WithActivation(r, a), a)
  {
    PutFinds(PointerKey, r.active, PointerOf(a));
  }

  /** The record is appended to the chain and its component pointed at it; both are filed, and all else is as it was. */
  ghost predicate Appended(d: Disk, after: Disk, r: Registry, next: Registry, a: ActivationRecord) {
    && next.activations == r.activations + [a] && Repointed(r, next, a)
    && next == r.(activations := next.activations, lastSequence := |r.activations| + 1, auditHead := a.hash, active := next.active)
    && after == d.(registry := Some(next), activations := d.activations[(a.body.sequence, a.id) := a],
                   active := d.active[a.body.component := PointerTo(a)])
  }

  lemma AppendedBy(d: Disk, a: ActivationRecord)
    requires Inv(d) && d.registry.Some? && a.body.sequence == |d.registry.value.activations| + 1
    ensures Appended(d, ActivatedDisk(d, a), d.registry.value, WithActivation(d.registry.value, a), a)
  {
    RepointedTo(d.registry.value, a);
  }

  /** An activation that goes through appends its record to the chain, points its component at it, files
      both, and leaves everything else as it was. */
  lemma ActivateDoes(ops: seq<Op>, q: Request) returns (a: ActivationRecord)
    requires Run(ops).registry.Some? && Activated(Run(ops), q).1.Ok?
    ensures RecordOf(Run(ops).registry.value, q, a)
    ensures Appended(Run(ops), Activated(Run(ops), q).0, Run(ops).registry.value, Activated(Run(ops), q).1.value, a)
  {
    var d, r := Run(ops), Run(ops).registry.value;
    RunInv(ops);
    DemandedChecked(r, q);
    ActivateIs(d, q);
    a := NextActivation(r, q);
    RecordIs(r, q);
    AppendedBy(d, a);
  }

  // ---------------------------------------------------------------- what is on record

  /** A component is of the registry's namespace and named after its key; a version belongs to a component on record,
      came from a source of its kind and is named after its component and identity. */
  ghost predicate Named(r: Registry) {
    && (forall c :: c in r.components ==>
          && c.complete && c.namespace == r.namespace && c.id == "catalog_component_" + Trim(r.namespace) + "/" + Trim(c.key)
          && !IsBlank(c.key) && (c.status == InUse || c.status == Retired))
    && (forall v :: v in r.versions ==>
          && v.complete && v.id == "catalog_version_" + Trim(v.component) + "/" + v.identity
          && exists c :: c in r.components && c.id == v.component && SourceOf(v.source, c.mode))
  }

  predicate SourceOf(s: Source, mode: Mode) {
    (mode == OfficialList && s == Official(true)) || (mode == Provider && s == ProviderSource(true))
  }

  /** After any run every record on record is so named, and no two are of one key, or of one component and identity. */
  lemma RecordsNamed(ops: seq<Op>)
    requires Run(ops).registry.Some?
    ensures var r := Run(ops).registry.value;
      && Named(r)
      && (forall c, d :: c in r.components && d in r.components && Trim(c.key) == Trim(d.key) ==> c == d)
      && (forall v, w :: v in r.versions && w in r.versions && v.component == w.component && v.identity == w.identity ==> v == w)
  {
    RunInv(ops);
    OkMeansNamed(Run(ops).registry.value);
  }

  lemma OkMeansNamed(r: Registry)
    requires ComponentsOk(r) && VersionsOk(r)
    ensures Named(r)
    ensures forall c, d :: c in r.components && d in r.components && Trim(c.key) == Trim(d.key) ==> c == d
    ensures forall v, w :: v in r.versions && w in r.versions && v.component == w.component && v.identity == w.identity ==> v == w
  {
    forall v | v in r.versions ensures exists c :: c in r.components && c.id == v.component && SourceOf(v.source, c.mode) {
      assert VersionFits(r.components, v);
      var c := Find(ComponentKeyId, r.components, v.component).value;
      assert c in r.components;
    }
    forall v | v in r.versions ensures VersionOk(v, Find(ComponentKeyId, r.components, v.component).value) { assert VersionFits(r.components, v); }
    forall c, d | c in r.components && d in r.components && Trim(c.key) == Trim(d.key) ensures c == d {
      FindMember(ComponentKeyId, r.components, c);
      FindMember(ComponentKeyId, r.components, d);
    }
    forall v, w | v in r.versions && w in r.versions && v.component == w.component && v.identity == w.identity ensures v == w {
      FindMember(VersionKey, r.versions, v);
      FindMember(VersionKey, r.versions, w);
    }
  }
}

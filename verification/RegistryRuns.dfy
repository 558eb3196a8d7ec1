/** The invariant over all runs, and what callers see of it. */
module RegistryRuns {
  import opened Wrappers
  import opened Text
  import opened Maps
  import opened Keyed
  import opened CatalogRegistry
  import opened RegistryChanges

  lemma NoFileClash(d: Disk, r: Registry, a: ActivationRecord)
    requires Mirrored(d, r) && a.body.sequence == |r.activations| + 1
    ensures WriteOnce(d.activations, (a.body.sequence, a.id), a) == Some(d.activations[(a.body.sequence, a.id) := a])
  {
  }

  /** From an invariant state, Activate either refuses at its checks or goes through: no later step fails. */
  lemma ActivateIs(d: Disk, q: Request)
    requires Inv(d) && d.registry.Some?
    ensures var r := d.registry.value;
      && (Refusal(r, q).Some? ==> Activated(d, q) == (d, Err(Refusal(r, q).value)))
      && (Refusal(r, q).None? ==> Activated(d, q) == (ActivatedDisk(d, NextActivation(r, q)), Ok(WithActivation(r, NextActivation(r, q)))))
  {
    var r := d.registry.value;
    if Refusal(r, q).None? {
      ChecksClear(r, q);
      ActivationKept(r, q);
      NoFileClash(d, r, NextActivation(r, q));
    }
  }

  function ActivatedDisk(d: Disk, a: ActivationRecord): Disk
    requires d.registry.Some?
  {
    d.(activations := d.activations[(a.body.sequence, a.id) := a], active := d.active[a.body.component := PointerOf(a)],
       registry := Some(WithActivation(d.registry.value, a)))
  }

  lemma ActivatedMirrored(d: Disk, a: ActivationRecord)
    requires d.registry.Some? && ActiveOk(d.registry.value) && ActivationsOk(d.registry.value) && Mirrored(d, d.registry.value)
    requires a.body.sequence == |d.registry.value.activations| + 1
    ensures Mirrored(ActivatedDisk(d, a), WithActivation(d.registry.value, a))
  {
    var r, d' := d.registry.value, ActivatedDisk(d, a);
    var next := WithActivation(r, a);
    PutFinds(PointerKey, r.active, PointerOf(a));
    forall i | 0 <= i < |next.activations| ensures ActivationStored(d', next, i) {
      if i < |r.activations| {
        assert ActivationStored(d, r, i);
        assert ActivationFits(r.activations, i, r.id, r.components, r.versions);
      }
    }
  }

  lemma ActivateKeepsInv(d: Disk, q: Request)
    requires Inv(d)
    ensures Inv(Activated(d, q).0)
  {
    if d.registry.Some? {
      var r := d.registry.value;
      ActivateIs(d, q);
      if Refusal(r, q).None? {
        ChecksClear(r, q);
        ActivationKept(r, q);
        ActivatedMirrored(d, NextActivation(r, q));
      }
    }
  }

  function RegisteredDisk(d: Disk, c: Component): Disk
    requires d.registry.Some?
  {
    d.(components := d.components[c.id := c], registry := Some(WithComponent(d.registry.value, c)))
  }

  lemma FreshComponent(d: Disk, c: Component)
    requires Inv(d) && d.registry.Some? && ComponentOk(c) && c.namespace == d.registry.value.namespace
    requires ComponentClash(d.registry.value.components, c).NoClash?
    ensures ComponentRegistered(d, c) == (RegisteredDisk(d, c), Ok(WithComponent(d.registry.value, c)))
    ensures Inv(RegisteredDisk(d, c))
  {
    ClashMeans(d.registry.value.components, c);
    ComponentKept(d.registry.value, c);
    ComponentMirrored(d, c);
    SamePointers(d.registry.value, WithComponent(d.registry.value, c));
  }

  lemma SamePointers(r: Registry, next: Registry)
    requires PointersLatest(r) && next.activations == r.activations && next.active == r.active
    ensures PointersLatest(next)
  {
    forall c ensures PointsToLast(next, c) { assert PointsToLast(r, c); }
  }

  /** The outcome of RegisterComponent by its own checks. */
  function ComponentOutcome(r: Registry, c: Component): Result<Registry, Error> {
    var known := Find(ComponentKeyId, r.components, c.id);
    if !ComponentOk(c) then Err(InvalidComponent)
    else if c.namespace != r.namespace then Err(OtherNamespace)
    else if known.None? then Ok(WithComponent(r, c))
    else if known.value == c then Ok(r)
    else Err(ComponentCollision)
  }

  /** RegisterComponent, likewise: only its own checks refuse, and the key check never does. */
  lemma RegisterComponentIs(d: Disk, c: Component)
    requires Inv(d) && d.registry.Some?
    ensures ComponentRegistered(d, c).1 == ComponentOutcome(d.registry.value, c)
    ensures Inv(ComponentRegistered(d, c).0)
  {
    var r := d.registry.value;
    if ComponentOk(c) && c.namespace == r.namespace {
      ClashIsById(r, c);
      if ComponentClash(r.components, c).NoClash? { FreshComponent(d, c); }
    }
  }

  /** Same namespace and key make the same id, so the id decides. */
  lemma ClashIsById(r: Registry, c: Component)
    requires ComponentsOk(r) && ComponentOk(c) && c.namespace == r.namespace
    ensures !ComponentClash(r.components, c).SameKey?
    ensures ComponentClash(r.components, c).NoClash? <==> Find(ComponentKeyId, r.components, c.id).None?
    ensures ComponentClash(r.components, c).Identical? <==> Find(ComponentKeyId, r.components, c.id) == Some(c)
  {
    ClashMeans(r.components, c);
    forall y | y in r.components && y.key == c.key ensures y.id == c.id { assert ComponentOk(y); }
    if c in r.components { FindMember(ComponentKeyId, r.components, c); }
    if ComponentClash(r.components, c).SameId? {
      var y :| y in r.components && y.id == c.id && y != c;
      FindMember(ComponentKeyId, r.components, y);
    }
  }

  lemma ComponentMirrored(d: Disk, c: Component)
    requires d.registry.Some? && Mirrored(d, d.registry.value) && ComponentsOk(d.registry.value)
    requires Find(ComponentKeyId, d.registry.value.components, c.id).None?
    ensures WriteOnce(d.components, c.id, c) == Some(d.components[c.id := c])
    ensures Mirrored(d.(components := d.components[c.id := c], registry := Some(WithComponent(d.registry.value, c))), WithComponent(d.registry.value, c))
  {
    var r := d.registry.value;
    var d' := d.(components := d.components[c.id := c], registry := Some(WithComponent(r, c)));
    assert Stored(d.components, c.id) == None;
    Extended(ComponentKeyId, r.components, c);
    forall i | 0 <= i < |r.activations| ensures ActivationStored(d', WithComponent(r, c), i) { assert ActivationStored(d, r, i); }
  }

  function VersionedDisk(d: Disk, v: Version): Disk
    requires d.registry.Some?
  {
    d.(versions := d.versions[v.id := v], registry := Some(WithVersion(d.registry.value, v)))
  }

  lemma FreshVersion(d: Disk, v: Version)
    requires Inv(d) && d.registry.Some? && VersionFits(d.registry.value.components, v)
    requires Find(VersionKey, d.registry.value.versions, v.id).None?
    ensures VersionRegistered(d, v) == (VersionedDisk(d, v), Ok(WithVersion(d.registry.value, v)))
    ensures Inv(VersionedDisk(d, v))
  {
    VersionKept(d.registry.value, v);
    VersionMirrored(d, v);
    SamePointers(d.registry.value, WithVersion(d.registry.value, v));
  }

  /** The outcome of RegisterVersion by its own checks. */
  function VersionOutcome(r: Registry, v: Version): Result<Registry, Error> {
    var known := Find(VersionKey, r.versions, v.id);
    if Find(ComponentKeyId, r.components, v.component).None? then Err(UnknownComponent)
    else if !VersionFits(r.components, v) then Err(InvalidVersion)
    else if known.None? then Ok(WithVersion(r, v))
    else if known.value == v then Ok(r)
    else Err(VersionCollision)
  }

  lemma RegisterVersionIs(d: Disk, v: Version)
    requires Inv(d) && d.registry.Some?
    ensures VersionRegistered(d, v).1 == VersionOutcome(d.registry.value, v)
    ensures Inv(VersionRegistered(d, v).0)
  {
    var r := d.registry.value;
    if VersionFits(r.components, v) && Find(VersionKey, r.versions, v.id).None? { FreshVersion(d, v); }
  }

  lemma VersionMirrored(d: Disk, v: Version)
    requires d.registry.Some? && Mirrored(d, d.registry.value) && VersionsOk(d.registry.value)
    requires Find(VersionKey, d.registry.value.versions, v.id).None?
    ensures WriteOnce(d.versions, v.id, v) == Some(d.versions[v.id := v])
    ensures Mirrored(d.(versions := d.versions[v.id := v], registry := Some(WithVersion(d.registry.value, v))), WithVersion(d.registry.value, v))
  {
    var r := d.registry.value;
    var d' := d.(versions := d.versions[v.id := v], registry := Some(WithVersion(r, v)));
    assert Stored(d.versions, v.id) == None;
    Extended(VersionKey, r.versions, v);
    forall i | 0 <= i < |r.activations| ensures ActivationStored(d', WithVersion(r, v), i) { assert ActivationStored(d, r, i); }
  }

  lemma InitializeKeepsInv(d: Disk, namespace: string)
    requires Inv(d)
    ensures Inv(Initialized(d, namespace).0)
    ensures d.registry.None? ==> Initialized(d, namespace).1.Ok? == !IsBlank(namespace)
  {
    if d.registry.None? {
      Visible(namespace);
      var r := NewRegistry(namespace);
      assert NamespaceOk(r) == !IsBlank(namespace);
      assert forall c :: PointsToLast(r, c);
    }
  }

  lemma {:induction false} RunInv(ops: seq<Op>)
    ensures Inv(Run(ops))
  {
    if ops != [] {
      var last := |ops| - 1;
      RunInv(ops[..last]);
      var d := Run(ops[..last]);
      match ops[last] {
        case OpInitialize(namespace) => InitializeKeepsInv(d, namespace);
        case OpComponent(c) => if d.registry.Some? { RegisterComponentIs(d, c); }
        case OpVersion(v) => if d.registry.Some? { RegisterVersionIs(d, v); }
        case OpActivate(q) => ActivateKeepsInv(d, q);
      }
    }
  }

  // ---------------------------------------------------------------- what callers see

  /** After any run, the checks of Activate decide alone: a request they clear passes the validator that
      runs once its files are written, and one they refuse changes nothing. */
  lemma ChecksSuffice(ops: seq<Op>, q: Request)
    requires Run(ops).registry.Some?
    ensures var d := Run(ops); var r := d.registry.value;
      && Activated(d, q).1 == (if Refusal(r, q).Some? then Err(Refusal(r, q).value) else Ok(WithActivation(r, NextActivation(r, q))))
      && (Refusal(r, q).Some? ==> Activated(d, q).0 == d)
  {
    RunInv(ops);
    ActivateIs(Run(ops), q);
  }

  /** After any run, each pointer is that of its component's last activation, its epoch counts them, and
      a component never activated has none. */
  lemma PointerIsLast(ops: seq<Op>, c: string)
    requires Run(ops).registry.Some?
    ensures var r := Run(ops).registry.value; var last := LastOf(r.activations, c); var p := Find(PointerKey, r.active, c);
      && (p.Some? <==> Count(r.activations, c) > 0)
      && (p.Some? ==> last.Some? && p.value == PointerOf(last.value) && p.value.epoch == Count(r.activations, c))
  {
    RunInv(ops);
    assert PointsToLast(Run(ops).registry.value, c);
  }

  /** Load: the validator passes and every listed item is on file as listed. */
  ghost predicate Loads(d: Disk) {
    && d.registry.Some? && RegistryOk(d.registry.value)
    && (forall c :: c in d.registry.value.components ==> Stored(d.components, c.id) == Some(c))
    && (forall v :: v in d.registry.value.versions ==> Stored(d.versions, v.id) == Some(v))
    && (forall i :: 0 <= i < |d.registry.value.activations| ==> ActivationStored(d, d.registry.value, i))
    && (forall p :: p in d.registry.value.active ==> Stored(d.active, p.component) == Some(p))
  }

  lemma InvLoads(d: Disk)
    requires Inv(d) && d.registry.Some?
    ensures Loads(d)
  {
    var r := d.registry.value;
    forall c | c in r.components ensures Stored(d.components, c.id) == Some(c) { FindMember(ComponentKeyId, r.components, c); }
    forall v | v in r.versions ensures Stored(d.versions, v.id) == Some(v) { FindMember(VersionKey, r.versions, v); }
    forall p | p in r.active ensures Stored(d.active, p.component) == Some(p) { FindMember(PointerKey, r.active, p); }
  }

  /** After any run, a registry that was initialized loads. */
  lemma LoadSucceeds(ops: seq<Op>)
    requires Run(ops).registry.Some?
    ensures Loads(Run(ops))
  {
    RunInv(ops);
    InvLoads(Run(ops));
  }

  /** Some activation of its component is what p names; when and by whom is left open. */
  predicate PointsAt(r: Registry, p: Pointer) {
    p.at != 0 && p.actor != "" && exists i :: 0 <= i < |r.activations| && PointsAtOne(r.activations[i], p)
  }

  predicate PointsAtOne(a: ActivationRecord, p: Pointer) { p == PointerOf(a).(at := p.at, actor := p.actor) }

  lemma FitsIsPointing(r: Registry, p: Pointer)
    requires ActivationsOk(r)
    ensures PointerFits(r, p) <==> PointsAt(r, p)
  {
    forall i | 0 <= i < |r.activations|
      ensures Names(r.activations, i, p) && PointerFits(r, p) ==> PointsAtOne(r.activations[i], p)
      ensures PointsAtOne(r.activations[i], p) && PointsAt(r, p) ==> PointerFits(r, p)
    {
      OnePointing(r, p, i);
    }
  }

  lemma OnePointing(r: Registry, p: Pointer, i: nat)
    requires ActivationsOk(r) && i < |r.activations|
    ensures Names(r.activations, i, p) && PointerFits(r, p) ==> PointsAtOne(r.activations[i], p)
    ensures PointsAtOne(r.activations[i], p) && PointsAt(r, p) ==> PointerFits(r, p)
  {
    assert ActivationFits(r.activations, i, r.id, r.components, r.versions);
    Filled(r.activations[i], r.id);
    if PointsAtOne(r.activations[i], p) { assert Names(r.activations, i, p); }
  }

  /** What the validator asks of the pointers: of a valid registry it accepts any other pointers exactly if they are sorted,
      one a component at most, and name some activation of it. That there is one for every activated component,
      that it names the last activation, and who made it when, is owed to the operations. */
  lemma PointersAccepted(r: Registry, active: seq<Pointer>)
    requires RegistryOk(r)
    ensures RegistryOk(r.(active := active)) <==>
      SortedByKey(PointerKey, active) && DistinctKeys(PointerKey, active) && forall p :: p in active ==> PointsAt(r, p)
  {
    var next := r.(active := active);
    FitsMore(r, next);
    forall p | p in active ensures PointerFits(next, p) <==> PointsAt(r, p) {
      FitsIsPointing(next, p);
      assert PointsAt(next, p) <==> PointsAt(r, p);
    }
  }

  /** So no pointer at all is accepted, */
  lemma NoPointersAccepted(r: Registry)
    requires RegistryOk(r)
    ensures RegistryOk(r.(active := []))
  {
    PointersAccepted(r, []);
  }

  /** and one pointer may be replaced by exactly those that name an activation of its component. */
  lemma PointerAccepted(r: Registry, p: Pointer)
    requires RegistryOk(r)
    ensures RegistryOk(r.(active := SortKeyed(PointerKey, Put(PointerKey, r.active, p)))) <==> PointsAt(r, p)
  {
    var active := SortKeyed(PointerKey, Put(PointerKey, r.active, p));
    PutFinds(PointerKey, r.active, p);
    PointersAccepted(r, r.active);
    PointersAccepted(r, active);
    assert p in active;
  }

  /** In particular any earlier activation's pointer, however long ago it was replaced. */
  lemma EarlierAccepted(r: Registry, i: nat)
    requires RegistryOk(r) && i < |r.activations|
    ensures RegistryOk(r.(active := SortKeyed(PointerKey, Put(PointerKey, r.active, PointerOf(r.activations[i])))))
  {
    assert ActivationFits(r.activations, i, r.id, r.components, r.versions);
    Filled(r.activations[i], r.id);
    assert PointsAtOne(r.activations[i], PointerOf(r.activations[i]));
    PointerAccepted(r, PointerOf(r.activations[i]));
  }

  // ---------------------------------------------------------------- a run with an activation

  /** The shortest run that activates version v of component c. */
  function Steps(c: Component, v: Version, q: Request): seq<Op> { [OpInitialize(c.namespace), OpComponent(c), OpVersion(v), OpActivate(q)] }

  /** Sound records in use, named without surrounding white space, and a request for them. */
  predicate Activatable(c: Component, v: Version, q: Request) {
    && ComponentOk(c) && VersionOk(v, c) && c.status.InUse? && Trim(c.namespace) == c.namespace
    && q.component == c.id == Trim(c.id) && q.target == v.id == Trim(v.id) && q.action.Unset? && q.expected == ""
    && !IsBlank(q.reason) && !IsBlank(q.actor) && q.at != 0
  }

  lemma RunNext(ops: seq<Op>, op: Op)
    ensures Run(ops + [op]) == Perform(Run(ops), op).0
  {
    assert (ops + [op])[..|ops|] == ops;
  }

  lemma ComponentJoins(d: Disk, c: Component)
    requires Inv(d) && d.registry == Some(NewRegistry(c.namespace)) && ComponentOk(c) && Trim(c.namespace) == c.namespace
    ensures ComponentRegistered(d, c).0.registry == Some(NewRegistry(c.namespace).(components := [c]))
  {
    RegisterComponentIs(d, c);
    assert [] + [c] == [c];
    assert WithComponent(d.registry.value, c) == NewRegistry(c.namespace).(components := [c]);
  }

  lemma FirstInitialized(namespace: string)
    requires !IsBlank(namespace)
    ensures Run([OpInitialize(namespace)]).registry == Some(NewRegistry(namespace))
  {
    assert [] + [OpInitialize(namespace)] == [OpInitialize(namespace)];
    RunNext([], OpInitialize(namespace));
    RunInv([]);
    InitializeKeepsInv(EMPTY, namespace);
  }

  lemma FirstComponent(c: Component)
    requires ComponentOk(c) && Trim(c.namespace) == c.namespace
    ensures Run([OpInitialize(c.namespace), OpComponent(c)]).registry == Some(NewRegistry(c.namespace).(components := [c]))
  {
    var ops := [OpInitialize(c.namespace)];
    assert ops + [OpComponent(c)] == [OpInitialize(c.namespace), OpComponent(c)];
    FirstInitialized(c.namespace);
    RunInv(ops);
    ComponentJoins(Run(ops), c);
    RunNext(ops, OpComponent(c));
  }

  /** The registry of one component and one version. */
  function OneVersion(c: Component, v: Version): Registry { NewRegistry(c.namespace).(components := [c], versions := [v]) }

  lemma VersionJoins(d: Disk, c: Component, v: Version)
    requires Inv(d) && d.registry == Some(NewRegistry(c.namespace).(components := [c])) && VersionOk(v, c)
    ensures VersionRegistered(d, v).0.registry == Some(OneVersion(c, v))
  {
    RegisterVersionIs(d, v);
    assert [] + [v] == [v];
    assert WithVersion(d.registry.value, v) == OneVersion(c, v);
  }

  lemma FirstVersion(c: Component, v: Version)
    requires ComponentOk(c) && Trim(c.namespace) == c.namespace && VersionOk(v, c)
    ensures Run([OpInitialize(c.namespace), OpComponent(c), OpVersion(v)]).registry == Some(OneVersion(c, v))
  {
    var ops := [OpInitialize(c.namespace), OpComponent(c)];
    assert ops + [OpVersion(v)] == [OpInitialize(c.namespace), OpComponent(c), OpVersion(v)];
    FirstComponent(c);
    RunInv(ops);
    VersionJoins(Run(ops), c, v);
    RunNext(ops, OpVersion(v));
  }

  /** The registry once that version is active. */
  function OneActive(c: Component, v: Version, q: Request): Registry { WithActivation(OneVersion(c, v), NextActivation(OneVersion(c, v), q)) }

  lemma ActivationJoins(d: Disk, c: Component, v: Version, q: Request)
    requires Inv(d) && d.registry == Some(OneVersion(c, v)) && Activatable(c, v, q)
    ensures Activated(d, q).0.registry == Some(OneActive(c, v, q))
  {
    NoRefusal(c, v, q);
    ActivateIs(d, q);
  }

  lemma ActivePointer(c: Component, v: Version, q: Request)
    requires Activatable(c, v, q)
    ensures var p := Find(PointerKey, OneActive(c, v, q).active, c.id); p.Some? && p.value.version == v.id
  {
    PutFinds(PointerKey, [], PointerOf(NextActivation(OneVersion(c, v), q)));
  }

  lemma NoRefusal(c: Component, v: Version, q: Request)
    requires Activatable(c, v, q)
    ensures Refusal(OneVersion(c, v), q).None?
  {
  }

  lemma PointerFollows(c: Component, v: Version, q: Request)
    requires Activatable(c, v, q)
    ensures Run(Steps(c, v, q)).registry == Some(OneActive(c, v, q))
  {
    var ops := [OpInitialize(c.namespace), OpComponent(c), OpVersion(v)];
    assert ops + [OpActivate(q)] == Steps(c, v, q);
    FirstVersion(c, v);
    RunInv(ops);
    ActivationJoins(Run(ops), c, v, q);
    RunActivate(ops, q);
  }

  lemma RunActivate(ops: seq<Op>, q: Request)
    ensures Run(ops + [OpActivate(q)]) == Activated(Run(ops), q).0
  {
    RunNext(ops, OpActivate(q));
  }

  /** A run after which a component has a pointer, and the validator would not miss it. */
  lemma MissingPointerPasses(c: Component, v: Version, q: Request)
    requires Activatable(c, v, q)
    ensures HasPointer(Run(Steps(c, v, q)), c.id) && RegistryOk(Run(Steps(c, v, q)).registry.value.(active := []))
  {
    var ops := Steps(c, v, q);
    PointerFollows(c, v, q);
    ActivePointer(c, v, q);
    RunInv(ops);
    NoPointersAccepted(Run(ops).registry.value);
  }

  predicate HasPointer(d: Disk, c: string) { d.registry.Some? && Find(PointerKey, d.registry.value.active, c).Some? }

  lemma VisibleEnds(a: string, b: string)
    requires a != "" && b != "" && !IsSpace(a[0]) && !IsSpace(b[|b| - 1])
    ensures Trim(a + b) == a + b && !IsBlank(a + b)
  {
    TrimFixed(a + b);
    Visible(a + b);
  }

  const LISTED := Component(ComponentId("n", "k"), "n", "k", OfficialList, InUse, true, "")

  const FIRST := Version(VersionId(LISTED.id, "v"), LISTED.id, "v", Official(true), true, "")

  const ASKED := Request(LISTED.id, FIRST.id, Unset, "", "r", 1, "a")

  lemma ListedOk()
    ensures ComponentOk(LISTED) && Trim("n") == "n" && Trim(LISTED.id) == LISTED.id
  {
    TrimFixed("n");
    Visible("n");
    Visible("k");
    TrimFixed("k");
    VisibleEnds("catalog_component_" + Trim("n") + "/", Trim("k"));
  }

  lemma FirstOk()
    ensures VersionOk(FIRST, LISTED) && Trim(FIRST.id) == FIRST.id
  {
    ListedOk();
    VisibleEnds("catalog_version_" + Trim(LISTED.id) + "/", "v");
  }

  /** Such records exist. */
  lemma ExampleActivatable()
    ensures Activatable(LISTED, FIRST, ASKED)
  {
    ListedOk();
    FirstOk();
    Visible("r");
    Visible("a");
  }
}

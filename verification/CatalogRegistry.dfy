/** The component registry of internal/catalogregistry: components, versions, an append-only activation chain and the
    active pointers, with the files kept beside the registry and the validator that runs after they are written. */
module CatalogRegistry {
  import opened Wrappers
  import opened Text
  import opened Maps
  import opened Keyed

  type Time = int

  // ---------------------------------------------------------------- records

  datatype Mode = OfficialList | Provider | OtherMode(name: string)

  datatype Status = InUse | Retired | OtherStatus(name: string)

  /** `complete` is the verdict of the checks on the remaining fields and the checksum; `rest` stands for those fields. */
  datatype Component = Component(id: string, namespace: string, key: string, mode: Mode, status: Status, complete: bool, rest: string)

  datatype Source = Official(complete: bool) | ProviderSource(complete: bool) | OtherSource

  datatype Version = Version(id: string, component: string, identity: string, source: Source, complete: bool, rest: string)

  datatype Action = Unset | Activation | Rollback | OtherAction(name: string)

  /** SHA-256 as an injective function of the record it covers. */
  datatype ActivationId = NoActivation | ActivationIdOf(body: ActivationBody)

  datatype EventHash = NoEvent | EventHashOf(id: ActivationId, body: ActivationBody)

  datatype ActivationBody = ActivationBody(
    registry: string,
    sequence: nat,
    component: string,
    action: Action,
    target: string,
    previous: string,
    epoch: nat,
    reason: string,
    at: Time,
    actor: string,
    previousHash: EventHash)

  datatype ActivationRecord = ActivationRecord(id: ActivationId, body: ActivationBody, hash: EventHash)

  datatype Pointer = Pointer(component: string, version: string, activation: ActivationId, epoch: nat, at: Time, actor: string)

  datatype Registry = Registry(
    namespace: string,
    id: string,
    lastSequence: nat,
    auditHead: EventHash,
    components: seq<Component>,
    versions: seq<Version>,
    activations: seq<ActivationRecord>,
    active: seq<Pointer>)

  datatype Request = Request(component: string, target: string, action: Action, expected: string, reason: string, at: Time, actor: string)

  datatype Error =
    | NotInitialized
    | OtherNamespace
    | InvalidComponent
    | ComponentCollision
    | KeyTaken
    | UnknownComponent
    | InvalidVersion
    | VersionCollision
    | NotInUse
    | WrongVersion
    | PreconditionFailed
    | AlreadyActive
    | NeverActive
    | UnsupportedAction
    | MissingFields
    | InvalidActivation
    | FileCollision
    | InvalidRegistry

  function ComponentKeyId(c: Component): string { c.id }

  function ComponentKey(c: Component): string { c.key }

  function VersionKey(v: Version): string { v.id }

  function PointerKey(p: Pointer): string { p.component }

  /** The digests that name things, by the text they cover. */
  function RegistryId(namespace: string): string { "catalog_registry_" + Trim(namespace) }

  function ComponentId(namespace: string, key: string): string { "catalog_component_" + Trim(namespace) + "/" + Trim(key) }

  function VersionId(component: string, identity: string): string { "catalog_version_" + Trim(component) + "/" + identity }

  // ---------------------------------------------------------------- the validator

  predicate ComponentOk(c: Component) {
    && c.complete && !IsBlank(c.id) && !IsBlank(c.namespace) && !IsBlank(c.key)
    && (c.mode.OfficialList? || c.mode.Provider?) && (c.status.InUse? || c.status.Retired?)
    && c.id == ComponentId(c.namespace, c.key)
  }

  predicate SourceOk(s: Source, mode: Mode) {
    (s.Official? && s.complete && mode.OfficialList?) || (s.ProviderSource? && s.complete && mode.Provider?)
  }

  predicate VersionOk(v: Version, c: Component) {
    && ComponentOk(c) && v.complete && !IsBlank(v.id) && v.component == c.id && SourceOk(v.source, c.mode)
    && v.id == VersionId(v.component, v.identity)
  }

  predicate ActivationOk(a: ActivationRecord, registry: string) {
    && !IsBlank(a.body.registry) && !IsBlank(a.body.component) && !IsBlank(a.body.target) && !IsBlank(a.body.reason) && !IsBlank(a.body.actor)
    && a.body.registry == registry && a.body.sequence != 0 && a.body.epoch != 0 && a.body.at != 0
    && (a.body.action.Activation? || a.body.action.Rollback?)
    && (a.body.action.Rollback? ==> a.body.previous != "")
    && a.id == ActivationIdOf(a.body) && a.hash == EventHashOf(a.id, a.body)
  }

  /** How often the component was activated. */
  function Count(acts: seq<ActivationRecord>, c: string): nat {
    if acts == [] then 0
    else Count(acts[..|acts| - 1], c) + (if acts[|acts| - 1].body.component == c then 1 else 0)
  }

  predicate WasActivated(acts: seq<ActivationRecord>, c: string, v: string) {
    exists i :: 0 <= i < |acts| && acts[i].body.component == c && acts[i].body.target == v
  }

  predicate NamespaceOk(r: Registry) { !IsBlank(r.namespace) && r.id == RegistryId(r.namespace) }

  predicate ComponentsOk(r: Registry) {
    && (forall c :: c in r.components ==> ComponentOk(c) && c.namespace == r.namespace)
    && DistinctKeys(ComponentKeyId, r.components) && DistinctKeys(ComponentKey, r.components)
  }

  /** The version belongs to a component on record and is sound for it. */
  predicate VersionFits(components: seq<Component>, v: Version) {
    var c := Find(ComponentKeyId, components, v.component);
    c.Some? && VersionOk(v, c.value)
  }

  predicate VersionsOk(r: Registry) {
    (forall v :: v in r.versions ==> VersionFits(r.components, v)) && DistinctKeys(VersionKey, r.versions)
  }

  /** The target is a version of the component. */
  predicate TargetFits(components: seq<Component>, versions: seq<Version>, c: string, target: string) {
    var v := Find(VersionKey, versions, target);
    Find(ComponentKeyId, components, c).Some? && v.Some? && v.value.component == c
  }

  /** Activation i continues the chain, its component's epochs and, for a rollback, returns to an earlier target. */
  predicate ActivationFits(acts: seq<ActivationRecord>, i: nat, registry: string, components: seq<Component>, versions: seq<Version>)
    requires i < |acts|
  {
    var a := acts[i];
    && a.body.sequence == i + 1 && a.body.previousHash == (if i == 0 then NoEvent else acts[i - 1].hash)
    && TargetFits(components, versions, a.body.component, a.body.target)
    && a.body.epoch == Count(acts[..i], a.body.component) + 1
    && (a.body.action.Rollback? ==> WasActivated(acts[..i], a.body.component, a.body.target))
    && ActivationOk(a, registry)
  }

  predicate ActivationsOk(r: Registry) {
    && (forall i :: 0 <= i < |r.activations| ==> ActivationFits(r.activations, i, r.id, r.components, r.versions))
    && r.lastSequence == |r.activations|
    && r.auditHead == (if r.activations == [] then NoEvent else r.activations[|r.activations| - 1].hash)
  }

  predicate Names(acts: seq<ActivationRecord>, i: nat, p: Pointer)
    requires i < |acts|
  {
    acts[i].id == p.activation && acts[i].body.target == p.version && acts[i].body.epoch == p.epoch
  }

  predicate PointerFits(r: Registry, p: Pointer) {
    && p.component != "" && p.version != "" && p.activation != NoActivation && p.epoch != 0 && p.at != 0 && p.actor != ""
    && Find(VersionKey, r.versions, p.version).Some? && Find(VersionKey, r.versions, p.version).value.component == p.component
    && exists i :: 0 <= i < |r.activations| && Names(r.activations, i, p)
  }

  predicate ActiveOk(r: Registry) {
    (forall p :: p in r.active ==> PointerFits(r, p)) && DistinctKeys(PointerKey, r.active)
  }

  predicate AllSorted(r: Registry) {
    SortedByKey(ComponentKeyId, r.components) && SortedByKey(VersionKey, r.versions) && SortedByKey(PointerKey, r.active)
  }

  /** ValidateRegistry. */
  predicate RegistryOk(r: Registry) {
    NamespaceOk(r) && ComponentsOk(r) && VersionsOk(r) && ActivationsOk(r) && ActiveOk(r) && AllSorted(r)
  }

  // ---------------------------------------------------------------- the state directory

  datatype Disk = Disk(
    registry: Option<Registry>,
    components: map<string, Component>,
    versions: map<string, Version>,
    activations: map<(nat, ActivationId), ActivationRecord>,
    active: map<string, Pointer>)

  const EMPTY := Disk(None, map[], map[], map[], map[])

  /** writeImmutable: an existing file must already hold the value. */
  function WriteOnce<K, V(==)>(files: map<K, V>, k: K, v: V): Option<map<K, V>> {
    if k in files && files[k] != v then None else Some(files[k := v])
  }

  function NewRegistry(namespace: string): Registry {
    Registry(Trim(namespace), RegistryId(namespace), 0, NoEvent, [], [], [], [])
  }

  function Initialized(d: Disk, namespace: string): (Disk, Result<Registry, Error>) {
    if d.registry.Some? then
      (d, if d.registry.value.namespace != Trim(namespace) then Err(OtherNamespace) else Ok(d.registry.value))
    else if !RegistryOk(NewRegistry(namespace)) then (d, Err(InvalidRegistry))
    else (d.(registry := Some(NewRegistry(namespace))), Ok(NewRegistry(namespace)))
  }

  datatype Clash = NoClash | Identical | SameId | SameKey

  /** The loop over the components on record: the first one with the new one's id or key decides. */
  function ComponentClash(components: seq<Component>, c: Component): Clash {
    if components == [] then NoClash
    else if components[0].id == c.id then (if components[0] != c then SameId else Identical)
    else if components[0].key == c.key then SameKey
    else ComponentClash(components[1..], c)
  }

  function WithComponent(r: Registry, c: Component): Registry {
    r.(components := SortKeyed(ComponentKeyId, r.components + [c]))
  }

  function ComponentRegistered(d: Disk, c: Component): (Disk, Result<Registry, Error>) {
    if d.registry.None? then (d, Err(NotInitialized))
    else
      var r := d.registry.value;
      if !ComponentOk(c) then (d, Err(InvalidComponent))
      else if c.namespace != r.namespace then (d, Err(OtherNamespace))
      else
        match ComponentClash(r.components, c)
        case SameId => (d, Err(ComponentCollision))
        case Identical => (d, Ok(r))
        case SameKey => (d, Err(KeyTaken))
        case NoClash =>
          var files := WriteOnce(d.components, c.id, c);
          if files.None? then (d, Err(FileCollision))
          else
            var written, next := d.(components := files.value), WithComponent(r, c);
            if !RegistryOk(next) then (written, Err(InvalidRegistry))
            else (written.(registry := Some(next)), Ok(next))
  }

  function WithVersion(r: Registry, v: Version): Registry {
    r.(versions := SortKeyed(VersionKey, r.versions + [v]))
  }

  function VersionRegistered(d: Disk, v: Version): (Disk, Result<Registry, Error>) {
    if d.registry.None? then (d, Err(NotInitialized))
    else
      var r := d.registry.value;
      var c := Find(ComponentKeyId, r.components, v.component);
      var known := Find(VersionKey, r.versions, v.id);
      if c.None? then (d, Err(UnknownComponent))
      else if !VersionOk(v, c.value) then (d, Err(InvalidVersion))
      else if known.Some? then (d, if known.value != v then Err(VersionCollision) else Ok(r))
      else
        var files := WriteOnce(d.versions, v.id, v);
        if files.None? then (d, Err(FileCollision))
        else
          var written, next := d.(versions := files.value), WithVersion(r, v);
          if !RegistryOk(next) then (written, Err(InvalidRegistry))
          else (written.(registry := Some(next)), Ok(next))
  }

  function ActionOf(q: Request): Action { if q.action.Unset? then Activation else q.action }

  /** The checks Activate makes before it builds the record, in order. */
  function Refusal(r: Registry, q: Request): Option<Error> {
    var c := Find(ComponentKeyId, r.components, Trim(q.component));
    if c.None? then Some(UnknownComponent)
    else if !c.value.status.InUse? then Some(NotInUse)
    else
      var v := Find(VersionKey, r.versions, Trim(q.target));
      var current := Find(PointerKey, r.active, c.value.id);
      if v.None? || v.value.component != c.value.id then Some(WrongVersion)
      else if q.expected != "" && (current.None? || current.value.version != Trim(q.expected)) then Some(PreconditionFailed)
      else if current.Some? && current.value.version == v.value.id then Some(AlreadyActive)
      else if ActionOf(q).Rollback? && !WasActivated(r.activations, c.value.id, v.value.id) then Some(NeverActive)
      else if !ActionOf(q).Activation? && !ActionOf(q).Rollback? then Some(UnsupportedAction)
      else if IsBlank(q.reason) || IsBlank(q.actor) || q.at == 0 then Some(MissingFields)
      else None
  }

  function SealActivation(body: ActivationBody): ActivationRecord {
    ActivationRecord(ActivationIdOf(body), body, EventHashOf(ActivationIdOf(body), body))
  }

  /** The record of an activation: the next in the chain, one epoch above the pointer it replaces. */
  function NextActivation(r: Registry, q: Request): ActivationRecord {
    var current := Find(PointerKey, r.active, Trim(q.component));
    SealActivation(ActivationBody(r.id, r.lastSequence + 1, Trim(q.component), ActionOf(q), Trim(q.target),
      if current.Some? then current.value.version else "", if current.Some? then current.value.epoch + 1 else 1,
      Trim(q.reason), q.at, Trim(q.actor), r.auditHead))
  }

  function PointerOf(a: ActivationRecord): Pointer {
    Pointer(a.body.component, a.body.target, a.id, a.body.epoch, a.body.at, a.body.actor)
  }

  function WithActivation(r: Registry, a: ActivationRecord): Registry {
    r.(activations := r.activations + [a], lastSequence := a.body.sequence, auditHead := a.hash,
       active := SortKeyed(PointerKey, Put(PointerKey, r.active, PointerOf(a))))
  }

  /** The writes of Activate: the activation file, the pointer file, and the registry once it validates. */
  function Committed(d: Disk, r: Registry, a: ActivationRecord): (Disk, Result<Registry, Error>) {
    var files := WriteOnce(d.activations, (a.body.sequence, a.id), a);
    if files.None? then (d, Err(FileCollision))
    else
      var written := d.(activations := files.value, active := d.active[a.body.component := PointerOf(a)]);
      var next := WithActivation(r, a);
      if !RegistryOk(next) then (written, Err(InvalidRegistry))
      else (written.(registry := Some(next)), Ok(next))
  }

  function Activated(d: Disk, q: Request): (Disk, Result<Registry, Error>) {
    if d.registry.None? then (d, Err(NotInitialized))
    else
      var r := d.registry.value;
      var refusal := Refusal(r, q);
      if refusal.Some? then (d, Err(refusal.value))
      else
        var a := NextActivation(r, q);
        if !ActivationOk(a, r.id) then (d, Err(InvalidActivation))
        else Committed(d, r, a)
  }

  datatype Op = OpInitialize(namespace: string) | OpComponent(component: Component) | OpVersion(version: Version) | OpActivate(request: Request)

  function Perform(d: Disk, op: Op): (Disk, Result<Registry, Error>) {
    match op
    case OpInitialize(namespace) => Initialized(d, namespace)
    case OpComponent(c) => ComponentRegistered(d, c)
    case OpVersion(v) => VersionRegistered(d, v)
    case OpActivate(q) => Activated(d, q)
  }

  function Run(ops: seq<Op>): Disk {
    if ops == [] then EMPTY else Perform(Run(ops[..|ops| - 1]), ops[|ops| - 1]).0
  }

  // ---------------------------------------------------------------- the invariant

  /** The last activation of a component. */
  function LastOf(acts: seq<ActivationRecord>, c: string): (r: Option<ActivationRecord>)
    ensures r.Some? ==> r.value in acts && r.value.body.component == c
    ensures r.None? <==> Count(acts, c) == 0
  {
    if acts == [] then None
    else if acts[|acts| - 1].body.component == c then Some(acts[|acts| - 1])
    else LastOf(acts[..|acts| - 1], c)
  }

  /** What the pointer of a component must be: none before its first activation, then that of the last one. */
  predicate PointsToLast(r: Registry, c: string) {
    var last := LastOf(r.activations, c);
    && Find(PointerKey, r.active, c) == (if last.Some? then Some(PointerOf(last.value)) else None)
    && (last.Some? ==> last.value.body.epoch == Count(r.activations, c))
  }

  ghost predicate PointersLatest(r: Registry) { forall c :: PointsToLast(r, c) }

  /** Every file holds what the registry says, and nothing else is on disk. */
  ghost predicate Mirrored(d: Disk, r: Registry) {
    && (forall k :: Stored(d.components, k) == Find(ComponentKeyId, r.components, k))
    && (forall k :: Stored(d.versions, k) == Find(VersionKey, r.versions, k))
    && (forall k :: Stored(d.active, k) == Find(PointerKey, r.active, k))
    && (forall i :: 0 <= i < |r.activations| ==> ActivationStored(d, r, i))
    && (forall k :: k in d.activations ==> k.0 <= |r.activations|)
  }

  function Stored<V>(files: map<string, V>, k: string): Option<V> { if k in files then Some(files[k]) else None }

  predicate ActivationStored(d: Disk, r: Registry, i: nat)
    requires i < |r.activations|
  {
    var a := r.activations[i];
    (a.body.sequence, a.id) in d.activations && d.activations[(a.body.sequence, a.id)] == a
  }

  ghost predicate Inv(d: Disk) {
    if d.registry.None? then d == EMPTY
    else RegistryOk(d.registry.value) && PointersLatest(d.registry.value) && Mirrored(d, d.registry.value)
  }
}

/** The mapping registry of internal/alertlistmapping: append-only, time-effective bindings of a source system's list
    to a catalog component, and the lookup of the binding in force at a point in time. */
module AlertListMapping {
  import opened Wrappers
  import opened Text
  import opened Maps
  import opened Keyed
  import C = CatalogRegistry

  /** Nanoseconds; 0 is the zero time. */
  type Time = int

  const SECOND := 1_000_000_000

  datatype Action = Bind | Retire | OtherAction(name: string)

  datatype Input = Input(
    source: string,
    list: string,
    action: Action,
    component: string,
    from: Time,
    to: Option<Time>,
    reason: string,
    createdAt: Time,
    createdBy: string)

  /** The id digests the times as text, to the whole second. */
  datatype VersionId = VersionId(
    registry: string,
    mapping: string,
    action: Action,
    component: string,
    fromSecond: int,
    toSecond: Option<int>,
    reason: string,
    createdSecond: int,
    createdBy: string)

  /** SHA-256 as an injective function of the record it covers. */
  datatype Hash = NoHash | HashOf(body: Body)

  datatype Body = Body(
    id: VersionId,
    mapping: string,
    registry: string,
    namespace: string,
    sequence: nat,
    input: Input,
    supersedes: Option<VersionId>,
    previous: Hash)

  datatype Version = Version(body: Body, hash: Hash) {
    function Mapping(): string { body.mapping }
    function From(): Time { body.input.from }
  }

  datatype Key = Key(id: string, registry: string, namespace: string, source: string, list: string, createdAt: Time, createdBy: string)

  datatype Registry = Registry(
    id: string,
    namespace: string,
    lastSequence: nat,
    auditHead: Hash,
    keys: seq<Key>,
    versions: seq<Version>)

  datatype Error =
    | NotInitialized
    | InvalidRegistry
    | FileMismatch
    | OtherNamespace
    | InvalidInput
    | NotAdvancing
    | ComponentMissing
    | ComponentRetired
    | InvalidVersion
    | VersionCollision
    | InvalidKey
    | FileCollision
    | InvalidRequest
    | MissingAlertId
    | DuplicateAlert

  function KeyId(k: Key): string { k.id }

  // ---------------------------------------------------------------- ids

  function RegistryId(namespace: string): string { "alert_list_mapping_registry_" + namespace }

  /** The text whose digest names a mapping. */
  function MappingId(namespace: string, source: string, list: string): string {
    "alert_list_mapping_" + source + "/" + list + "\n" + namespace
  }

  function Second(t: Time): int { t / SECOND }

  function SecondOf(t: Option<Time>): Option<int> { if t.Some? then Some(Second(t.value)) else None }

  function VersionIdOf(registry: string, mapping: string, q: Input): VersionId {
    VersionId(registry, mapping, q.action, Trim(q.component), Second(q.from), SecondOf(q.to), Trim(q.reason), Second(q.createdAt), Trim(q.createdBy))
  }

  // ---------------------------------------------------------------- validity of the parts

  predicate SourceChar(c: char) { 'a' <= c <= 'z' || '0' <= c <= '9' || c == '.' || c == '_' || c == '-' }

  predicate SourceOk(s: string) {
    && 1 <= |s| <= 128 && ('a' <= s[0] <= 'z' || '0' <= s[0] <= '9')
    && forall i :: 0 <= i < |s| ==> SourceChar(s[i])
  }

  predicate ListOk(s: string) {
    s != "" && |Bytes(s)| <= 512 && forall c :: c in s ==> c != '\0' && c != '\n' && c != '\r'
  }

  predicate InputOk(q: Input) {
    && SourceOk(q.source) && ListOk(q.list)
    && (q.action.Bind? || q.action.Retire?)
    && (q.action.Bind? ==> !IsBlank(q.component)) && (q.action.Retire? ==> IsBlank(q.component))
    && q.from != 0 && (q.to.Some? ==> q.to.value > q.from)
    && !IsBlank(q.reason) && !IsBlank(q.createdBy) && q.createdAt != 0
  }

  predicate KeyOk(k: Key) {
    && k.registry != "" && k.namespace != "" && k.id != "" && SourceOk(k.source) && ListOk(k.list)
    && k.createdAt != 0 && !IsBlank(k.createdBy) && k.id == MappingId(k.namespace, k.source, k.list)
  }

  /** What ValidateVersion checks of the version itself. */
  predicate VersionSound(v: Version, r: Registry) {
    && v.body.registry == r.id && v.body.namespace == r.namespace && InputOk(v.body.input)
    && v.body.mapping == MappingId(v.body.namespace, v.body.input.source, v.body.input.list)
    && v.body.id == VersionIdOf(v.body.registry, v.body.mapping, v.body.input)
    && v.body.sequence != 0 && v.hash == HashOf(v.body)
  }

  /** What ValidateVersion checks against the catalog, unless none is given. */
  predicate Bound(v: Version, catalog: C.Registry) {
    v.body.input.action.Bind? && catalog.id != "" ==>
      var c := Find(C.ComponentKeyId, catalog.components, v.body.input.component);
      c.Some? && c.value.namespace == v.body.namespace
  }

  // ---------------------------------------------------------------- the registry validator

  /** The last version of a mapping in the list. */
  function LastOf(versions: seq<Version>, m: string): (r: Option<Version>)
    ensures r.Some? ==> r.value in versions && r.value.Mapping() == m
    ensures r.None? <==> forall v :: v in versions ==> v.Mapping() != m
  {
    if versions == [] then None
    else
      assert versions == versions[..|versions| - 1] + [versions[|versions| - 1]];
      if versions[|versions| - 1].Mapping() == m then Some(versions[|versions| - 1]) else LastOf(versions[..|versions| - 1], m)
  }

  function IdsBefore(versions: seq<Version>, n: nat): set<VersionId>
    requires n <= |versions|
  {
    set k | 0 <= k < n :: versions[k].body.id
  }

  predicate KeysOk(r: Registry) {
    && (forall k :: k in r.keys ==> KeyOk(k) && k.registry == r.id && k.namespace == r.namespace)
    && DistinctKeys(KeyId, r.keys)
  }

  /** The version's mapping is keyed under its source and list. */
  predicate IsKeyed(r: Registry, v: Version) {
    var k := Find(KeyId, r.keys, v.Mapping());
    k.Some? && k.value.source == v.body.input.source && k.value.list == v.body.input.list
  }

  /** After the given predecessor of its mapping, if any, the version takes effect strictly later and supersedes it. */
  predicate Advances(last: Option<Version>, v: Version) {
    if last.Some? then v.From() > last.value.From() && v.body.supersedes == Some(last.value.body.id)
    else v.body.supersedes.None?
  }

  predicate VersionFits(r: Registry, i: nat)
    requires i < |r.versions|
  {
    var v := r.versions[i];
    && v.body.sequence == i + 1 && v.body.previous == (if i == 0 then NoHash else r.versions[i - 1].hash)
    && v.body.id !in IdsBefore(r.versions, i) && IsKeyed(r, v) && Advances(LastOf(r.versions[..i], v.Mapping()), v)
    && VersionSound(v, r)
  }

  predicate HeadOk(r: Registry) {
    && r.lastSequence == |r.versions|
    && r.auditHead == (if r.versions == [] then NoHash else r.versions[|r.versions| - 1].hash)
  }

  /** ValidateRegistry without a catalog. */
  predicate RegistryOk(r: Registry) {
    && r.id == RegistryId(r.namespace) && r.namespace != "" && KeysOk(r)
    && (forall i :: 0 <= i < |r.versions| ==> VersionFits(r, i))
    && HeadOk(r) && SortedByKey(KeyId, r.keys)
  }

  /** What a catalog adds: its namespace, and every bound component on record in it. */
  predicate CatalogOk(r: Registry, catalog: C.Registry) {
    && (catalog.id != "" ==> catalog.namespace == r.namespace)
    && forall v :: v in r.versions ==> Bound(v, catalog)
  }

  predicate Valid(r: Registry, catalog: C.Registry) { RegistryOk(r) && CatalogOk(r, catalog) }

  const NO_CATALOG := C.Registry("", "", 0, C.NoEvent, [], [], [], [])

  // ---------------------------------------------------------------- building a version

  /** The scan for the version with the latest effective time, up to a bound if one is given. */
  function Latest(versions: seq<Version>, m: string, bound: Option<Time>): Option<Version> {
    if versions == [] then None
    else
      var before, v := Latest(versions[..|versions| - 1], m, bound), versions[|versions| - 1];
      if v.Mapping() != m || (bound.Some? && v.From() > bound.value) then before
      else if before.None? || v.From() > before.value.From() then Some(v)
      else before
  }

  function Trimmed(q: Input): Input {
    q.(component := Trim(q.component), reason := Trim(q.reason), createdBy := Trim(q.createdBy))
  }

  function NextVersion(r: Registry, q: Input): Version {
    var m := MappingId(r.namespace, q.source, q.list);
    var previous := Latest(r.versions, m, None);
    var body := Body(VersionIdOf(r.id, m, q), m, r.id, r.namespace, r.lastSequence + 1, Trimmed(q),
      if previous.Some? then Some(previous.value.body.id) else None, r.auditHead);
    Version(body, HashOf(body))
  }

  /** BuildVersion. */
  function Built(r: Registry, q: Input, catalog: C.Registry): Result<Version, Error> {
    if !InputOk(q) then Err(InvalidInput)
    else if catalog.namespace != r.namespace then Err(OtherNamespace)
    else
      var m := MappingId(r.namespace, q.source, q.list);
      var previous := Latest(r.versions, m, None);
      if previous.Some? && q.from <= previous.value.From() then
        if previous.value.body.id == VersionIdOf(r.id, m, q) then Ok(previous.value) else Err(NotAdvancing)
      else
        var c := Find(C.ComponentKeyId, catalog.components, q.component);
        if q.action.Bind? && c.None? then Err(ComponentMissing)
        else if q.action.Bind? && !c.value.status.InUse? then Err(ComponentRetired)
        else
          var v := NextVersion(r, q);
          if VersionSound(v, r) && Bound(v, catalog) then Ok(v) else Err(InvalidVersion)
  }

  // ---------------------------------------------------------------- registering

  datatype Disk = Disk(registry: Option<Registry>, keys: map<string, Key>, versions: map<(nat, VersionId), Version>)

  const EMPTY := Disk(None, map[], map[])

  predicate KeyFiled(d: Disk, k: Key) { k.id in d.keys && d.keys[k.id] == k }

  predicate VersionFiled(d: Disk, v: Version) {
    var name := (v.body.sequence, v.body.id);
    name in d.versions && d.versions[name] == v
  }

  /** Verify: every listed key and version is on file as listed. */
  predicate FilesOk(d: Disk, r: Registry) {
    (forall k :: k in r.keys ==> KeyFiled(d, k)) && (forall v :: v in r.versions ==> VersionFiled(d, v))
  }

  /** loadUnlocked: the registry, when it validates against the catalog and its files match. */
  function Loaded(d: Disk, catalog: C.Registry): Result<Registry, Error> {
    if d.registry.None? then Err(NotInitialized)
    else if !Valid(d.registry.value, catalog) then Err(InvalidRegistry)
    else if !FilesOk(d, d.registry.value) then Err(FileMismatch)
    else Ok(d.registry.value)
  }

  function NewRegistry(namespace: string): Registry {
    Registry(RegistryId(Trim(namespace)), Trim(namespace), 0, NoHash, [], [])
  }

  function Initialized(d: Disk, namespace: string): (Disk, Result<Registry, Error>) {
    match Loaded(d, NO_CATALOG)
    case Ok(r) => (d, if r.namespace != Trim(namespace) then Err(OtherNamespace) else Ok(r))
    case Err(error) =>
      if !error.NotInitialized? then (d, Err(error))
      else if !Valid(NewRegistry(namespace), NO_CATALOG) then (d, Err(InvalidRegistry))
      else (d.(registry := Some(NewRegistry(namespace))), Ok(NewRegistry(namespace)))
  }

  /** The version on record under the id, by the loop of Register. */
  function Existing(versions: seq<Version>, id: VersionId): (r: Option<Version>)
    ensures r.Some? ==> r.value in versions && r.value.body.id == id
    ensures r.None? ==> forall v :: v in versions ==> v.body.id != id
  {
    if versions == [] then None
    else if versions[0].body.id == id then Some(versions[0])
    else
      assert versions == [versions[0]] + versions[1..];
      Existing(versions[1..], id)
  }

  function NewKey(r: Registry, q: Input): Key {
    Key(MappingId(r.namespace, q.source, q.list), r.id, r.namespace, q.source, q.list, q.createdAt, Trim(q.createdBy))
  }

  function WithKey(r: Registry, k: Key): Registry { r.(keys := SortKeyed(KeyId, r.keys + [k])) }

  function WithVersion(r: Registry, v: Version): Registry {
    r.(versions := r.versions + [v], lastSequence := v.body.sequence, auditHead := v.hash)
  }

  /** The writes of Register once the version is built: its file, and the registry when it validates. */
  function VersionWritten(d: Disk, r: Registry, v: Version, catalog: C.Registry): (Disk, Result<Version, Error>) {
    var files := C.WriteOnce(d.versions, (v.body.sequence, v.body.id), v);
    if files.None? then (d, Err(FileCollision))
    else
      var written, next := d.(versions := files.value), WithVersion(r, v);
      if !Valid(next, catalog) then (written, Err(InvalidRegistry)) else (written.(registry := Some(next)), Ok(v))
  }

  function Registered(d: Disk, q: Input, catalog: C.Registry): (Disk, Result<Version, Error>) {
    match Loaded(d, catalog)
    case Err(error) => (d, Err(error))
    case Ok(r) =>
      match Built(r, q, catalog)
      case Err(error) => (d, Err(error))
      case Ok(v) =>
        var existing := Existing(r.versions, v.body.id);
        if existing.Some? then (d, if existing.value != v then Err(VersionCollision) else Ok(existing.value))
        else if Find(KeyId, r.keys, v.Mapping()).Some? then VersionWritten(d, r, v, catalog)
        else
          var k := NewKey(r, q);
          var files := C.WriteOnce(d.keys, k.id, k);
          if !KeyOk(k) then (d, Err(InvalidKey))
          else if files.None? then (d, Err(FileCollision))
          else VersionWritten(d.(keys := files.value), WithKey(r, k), v, catalog)
  }

  datatype Op = OpInitialize(namespace: string) | OpRegister(input: Input, catalog: C.Registry)

  function Perform(d: Disk, op: Op): Disk {
    match op
    case OpInitialize(namespace) => Initialized(d, namespace).0
    case OpRegister(q, catalog) => Registered(d, q, catalog).0
  }

  function Run(ops: seq<Op>): Disk {
    if ops == [] then EMPTY else Perform(Run(ops[..|ops| - 1]), ops[|ops| - 1])
  }
}

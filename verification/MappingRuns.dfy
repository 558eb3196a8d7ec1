/** The invariant of the mapping store over all runs. */
module MappingRuns {
  import opened Wrappers
  import opened Text
  import opened Keyed
  import C = CatalogRegistry
  import opened AlertListMapping
  import opened MappingTimeline

  ghost predicate Mirrored(d: Disk, r: Registry) {
    && (forall k :: C.Stored(d.keys, k) == Find(KeyId, r.keys, k))
    && (forall v :: v in r.versions ==> VersionFiled(d, v))
    && (forall name :: name in d.versions ==> name.0 <= |r.versions|)
  }

  ghost predicate Inv(d: Disk) {
    if d.registry.None? then d == EMPTY else RegistryOk(d.registry.value) && Mirrored(d, d.registry.value)
  }

  lemma MirroredFiles(d: Disk, r: Registry)
    requires KeysOk(r) && Mirrored(d, r)
    ensures FilesOk(d, r)
  {
    forall k | k in r.keys ensures KeyFiled(d, k) { FindMember(KeyId, r.keys, k); }
  }

  /** Loading only ever fails for want of a registry or because of the catalog. */
  lemma LoadedIs(d: Disk, catalog: C.Registry)
    requires Inv(d)
    ensures d.registry.Some? ==> Loaded(d, catalog) == (if CatalogOk(d.registry.value, catalog) then Ok(d.registry.value) else Err(InvalidRegistry))
  {
    if d.registry.Some? { MirroredFiles(d, d.registry.value); }
  }

  /** The registry with a new version, and its key if it is the mapping's first. */
  function Grown(r: Registry, q: Input, v: Version): Registry {
    WithVersion(if Find(KeyId, r.keys, v.Mapping()).Some? then r else WithKey(r, NewKey(r, q)), v)
  }

  function GrownDisk(d: Disk, r: Registry, q: Input, v: Version): Disk {
    Disk(Some(Grown(r, q, v)),
      if Find(KeyId, r.keys, v.Mapping()).Some? then d.keys else d.keys[NewKey(r, q).id := NewKey(r, q)],
      d.versions[(v.body.sequence, v.body.id) := v])
  }

  /** A new version fit for the registry: sound, bound, next in the chain, and later than its predecessor. */
  ghost predicate Fresh(r: Registry, q: Input, v: Version, catalog: C.Registry) {
    && v == NextVersion(r, q) && InputOk(q) && VersionSound(v, r) && Bound(v, catalog)
    && Existing(r.versions, v.body.id).None? && Advances(LastOf(r.versions, v.Mapping()), v)
  }

  lemma GrownOk(r: Registry, q: Input, v: Version, catalog: C.Registry)
    requires Valid(r, catalog) && Fresh(r, q, v, catalog)
    ensures Valid(Grown(r, q, v), catalog)
    ensures Find(KeyId, r.keys, v.Mapping()).None? ==> KeyOk(NewKey(r, q))
  {
    if Find(KeyId, r.keys, v.Mapping()).Some? {
      VersionAdded(r, v);
    } else {
      NewKeyOk(r, q);
      KeyAdded(r, NewKey(r, q));
      VersionAdded(WithKey(r, NewKey(r, q)), v);
    }
  }

  lemma GrownMirrored(d: Disk, r: Registry, q: Input, v: Version, catalog: C.Registry)
    requires RegistryOk(r) && Mirrored(d, r) && Fresh(r, q, v, catalog)
    ensures Mirrored(GrownDisk(d, r, q, v), Grown(r, q, v))
    ensures C.WriteOnce(d.versions, (v.body.sequence, v.body.id), v).Some?
    ensures Find(KeyId, r.keys, v.Mapping()).None? ==> C.WriteOnce(d.keys, NewKey(r, q).id, NewKey(r, q)).Some?
  {
    if Find(KeyId, r.keys, v.Mapping()).None? { KeyMirrored(d, r, NewKey(r, q)); }
    VersionsFiled(d, r, q, v);
  }

  lemma KeyMirrored(d: Disk, r: Registry, k: Key)
    requires KeysOk(r) && Find(KeyId, r.keys, k.id).None?
    requires forall id :: C.Stored(d.keys, id) == Find(KeyId, r.keys, id)
    ensures k.id !in d.keys
    ensures forall id :: C.Stored(d.keys[k.id := k], id) == Find(KeyId, WithKey(r, k).keys, id)
  {
    assert C.Stored(d.keys, k.id) == None;
    Extended(KeyId, r.keys, k);
  }

  lemma VersionsFiled(d: Disk, r: Registry, q: Input, v: Version)
    requires RegistryOk(r) && Mirrored(d, r) && v.body.sequence == |r.versions| + 1
    ensures forall w :: w in Grown(r, q, v).versions ==> VersionFiled(GrownDisk(d, r, q, v), w)
    ensures (v.body.sequence, v.body.id) !in d.versions
  {
    forall w | w in Grown(r, q, v).versions ensures VersionFiled(GrownDisk(d, r, q, v), w) {
      if w in r.versions {
        assert VersionFiled(d, w);
        SequenceWithin(r, w);
      } else {
        assert w == v;
      }
    }
  }

  lemma SequenceWithin(r: Registry, v: Version)
    requires RegistryOk(r) && v in r.versions
    ensures v.body.sequence <= |r.versions|
  {
    var i :| 0 <= i < |r.versions| && r.versions[i] == v;
    assert VersionFits(r, i);
  }

  /** The outcome of Register, by the checks of BuildVersion and the id alone. */
  function Outcome(r: Registry, q: Input, catalog: C.Registry): Result<Version, Error> {
    match Built(r, q, catalog)
    case Err(error) => Err(error)
    case Ok(v) => if v !in r.versions && Existing(r.versions, v.body.id).Some? then Err(VersionCollision) else Ok(v)
  }

  /** From an invariant state with a catalog the registry fits, Register fails only as BuildVersion or the id says:
      never at a file or at the validator that runs after the files are written. */
  lemma RegisteredIs(d: Disk, q: Input, catalog: C.Registry)
    requires Inv(d) && d.registry.Some? && CatalogOk(d.registry.value, catalog)
    ensures var r := d.registry.value; var v := Outcome(r, q, catalog);
      && Registered(d, q, catalog).1 == v
      && Registered(d, q, catalog).0 == (if v.Ok? && v.value !in r.versions then GrownDisk(d, r, q, v.value) else d)
      && (v.Ok? && v.value !in r.versions ==> Fresh(r, q, v.value, catalog))
      && Inv(Registered(d, q, catalog).0)
  {
    var r := d.registry.value;
    LoadedIs(d, catalog);
    if Built(r, q, catalog).Ok? {
      var v := Built(r, q, catalog).value;
      BuiltNew(r, q, catalog);
      NextIsNew(r, q);
      if v in r.versions {
        ExistingIsItself(r, v);
      } else if Existing(r.versions, v.body.id).None? {
        FreshRegistered(d, q, catalog, v);
      }
    }
  }

  /** A fresh version is written, and what is written keeps the invariant. */
  lemma FreshRegistered(d: Disk, q: Input, catalog: C.Registry, v: Version)
    requires Inv(d) && d.registry.Some? && CatalogOk(d.registry.value, catalog)
    requires Built(d.registry.value, q, catalog) == Ok(v) && Fresh(d.registry.value, q, v, catalog)
    ensures Registered(d, q, catalog) == (GrownDisk(d, d.registry.value, q, v), Ok(v))
    ensures Inv(GrownDisk(d, d.registry.value, q, v))
  {
    LoadedIs(d, catalog);
    GrownOk(d.registry.value, q, v, catalog);
    GrownMirrored(d, d.registry.value, q, v, catalog);
  }

  lemma InitializedInv(d: Disk, namespace: string)
    requires Inv(d)
    ensures Inv(Initialized(d, namespace).0)
  {
    LoadedIs(d, NO_CATALOG);
  }

  lemma {:induction false} RunInv(ops: seq<Op>)
    ensures Inv(Run(ops))
  {
    if ops != [] {
      var d := Run(ops[..|ops| - 1]);
      RunInv(ops[..|ops| - 1]);
      match ops[|ops| - 1] {
        case OpInitialize(namespace) => InitializedInv(d, namespace);
        case OpRegister(q, catalog) =>
          LoadedIs(d, catalog);
          if d.registry.Some? && CatalogOk(d.registry.value, catalog) { RegisteredIs(d, q, catalog); }
      }
    }
  }

  lemma CatalogIdTrimmed(c: C.Component)
    requires C.ComponentOk(c)
    ensures Trim(c.id) == c.id
  {
    var key := Trim(c.key);
    assert key != "";
    assert c.id[0] == 'c' && c.id[|c.id| - 1] == key[|key| - 1];
    TrimFixed(c.id);
  }

  /** A component found under the input's text is found under it trimmed. */
  lemma TrimmedFinds(catalog: C.Registry, id: string)
    requires C.ComponentsOk(catalog) && Find(C.ComponentKeyId, catalog.components, id).Some?
    ensures Trim(id) == id && Find(C.ComponentKeyId, catalog.components, id).value.namespace == catalog.namespace
  {
    CatalogIdTrimmed(Find(C.ComponentKeyId, catalog.components, id).value);
  }

  lemma NextBound(r: Registry, q: Input, catalog: C.Registry)
    requires C.ComponentsOk(catalog) && catalog.namespace == r.namespace
    requires q.action.Bind? ==> Find(C.ComponentKeyId, catalog.components, q.component).Some?
    ensures Bound(NextVersion(r, q), catalog)
  {
    if q.action.Bind? { TrimmedFinds(catalog, q.component); }
  }

  /** With a catalog that passes its own validator, what BuildVersion checks is enough for ValidateVersion too. */
  lemma BuiltNeverInvalid(r: Registry, q: Input, catalog: C.Registry)
    requires C.ComponentsOk(catalog)
    ensures Built(r, q, catalog) != Err(InvalidVersion)
  {
    if InputOk(q) && catalog.namespace == r.namespace {
      NextSound(r, q);
      if q.action.Bind? ==> Find(C.ComponentKeyId, catalog.components, q.component).Some? { NextBound(r, q, catalog); }
    }
  }
}

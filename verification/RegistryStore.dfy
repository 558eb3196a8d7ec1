/** The store itself, proved against the specification of its calls. */
module RegistryStore {
  import opened Wrappers
  import opened Text
  import opened Keyed
  import opened CatalogRegistry
  import opened RegistryLoops

  /** The state directory under its lock: the registry file and the files beside it. */
  class Store {
    var registry: Option<Registry>
    var componentFiles: map<string, Component>
    var versionFiles: map<string, Version>
    var activationFiles: map<(nat, ActivationId), ActivationRecord>
    var activeFiles: map<string, Pointer>

    ghost function Files(): Disk
      reads this
    {
      Disk(registry, componentFiles, versionFiles, activationFiles, activeFiles)
    }

    constructor ()
      ensures Files() == EMPTY
    {
      registry, componentFiles, versionFiles, activationFiles, activeFiles := None, map[], map[], map[], map[];
    }

    method Initialize(namespace: string) returns (result: Result<Registry, Error>)
      modifies this
      ensures (Files(), result) == Initialized(old(Files()), namespace)
    {
      if registry.Some? {
        if registry.value.namespace != Trim(namespace) { return Err(OtherNamespace); }
        return Ok(registry.value);
      }
      var r := NewRegistry(namespace);
      var ok := ValidateRegistry(r);
      if !ok { return Err(InvalidRegistry); }
      registry := Some(r);
      return Ok(r);
    }

    /** The loop of RegisterComponent over the components on record. */
    method FindClash(components: seq<Component>, c: Component) returns (clash: Clash)
      ensures clash == ComponentClash(components, c)
    {
      var i := 0;
      while i < |components|
        invariant 0 <= i <= |components|
        invariant ComponentClash(components, c) == ComponentClash(components[i..], c)
      {
        if components[i].id == c.id {
          if components[i] != c { return SameId; }
          return Identical;
        }
        if components[i].key == c.key { return SameKey; }
        i := i + 1;
      }
      return NoClash;
    }

    method RegisterComponent(c: Component) returns (result: Result<Registry, Error>)
      modifies this
      ensures (Files(), result) == ComponentRegistered(old(Files()), c)
    {
      if registry.None? { return Err(NotInitialized); }
      var r := registry.value;
      if !ComponentOk(c) { return Err(InvalidComponent); }
      if c.namespace != r.namespace { return Err(OtherNamespace); }
      var clash := FindClash(r.components, c);
      match clash {
        case SameId => return Err(ComponentCollision);
        case Identical => return Ok(r);
        case SameKey => return Err(KeyTaken);
        case NoClash =>
      }
      if c.id in componentFiles && componentFiles[c.id] != c { return Err(FileCollision); }
      componentFiles := componentFiles[c.id := c];
      var next := WithComponent(r, c);
      var ok := ValidateRegistry(next);
      if !ok { return Err(InvalidRegistry); }
      registry := Some(next);
      return Ok(next);
    }

    method RegisterVersion(v: Version) returns (result: Result<Registry, Error>)
      modifies this
      ensures (Files(), result) == VersionRegistered(old(Files()), v)
    {
      if registry.None? { return Err(NotInitialized); }
      var r := registry.value;
      var c := Find(ComponentKeyId, r.components, v.component);
      if c.None? { return Err(UnknownComponent); }
      if !VersionOk(v, c.value) { return Err(InvalidVersion); }
      var known := Find(VersionKey, r.versions, v.id);
      if known.Some? {
        if known.value != v { return Err(VersionCollision); }
        return Ok(r);
      }
      if v.id in versionFiles && versionFiles[v.id] != v { return Err(FileCollision); }
      versionFiles := versionFiles[v.id := v];
      var next := WithVersion(r, v);
      var ok := ValidateRegistry(next);
      if !ok { return Err(InvalidRegistry); }
      registry := Some(next);
      return Ok(next);
    }

    /** setActive: replace the component's pointer in place or add one, then sort. */
    method SetActive(active: seq<Pointer>, p: Pointer) returns (r: seq<Pointer>)
      ensures r == SortKeyed(PointerKey, Put(PointerKey, active, p))
    {
      var i := 0;
      while i < |active| && active[i].component != p.component
        invariant 0 <= i <= |active|
        invariant Put(PointerKey, active, p) == active[..i] + Put(PointerKey, active[i..], p)
      {
        i := i + 1;
      }
      r := if i < |active| then active[i := p] else active + [p];
      assert r == Put(PointerKey, active, p);
      r := SortKeyed(PointerKey, r);
    }

    method Activate(q: Request) returns (result: Result<Registry, Error>)
      modifies this
      ensures (Files(), result) == Activated(old(Files()), q)
    {
      if registry.None? { return Err(NotInitialized); }
      var r := registry.value;
      var refusal := Refusal(r, q);
      if refusal.Some? { return Err(refusal.value); }
      var a := NextActivation(r, q);
      if !ActivationOk(a, r.id) { return Err(InvalidActivation); }
      result := Commit(r, a);
    }

    method Commit(r: Registry, a: ActivationRecord) returns (result: Result<Registry, Error>)
      modifies this
      ensures (Files(), result) == Committed(old(Files()), r, a)
    {
      var k := (a.body.sequence, a.id);
      if k in activationFiles && activationFiles[k] != a { return Err(FileCollision); }
      activationFiles := activationFiles[k := a];
      var pointer := PointerOf(a);
      activeFiles := activeFiles[a.body.component := pointer];
      var active := SetActive(r.active, pointer);
      var next := r.(activations := r.activations + [a], lastSequence := a.body.sequence, auditHead := a.hash, active := active);
      var ok := ValidateRegistry(next);
      if !ok { return Err(InvalidRegistry); }
      registry := Some(next);
      return Ok(next);
    }
  }
}

/** The validator as the loops it is. */
module RegistryLoops {
  import opened Maps
  import opened Keyed
  import opened CatalogRegistry

  predicate ComponentAt(r: Registry, i: nat)
    requires i < |r.components|
  {
    && ComponentOk(r.components[i]) && r.components[i].namespace == r.namespace
    && NewAt(ComponentKeyId, r.components, i) && NewAt(ComponentKey, r.components, i)
  }

  lemma ComponentsIff(r: Registry)
    ensures ComponentsOk(r) <==> forall i :: 0 <= i < |r.components| ==> ComponentAt(r, i)
  {
    DistinctIff(ComponentKeyId, r.components);
    DistinctIff(ComponentKey, r.components);
    if forall i :: 0 <= i < |r.components| ==> ComponentAt(r, i) {
      forall c | c in r.components ensures ComponentOk(c) && c.namespace == r.namespace {
        var i :| 0 <= i < |r.components| && r.components[i] == c;
        assert ComponentAt(r, i);
      }
      forall i | 0 <= i < |r.components| ensures NewAt(ComponentKeyId, r.components, i) && NewAt(ComponentKey, r.components, i) {
        assert ComponentAt(r, i);
      }
    }
  }

  method CheckComponents(r: Registry) returns (ok: bool, byId: map<string, Component>)
    ensures ok <==> ComponentsOk(r)
    ensures ok ==> byId == ByKey(ComponentKeyId, r.components)
  {
    ComponentsIff(r);
    var cs := r.components;
    var ids: set<string>, keys: set<string> := {}, {};
    byId := map[];
    for i := 0 to |cs|
      invariant forall k :: 0 <= k < i ==> ComponentAt(r, k)
      invariant byId == ByKey(ComponentKeyId, cs[..i])
      invariant ids == KeysBefore(ComponentKeyId, cs, i) && keys == KeysBefore(ComponentKey, cs, i)
    {
      if !ComponentOk(cs[i]) || cs[i].namespace != r.namespace || cs[i].id in ids || cs[i].key in keys {
        assert !ComponentAt(r, i);
        return false, byId;
      }
      IndexNext(ComponentKeyId, cs, i);
      IndexNext(ComponentKey, cs, i);
      byId := byId[cs[i].id := cs[i]];
      ids, keys := ids + {cs[i].id}, keys + {cs[i].key};
    }
    assert cs[..|cs|] == cs;
    return true, byId;
  }

  predicate VersionAt(r: Registry, i: nat)
    requires i < |r.versions|
  {
    VersionFits(r.components, r.versions[i]) && NewAt(VersionKey, r.versions, i)
  }

  lemma VersionsIff(r: Registry)
    ensures VersionsOk(r) <==> forall i :: 0 <= i < |r.versions| ==> VersionAt(r, i)
  {
    DistinctIff(VersionKey, r.versions);
    if forall i :: 0 <= i < |r.versions| ==> VersionAt(r, i) {
      forall i | 0 <= i < |r.versions| ensures NewAt(VersionKey, r.versions, i) { assert VersionAt(r, i); }
      forall v | v in r.versions ensures VersionFits(r.components, v) {
        var i :| 0 <= i < |r.versions| && r.versions[i] == v;
        assert VersionAt(r, i);
      }
    }
  }

  lemma VersionAtIff(r: Registry, i: nat, components: map<string, Component>)
    requires i < |r.versions| && ComponentsOk(r) && components == ByKey(ComponentKeyId, r.components)
    ensures var v := r.versions[i];
      VersionAt(r, i) <==> !(v.component !in components || !VersionOk(v, components[v.component]) || v.id in KeysBefore(VersionKey, r.versions, i))
  {
    FindIndexed(ComponentKeyId, r.components, r.versions[i].component);
  }

  method CheckVersion(r: Registry, i: nat, components: map<string, Component>, ids: set<string>) returns (ok: bool)
    requires i < |r.versions| && ComponentsOk(r) && components == ByKey(ComponentKeyId, r.components)
    requires ids == KeysBefore(VersionKey, r.versions, i)
    ensures ok <==> VersionAt(r, i)
  {
    var v := r.versions[i];
    VersionAtIff(r, i, components);
    return !(v.component !in components || !VersionOk(v, components[v.component]) || v.id in ids);
  }

  method CheckVersions(r: Registry, components: map<string, Component>) returns (ok: bool, byId: map<string, Version>)
    requires ComponentsOk(r) && components == ByKey(ComponentKeyId, r.components)
    ensures ok <==> VersionsOk(r)
    ensures ok ==> byId == ByKey(VersionKey, r.versions)
  {
    VersionsIff(r);
    var ids: set<string> := {};
    byId := map[];
    for i := 0 to |r.versions|
      invariant VersionsScanned(r, i, byId, ids)
    {
      var fits := CheckVersion(r, i, components, ids);
      if !fits { return false, byId; }
      VersionsNext(r, i, byId, ids);
      byId := byId[r.versions[i].id := r.versions[i]];
      ids := ids + {r.versions[i].id};
    }
    assert r.versions[..|r.versions|] == r.versions;
    return true, byId;
  }

  /** The first n versions fit and are indexed. */
  predicate VersionsScanned(r: Registry, n: nat, byId: map<string, Version>, ids: set<string>)
    requires n <= |r.versions|
  {
    && (forall k :: 0 <= k < n ==> VersionAt(r, k))
    && byId == ByKey(VersionKey, r.versions[..n]) && ids == KeysBefore(VersionKey, r.versions, n)
  }

  lemma VersionsNext(r: Registry, i: nat, byId: map<string, Version>, ids: set<string>)
    requires i < |r.versions| && VersionsScanned(r, i, byId, ids) && VersionAt(r, i)
    ensures VersionsScanned(r, i + 1, byId[r.versions[i].id := r.versions[i]], ids + {r.versions[i].id})
  {
    IndexNext(VersionKey, r.versions, i);
  }

  /** The last epoch seen per component is the number of its activations, when all of them fit. */
  ghost predicate EpochsCounted(acts: seq<ActivationRecord>, n: nat, lastEpoch: map<string, nat>)
    requires n <= |acts|
  {
    forall c :: Count(acts[..n], c) == if c in lastEpoch then lastEpoch[c] else 0
  }

  lemma CountNext(acts: seq<ActivationRecord>, i: nat, c: string)
    requires i < |acts|
    ensures Count(acts[..i + 1], c) == Count(acts[..i], c) + (if acts[i].body.component == c then 1 else 0)
  {
    assert acts[..i + 1][..i] == acts[..i];
  }

  function Targets(acts: seq<ActivationRecord>, n: nat): set<(string, string)>
    requires n <= |acts|
  {
    set k | 0 <= k < n :: (acts[k].body.component, acts[k].body.target)
  }

  lemma TargetsIff(acts: seq<ActivationRecord>, n: nat, c: string, v: string)
    requires n <= |acts|
    ensures (c, v) in Targets(acts, n) <==> WasActivated(acts[..n], c, v)
  {
    if (c, v) in Targets(acts, n) {
      var k :| 0 <= k < n && (acts[k].body.component, acts[k].body.target) == (c, v);
      assert acts[..n][k] == acts[k];
    }
    if WasActivated(acts[..n], c, v) {
      var k :| 0 <= k < |acts[..n]| && acts[..n][k].body.component == c && acts[..n][k].body.target == v;
      assert acts[k].body.component == c;
    }
  }

  /** The activations by id; ids cover the sequence number, so no two are alike. */
  predicate Indexed(acts: seq<ActivationRecord>, n: nat, byId: map<ActivationId, ActivationRecord>)
    requires n <= |acts|
  {
    && (forall k :: 0 <= k < n ==> acts[k].id in byId && byId[acts[k].id] == acts[k])
    && (forall id :: id in byId ==> byId[id] in acts[..n] && byId[id].id == id)
  }

  lemma TargetFitsIndexed(r: Registry, components: map<string, Component>, versions: map<string, Version>, c: string, v: string)
    requires ComponentsOk(r) && VersionsOk(r)
    requires components == ByKey(ComponentKeyId, r.components) && versions == ByKey(VersionKey, r.versions)
    ensures TargetFits(r.components, r.versions, c, v) <==> c in components && v in versions && versions[v].component == c
  {
    FindIndexed(ComponentKeyId, r.components, c);
    FindIndexed(VersionKey, r.versions, v);
  }

  /** What the loop over the activations has accumulated after n of them. */
  ghost predicate Scanned(r: Registry, n: nat, previous: EventHash, lastEpoch: map<string, nat>, activated: set<(string, string)>,
                          byId: map<ActivationId, ActivationRecord>)
  {
    && n <= |r.activations|
    && (forall k :: 0 <= k < n ==> ActivationFits(r.activations, k, r.id, r.components, r.versions))
    && previous == (if n == 0 then NoEvent else r.activations[n - 1].hash)
    && EpochsCounted(r.activations, n, lastEpoch) && activated == Targets(r.activations, n) && Indexed(r.activations, n, byId)
  }

  lemma ScannedNext(r: Registry, i: nat, previous: EventHash, lastEpoch: map<string, nat>, activated: set<(string, string)>,
                    byId: map<ActivationId, ActivationRecord>)
    requires i < |r.activations| && Scanned(r, i, previous, lastEpoch, activated, byId)
    requires ActivationFits(r.activations, i, r.id, r.components, r.versions)
    ensures var a := r.activations[i];
      Scanned(r, i + 1, a.hash, lastEpoch[a.body.component := a.body.epoch], activated + {(a.body.component, a.body.target)}, byId[a.id := a])
  {
    EpochsGrow(r, i, lastEpoch);
    IndexGrows(r, i, byId);
  }

  method CheckActivations(r: Registry, components: map<string, Component>, versions: map<string, Version>)
    returns (ok: bool, byId: map<ActivationId, ActivationRecord>)
    requires ComponentsOk(r) && VersionsOk(r)
    requires components == ByKey(ComponentKeyId, r.components) && versions == ByKey(VersionKey, r.versions)
    ensures ok <==> ActivationsOk(r)
    ensures ok ==> Indexed(r.activations, |r.activations|, byId)
  {
    var acts := r.activations;
    var previous, activated := NoEvent, {};
    var lastEpoch: map<string, nat> := map[];
    byId := map[];
    for i := 0 to |acts|
      invariant Scanned(r, i, previous, lastEpoch, activated, byId)
    {
      var a := acts[i];
      var fits := CheckOne(r, i, components, versions, previous, lastEpoch, activated);
      if !fits { return false, byId; }
      ScannedNext(r, i, previous, lastEpoch, activated, byId);
      activated := activated + {(a.body.component, a.body.target)};
      byId := byId[a.id := a];
      lastEpoch := lastEpoch[a.body.component := a.body.epoch];
      previous := a.hash;
    }
    return r.lastSequence == |acts| && r.auditHead == previous, byId;
  }

  lemma EpochsGrow(r: Registry, i: nat, lastEpoch: map<string, nat>)
    requires i < |r.activations| && EpochsCounted(r.activations, i, lastEpoch)
    requires ActivationFits(r.activations, i, r.id, r.components, r.versions)
    ensures EpochsCounted(r.activations, i + 1, lastEpoch[r.activations[i].body.component := r.activations[i].body.epoch])
  {
    forall c ensures Count(r.activations[..i + 1], c) == Count(r.activations[..i], c) + (if r.activations[i].body.component == c then 1 else 0) {
      CountNext(r.activations, i, c);
    }
  }

  lemma IdsDistinct(r: Registry, k: nat, i: nat)
    requires k < i < |r.activations|
    requires ActivationFits(r.activations, k, r.id, r.components, r.versions) && ActivationFits(r.activations, i, r.id, r.components, r.versions)
    ensures r.activations[k].id != r.activations[i].id
  {
  }

  lemma IndexAdded(acts: seq<ActivationRecord>, i: nat, byId: map<ActivationId, ActivationRecord>)
    requires i < |acts| && Indexed(acts, i, byId) && forall k :: 0 <= k < i ==> acts[k].id != acts[i].id
    ensures Indexed(acts, i + 1, byId[acts[i].id := acts[i]])
  {
    assert acts[..i + 1] == acts[..i] + [acts[i]];
  }

  lemma IndexGrows(r: Registry, i: nat, byId: map<ActivationId, ActivationRecord>)
    requires i < |r.activations| && Indexed(r.activations, i, byId)
    requires forall k :: 0 <= k <= i ==> ActivationFits(r.activations, k, r.id, r.components, r.versions)
    ensures Indexed(r.activations, i + 1, byId[r.activations[i].id := r.activations[i]])
  {
    var acts := r.activations;
    forall k | 0 <= k < i ensures acts[k].id != acts[i].id { IdsDistinct(r, k, i); }
    IndexAdded(acts, i, byId);
  }

  /** The checks on one activation, against what the loop has accumulated. */
  method CheckOne(r: Registry, i: nat, components: map<string, Component>, versions: map<string, Version>,
                  previous: EventHash, lastEpoch: map<string, nat>, activated: set<(string, string)>)
    returns (ok: bool)
    requires i < |r.activations| && ComponentsOk(r) && VersionsOk(r)
    requires components == ByKey(ComponentKeyId, r.components) && versions == ByKey(VersionKey, r.versions)
    requires previous == if i == 0 then NoEvent else r.activations[i - 1].hash
    requires EpochsCounted(r.activations, i, lastEpoch) && activated == Targets(r.activations, i)
    ensures ok <==> ActivationFits(r.activations, i, r.id, r.components, r.versions)
  {
    var a := r.activations[i];
    TargetFitsIndexed(r, components, versions, a.body.component, a.body.target);
    TargetsIff(r.activations, i, a.body.component, a.body.target);
    if a.body.sequence != i + 1 || a.body.previousHash != previous { return false; }
    if a.body.component !in components { return false; }
    if a.body.target !in versions || versions[a.body.target].component != a.body.component { return false; }
    if a.body.epoch != (if a.body.component in lastEpoch then lastEpoch[a.body.component] else 0) + 1 { return false; }
    if a.body.action.Rollback? && (a.body.component, a.body.target) !in activated { return false; }
    return ActivationOk(a, r.id);
  }

  predicate PointerAt(r: Registry, i: nat)
    requires i < |r.active|
  {
    PointerFits(r, r.active[i]) && NewAt(PointerKey, r.active, i)
  }

  lemma ActiveIff(r: Registry)
    ensures ActiveOk(r) <==> forall i :: 0 <= i < |r.active| ==> PointerAt(r, i)
  {
    DistinctIff(PointerKey, r.active);
    if forall i :: 0 <= i < |r.active| ==> PointerAt(r, i) {
      forall i | 0 <= i < |r.active| ensures NewAt(PointerKey, r.active, i) { assert PointerAt(r, i); }
      forall p | p in r.active ensures PointerFits(r, p) {
        var i :| 0 <= i < |r.active| && r.active[i] == p;
        assert PointerAt(r, i);
      }
    }
  }

  lemma NamesIndexed(acts: seq<ActivationRecord>, byId: map<ActivationId, ActivationRecord>, p: Pointer)
    requires Indexed(acts, |acts|, byId)
    ensures (exists i :: 0 <= i < |acts| && Names(acts, i, p))
      <==> p.activation in byId && byId[p.activation].body.target == p.version && byId[p.activation].body.epoch == p.epoch
  {
    assert acts[..|acts|] == acts;
    if p.activation in byId && byId[p.activation].body.target == p.version && byId[p.activation].body.epoch == p.epoch {
      var i :| 0 <= i < |acts| && acts[i] == byId[p.activation];
      assert Names(acts, i, p);
    }
  }

  /** The checks on one pointer, against the indexes and the components seen. */
  predicate PointerClear(p: Pointer, seen: set<string>, versions: map<string, Version>, activations: map<ActivationId, ActivationRecord>) {
    && p.component != "" && p.version != "" && p.activation != NoActivation && p.epoch != 0 && p.at != 0 && p.actor != ""
    && p.component !in seen
    && p.version in versions && p.activation in activations && versions[p.version].component == p.component
    && activations[p.activation].body.target == p.version && activations[p.activation].body.epoch == p.epoch
  }

  lemma PointerAtIff(r: Registry, i: nat, versions: map<string, Version>, activations: map<ActivationId, ActivationRecord>)
    requires i < |r.active| && VersionsOk(r) && versions == ByKey(VersionKey, r.versions)
    requires Indexed(r.activations, |r.activations|, activations)
    ensures PointerAt(r, i) <==> PointerClear(r.active[i], KeysBefore(PointerKey, r.active, i), versions, activations)
  {
    FindIndexed(VersionKey, r.versions, r.active[i].version);
    NamesIndexed(r.activations, activations, r.active[i]);
  }

  method CheckActive(r: Registry, versions: map<string, Version>, activations: map<ActivationId, ActivationRecord>) returns (ok: bool)
    requires VersionsOk(r) && versions == ByKey(VersionKey, r.versions) && Indexed(r.activations, |r.activations|, activations)
    ensures ok <==> ActiveOk(r)
  {
    ActiveIff(r);
    var components: set<string> := {};
    for i := 0 to |r.active|
      invariant PointersScanned(r, i, components)
    {
      PointerAtIff(r, i, versions, activations);
      if !PointerClear(r.active[i], components, versions, activations) { return false; }
      PointersNext(r, i, components);
      components := components + {r.active[i].component};
    }
    return true;
  }

  /** The first n pointers are right, and theirs are the components seen. */
  predicate PointersScanned(r: Registry, n: nat, seen: set<string>)
    requires n <= |r.active|
  {
    (forall k :: 0 <= k < n ==> PointerAt(r, k)) && seen == KeysBefore(PointerKey, r.active, n)
  }

  lemma PointersNext(r: Registry, i: nat, seen: set<string>)
    requires i < |r.active| && PointersScanned(r, i, seen) && PointerAt(r, i)
    ensures PointersScanned(r, i + 1, seen + {r.active[i].component})
  {
    IndexNext(PointerKey, r.active, i);
  }

  method ValidateRegistry(r: Registry) returns (ok: bool)
    ensures ok <==> RegistryOk(r)
  {
    if !NamespaceOk(r) { return false; }
    var componentsOk, components := CheckComponents(r);
    if !componentsOk { return false; }
    var versionsOk, versions := CheckVersions(r, components);
    if !versionsOk { return false; }
    var activationsOk, activations := CheckActivations(r, components, versions);
    if !activationsOk { return false; }
    var activeOk := CheckActive(r, versions, activations);
    return activeOk && AllSorted(r);
  }
}

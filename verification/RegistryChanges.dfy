/** Why adding a component, a version or an activation keeps the registry valid. */
module RegistryChanges {
  import opened Text
  import opened Maps
  import opened Keyed
  import opened CatalogRegistry

  /** Every key found in the first list is found, with the same item, in the second. */
  ghost predicate Keeps<T(!new)>(key: T -> string, xs: seq<T>, ys: seq<T>) {
    forall k :: Find(key, xs, k).Some? ==> Find(key, ys, k) == Find(key, xs, k)
  }

  lemma FitsMore(r: Registry, next: Registry)
    requires next.id == r.id && next.activations == r.activations && next.lastSequence == r.lastSequence && next.auditHead == r.auditHead
    requires Keeps(ComponentKeyId, r.components, next.components) && Keeps(VersionKey, r.versions, next.versions)
    requires ActivationsOk(r)
    ensures ActivationsOk(next)
  {
    forall i | 0 <= i < |r.activations| ensures ActivationFits(next.activations, i, next.id, next.components, next.versions) {
      assert ActivationFits(r.activations, i, r.id, r.components, r.versions);
    }
  }

  lemma PointersFitMore(r: Registry, next: Registry)
    requires next.activations == r.activations && next.active == r.active && Keeps(VersionKey, r.versions, next.versions)
    requires ActiveOk(r)
    ensures ActiveOk(next)
  {
    forall p | p in next.active ensures PointerFits(next, p) {
      assert PointerFits(r, p);
    }
  }

  lemma {:induction false} ClashMeans(components: seq<Component>, c: Component)
    ensures ComponentClash(components, c).NoClash? ==> Find(ComponentKeyId, components, c.id).None?
    ensures ComponentClash(components, c).NoClash? ==> forall y :: y in components ==> y.key != c.key
    ensures ComponentClash(components, c).Identical? ==> c in components
    ensures ComponentClash(components, c).SameId? ==> exists y :: y in components && y.id == c.id && y != c
    ensures ComponentClash(components, c).SameKey? ==> exists y :: y in components && y.key == c.key && y.id != c.id
  {
    if components != [] {
      assert components == [components[0]] + components[1..];
      ClashMeans(components[1..], c);
    }
  }

  lemma ComponentAdded(r: Registry, c: Component)
    requires ComponentsOk(r) && ComponentOk(c) && c.namespace == r.namespace && ComponentClash(r.components, c).NoClash?
    ensures ComponentsOk(WithComponent(r, c))
    ensures Keeps(ComponentKeyId, r.components, WithComponent(r, c).components)
  {
    var next := WithComponent(r, c);
    ClashMeans(r.components, c);
    Extended(ComponentKeyId, r.components, c);
    KeysStayDistinct(r.components, c, next.components);
  }

  lemma KeysStayDistinct(components: seq<Component>, c: Component, next: seq<Component>)
    requires DistinctKeys(ComponentKey, components) && multiset(next) == multiset(components + [c])
    requires forall b :: b in components ==> b.key != c.key
    ensures DistinctKeys(ComponentKey, next)
  {
    DistinctOfSame(ComponentKey, components + [c], next);
  }

  lemma ComponentKept(r: Registry, c: Component)
    requires RegistryOk(r) && ComponentOk(c) && c.namespace == r.namespace && ComponentClash(r.components, c).NoClash?
    ensures RegistryOk(WithComponent(r, c))
  {
    var next := WithComponent(r, c);
    ComponentAdded(r, c);
    FitsMore(r, next);
    PointersFitMore(r, next);
    forall v | v in next.versions ensures VersionFits(next.components, v) {
      assert VersionFits(r.components, v);
    }
  }

  lemma VersionKept(r: Registry, v: Version)
    requires RegistryOk(r) && VersionFits(r.components, v) && Find(VersionKey, r.versions, v.id).None?
    ensures RegistryOk(WithVersion(r, v))
  {
    var next := WithVersion(r, v);
    Extended(VersionKey, r.versions, v);
    FitsMore(r, next);
    PointersFitMore(r, next);
  }

  // ---------------------------------------------------------------- activating

  lemma {:induction false} ActivatedMeansCounted(acts: seq<ActivationRecord>, c: string, v: string)
    requires WasActivated(acts, c, v)
    ensures Count(acts, c) > 0
  {
    var i :| 0 <= i < |acts| && acts[i].body.component == c && acts[i].body.target == v;
    if i < |acts| - 1 {
      assert acts[..|acts| - 1][i] == acts[i];
      ActivatedMeansCounted(acts[..|acts| - 1], c, v);
    }
  }

  /** The pointer Activate finds is that of the last activation, and its epoch counts them. */
  lemma CurrentIsLast(r: Registry, c: string)
    requires PointersLatest(r)
    ensures Find(PointerKey, r.active, c).None? <==> Count(r.activations, c) == 0
    ensures Find(PointerKey, r.active, c).Some? ==> Find(PointerKey, r.active, c).value.epoch == Count(r.activations, c)
  {
    assert PointsToLast(r, c);
  }

  lemma ComponentSound(r: Registry, k: string)
    requires ComponentsOk(r) && Find(ComponentKeyId, r.components, k).Some?
    ensures !IsBlank(k)
  {
    assert ComponentOk(Find(ComponentKeyId, r.components, k).value);
  }

  lemma VersionSound(r: Registry, k: string)
    requires VersionsOk(r) && Find(VersionKey, r.versions, k).Some?
    ensures !IsBlank(k)
  {
    assert VersionFits(r.components, Find(VersionKey, r.versions, k).value);
  }

  lemma RegistryIdVisible(r: Registry)
    requires NamespaceOk(r)
    ensures !IsBlank(r.id)
  {
    assert r.id[0] == 'c';
    Visible(r.id);
  }

  /** What the checks leave established. */
  ghost predicate Cleared(r: Registry, q: Request) {
    && TargetFits(r.components, r.versions, Trim(q.component), Trim(q.target))
    && (ActionOf(q).Activation? || ActionOf(q).Rollback?)
    && (ActionOf(q).Rollback? ==> WasActivated(r.activations, Trim(q.component), Trim(q.target)))
    && !IsBlank(q.reason) && !IsBlank(q.actor) && q.at != 0
  }

  lemma ChecksClear(r: Registry, q: Request)
    requires Refusal(r, q).None?
    ensures Cleared(r, q)
  {
  }

  lemma TrimmedVisible(s: string)
    requires !IsBlank(s)
    ensures !IsBlank(Trim(s))
  {
    Visible(s);
  }

  lemma RollbackHasPrevious(r: Registry, c: string, target: string)
    requires ActiveOk(r) && PointersLatest(r) && WasActivated(r.activations, c, target)
    ensures Find(PointerKey, r.active, c).Some? && Find(PointerKey, r.active, c).value.version != ""
  {
    CurrentIsLast(r, c);
    ActivatedMeansCounted(r.activations, c, target);
    assert PointerFits(r, Find(PointerKey, r.active, c).value);
  }

  lemma NextEpoch(r: Registry, q: Request)
    requires PointersLatest(r)
    ensures NextActivation(r, q).body.epoch == Count(r.activations, Trim(q.component)) + 1
  {
    CurrentIsLast(r, Trim(q.component));
  }

  /** A request that passes the checks makes a record that passes its validator. */
  lemma NextActivationOk(r: Registry, q: Request)
    requires RegistryOk(r) && PointersLatest(r) && Cleared(r, q)
    ensures ActivationOk(NextActivation(r, q), r.id)
  {
    var body := NextActivation(r, q).body;
    RegistryIdVisible(r);
    ComponentSound(r, Trim(q.component));
    VersionSound(r, Trim(q.target));
    TrimmedVisible(q.reason);
    TrimmedVisible(q.actor);
    assert !IsBlank(body.registry) && !IsBlank(body.component) && !IsBlank(body.target) && !IsBlank(body.reason) && !IsBlank(body.actor);
    if ActionOf(q).Rollback? { RollbackHasPrevious(r, Trim(q.component), Trim(q.target)); }
  }

  /** The record a request makes fits the end of the chain. */
  lemma NextActivationFits(r: Registry, q: Request)
    requires RegistryOk(r) && PointersLatest(r) && Cleared(r, q)
    ensures ActivationFits(r.activations + [NextActivation(r, q)], |r.activations|, r.id, r.components, r.versions)
  {
    NextActivationOk(r, q);
    NextEpoch(r, q);
    FitsAtEnd(r, NextActivation(r, q));
  }

  lemma FitsAtEnd(r: Registry, a: ActivationRecord)
    requires ActivationsOk(r) && ActivationOk(a, r.id) && a.body.sequence == r.lastSequence + 1 && a.body.previousHash == r.auditHead
    requires TargetFits(r.components, r.versions, a.body.component, a.body.target)
    requires a.body.epoch == Count(r.activations, a.body.component) + 1
    requires a.body.action.Rollback? ==> WasActivated(r.activations, a.body.component, a.body.target)
    ensures ActivationFits(r.activations + [a], |r.activations|, r.id, r.components, r.versions)
  {
    assert (r.activations + [a])[..|r.activations|] == r.activations;
  }

  lemma EarlierStillFit(r: Registry, a: ActivationRecord, i: nat)
    requires i < |r.activations| && ActivationFits(r.activations, i, r.id, r.components, r.versions)
    ensures ActivationFits(r.activations + [a], i, r.id, r.components, r.versions)
  {
    assert (r.activations + [a])[..i] == r.activations[..i];
  }

  lemma ChainGrows(r: Registry, a: ActivationRecord)
    requires ActivationsOk(r) && a.body.sequence == r.lastSequence + 1
    requires ActivationFits(r.activations + [a], |r.activations|, r.id, r.components, r.versions)
    ensures ActivationsOk(WithActivation(r, a))
  {
    var next := WithActivation(r, a);
    forall i | 0 <= i < |next.activations| ensures ActivationFits(next.activations, i, next.id, next.components, next.versions) {
      if i < |r.activations| { EarlierStillFit(r, a, i); }
    }
  }

  lemma PointersMove(r: Registry, a: ActivationRecord)
    requires ActiveOk(r) && ActivationOk(a, r.id) && TargetFits(r.components, r.versions, a.body.component, a.body.target)
    ensures ActiveOk(WithActivation(r, a))
  {
    var next := WithActivation(r, a);
    PutFinds(PointerKey, r.active, PointerOf(a));
    forall p | p in next.active ensures PointerFits(next, p) {
      if p == PointerOf(a) {
        assert Names(next.activations, |r.activations|, p);
        Filled(a, r.id);
      } else {
        assert PointerFits(r, p);
        var i :| 0 <= i < |r.activations| && Names(r.activations, i, p);
        assert Names(next.activations, i, p);
      }
    }
  }

  lemma Filled(a: ActivationRecord, registry: string)
    requires ActivationOk(a, registry)
    ensures a.body.component != "" && a.body.target != "" && a.body.actor != "" && a.body.epoch != 0 && a.body.at != 0
  {
  }

  lemma PointersStayLatest(r: Registry, a: ActivationRecord)
    requires ActiveOk(r) && PointersLatest(r) && a.body.epoch == Count(r.activations, a.body.component) + 1
    ensures PointersLatest(WithActivation(r, a))
  {
    var next := WithActivation(r, a);
    PutFinds(PointerKey, r.active, PointerOf(a));
    assert next.activations[..|next.activations| - 1] == r.activations;
    forall c ensures PointsToLast(next, c) {
      assert PointsToLast(r, c);
    }
  }

  /** A request that passes the checks leaves a registry that passes the whole validator. */
  lemma ActivationKept(r: Registry, q: Request)
    requires RegistryOk(r) && PointersLatest(r) && Cleared(r, q)
    ensures ActivationOk(NextActivation(r, q), r.id)
    ensures RegistryOk(WithActivation(r, NextActivation(r, q))) && PointersLatest(WithActivation(r, NextActivation(r, q)))
  {
    var a := NextActivation(r, q);
    NextActivationOk(r, q);
    NextActivationFits(r, q);
    NextEpoch(r, q);
    ChainGrows(r, a);
    PointersMove(r, a);
    PointersStayLatest(r, a);
  }
}

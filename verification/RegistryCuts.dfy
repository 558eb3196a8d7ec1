/** An activation cut off between two of its writes: whether the files still verify, and what further requests do. */
module RegistryCuts {
  import opened Wrappers
  import opened Text
  import opened Keyed
  import opened CatalogRegistry
  import opened RegistryChanges
  import opened RegistryRuns

  /** The disk after k of the three writes that commit an activation: its file, the pointer file, the registry. */
  function Cut(d: Disk, a: ActivationRecord, k: nat): Disk
    requires d.registry.Some?
  {
    var filed := if k >= 1 then d.(activations := d.activations[(a.body.sequence, a.id) := a]) else d;
    var pointed := if k >= 2 then filed.(active := d.active[a.body.component := PointerOf(a)]) else filed;
    if k >= 3 then pointed.(registry := Some(WithActivation(d.registry.value, a))) else pointed
  }

  /** An invariant state in which the request clears the checks of Activate, and the activation it asks for. */
  ghost predicate Asks(d: Disk, q: Request, a: ActivationRecord) {
    Inv(d) && d.registry.Some? && Refusal(d.registry.value, q).None? && a == NextActivation(d.registry.value, q)
  }

  /** Uncut, the writes are what Activate does. */
  lemma CutIsWhole(d: Disk, q: Request, a: ActivationRecord)
    requires Asks(d, q, a)
    ensures Activated(d, q) == (Cut(d, a, 3), Ok(WithActivation(d.registry.value, a)))
  {
    ActivateIs(d, q);
  }

  /** What matters of an activation that may come next. */
  predicate Follows(d: Disk, a: ActivationRecord) {
    && d.registry.Some? && a.body.sequence == |d.registry.value.activations| + 1 && (a.body.sequence, a.id) !in d.activations
    && Find(PointerKey, d.registry.value.active, a.body.component) != Some(PointerOf(a))
    && a == SealActivation(a.body)
  }

  lemma AskedFollows(d: Disk, q: Request, a: ActivationRecord)
    requires Asks(d, q, a)
    ensures Follows(d, a) && a.body.component == Trim(q.component)
  {
  }

  // ---------------------------------------------------------------- loading

  predicate ActivationsFiled(d: Disk, r: Registry) { forall i :: 0 <= i < |r.activations| ==> ActivationStored(d, r, i) }

  predicate PointersFiled(d: Disk, r: Registry) { forall p :: p in r.active ==> Stored(d.active, p.component) == Some(p) }

  predicate OthersFiled(d: Disk, r: Registry) {
    && (forall c :: c in r.components ==> Stored(d.components, c.id) == Some(c))
    && (forall v :: v in r.versions ==> Stored(d.versions, v.id) == Some(v))
  }

  lemma LoadsIs(d: Disk, r: Registry)
    requires d.registry == Some(r)
    ensures Loads(d) <==> RegistryOk(r) && OthersFiled(d, r) && ActivationsFiled(d, r) && PointersFiled(d, r)
  {
  }

  /** A new activation file disturbs none on record. */
  lemma FileAdded(d: Disk, r: Registry, a: ActivationRecord)
    requires ActivationsOk(r) && ActivationsFiled(d, r) && a.body.sequence > |r.activations|
    ensures ActivationsFiled(d.(activations := d.activations[(a.body.sequence, a.id) := a]), r)
  {
    var d' := d.(activations := d.activations[(a.body.sequence, a.id) := a]);
    forall i | 0 <= i < |r.activations| ensures ActivationStored(d', r, i) {
      assert ActivationStored(d, r, i) && ActivationFits(r.activations, i, r.id, r.components, r.versions);
    }
  }

  lemma SameFilesFiled(d: Disk, d': Disk, r: Registry)
    requires ActivationsFiled(d, r) && d'.activations == d.activations
    ensures ActivationsFiled(d', r)
  {
    forall i | 0 <= i < |r.activations| ensures ActivationStored(d', r, i) { assert ActivationStored(d, r, i); }
  }

  /** Up to the registry file nothing but the pointer file can keep the files from verifying. */
  lemma CutFiles(d: Disk, a: ActivationRecord, k: nat)
    requires d.registry.Some? && Loads(d) && Follows(d, a) && k <= 2
    ensures Loads(Cut(d, a, k)) <==> PointersFiled(Cut(d, a, k), d.registry.value)
  {
    var r := d.registry.value;
    LoadsIs(d, r);
    LoadsIs(Cut(d, a, k), r);
    FileAdded(d, r, a);
    SameFilesFiled(if k >= 1 then d.(activations := d.activations[(a.body.sequence, a.id) := a]) else d, Cut(d, a, k), r);
  }

  /** A pointer file changed: the pointers on file are those on record exactly if there is none for the component. */
  lemma PointerFileChanged(d: Disk, d': Disk, r: Registry, p: Pointer)
    requires ActiveOk(r) && PointersFiled(d, r) && d'.active == d.active[p.component := p]
    requires Find(PointerKey, r.active, p.component) != Some(p)
    ensures PointersFiled(d', r) <==> Find(PointerKey, r.active, p.component).None?
  {
    var before := Find(PointerKey, r.active, p.component);
    forall o | o in r.active ensures o.component == p.component <==> before == Some(o) {
      if o.component == p.component { FindMember(PointerKey, r.active, o); }
    }
  }

  lemma CutFiled(d: Disk, a: ActivationRecord, k: nat)
    requires d.registry.Some? && Loads(d) && Follows(d, a) && k <= 2
    ensures Loads(Cut(d, a, k)) <==> k != 2 || Find(PointerKey, d.registry.value.active, a.body.component).None?
  {
    CutFiles(d, a, k);
    LoadsIs(d, d.registry.value);
    if k == 2 { PointerFileChanged(d, Cut(d, a, 2), d.registry.value, PointerOf(a)); }
  }

  /** Interrupted after k of its writes, an activation leaves files that verify exactly if the pointer file is not the last
      written, or the component had no pointer before. */
  lemma CutLoads(d: Disk, q: Request, a: ActivationRecord, k: nat)
    requires Asks(d, q, a)
    ensures Loads(Cut(d, a, k)) <==> k != 2 || Find(PointerKey, d.registry.value.active, Trim(q.component)).None?
  {
    AskedFollows(d, q, a);
    if k >= 3 {
      CutIsWhole(d, q, a);
      ActivateKeepsInv(d, q);
      InvLoads(Cut(d, a, 3));
    } else {
      InvLoads(d);
      CutFiled(d, a, k);
    }
  }

  // ---------------------------------------------------------------- the next request

  lemma ActivatedCommits(d: Disk, q: Request, a: ActivationRecord)
    requires d.registry.Some? && Refusal(d.registry.value, q).None? && a == NextActivation(d.registry.value, q) && ActivationOk(a, d.registry.value.id)
    ensures Activated(d, q) == Committed(d, d.registry.value, a)
  {
  }

  /** The cut keeps the registry, and has no other activation under the name of one that may come next. */
  lemma CutIsFree(d: Disk, a: ActivationRecord, k: nat, b: ActivationRecord)
    requires Follows(d, a) && Follows(d, b) && k <= 2
    ensures Cut(d, a, k).registry == d.registry && FreeFor(Cut(d, a, k), b)
  {
  }

  predicate FreeFor(d: Disk, b: ActivationRecord) { (b.body.sequence, b.id) in d.activations ==> d.activations[(b.body.sequence, b.id)] == b }

  lemma ClearedIsOk(d: Disk, q: Request, a: ActivationRecord)
    requires Asks(d, q, a)
    ensures ActivationOk(a, d.registry.value.id) && RegistryOk(WithActivation(d.registry.value, a))
  {
    ChecksClear(d.registry.value, q);
    ActivationKept(d.registry.value, q);
  }

  /** Whatever clears its checks goes through after the cut too, with the answer it would have had before. */
  lemma CutThenOther(d: Disk, q: Request, a: ActivationRecord, k: nat, q2: Request, b: ActivationRecord)
    requires Asks(d, q, a) && Asks(d, q2, b) && k <= 2
    ensures Cut(d, a, k).registry == d.registry
    ensures Activated(Cut(d, a, k), q2) == (ActivatedDisk(Cut(d, a, k), b), Ok(WithActivation(d.registry.value, b)))
  {
    AskedFollows(d, q, a);
    AskedFollows(d, q2, b);
    CutIsFree(d, a, k, b);
    FollowerCommits(d, q2, b, Cut(d, a, k));
  }

  lemma FollowerCommits(d: Disk, q: Request, b: ActivationRecord, d': Disk)
    requires Asks(d, q, b) && d'.registry == d.registry && FreeFor(d', b)
    ensures Activated(d', q) == (ActivatedDisk(d', b), Ok(WithActivation(d.registry.value, b)))
  {
    ClearedIsOk(d, q, b);
    CommitsOn(d, q, b, d');
    FreeCommits(d', d.registry.value, b);
  }

  lemma FreeCommits(d: Disk, r: Registry, b: ActivationRecord)
    requires d.registry == Some(r) && FreeFor(d, b) && RegistryOk(WithActivation(r, b))
    ensures Committed(d, r, b) == (ActivatedDisk(d, b), Ok(WithActivation(r, b)))
  {
  }

  lemma CommitsOn(d: Disk, q: Request, b: ActivationRecord, d': Disk)
    requires Asks(d, q, b) && d'.registry == d.registry && ActivationOk(b, d.registry.value.id)
    ensures Activated(d', q) == Committed(d', d.registry.value, b)
  {
    ActivatedCommits(d', q, b);
  }

  /** In particular the same request again, which ends as if it had never been interrupted. */
  lemma CutRepeats(d: Disk, q: Request, a: ActivationRecord, k: nat)
    requires Asks(d, q, a) && k <= 2
    ensures Activated(Cut(d, a, k), q) == Activated(d, q)
  {
    CutThenOther(d, q, a, k, q, a);
    ActivateIs(d, q);
    SameWrites(d, a, k);
  }

  lemma SameWrites(d: Disk, a: ActivationRecord, k: nat)
    requires d.registry.Some? && k <= 2
    ensures ActivatedDisk(Cut(d, a, k), a) == ActivatedDisk(d, a)
  {
    Twice(d.activations, (a.body.sequence, a.id), a);
    Twice(d.active, a.body.component, PointerOf(a));
  }

  lemma Twice<K, V>(files: map<K, V>, k: K, v: V)
    ensures files[k := v][k := v] == files[k := v]
  {
  }

  // ---------------------------------------------------------------- loading after the next request

  /** An activation's file beside that of the next one on record. */
  lemma BesideFiled(e: Disk, d': Disk, r: Registry, a: ActivationRecord, b: ActivationRecord)
    requires ActivationsOk(r) && ActivationsFiled(e, r) && r.activations != [] && r.activations[|r.activations| - 1] == b
    requires a.body.sequence == b.body.sequence && a == SealActivation(a.body) && b == SealActivation(b.body)
    requires forall k :: k in e.activations ==> k in d'.activations && (k == (a.body.sequence, a.id) || d'.activations[k] == e.activations[k])
    requires (a.body.sequence, a.id) in d'.activations && d'.activations[(a.body.sequence, a.id)] == a
    ensures ActivationsFiled(d', r)
  {
    forall i | 0 <= i < |r.activations| ensures ActivationStored(d', r, i) {
      assert ActivationStored(e, r, i) && ActivationFits(r.activations, i, r.id, r.components, r.versions);
      assert ActivationFits(r.activations, |r.activations| - 1, r.id, r.components, r.versions);
    }
  }

  /** The disk after the next request differs from the uncut one in the first activation's file, and its pointer file. */
  lemma CutThenFiles(d: Disk, a: ActivationRecord, b: ActivationRecord, k: nat)
    requires Follows(d, a) && Follows(d, b) && k <= 2
    ensures var e, d' := ActivatedDisk(d, b), ActivatedDisk(Cut(d, a, k), b);
      && d'.registry == e.registry && d'.components == e.components && d'.versions == e.versions
      && (k >= 1 ==> d'.activations == e.activations[(a.body.sequence, a.id) := a])
      && (k == 0 ==> d' == e)
      && d'.active == (if k == 2 && a.body.component != b.body.component then e.active[a.body.component := PointerOf(a)] else e.active)
  {
    TwoFiles(d.activations, a, b);
    TwoUpdates(d.active, a.body.component, PointerOf(a), b.body.component, PointerOf(b));
  }

  lemma TwoFiles(files: map<(nat, ActivationId), ActivationRecord>, a: ActivationRecord, b: ActivationRecord)
    requires a == SealActivation(a.body) && b == SealActivation(b.body)
    ensures files[(a.body.sequence, a.id) := a][(b.body.sequence, b.id) := b] == files[(b.body.sequence, b.id) := b][(a.body.sequence, a.id) := a]
  {
    if a.id == b.id { assert a == b; }
  }

  lemma TwoUpdates<V>(files: map<string, V>, c: string, v: V, d: string, w: V)
    ensures files[c := v][d := w] == (if c == d then files[d := w] else files[d := w][c := v])
  {
  }

  /** The pointers on record after an activation of another component. */
  lemma OtherPointer(r: Registry, b: ActivationRecord, c: string)
    requires ActiveOk(r) && c != b.body.component
    ensures Find(PointerKey, WithActivation(r, b).active, c) == Find(PointerKey, r.active, c)
  {
    PutFinds(PointerKey, r.active, PointerOf(b));
  }

  /** After the next request the files verify exactly if it is for the same component, or the pointer file was not the last
      written before the interruption, or the component had no pointer. */
  lemma OtherLoads(d: Disk, q: Request, a: ActivationRecord, k: nat, q2: Request, b: ActivationRecord)
    requires Asks(d, q, a) && Asks(d, q2, b) && k <= 2
    ensures Loads(Activated(Cut(d, a, k), q2).0)
      <==> k != 2 || Trim(q2.component) == Trim(q.component) || Find(PointerKey, d.registry.value.active, Trim(q.component)).None?
  {
    AskedFollows(d, q, a);
    AskedFollows(d, q2, b);
    CutThenOther(d, q, a, k, q2, b);
    ActivateIs(d, q2);
    ActivateKeepsInv(d, q2);
    InvLoads(ActivatedDisk(d, b));
    LoadsBeside(d, a, b, k);
  }

  lemma LoadsBeside(d: Disk, a: ActivationRecord, b: ActivationRecord, k: nat)
    requires Follows(d, a) && Follows(d, b) && k <= 2 && ActiveOk(d.registry.value) && Loads(ActivatedDisk(d, b))
    ensures Loads(ActivatedDisk(Cut(d, a, k), b))
      <==> k != 2 || a.body.component == b.body.component || Find(PointerKey, d.registry.value.active, a.body.component).None?
  {
    var e, d', r := ActivatedDisk(d, b), ActivatedDisk(Cut(d, a, k), b), WithActivation(d.registry.value, b);
    CutThenFiles(d, a, b, k);
    LoadsIs(e, r);
    LoadsIs(d', r);
    if k >= 1 { BesideFiled(e, d', r, a, b); }
    if k == 2 && a.body.component != b.body.component {
      OtherPointer(d.registry.value, b, a.body.component);
      PointerFileChanged(e, d', r, PointerOf(a));
    }
  }

  // ---------------------------------------------------------------- a run after which a cut does not load

  /** The run that activates one version, and registers another. */
  function BothSteps(c: Component, v: Version, q: Request, v2: Version): seq<Op> { Steps(c, v, q) + [OpVersion(v2)] }

  function BothVersions(c: Component, v: Version, q: Request, v2: Version): Registry { WithVersion(OneActive(c, v, q), v2) }

  lemma BothRegistered(c: Component, v: Version, q: Request, v2: Version)
    requires Activatable(c, v, q) && VersionOk(v2, c) && v2.id != v.id
    ensures Run(BothSteps(c, v, q, v2)).registry == Some(BothVersions(c, v, q, v2))
  {
    PointerFollows(c, v, q);
    RunInv(Steps(c, v, q));
    SecondJoins(Run(Steps(c, v, q)), c, v, q, v2);
    RunNext(Steps(c, v, q), OpVersion(v2));
  }

  lemma SecondJoins(d: Disk, c: Component, v: Version, q: Request, v2: Version)
    requires Inv(d) && d.registry == Some(OneActive(c, v, q)) && VersionOk(v2, c) && v2.id != v.id
    ensures VersionRegistered(d, v2).0.registry == Some(BothVersions(c, v, q, v2))
  {
    RegisterVersionIs(d, v2);
    SecondOutcome(OneActive(c, v, q), c, v, v2);
  }

  lemma SecondOutcome(r: Registry, c: Component, v: Version, v2: Version)
    requires r.components == [c] && r.versions == [v] && VersionOk(v2, c) && v2.id != v.id
    ensures VersionOutcome(r, v2) == Ok(WithVersion(r, v2))
  {
  }

  lemma SecondPointer(c: Component, v: Version, q: Request, v2: Version)
    requires Activatable(c, v, q)
    ensures var r, p := BothVersions(c, v, q, v2), Find(PointerKey, BothVersions(c, v, q, v2).active, c.id);
      p.Some? && p.value.version == v.id && r.components == [c]
  {
    ActivePointer(c, v, q);
  }

  lemma SecondFound(c: Component, v: Version, q: Request, v2: Version)
    requires v2.id != v.id
    ensures Find(VersionKey, BothVersions(c, v, q, v2).versions, v2.id) == Some(v2)
  {
    assert OneActive(c, v, q).versions == [v];
    Extended(VersionKey, [v], v2);
  }

  lemma SecondClears(c: Component, v: Version, q: Request, v2: Version, q2: Request)
    requires Activatable(c, v, q) && Activatable(c, v2, q2) && v2.id != v.id
    ensures Refusal(BothVersions(c, v, q, v2), q2).None? && Find(PointerKey, BothVersions(c, v, q, v2).active, c.id).Some?
  {
    SecondPointer(c, v, q, v2);
    SecondFound(c, v, q, v2);
    ClearedBy(BothVersions(c, v, q, v2), c, v2, q2);
  }

  lemma ClearedBy(r: Registry, c: Component, v2: Version, q2: Request)
    requires Activatable(c, v2, q2) && r.components == [c] && Find(VersionKey, r.versions, v2.id) == Some(v2)
    requires var p := Find(PointerKey, r.active, c.id); p.Some? && p.value.version != v2.id
    ensures Refusal(r, q2).None?
  {
  }

  /** Interrupted after its pointer file the activation leaves files that do not verify, and the same request mends that. */
  ghost predicate BrokenUntilRepeated(d: Disk, q: Request) {
    d.registry.Some? && BrokenAt(d, q, Cut(d, NextActivation(d.registry.value, q), 2))
  }

  ghost predicate BrokenAt(d: Disk, q: Request, cut: Disk) { !Loads(cut) && Loads(Activated(cut, q).0) }

  /** So it is after that run, for the other version. */
  lemma CutHappens(c: Component, v: Version, q: Request, v2: Version, q2: Request)
    requires Activatable(c, v, q) && Activatable(c, v2, q2) && v2.id != v.id
    ensures BrokenUntilRepeated(Run(BothSteps(c, v, q, v2)), q2)
  {
    var d := Run(BothSteps(c, v, q, v2));
    BothRegistered(c, v, q, v2);
    RunInv(BothSteps(c, v, q, v2));
    SecondClears(c, v, q, v2, q2);
    CutBreaks(d, q2, NextActivation(d.registry.value, q2));
  }

  lemma CutBreaks(d: Disk, q: Request, a: ActivationRecord)
    requires Asks(d, q, a) && Find(PointerKey, d.registry.value.active, Trim(q.component)).Some?
    ensures BrokenAt(d, q, Cut(d, a, 2))
  {
    CutLoads(d, q, a, 2);
    OtherLoads(d, q, a, 2, q, a);
  }
}

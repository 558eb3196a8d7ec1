/** A registration cut off between two of its writes: what still loads, and which inputs are refused from then on. */
module MappingCuts {
  import opened Wrappers
  import opened Text
  import opened Maps
  import opened Keyed
  import C = CatalogRegistry
  import opened AlertListMapping
  import opened MappingTimeline
  import opened MappingRuns
  import opened MappingResolution

  /** The last of the writes made: the key file, where the list has no key yet, the version file, the registry. */
  datatype Stage = Nothing | KeyFile | VersionFile | Whole

  predicate FirstOfList(r: Registry, v: Version) { Find(KeyId, r.keys, v.Mapping()).None? }

  function Cut(d: Disk, r: Registry, q: Input, v: Version, stage: Stage): Disk {
    Disk(if stage.Whole? then Some(Grown(r, q, v)) else d.registry,
      if !stage.Nothing? && FirstOfList(r, v) then d.keys[NewKey(r, q).id := NewKey(r, q)] else d.keys,
      if stage.VersionFile? || stage.Whole? then d.versions[(v.body.sequence, v.body.id) := v] else d.versions)
  }

  /** An invariant state in which the input makes this new version. */
  ghost predicate Asks(d: Disk, r: Registry, q: Input, catalog: C.Registry, v: Version) {
    Inv(d) && d.registry == Some(r) && CatalogOk(r, catalog) && Built(r, q, catalog) == Ok(v) && Fresh(r, q, v, catalog)
  }

  /** Uncut, the writes are what Register does. */
  lemma CutIsWhole(d: Disk, r: Registry, q: Input, catalog: C.Registry, v: Version)
    requires Asks(d, r, q, catalog, v)
    ensures Registered(d, q, catalog) == (Cut(d, r, q, v, Whole), Ok(v))
  {
    FreshRegistered(d, q, catalog, v);
  }

  /** New files under new names: those on record are as they were. */
  lemma KeysStayFiled(d: Disk, r: Registry, q: Input, v: Version, stage: Stage)
    requires FilesOk(d, r) && !(exists k :: k in r.keys && k.id == NewKey(r, q).id && FirstOfList(r, v))
    ensures forall k :: k in r.keys ==> KeyFiled(Cut(d, r, q, v, stage), k)
  {
    forall k | k in r.keys ensures KeyFiled(Cut(d, r, q, v, stage), k) { assert KeyFiled(d, k); }
  }

  lemma VersionsStayFiled(d: Disk, r: Registry, q: Input, v: Version, stage: Stage)
    requires FilesOk(d, r) && (v.body.sequence, v.body.id) !in d.versions
    ensures forall w :: w in r.versions ==> VersionFiled(Cut(d, r, q, v, stage), w)
  {
    forall w | w in r.versions ensures VersionFiled(Cut(d, r, q, v, stage), w) { assert VersionFiled(d, w); }
  }

  lemma NoKeyOfFirst(r: Registry, q: Input, v: Version)
    requires KeysOk(r) && v.Mapping() == NewKey(r, q).id && FirstOfList(r, v)
    ensures !exists k :: k in r.keys && k.id == NewKey(r, q).id
  {
    forall k | k in r.keys ensures k.id != NewKey(r, q).id { FindMember(KeyId, r.keys, k); }
  }

  lemma CutFiles(d: Disk, r: Registry, q: Input, catalog: C.Registry, v: Version, stage: Stage)
    requires Asks(d, r, q, catalog, v) && !stage.Whole?
    ensures FilesOk(Cut(d, r, q, v, stage), r)
  {
    MirroredFiles(d, r);
    AskedUnfiled(d, r, q, catalog, v);
    if FirstOfList(r, v) { NoKeyOfFirst(r, q, v); }
    KeysStayFiled(d, r, q, v, stage);
    VersionsStayFiled(d, r, q, v, stage);
  }

  /** Wherever it is interrupted before the registry is written, it loads as before, under every catalog. */
  lemma CutLoads(d: Disk, r: Registry, q: Input, catalog: C.Registry, v: Version, stage: Stage, other: C.Registry)
    requires Asks(d, r, q, catalog, v) && !stage.Whole?
    ensures Loaded(Cut(d, r, q, v, stage), other) == Loaded(d, other)
  {
    CutFiles(d, r, q, catalog, v, stage);
    LoadedIs(d, other);
  }

  // ---------------------------------------------------------------- the next input

  predicate SameList(q: Input, q2: Input) { q2.source == q.source && q2.list == q.list }

  /** Inputs of one list whose versions have one id. */
  predicate OneId(q: Input, q2: Input) {
    && SameList(q, q2) && q2.action == q.action && Trim(q2.component) == Trim(q.component)
    && Second(q2.from) == Second(q.from) && SecondOf(q2.to) == SecondOf(q.to)
    && Trim(q2.reason) == Trim(q.reason) && Second(q2.createdAt) == Second(q.createdAt) && Trim(q2.createdBy) == Trim(q.createdBy)
  }

  /** The second input is for the list whose key file the first left, and would write another key; or it has the id of the
      version file the first left, and would write another version. */
  predicate Collides(r: Registry, q: Input, v: Version, stage: Stage, q2: Input) {
    KeyCollides(r, q, v, stage, q2) || VersionCollides(q, stage, q2)
  }

  /** The files in the way of a version and its key, if that is needed. */
  predicate FilesFree(d: Disk, r: Registry, q: Input, v: Version) {
    && (FirstOfList(r, v) ==> C.WriteOnce(d.keys, NewKey(r, q).id, NewKey(r, q)).Some?)
    && C.WriteOnce(d.versions, (v.body.sequence, v.body.id), v).Some?
  }

  lemma WrittenOn(d: Disk, r: Registry, v: Version, catalog: C.Registry)
    requires Valid(WithVersion(r, v), catalog)
    ensures var files := C.WriteOnce(d.versions, (v.body.sequence, v.body.id), v);
      VersionWritten(d, r, v, catalog) == (if files.None? then (d, Err(FileCollision))
                                           else (d.(versions := files.value, registry := Some(WithVersion(r, v))), Ok(v)))
  {
  }

  /** Register once the version is built and new. */
  function NewlyRegistered(d: Disk, r: Registry, q: Input, v: Version, catalog: C.Registry): (Disk, Result<Version, Error>) {
    if !FirstOfList(r, v) then VersionWritten(d, r, v, catalog)
    else
      var k := NewKey(r, q);
      var files := C.WriteOnce(d.keys, k.id, k);
      if files.None? then (d, Err(FileCollision)) else VersionWritten(d.(keys := files.value), WithKey(r, k), v, catalog)
  }

  lemma RegistersNewly(d: Disk, r: Registry, q: Input, catalog: C.Registry, v: Version)
    requires Loaded(d, catalog) == Ok(r) && Built(r, q, catalog) == Ok(v) && Existing(r.versions, v.body.id).None?
    requires FirstOfList(r, v) ==> KeyOk(NewKey(r, q))
    ensures Registered(d, q, catalog) == NewlyRegistered(d, r, q, v, catalog)
  {
  }

  lemma NewlyIs(d: Disk, r: Registry, q: Input, v: Version, catalog: C.Registry)
    requires d.registry == Some(r) && Valid(Grown(r, q, v), catalog)
    ensures if FilesFree(d, r, q, v) then NewlyRegistered(d, r, q, v, catalog) == (GrownDisk(d, r, q, v), Ok(v))
            else NewlyRegistered(d, r, q, v, catalog).1 == Err(FileCollision) && NewlyRegistered(d, r, q, v, catalog).0.registry == d.registry
  {
    if FirstOfList(r, v) {
      WrittenOn(d.(keys := d.keys[NewKey(r, q).id := NewKey(r, q)]), WithKey(r, NewKey(r, q)), v, catalog);
    } else {
      WrittenOn(d, r, v, catalog);
    }
  }

  /** With the registry and its files as they were, only files in the way refuse a new version. */
  lemma RegisteredOn(d: Disk, r: Registry, q: Input, catalog: C.Registry, v: Version, d': Disk)
    requires Asks(d, r, q, catalog, v) && d'.registry == d.registry && Loaded(d', catalog) == Ok(r)
    ensures if FilesFree(d', r, q, v) then Registered(d', q, catalog) == (GrownDisk(d', r, q, v), Ok(v))
            else Registered(d', q, catalog).1 == Err(FileCollision) && Registered(d', q, catalog).0.registry == d.registry
  {
    GrownOk(r, q, v, catalog);
    RegistersNewly(d', r, q, catalog, v);
    NewlyIs(d', r, q, v, catalog);
  }

  lemma ListsByMapping(r: Registry, q: Input, q2: Input)
    requires InputOk(q) && InputOk(q2)
    ensures MappingId(r.namespace, q.source, q.list) == MappingId(r.namespace, q2.source, q2.list) <==> SameList(q, q2)
  {
    if MappingId(r.namespace, q.source, q.list) == MappingId(r.namespace, q2.source, q2.list) {
      MappingIdInjective(r.namespace, q.source, q.list, q2.source, q2.list);
    }
  }

  lemma KeysInTheWay(r: Registry, q: Input, q2: Input)
    requires SameList(q, q2)
    ensures NewKey(r, q2).id == NewKey(r, q).id
    ensures NewKey(r, q2) == NewKey(r, q) <==> q2.createdAt == q.createdAt && Trim(q2.createdBy) == Trim(q.createdBy)
  {
  }

  lemma VersionsInTheWay(r: Registry, q: Input, q2: Input)
    requires InputOk(q) && InputOk(q2)
    ensures NextVersion(r, q2).body.id == NextVersion(r, q).body.id <==> OneId(q, q2)
    ensures OneId(q, q2) ==> (NextVersion(r, q2) == NextVersion(r, q) <==> Trimmed(q2) == Trimmed(q))
  {
    ListsByMapping(r, q, q2);
  }

  predicate KeyCollides(r: Registry, q: Input, v: Version, stage: Stage, q2: Input) {
    !stage.Nothing? && FirstOfList(r, v) && SameList(q, q2) && (q2.createdAt != q.createdAt || Trim(q2.createdBy) != Trim(q.createdBy))
  }

  predicate VersionCollides(q: Input, stage: Stage, q2: Input) { stage.VersionFile? && OneId(q, q2) && Trimmed(q2) != Trimmed(q) }

  /** What is known of a new version and its files. */
  ghost predicate Unfiled(d: Disk, r: Registry, q: Input, v: Version) {
    && InputOk(q) && v == NextVersion(r, q) && (v.body.sequence, v.body.id) !in d.versions
    && (FirstOfList(r, v) ==> NewKey(r, q).id !in d.keys)
  }

  lemma AskedUnfiled(d: Disk, r: Registry, q: Input, catalog: C.Registry, v: Version)
    requires Asks(d, r, q, catalog, v)
    ensures Unfiled(d, r, q, v)
  {
    VersionsFiled(d, r, q, v);
    if FirstOfList(r, v) { KeyMirrored(d, r, NewKey(r, q)); }
  }

  /** Of another list, or before the key file, the keys on file are as they were. */
  lemma OtherKeyFree(d: Disk, r: Registry, q: Input, v: Version, stage: Stage, q2: Input, v2: Version)
    requires Unfiled(d, r, q, v) && Unfiled(d, r, q2, v2) && (stage.Nothing? || !FirstOfList(r, v) || NewKey(r, q2).id != NewKey(r, q).id)
    ensures FirstOfList(r, v2) ==> C.WriteOnce(Cut(d, r, q, v, stage).keys, NewKey(r, q2).id, NewKey(r, q2)).Some?
  {
  }

  lemma SameKeyFree(d: Disk, r: Registry, q: Input, v: Version, stage: Stage, q2: Input)
    requires !stage.Nothing? && FirstOfList(r, v) && NewKey(r, q2).id == NewKey(r, q).id
    ensures C.WriteOnce(Cut(d, r, q, v, stage).keys, NewKey(r, q2).id, NewKey(r, q2)).Some? <==> NewKey(r, q2) == NewKey(r, q)
  {
  }

  lemma KeyInTheWay(d: Disk, r: Registry, q: Input, v: Version, stage: Stage, q2: Input, v2: Version)
    requires Unfiled(d, r, q, v) && Unfiled(d, r, q2, v2)
    ensures (FirstOfList(r, v2) ==> C.WriteOnce(Cut(d, r, q, v, stage).keys, NewKey(r, q2).id, NewKey(r, q2)).Some?)
      <==> !KeyCollides(r, q, v, stage, q2)
  {
    ListsByMapping(r, q, q2);
    if !stage.Nothing? && FirstOfList(r, v) && SameList(q, q2) {
      KeysInTheWay(r, q, q2);
      SameKeyFree(d, r, q, v, stage, q2);
      assert v2.Mapping() == v.Mapping();
    } else {
      OtherKeyFree(d, r, q, v, stage, q2, v2);
    }
  }

  lemma VersionInTheWay(d: Disk, r: Registry, q: Input, v: Version, stage: Stage, q2: Input, v2: Version)
    requires Unfiled(d, r, q, v) && Unfiled(d, r, q2, v2) && !stage.Whole?
    ensures C.WriteOnce(Cut(d, r, q, v, stage).versions, (v2.body.sequence, v2.body.id), v2).Some? <==> !VersionCollides(q, stage, q2)
  {
    VersionsInTheWay(r, q, q2);
  }

  /** What stands in the way of the second input's files is what the cut left. */
  lemma InTheWay(d: Disk, r: Registry, q: Input, catalog: C.Registry, v: Version, stage: Stage, q2: Input, other: C.Registry, v2: Version)
    requires Asks(d, r, q, catalog, v) && Asks(d, r, q2, other, v2) && !stage.Whole?
    ensures FilesFree(Cut(d, r, q, v, stage), r, q2, v2) <==> !Collides(r, q, v, stage, q2)
  {
    AskedUnfiled(d, r, q, catalog, v);
    AskedUnfiled(d, r, q2, other, v2);
    KeyInTheWay(d, r, q, v, stage, q2, v2);
    VersionInTheWay(d, r, q, v, stage, q2, v2);
  }

  /** An input that would have made a new version makes it after the cut as well, under any catalog, exactly if it does not
      collide with the files left; if it does, it is refused and the registry stays. */
  lemma CutThenOther(d: Disk, r: Registry, q: Input, catalog: C.Registry, v: Version, stage: Stage, q2: Input, other: C.Registry, v2: Version)
    requires Asks(d, r, q, catalog, v) && Asks(d, r, q2, other, v2) && !stage.Whole?
    ensures var d' := Cut(d, r, q, v, stage);
      if Collides(r, q, v, stage, q2) then Registered(d', q2, other).1 == Err(FileCollision) && Registered(d', q2, other).0.registry == d.registry
      else Registered(d', q2, other) == (GrownDisk(d', r, q2, v2), Ok(v2))
  {
    CutLoads(d, r, q, catalog, v, stage, other);
    LoadedIs(d, other);
    InTheWay(d, r, q, catalog, v, stage, q2, other, v2);
    RegisteredOn(d, r, q2, other, v2, Cut(d, r, q, v, stage));
  }

  /** In particular the same input again goes through, and ends as if it had never been interrupted. */
  lemma CutRepeats(d: Disk, r: Registry, q: Input, catalog: C.Registry, v: Version, stage: Stage)
    requires Asks(d, r, q, catalog, v) && !stage.Whole?
    ensures Registered(Cut(d, r, q, v, stage), q, catalog) == Registered(d, q, catalog)
  {
    CutThenOther(d, r, q, catalog, v, stage, q, catalog, v);
    CutIsWhole(d, r, q, catalog, v);
    SameWrites(d, r, q, v, stage);
  }

  lemma SameWrites(d: Disk, r: Registry, q: Input, v: Version, stage: Stage)
    requires !stage.Whole?
    ensures GrownDisk(Cut(d, r, q, v, stage), r, q, v) == Cut(d, r, q, v, Whole)
  {
    Twice(d.keys, NewKey(r, q).id, NewKey(r, q));
    Twice(d.versions, (v.body.sequence, v.body.id), v);
  }

  lemma Twice<K, V>(files: map<K, V>, k: K, v: V)
    ensures files[k := v][k := v] == files[k := v]
  {
  }

  // ---------------------------------------------------------------- a key file without its key on record

  /** The key is on file, but the list is not keyed. */
  predicate KeyLeft(d: Disk, k: Key) {
    d.registry.Some? && k.id in d.keys && d.keys[k.id] == k && Find(KeyId, d.registry.value.keys, k.id).None?
  }

  /** A cut after the key file leaves that. */
  lemma CutLeavesKey(d: Disk, r: Registry, q: Input, catalog: C.Registry, v: Version, stage: Stage)
    requires Asks(d, r, q, catalog, v) && FirstOfList(r, v) && (stage.KeyFile? || stage.VersionFile?)
    ensures KeyLeft(Cut(d, r, q, v, stage), NewKey(r, q))
  {
  }

  lemma WrittenKeepsKeys(d: Disk, r: Registry, v: Version, catalog: C.Registry)
    ensures var d' := VersionWritten(d, r, v, catalog).0; d'.keys == d.keys && d'.registry in {d.registry, Some(WithVersion(r, v))}
  {
  }

  /** The list stays without a key, or was opened with the key on file. */
  predicate KeyKept(d: Disk, k: Key, q: Input, d': Disk, answer: Result<Version, Error>) {
    || KeyLeft(d', k)
    || (answer.Ok? && d.registry.Some? && NewKey(d.registry.value, q) == k
        && d'.registry.Some? && Find(KeyId, d'.registry.value.keys, k.id) == Some(k))
  }

  lemma KeyedKeeps(d: Disk, k: Key, r: Registry, q: Input, v: Version, catalog: C.Registry)
    requires KeyLeft(d, k) && d.registry == Some(r) && !FirstOfList(r, v)
    ensures var (d', answer) := NewlyRegistered(d, r, q, v, catalog); KeyKept(d, k, q, d', answer)
  {
    WrittenKeepsKeys(d, r, v, catalog);
  }

  lemma FirstKeeps(d: Disk, k: Key, r: Registry, q: Input, v: Version, catalog: C.Registry)
    requires KeyLeft(d, k) && d.registry == Some(r) && DistinctKeys(KeyId, r.keys) && FirstOfList(r, v)
    requires v.Mapping() == NewKey(r, q).id
    ensures var (d', answer) := NewlyRegistered(d, r, q, v, catalog); KeyKept(d, k, q, d', answer)
  {
    var n := NewKey(r, q);
    var keyed := d.(keys := d.keys[n.id := n]);
    if C.WriteOnce(d.keys, n.id, n).Some? {
      Extended(KeyId, r.keys, n);
      FirstWritten(d, k, r, q, v, catalog, n, keyed);
    }
  }

  lemma FirstWritten(d: Disk, k: Key, r: Registry, q: Input, v: Version, catalog: C.Registry, n: Key, keyed: Disk)
    requires KeyLeft(d, k) && d.registry == Some(r) && n == NewKey(r, q) && (n.id == k.id ==> n == k)
    requires keyed == d.(keys := d.keys[n.id := n])
    requires forall id :: Find(KeyId, WithKey(r, n).keys, id) == if id == n.id then Some(n) else Find(KeyId, r.keys, id)
    ensures var (d', answer) := VersionWritten(keyed, WithKey(r, n), v, catalog); KeyKept(d, k, q, d', answer)
  {
    WrittenKeepsKeys(keyed, WithKey(r, n), v, catalog);
  }

  lemma RegistersOr(d: Disk, q: Input, catalog: C.Registry)
    ensures Registered(d, q, catalog).0 == d ||
            (d.registry.Some? && Loaded(d, catalog) == Ok(d.registry.value) && Built(d.registry.value, q, catalog).Ok? &&
             Registered(d, q, catalog) == NewlyRegistered(d, d.registry.value, q, Built(d.registry.value, q, catalog).value, catalog))
  {
  }

  /** Whatever is registered, on whatever files: the list stays without a key until an input is accepted that makes exactly
      the key on file, so that no other creator or time of creation can ever open the list. */
  lemma KeyStays(d: Disk, k: Key, q: Input, catalog: C.Registry)
    requires KeyLeft(d, k)
    ensures KeyKept(d, k, q, Registered(d, q, catalog).0, Registered(d, q, catalog).1)
  {
    RegistersOr(d, q, catalog);
    if Registered(d, q, catalog).0 != d {
      var r, v := d.registry.value, Built(d.registry.value, q, catalog).value;
      BuiltNew(r, q, catalog);
      if FirstOfList(r, v) { FirstKeeps(d, k, r, q, v, catalog); } else { KeyedKeeps(d, k, r, q, v, catalog); }
    }
  }

  // ---------------------------------------------------------------- a run after which a cut refuses

  lemma CutRefuses(d: Disk, r: Registry, q: Input, q2: Input, catalog: C.Registry, v: Version, v2: Version)
    requires Asks(d, r, q, catalog, v) && Asks(d, r, q2, catalog, v2) && FirstOfList(r, v) && SameList(q, q2) && q2.createdAt != q.createdAt
    ensures Registered(Cut(d, r, q, v, KeyFile), q2, catalog).1 == Err(FileCollision)
  {
    CutThenOther(d, r, q, catalog, v, KeyFile, q2, catalog, v2);
  }

  const LATER := RETIRE.(createdAt := 2)

  lemma BothAsk(d: Disk, r: Registry)
    requires d == Run([OpInitialize("n")]) && r == NewRegistry("n")
    ensures Asks(d, r, RETIRE, BARE, NextVersion(r, RETIRE)) && Asks(d, r, LATER, BARE, NextVersion(r, LATER))
  {
    RunInv([OpInitialize("n")]);
    FirstInitialized();
    RetireIsSound();
    FirstAsks(d, r, RETIRE);
    FirstAsks(d, r, LATER);
  }

  /** Two inputs that differ in the time of creation alone: after a cut of the first, the second is refused. */
  lemma KeyCollisionHappens()
    ensures var d, r := Run([OpInitialize("n")]), NewRegistry("n"); var v := NextVersion(r, RETIRE);
      && Asks(d, r, RETIRE, BARE, v)
      && Registered(Cut(d, r, RETIRE, v, KeyFile), LATER, BARE).1 == Err(FileCollision)
  {
    var d, r := Run([OpInitialize("n")]), NewRegistry("n");
    BothAsk(d, r);
    CutRefuses(d, r, RETIRE, LATER, BARE, NextVersion(r, RETIRE), NextVersion(r, LATER));
  }

  lemma FirstAsks(d: Disk, r: Registry, q: Input)
    requires Inv(d) && d.registry == Some(r) && r == NewRegistry("n") && r.namespace == "n" && InputOk(q) && q.action.Retire?
    ensures Asks(d, r, q, BARE, NextVersion(r, q))
  {
    NextSound(r, q);
  }
}

/** What every status of an answer means, and what registering needs and does, in terms of the versions and the catalog. */
module MappingEffects {
  import opened Wrappers
  import opened Text
  import opened Maps
  import opened Keyed
  import C = CatalogRegistry
  import opened AlertListMapping
  import opened MappingTimeline
  import opened MappingRuns
  import opened MappingResolution

  // ---------------------------------------------------------------- answers

  predicate OfList(v: Version, source: string, list: string) { v.body.input.source == source && v.body.input.list == list }

  ghost predicate OnRecord(r: Registry, q: Query) { exists k :: k in r.keys && k.source == q.source && k.list == q.list }

  /** Version i is of the queried list and in force at the queried time. */
  ghost predicate Governs(r: Registry, q: Query, i: int) {
    && 0 <= i < |r.versions| && OfList(r.versions[i], q.source, q.list) && r.versions[i].From() <= q.at
    && forall j :: i < j < |r.versions| && OfList(r.versions[j], q.source, q.list) ==> q.at < r.versions[j].From()
  }

  predicate Past(v: Version, at: Time) { v.body.input.to.Some? && at >= v.body.input.to.value }

  /** The catalog has this component, and this version of it active. */
  predicate Lists(catalog: C.Registry, id: string, c: C.Component) { c in catalog.components && c.id == id }

  ghost predicate Activates(catalog: C.Registry, c: C.Component, w: C.Version) {
    w in catalog.versions && exists p :: p in catalog.active && p.component == c.id && p.version == w.id
  }

  /** What the answer with version v in force says of it and the catalog. */
  ghost predicate Says(catalog: C.Registry, q: Query, v: Version, a: Resolution) {
    var bound := v.body.input;
    && a.query == q && a.exact && a.version == Some(v) && a.mapping == Some(v.Mapping())
    && (a.status.Expired? <==> Past(v, q.at))
    && (a.status.RetiredMapping? <==> !Past(v, q.at) && bound.action.Retire?)
    && (a.status.MissingComponent? <==> !Past(v, q.at) && !bound.action.Retire? && forall c :: !Lists(catalog, bound.component, c))
    && (a.status.RetiredComponent? <==>
          !Past(v, q.at) && !bound.action.Retire? && exists c :: Lists(catalog, bound.component, c) && !c.status.InUse?)
    && (a.status.CatalogNotActive? <==>
          && !Past(v, q.at) && !bound.action.Retire?
          && exists c :: Lists(catalog, bound.component, c) && c.status.InUse? && forall w :: !Activates(catalog, c, w))
    && (a.status.Resolved? <==>
          && !Past(v, q.at) && !bound.action.Retire?
          && exists c, w :: Lists(catalog, bound.component, c) && c.status.InUse? && Activates(catalog, c, w))
    && (a.status.Resolved? ==> a.catalog.Some? && a.component.Some? && Lists(catalog, bound.component, a.component.value)
                               && Activates(catalog, a.component.value, a.catalog.value))
    && (a.component.Some? ==> Lists(catalog, bound.component, a.component.value))
    && (!a.status.Resolved? ==> a.catalog == None)
  }

  predicate KeysApart(catalog: C.Registry) {
    DistinctKeys(C.ComponentKeyId, catalog.components) && DistinctKeys(C.PointerKey, catalog.active) && DistinctKeys(C.VersionKey, catalog.versions)
  }

  lemma ComponentListed(catalog: C.Registry, id: string, c: C.Component)
    requires KeysApart(catalog)
    ensures Lists(catalog, id, c) <==> Find(C.ComponentKeyId, catalog.components, id) == Some(c)
  {
    if Lists(catalog, id, c) { FindMember(C.ComponentKeyId, catalog.components, c); }
  }

  /** The active version by pointer and id. */
  function ActiveOf(catalog: C.Registry, id: string): Option<C.Version> {
    var p := Find(C.PointerKey, catalog.active, id);
    if p.None? then None else Find(C.VersionKey, catalog.versions, p.value.version)
  }

  lemma ActiveListed(catalog: C.Registry, c: C.Component, w: C.Version)
    requires KeysApart(catalog)
    ensures Activates(catalog, c, w) <==> ActiveOf(catalog, c.id) == Some(w)
  {
    if Activates(catalog, c, w) {
      var p :| p in catalog.active && p.component == c.id && p.version == w.id;
      FindMember(C.PointerKey, catalog.active, p);
      FindMember(C.VersionKey, catalog.versions, w);
    }
  }

  lemma SelectedSays(catalog: C.Registry, q: Query, v: Version)
    requires KeysApart(catalog)
    ensures Says(catalog, q, v, Selected(catalog, q, v.Mapping(), v))
  {
    forall c ensures Lists(catalog, v.body.input.component, c) <==> Find(C.ComponentKeyId, catalog.components, v.body.input.component) == Some(c) {
      ComponentListed(catalog, v.body.input.component, c);
    }
    forall c, w ensures Activates(catalog, c, w) <==> ActiveOf(catalog, c.id) == Some(w) {
      ActiveListed(catalog, c, w);
    }
  }

  lemma MappedIsListed(r: Registry, v: Version, source: string, list: string)
    requires RegistryOk(r) && v in r.versions && SourceOk(source) && ListOk(list)
    ensures v.Mapping() == MappingId(r.namespace, source, list) <==> OfList(v, source, list)
  {
    LastSound(r, v);
    if v.Mapping() == MappingId(r.namespace, source, list) {
      MappingIdInjective(r.namespace, v.body.input.source, v.body.input.list, source, list);
    }
  }

  lemma KeyedIs(r: Registry, q: Query)
    requires KeysOk(r) && QueryOk(q)
    ensures OnRecord(r, q) <==> Find(KeyId, r.keys, MappingId(r.namespace, q.source, q.list)).Some?
  {
    var id := MappingId(r.namespace, q.source, q.list);
    if OnRecord(r, q) {
      var k :| k in r.keys && k.source == q.source && k.list == q.list;
      assert KeyOk(k) && k.id == id;
    }
    var found := Find(KeyId, r.keys, id);
    if found.Some? {
      assert KeyOk(found.value);
      MappingIdInjective(r.namespace, found.value.source, found.value.list, q.source, q.list);
    }
  }

  lemma GovernsIs(r: Registry, q: Query, i: nat)
    requires RegistryOk(r) && QueryOk(q) && i < |r.versions|
    ensures var m := MappingId(r.namespace, q.source, q.list);
      Governs(r, q, i) <==> r.versions[i].Mapping() == m && Latest(r.versions, m, Some(q.at)) == Some(r.versions[i])
  {
    var m := MappingId(r.namespace, q.source, q.list);
    forall j | 0 <= j < |r.versions| ensures r.versions[j].Mapping() == m <==> OfList(r.versions[j], q.source, q.list) {
      MappedIsListed(r, r.versions[j], q.source, q.list);
    }
    TimelineOf(r);
    InForceIff(r.versions, i, q.at);
    GovernsInForce(r, q, i, m);
  }

  lemma GovernsInForce(r: Registry, q: Query, i: nat, m: string)
    requires i < |r.versions|
    requires forall j :: 0 <= j < |r.versions| ==> (r.versions[j].Mapping() == m <==> OfList(r.versions[j], q.source, q.list))
    ensures Governs(r, q, i) <==> r.versions[i].Mapping() == m && InForce(r.versions, i, q.at)
  {
  }

  /** The version the scan selects governs; without one none does. */
  lemma LatestGoverns(r: Registry, q: Query) returns (i: int)
    requires RegistryOk(r) && QueryOk(q)
    ensures var v := Latest(r.versions, MappingId(r.namespace, q.source, q.list), Some(q.at));
      && (v.Some? ==> Governs(r, q, i) && r.versions[i] == v.value && v.value.Mapping() == MappingId(r.namespace, q.source, q.list))
      && (v.None? ==> forall j :: !Governs(r, q, j))
  {
    i := -1;
    var m := MappingId(r.namespace, q.source, q.list);
    var v := Latest(r.versions, m, Some(q.at));
    LatestIs(r.versions, m, Some(q.at));
    if v.Some? {
      i :| 0 <= i < |r.versions| && r.versions[i] == v.value;
      GovernsIs(r, q, i);
    } else {
      forall j ensures !Governs(r, q, j) { if 0 <= j < |r.versions| { GovernsIs(r, q, j); } }
    }
  }

  /** The answer: unmapped exactly if the list has no key, not effective exactly if it has one but no version in
      force, and otherwise what the version in force and the catalog say. */
  ghost predicate Means(r: Registry, catalog: C.Registry, q: Query, a: Resolution) {
    && (a.status.Unmapped? <==> !OnRecord(r, q))
    && (a.status.NotEffective? <==> OnRecord(r, q) && forall i :: !Governs(r, q, i))
    && (a.status.Unmapped? ==> a == Resolution(q, Unmapped, false, None, None, None, None))
    && (a.status.NotEffective? ==> a == Resolution(q, NotEffective, true, Some(MappingId(r.namespace, q.source, q.list)), None, None, None))
    && (OnRecord(r, q) ==> forall i :: Governs(r, q, i) ==> Says(catalog, q, r.versions[i], a))
  }

  lemma AnswerMeansBy(r: Registry, catalog: C.Registry, q: Query)
    requires RegistryOk(r) && QueryOk(q) && KeysApart(catalog)
    ensures Means(r, catalog, q, Answer(r, catalog, q))
  {
    var m := MappingId(r.namespace, q.source, q.list);
    var v := Latest(r.versions, m, Some(q.at));
    AnswerIs(r, catalog, q);
    KeyedIs(r, q);
    var i := LatestGoverns(r, q);
    if v.Some? {
      SelectedSays(catalog, q, v.value);
      NeitherNor(catalog, q, v.value);
      forall j | Governs(r, q, j) ensures r.versions[j] == v.value { GovernsIs(r, q, j); }
    }
  }

  lemma NeitherNor(catalog: C.Registry, q: Query, v: Version)
    ensures var a := Selected(catalog, q, v.Mapping(), v); !a.status.Unmapped? && !a.status.NotEffective?
  {
  }

  /** So after any run, for every query and every catalog that fits. */
  lemma AnswerMeans(ops: seq<Op>, catalog: C.Registry, q: Query)
    requires Run(ops).registry.Some? && CatalogOk(Run(ops).registry.value, catalog) && KeysApart(catalog) && QueryOk(q)
    ensures var r := Run(ops).registry.value; var a := ResolveResult(r, catalog, q); a.Ok? && Means(r, catalog, q, a.value)
  {
    RunInv(ops);
    AnswerMeansBy(Run(ops).registry.value, catalog, q);
  }

  // ---------------------------------------------------------------- registering

  /** No version of the input's list takes effect at its time or later. */
  ghost predicate Newest(r: Registry, q: Input) {
    forall v :: v in r.versions && OfList(v, q.source, q.list) ==> v.From() < q.from
  }

  /** The last version of the input's list. */
  ghost predicate LastOfList(r: Registry, q: Input, v: Version) {
    exists i :: 0 <= i < |r.versions| && r.versions[i] == v && OfList(v, q.source, q.list)
      && forall j :: i < j < |r.versions| ==> !OfList(r.versions[j], q.source, q.list)
  }

  /** To the second, and but for white space, the input is that of the version. */
  predicate Alike(v: Version, q: Input) { OfList(v, q.source, q.list) && AlikeToTheSecond(v, v.Mapping(), q) }

  ghost predicate Usable(q: Input, catalog: C.Registry) {
    q.action.Bind? ==> exists c :: Lists(catalog, q.component, c) && c.status.InUse?
  }

  lemma {:induction false} LastOfIs(versions: seq<Version>, m: string) returns (i: int)
    ensures LastOf(versions, m).Some? ==>
      && 0 <= i < |versions| && versions[i] == LastOf(versions, m).value
      && forall j :: i < j < |versions| ==> versions[j].Mapping() != m
  {
    i := |versions| - 1;
    if versions != [] && versions[|versions| - 1].Mapping() != m { i := LastOfIs(versions[..|versions| - 1], m); }
  }

  lemma LastListed(r: Registry, q: Input, v: Version)
    requires RegistryOk(r) && InputOk(q)
    ensures LastOfList(r, q, v) <==> LastOf(r.versions, MappingId(r.namespace, q.source, q.list)) == Some(v)
  {
    var m := MappingId(r.namespace, q.source, q.list);
    forall j | 0 <= j < |r.versions| ensures r.versions[j].Mapping() == m <==> OfList(r.versions[j], q.source, q.list) {
      MappedIsListed(r, r.versions[j], q.source, q.list);
    }
    var i := LastOfIs(r.versions, m);
    LastListedAt(r, q, v, m, i);
  }

  lemma LastListedAt(r: Registry, q: Input, v: Version, m: string, i: int)
    requires forall j :: 0 <= j < |r.versions| ==> (r.versions[j].Mapping() == m <==> OfList(r.versions[j], q.source, q.list))
    requires LastOf(r.versions, m).Some? ==>
      && 0 <= i < |r.versions| && r.versions[i] == LastOf(r.versions, m).value
      && forall j :: i < j < |r.versions| ==> r.versions[j].Mapping() != m
    ensures LastOfList(r, q, v) <==> LastOf(r.versions, m) == Some(v)
  {
    if LastOf(r.versions, m) == Some(v) {
      assert OfList(r.versions[i], q.source, q.list);
    }
  }

  lemma NewestAdvances(r: Registry, q: Input)
    requires RegistryOk(r) && InputOk(q)
    ensures Newest(r, q) <==> Advancing(r, q)
  {
    var m := MappingId(r.namespace, q.source, q.list);
    TimelineOf(r);
    forall v | v in r.versions ensures v.Mapping() == m <==> OfList(v, q.source, q.list) { MappedIsListed(r, v, q.source, q.list); }
    LatestIsLast(r.versions, m);
    LatestIs(r.versions, m, None);
  }

  lemma AlikeIs(r: Registry, q: Input, v: Version)
    requires RegistryOk(r) && InputOk(q) && v in r.versions
    ensures Alike(v, q) <==> AlikeToTheSecond(v, MappingId(r.namespace, q.source, q.list), q)
  {
    MappedIsListed(r, v, q.source, q.list);
  }

  lemma UsableIs(q: Input, catalog: C.Registry)
    requires C.ComponentsOk(catalog)
    ensures Usable(q, catalog) <==> Bindable(q, catalog)
  {
    forall c | Lists(catalog, q.component, c) ensures Find(C.ComponentKeyId, catalog.components, q.component) == Some(c) {
      FindMember(C.ComponentKeyId, catalog.components, c);
    }
    var found := Find(C.ComponentKeyId, catalog.components, q.component);
    if found.Some? { assert Lists(catalog, q.component, found.value); }
  }

  lemma BuiltNeeds(r: Registry, q: Input, catalog: C.Registry)
    requires RegistryOk(r) && C.ComponentsOk(catalog)
    ensures var last := LastOf(r.versions, MappingId(r.namespace, q.source, q.list));
      Built(r, q, catalog).Ok? <==>
        && InputOk(q) && catalog.namespace == r.namespace
        && if Advancing(r, q) then Bindable(q, catalog)
           else last.Some? && last.value.body.id == VersionIdOf(r.id, MappingId(r.namespace, q.source, q.list), q)
  {
    TimelineOf(r);
    LatestIsLast(r.versions, MappingId(r.namespace, q.source, q.list));
    BuiltNeverInvalid(r, q, catalog);
  }

  /** After any run an input is accepted if and only if it is well formed, the catalog is of the registry's
      namespace, and either it takes effect later than every version of its list, its component is in use
      and no version on record is alike to the second; or the list's last version is alike. */
  lemma RegisterNeeds(ops: seq<Op>, q: Input, catalog: C.Registry)
    requires Run(ops).registry.Some? && CatalogOk(Run(ops).registry.value, catalog) && C.ComponentsOk(catalog)
    ensures var r := Run(ops).registry.value;
      Registered(Run(ops), q, catalog).1.Ok? <==>
        && InputOk(q) && catalog.namespace == r.namespace
        && if Newest(r, q) then Usable(q, catalog) && forall v :: v in r.versions ==> !Alike(v, q)
           else exists v :: LastOfList(r, q, v) && Alike(v, q)
    ensures Registered(Run(ops), q, catalog).1.Err? ==> Registered(Run(ops), q, catalog).0 == Run(ops)
  {
    RunInv(ops);
    RegisterNeedsFor(Run(ops), q, catalog);
  }

  lemma RegisterNeedsFor(d: Disk, q: Input, catalog: C.Registry)
    requires Inv(d) && d.registry.Some? && CatalogOk(d.registry.value, catalog) && C.ComponentsOk(catalog)
    ensures var r := d.registry.value;
      Registered(d, q, catalog).1.Ok? <==>
        && InputOk(q) && catalog.namespace == r.namespace
        && if Newest(r, q) then Usable(q, catalog) && forall v :: v in r.versions ==> !Alike(v, q)
           else exists v :: LastOfList(r, q, v) && Alike(v, q)
    ensures Registered(d, q, catalog).1.Err? ==> Registered(d, q, catalog).0 == d
  {
    var r := d.registry.value;
    RegisteredIs(d, q, catalog);
    BuiltNeeds(r, q, catalog);
    SameSecondCollides(d, q, catalog);
    if InputOk(q) {
      NewestAdvances(r, q);
      UsableIs(q, catalog);
      forall v | v in r.versions ensures Alike(v, q) <==> AlikeToTheSecond(v, MappingId(r.namespace, q.source, q.list), q) { AlikeIs(r, q, v); }
      LastAlike(r, q);
      CollidesOnlyNew(r, q, catalog);
    }
  }

  lemma LastAlike(r: Registry, q: Input)
    requires RegistryOk(r) && InputOk(q)
    ensures var m := MappingId(r.namespace, q.source, q.list); var last := LastOf(r.versions, m);
      (exists v :: LastOfList(r, q, v) && Alike(v, q)) <==> last.Some? && last.value.body.id == VersionIdOf(r.id, m, q)
  {
    var last := LastOf(r.versions, MappingId(r.namespace, q.source, q.list));
    forall v ensures LastOfList(r, q, v) <==> last == Some(v) { LastListed(r, q, v); }
    if last.Some? {
      AlikeIs(r, q, last.value);
      AlikeMeansId(r, last.value, q);
    }
  }

  lemma CollidesOnlyNew(r: Registry, q: Input, catalog: C.Registry)
    requires RegistryOk(r)
    ensures Outcome(r, q, catalog).Err? && Built(r, q, catalog).Ok? ==> Outcome(r, q, catalog) == Err(VersionCollision)
  {
  }

  // ---------------------------------------------------------------- what registering leaves

  /** The version an input becomes: the next in the chain, with all the input says, after the list's last version. */
  ghost predicate Becomes(r: Registry, q: Input, v: Version) {
    && v.hash == HashOf(v.body) && v.body.sequence == |r.versions| + 1
    && v.body.registry == r.id && v.body.namespace == r.namespace && v.body.mapping == MappingId(r.namespace, q.source, q.list)
    && v.body.previous == (if r.versions == [] then NoHash else r.versions[|r.versions| - 1].hash)
    && v.body.input == Input(q.source, q.list, q.action, Trim(q.component), q.from, q.to, Trim(q.reason), q.createdAt, Trim(q.createdBy))
    && v.body.id.registry == r.id && v.body.id.mapping == v.body.mapping && Alike(v, q)
    && (forall w :: LastOfList(r, q, w) ==> v.body.supersedes == Some(w.body.id))
    && ((forall w :: !LastOfList(r, q, w)) ==> v.body.supersedes == None)
  }

  /** The key of a new list. */
  ghost predicate KeyFor(r: Registry, q: Input, k: Key) {
    && k.id == MappingId(r.namespace, q.source, q.list) && k.registry == r.id && k.namespace == r.namespace
    && k.source == q.source && k.list == q.list && k.createdAt == q.createdAt && k.createdBy == Trim(q.createdBy)
  }

  /** The keys are those on record, and the list's if it had none. */
  ghost predicate KeysWith(r: Registry, next: Registry, q: Input) {
    if exists k :: k in r.keys && k.source == q.source && k.list == q.list then next.keys == r.keys
    else exists k :: KeyFor(r, q, k) && forall x :: x in next.keys <==> x in r.keys || x == k
  }

  lemma NextBecomes(r: Registry, q: Input)
    requires RegistryOk(r) && InputOk(q)
    ensures Becomes(r, q, NextVersion(r, q))
  {
    var m := MappingId(r.namespace, q.source, q.list);
    TimelineOf(r);
    LatestIsLast(r.versions, m);
    forall w ensures LastOfList(r, q, w) <==> LastOf(r.versions, m) == Some(w) { LastListed(r, q, w); }
    TrimmedTwice(q);
  }

  lemma TrimmedTwice(q: Input)
    ensures Trim(Trim(q.component)) == Trim(q.component) && Trim(Trim(q.reason)) == Trim(q.reason) && Trim(Trim(q.createdBy)) == Trim(q.createdBy)
  {
    Visible(q.component);
    Visible(q.reason);
    Visible(q.createdBy);
  }

  lemma GrownKeysWith(r: Registry, q: Input, v: Version)
    requires KeysOk(r) && InputOk(q) && v.Mapping() == MappingId(r.namespace, q.source, q.list)
    ensures KeysWith(r, Grown(r, q, v), q)
  {
    KeyedIs(r, Query(q.source, q.list, q.from));
    if Find(KeyId, r.keys, v.Mapping()).None? {
      Extended(KeyId, r.keys, NewKey(r, q));
      assert KeyFor(r, q, NewKey(r, q));
    }
  }

  /** An accepted input that is the newest of its list becomes the next version and, for a new list, a key; one that
      is not is answered with the list's last version, and nothing changes. */
  lemma RegisterDoes(ops: seq<Op>, q: Input, catalog: C.Registry)
    requires Run(ops).registry.Some? && CatalogOk(Run(ops).registry.value, catalog) && Registered(Run(ops), q, catalog).1.Ok?
    ensures var d, r, after, v := Run(ops), Run(ops).registry.value, Registered(Run(ops), q, catalog).0, Registered(Run(ops), q, catalog).1.value;
      if Newest(r, q) then
        && after.registry.Some? && Becomes(r, q, v) && after.registry.value.versions == r.versions + [v]
        && KeysWith(r, after.registry.value, q)
        && after.registry.value == r.(keys := after.registry.value.keys, versions := r.versions + [v], lastSequence := |r.versions| + 1, auditHead := v.hash)
        && after.versions == d.versions[(v.body.sequence, v.body.id) := v]
      else after == d && LastOfList(r, q, v)
  {
    RunInv(ops);
    RegisterDoesFrom(Run(ops), q, catalog);
  }

  lemma RegisterDoesFrom(d: Disk, q: Input, catalog: C.Registry)
    requires Inv(d) && d.registry.Some? && CatalogOk(d.registry.value, catalog) && Registered(d, q, catalog).1.Ok?
    ensures var r, after, v := d.registry.value, Registered(d, q, catalog).0, Registered(d, q, catalog).1.value;
      if Newest(r, q) then
        && after.registry.Some? && Becomes(r, q, v) && after.registry.value.versions == r.versions + [v]
        && KeysWith(r, after.registry.value, q)
        && after.registry.value == r.(keys := after.registry.value.keys, versions := r.versions + [v], lastSequence := |r.versions| + 1, auditHead := v.hash)
        && after.versions == d.versions[(v.body.sequence, v.body.id) := v]
      else after == d && LastOfList(r, q, v)
  {
    var r, v := d.registry.value, Registered(d, q, catalog).1.value;
    RegisteredIs(d, q, catalog);
    BuiltNew(r, q, catalog);
    BuiltAdvances(r, q, catalog);
    NewestAdvances(r, q);
    if Advancing(r, q) {
      NextBecomes(r, q);
      GrownKeysWith(r, q, v);
    } else {
      TimelineOf(r);
      LatestIsLast(r.versions, v.Mapping());
      LastListed(r, q, v);
    }
  }

  // ---------------------------------------------------------------- what is on record

  /** A version on record binds a component or retires the list, for a time that does not end before it starts, and says
      why, when and by whom. */
  predicate Stated(q: Input) {
    && (q.action == Bind || q.action == Retire) && (q.action == Bind <==> Trim(q.component) != "")
    && q.from != 0 && (q.to.Some? ==> q.from < q.to.value)
    && Trim(q.reason) != "" && Trim(q.createdBy) != "" && q.createdAt != 0
  }

  /** A lower-case source of at most 128 characters, and a list name of one line and at most 512 bytes. */
  predicate Placed(q: Input) {
    && 1 <= |q.source| <= 128 && q.source[0] !in {'.', '_', '-'}
    && (forall c :: c in q.source ==> 'a' <= c <= 'z' || '0' <= c <= '9' || c in {'.', '_', '-'})
    && q.list != "" && |Bytes(q.list)| <= 512 && '\0' !in q.list && '\n' !in q.list && '\r' !in q.list
  }

  /** What an input must be is exactly what versions on record are. */
  lemma InputIs(q: Input)
    ensures InputOk(q) <==> Stated(q) && Placed(q)
  {
    if Placed(q) { forall i | 0 <= i < |q.source| ensures SourceChar(q.source[i]) { assert q.source[i] in q.source; } }
  }

  /** After any run every version on record is stated and placed, and no two have one id or one number. */
  lemma VersionsStated(ops: seq<Op>, i: nat)
    requires Run(ops).registry.Some? && i < |Run(ops).registry.value.versions|
    ensures var versions := Run(ops).registry.value.versions;
      && Stated(versions[i].body.input) && Placed(versions[i].body.input) && versions[i].body.sequence == i + 1
      && forall j :: 0 <= j < i ==> versions[j].body.id != versions[i].body.id
  {
    RunInv(ops);
    var r := Run(ops).registry.value;
    assert VersionFits(r, i);
    InputIs(r.versions[i].body.input);
    forall j | 0 <= j < i ensures r.versions[j].body.id != r.versions[i].body.id { assert r.versions[j].body.id in IdsBefore(r.versions, i); }
  }
}

/** The theorems about resolving and registering. */
module MappingResolution {
  import opened Wrappers
  import opened Text
  import opened Keyed
  import C = CatalogRegistry
  import opened AlertListMapping
  import opened MappingTimeline
  import opened MappingRuns

  datatype Status = Resolved | Unmapped | NotEffective | Expired | RetiredMapping | MissingComponent | RetiredComponent | CatalogNotActive

  datatype Query = Query(source: string, list: string, at: Time)

  /** The answer: its status, whether the list is keyed, the version in force, its component and the active catalog version. */
  datatype Resolution = Resolution(
    query: Query,
    status: Status,
    exact: bool,
    mapping: Option<string>,
    version: Option<Version>,
    component: Option<C.Component>,
    catalog: Option<C.Version>)

  predicate KeyMatches(k: Key, id: string, q: Query) { k.id == id && k.source == q.source && k.list == q.list }

  predicate HasKey(keys: seq<Key>, id: string, q: Query) { exists i :: 0 <= i < |keys| && KeyMatches(keys[i], id, q) }

  /** The answer once a version is selected. */
  function Selected(catalog: C.Registry, q: Query, id: string, v: Version): Resolution {
    var base := Resolution(q, Expired, true, Some(id), Some(v), None, None);
    if v.body.input.to.Some? && q.at >= v.body.input.to.value then base
    else if v.body.input.action.Retire? then base.(status := RetiredMapping)
    else
      var c := Find(C.ComponentKeyId, catalog.components, v.body.input.component);
      if c.None? then base.(status := MissingComponent)
      else if !c.value.status.InUse? then base.(status := RetiredComponent, component := c)
      else
        var p := Find(C.PointerKey, catalog.active, c.value.id);
        if p.None? then base.(status := CatalogNotActive, component := c)
        else
          var w := Find(C.VersionKey, catalog.versions, p.value.version);
          if w.None? then base.(status := CatalogNotActive, component := c)
          else base.(status := Status.Resolved, component := c, catalog := w)
  }

  function Answer(r: Registry, catalog: C.Registry, q: Query): Resolution {
    var id := MappingId(r.namespace, q.source, q.list);
    if !HasKey(r.keys, id, q) then Resolution(q, Unmapped, false, None, None, None, None)
    else
      var v := Latest(r.versions, id, Some(q.at));
      if v.None? then Resolution(q, NotEffective, true, Some(id), None, None, None) else Selected(catalog, q, id, v.value)
  }

  predicate QueryOk(q: Query) { SourceOk(q.source) && ListOk(q.list) && q.at != 0 }

  function ResolveResult(r: Registry, catalog: C.Registry, q: Query): Result<Resolution, Error> {
    if !Valid(r, catalog) then Err(InvalidRegistry)
    else if !QueryOk(q) then Err(InvalidRequest)
    else Ok(Answer(r, catalog, q))
  }

  lemma KeyFound(r: Registry, q: Query)
    requires KeysOk(r)
    ensures var id := MappingId(r.namespace, q.source, q.list);
      QueryOk(q) ==> (HasKey(r.keys, id, q) <==> Find(KeyId, r.keys, id).Some?)
  {
    var id := MappingId(r.namespace, q.source, q.list);
    var k := Find(KeyId, r.keys, id);
    if QueryOk(q) && k.Some? {
      assert KeyOk(k.value);
      MappingIdInjective(r.namespace, k.value.source, k.value.list, q.source, q.list);
      var i :| 0 <= i < |r.keys| && r.keys[i] == k.value;
      assert KeyMatches(r.keys[i], id, q);
    }
    if HasKey(r.keys, id, q) {
      var i :| 0 <= i < |r.keys| && KeyMatches(r.keys[i], id, q);
      assert r.keys[i] in r.keys;
    }
  }

  /** The half-open interval in which version i of the registry is in force: from its own effective time
      to that of the next version of its mapping. */
  predicate InForce(versions: seq<Version>, i: nat, at: Time)
    requires i < |versions|
  {
    versions[i].From() <= at && forall j :: i < j < |versions| && versions[j].Mapping() == versions[i].Mapping() ==> at < versions[j].From()
  }

  /** In every reachable registry the intervals of one mapping's versions are disjoint, and the scan selects
      exactly the version whose interval holds the queried time. */
  lemma ScanSelectsInForce(ops: seq<Op>, i: nat, at: Time)
    requires Run(ops).registry.Some? && i < |Run(ops).registry.value.versions|
    ensures var versions := Run(ops).registry.value.versions;
      && (InForce(versions, i, at) <==> Latest(versions, versions[i].Mapping(), Some(at)) == Some(versions[i]))
      && forall j :: 0 <= j < |versions| && j != i && versions[j].Mapping() == versions[i].Mapping() && InForce(versions, i, at)
           ==> !InForce(versions, j, at)
  {
    RunInv(ops);
    var versions := Run(ops).registry.value.versions;
    TimelineOf(Run(ops).registry.value);
    InForceIff(versions, i, at);
    forall j | 0 <= j < |versions| && j != i && versions[j].Mapping() == versions[i].Mapping() && InForce(versions, i, at)
      ensures !InForce(versions, j, at)
    {
      if j < i { TimelineRises(versions, j, i); }
    }
  }

  lemma InForceIff(versions: seq<Version>, i: nat, at: Time)
    requires Timeline(versions) && i < |versions|
    ensures InForce(versions, i, at) <==> Latest(versions, versions[i].Mapping(), Some(at)) == Some(versions[i])
  {
    if InForce(versions, i, at) {
      InForceSelected(versions, i, at);
    } else if Latest(versions, versions[i].Mapping(), Some(at)) == Some(versions[i]) {
      SelectedInForce(versions, i, at);
    }
  }

  lemma InForceSelected(versions: seq<Version>, i: nat, at: Time)
    requires Timeline(versions) && i < |versions| && InForce(versions, i, at)
    ensures Latest(versions, versions[i].Mapping(), Some(at)) == Some(versions[i])
  {
    var v, m := versions[i], versions[i].Mapping();
    SelectedUnique(versions, m, at, v);
    forall w | w in versions && Candidate(w, m, Some(at)) ensures w.From() <= v.From() {
      var j: nat :| j < |versions| && versions[j] == w;
      NoneLater(versions, i, j, at);
    }
  }

  lemma NoneLater(versions: seq<Version>, i: nat, j: nat, at: Time)
    requires Timeline(versions) && i < |versions| && j < |versions| && InForce(versions, i, at)
    requires versions[j].Mapping() == versions[i].Mapping() && versions[j].From() <= at
    ensures versions[j].From() <= versions[i].From()
  {
    if j < i { TimelineRises(versions, j, i); }
  }

  lemma SelectedInForce(versions: seq<Version>, i: nat, at: Time)
    requires Timeline(versions) && i < |versions| && Latest(versions, versions[i].Mapping(), Some(at)) == Some(versions[i])
    ensures InForce(versions, i, at)
  {
    LatestIs(versions, versions[i].Mapping(), Some(at));
    forall j | i < j < |versions| && versions[j].Mapping() == versions[i].Mapping() ensures at < versions[j].From() {
      TimelineRises(versions, i, j);
      assert versions[j] in versions;
    }
  }

  /** A mapping's versions take effect in strictly rising order in every reachable registry. */
  lemma TimelineAdvances(ops: seq<Op>, i: nat, j: nat)
    requires Run(ops).registry.Some? && i < j < |Run(ops).registry.value.versions|
    requires Run(ops).registry.value.versions[i].Mapping() == Run(ops).registry.value.versions[j].Mapping()
    ensures Run(ops).registry.value.versions[i].From() < Run(ops).registry.value.versions[j].From()
  {
    RunInv(ops);
    TimelineOf(Run(ops).registry.value);
    TimelineRises(Run(ops).registry.value.versions, i, j);
  }

  // ---------------------------------------------------------------- what registering changes for resolving

  lemma LatestWith(versions: seq<Version>, v: Version, m: string, at: Time)
    requires LastOf(versions, v.Mapping()).Some? ==> v.From() > LastOf(versions, v.Mapping()).value.From()
    requires Timeline(versions)
    ensures Latest(versions + [v], m, Some(at)) == if v.Mapping() == m && v.From() <= at then Some(v) else Latest(versions, m, Some(at))
  {
    assert (versions + [v])[..|versions|] == versions;
    LatestIs(versions, m, Some(at));
    if v.Mapping() == m && Latest(versions, m, Some(at)).Some? {
      var w := Latest(versions, m, Some(at)).value;
      var i :| 0 <= i < |versions| && versions[i] == w;
      LastIsLatest(versions, m, i);
    }
  }

  lemma GrownKeys(r: Registry, q: Input, v: Version, k: string)
    requires KeysOk(r) && v.Mapping() == MappingId(r.namespace, q.source, q.list)
    ensures Find(KeyId, Grown(r, q, v).keys, k).Some? <==> Find(KeyId, r.keys, k).Some? || k == v.Mapping()
  {
    if Find(KeyId, r.keys, v.Mapping()).None? { Extended(KeyId, r.keys, NewKey(r, q)); }
  }

  /** What a new version of the input's list, effective from v.From(), may change about the answer to a query: queries of
      other lists, and of this list before the version takes effect, are answered as before, except that a list
      not keyed until now turns from unmapped to not effective; from then on the new version is selected. */
  predicate Effect(q: Input, v: Version, catalog: C.Registry, query: Query, before: Resolution, after: Resolution) {
    if query.source != q.source || query.list != q.list then after == before
    else if query.at >= v.From() then after == Selected(catalog, query, v.Mapping(), v)
    else if before.status.Unmapped? then after.status.NotEffective?
    else after == before
  }

  /** The answer in terms of whether the list is keyed and which version is selected. */
  function AnswerBy(catalog: C.Registry, query: Query, id: string, keyed: bool, v: Option<Version>): Resolution {
    if !keyed then Resolution(query, Unmapped, false, None, None, None, None)
    else if v.None? then Resolution(query, NotEffective, true, Some(id), None, None, None)
    else Selected(catalog, query, id, v.value)
  }

  lemma AnswerIs(r: Registry, catalog: C.Registry, query: Query)
    requires KeysOk(r) && QueryOk(query)
    ensures var id := MappingId(r.namespace, query.source, query.list);
      Answer(r, catalog, query) == AnswerBy(catalog, query, id, Find(KeyId, r.keys, id).Some?, Latest(r.versions, id, Some(query.at)))
  {
    KeyFound(r, query);
  }

  lemma GrownEffect(r: Registry, q: Input, v: Version, catalog: C.Registry, other: C.Registry, query: Query)
    requires RegistryOk(r) && Fresh(r, q, v, catalog) && QueryOk(query) && RegistryOk(Grown(r, q, v))
    ensures Effect(q, v, other, query, Answer(r, other, query), Answer(Grown(r, q, v), other, query))
  {
    var next, id := Grown(r, q, v), MappingId(r.namespace, query.source, query.list);
    AnswerIs(r, other, query);
    AnswerIs(next, other, query);
    TimelineOf(r);
    LatestWith(r.versions, v, id, query.at);
    GrownKeys(r, q, v, id);
    LatestIs(r.versions, id, Some(query.at));
    if id == v.Mapping() { MappingIdInjective(r.namespace, query.source, query.list, q.source, q.list); }
    if Find(KeyId, r.keys, id).None? { Unkeyed(r, id); }
    EffectBy(q, v, other, query, id, Find(KeyId, r.keys, id).Some?, Latest(r.versions, id, Some(query.at)));
  }

  lemma EffectBy(q: Input, v: Version, catalog: C.Registry, query: Query, id: string, keyed: bool, selected: Option<Version>)
    requires id == v.Mapping() <==> query.source == q.source && query.list == q.list
    requires !keyed ==> selected.None?
    ensures Effect(q, v, catalog, query, AnswerBy(catalog, query, id, keyed, selected),
      AnswerBy(catalog, query, id, keyed || id == v.Mapping(), if v.Mapping() == id && v.From() <= query.at then Some(v) else selected))
  {
    if keyed && selected.Some? { SelectedMapped(catalog, query, id, selected.value); }
  }

  /** A selected version is never reported as unmapped. */
  lemma SelectedMapped(catalog: C.Registry, query: Query, id: string, v: Version)
    ensures !Selected(catalog, query, id, v).status.Unmapped?
  {
  }

  /** A mapping without a key has no version. */
  lemma Unkeyed(r: Registry, id: string)
    requires RegistryOk(r) && Find(KeyId, r.keys, id).None?
    ensures forall v :: v in r.versions ==> v.Mapping() != id
  {
    forall v | v in r.versions ensures v.Mapping() != id {
      var i :| 0 <= i < |r.versions| && r.versions[i] == v;
      assert VersionFits(r, i);
    }
  }

  /** The whole effect of an accepted new version, for every query and every catalog that fits the grown registry. */
  lemma RegisterEffect(d: Disk, q: Input, catalog: C.Registry, d': Disk, v: Version, other: C.Registry, query: Query)
    requires Inv(d) && d.registry.Some? && CatalogOk(d.registry.value, catalog)
    requires Registered(d, q, catalog) == (d', Ok(v)) && d' != d && QueryOk(query)
    requires d'.registry.Some? && CatalogOk(d'.registry.value, other)
    ensures v.From() == q.from
    ensures ResolveResult(d.registry.value, other, query) == Ok(Answer(d.registry.value, other, query))
    ensures ResolveResult(d'.registry.value, other, query) == Ok(Answer(d'.registry.value, other, query))
    ensures Effect(q, v, other, query, Answer(d.registry.value, other, query), Answer(d'.registry.value, other, query))
  {
    var r := d.registry.value;
    RegisteredGrows(d, q, catalog, d', v);
    assert forall w :: w in r.versions ==> w in d'.registry.value.versions;
    GrownEffect(r, q, v, catalog, other, query);
  }

  lemma RegisteredGrows(d: Disk, q: Input, catalog: C.Registry, d': Disk, v: Version)
    requires Inv(d) && d.registry.Some? && CatalogOk(d.registry.value, catalog)
    requires Registered(d, q, catalog) == (d', Ok(v)) && d' != d
    ensures d' == GrownDisk(d, d.registry.value, q, v) && Fresh(d.registry.value, q, v, catalog) && v.From() == q.from
    ensures RegistryOk(d'.registry.value)
  {
    RegisteredIs(d, q, catalog);
  }

  // ---------------------------------------------------------------- registering again

  /** An input that does not advance its mapping's timeline is accepted exactly when it digests to the id of the
      latest version; then that version is returned and nothing changes. */
  lemma Reregistering(d: Disk, q: Input, catalog: C.Registry)
    requires Inv(d) && d.registry.Some? && CatalogOk(d.registry.value, catalog) && InputOk(q) && catalog.namespace == d.registry.value.namespace
    requires var last := LastOf(d.registry.value.versions, MappingId(d.registry.value.namespace, q.source, q.list));
      last.Some? && q.from <= last.value.From()
    ensures var r := d.registry.value; var m := MappingId(r.namespace, q.source, q.list); var last := LastOf(r.versions, m).value;
      && Registered(d, q, catalog).0 == d
      && Registered(d, q, catalog).1 == if last.body.id == VersionIdOf(r.id, m, q) then Ok(last) else Err(NotAdvancing)
  {
    var r := d.registry.value;
    RegisteredIs(d, q, catalog);
    TimelineOf(r);
    LatestIsLast(r.versions, MappingId(r.namespace, q.source, q.list));
  }

  /** Alike but for fractions of a second in their times, and white space around their text. */
  predicate AlikeToTheSecond(v: Version, m: string, q: Input) {
    var i := v.body.input;
    && v.Mapping() == m && i.action == q.action && Trim(i.component) == Trim(q.component)
    && Second(i.from) == Second(q.from) && SecondOf(i.to) == SecondOf(q.to)
    && Trim(i.reason) == Trim(q.reason) && Second(i.createdAt) == Second(q.createdAt) && Trim(i.createdBy) == Trim(q.createdBy)
  }

  predicate Advancing(r: Registry, q: Input) {
    var last := LastOf(r.versions, MappingId(r.namespace, q.source, q.list));
    last.Some? ==> q.from > last.value.From()
  }

  predicate HasAlike(r: Registry, q: Input) {
    exists v :: v in r.versions && AlikeToTheSecond(v, MappingId(r.namespace, q.source, q.list), q)
  }

  lemma AlikeMeansId(r: Registry, v: Version, q: Input)
    requires RegistryOk(r) && v in r.versions
    ensures var m := MappingId(r.namespace, q.source, q.list); v.body.id == VersionIdOf(r.id, m, q) <==> AlikeToTheSecond(v, m, q)
  {
    LastSound(r, v);
  }

  /** The id knows whole seconds only, so it cannot tell inputs apart that differ within a second. An input that could be
      built is refused as a collision exactly if it advances its timeline and some version on record, the latest or an
      earlier one, is alike to the second; then nothing changes. */
  lemma SameSecondCollides(d: Disk, q: Input, catalog: C.Registry)
    requires Inv(d) && d.registry.Some? && CatalogOk(d.registry.value, catalog)
    ensures var r := d.registry.value;
      Registered(d, q, catalog).1 == Err(VersionCollision) <==> Built(r, q, catalog).Ok? && Advancing(r, q) && HasAlike(r, q)
    ensures Registered(d, q, catalog).1 == Err(VersionCollision) ==> Registered(d, q, catalog).0 == d
  {
    var r := d.registry.value;
    var m := MappingId(r.namespace, q.source, q.list);
    RegisteredIs(d, q, catalog);
    forall v | v in r.versions ensures v.body.id == VersionIdOf(r.id, m, q) <==> AlikeToTheSecond(v, m, q) { AlikeMeansId(r, v, q); }
    if Built(r, q, catalog).Ok? { BuiltAdvances(r, q, catalog); }
  }

  /** Every accepted version has such inputs: the same one, later in its second. */
  lemma LaterInTheSecond(d: Disk, q: Input, catalog: C.Registry, from: Time)
    requires Inv(d) && d.registry.Some? && CatalogOk(d.registry.value, catalog)
    requires Registered(d, q, catalog).1.Ok? && Registered(d, q, catalog).0 != d
    requires q.from < from && Second(from) == Second(q.from) && InputOk(q.(from := from))
    ensures var d' := Registered(d, q, catalog).0; Registered(d', q.(from := from), catalog) == (d', Err(VersionCollision))
  {
    var d', v, later := Registered(d, q, catalog).0, Registered(d, q, catalog).1.value, q.(from := from);
    RegisteredIs(d, q, catalog);
    RegisteredGrows(d, q, catalog, d', v);
    GrownOk(d.registry.value, q, v, catalog);
    assert Built(d.registry.value, q, catalog) == Ok(v);
    LaterBuilt(d.registry.value, q, v, catalog, later);
    assert AlikeToTheSecond(v, v.Mapping(), later);
    SameSecondCollides(d', later, catalog);
  }

  lemma LaterAdvances(r: Registry, q: Input, v: Version, later: Input)
    requires v.Mapping() == MappingId(r.namespace, q.source, q.list) && v.From() == q.from
    requires later == q.(from := later.from) && q.from < later.from
    ensures LastOf(r.versions + [v], v.Mapping()) == Some(v) && Advancing(Grown(r, q, v), later)
  {
    assert (r.versions + [v])[..|r.versions|] == r.versions;
  }

  lemma LaterBuilt(r: Registry, q: Input, v: Version, catalog: C.Registry, later: Input)
    requires RegistryOk(r) && Fresh(r, q, v, catalog) && Built(r, q, catalog) == Ok(v) && RegistryOk(Grown(r, q, v))
    requires InputOk(later) && later == q.(from := later.from) && q.from < later.from
    ensures Built(Grown(r, q, v), later, catalog).Ok? && Advancing(Grown(r, q, v), later)
  {
    var next := Grown(r, q, v);
    LaterAdvances(r, q, v, later);
    TimelineOf(next);
    LatestIsLast(next.versions, v.Mapping());
    NextSound(next, later);
    BuiltAdvances(r, q, catalog);
    NewlyBuilt(r, q, catalog);
    BuildsNext(next, later, catalog);
  }

  /** What a new version needed of the catalog. */
  predicate Bindable(q: Input, catalog: C.Registry) {
    q.action.Bind? ==> var c := Find(C.ComponentKeyId, catalog.components, q.component); c.Some? && c.value.status.InUse?
  }

  lemma NewlyBuilt(r: Registry, q: Input, catalog: C.Registry)
    requires RegistryOk(r) && Built(r, q, catalog).Ok? && Advancing(r, q)
    ensures Bindable(q, catalog) && catalog.namespace == r.namespace && Bound(NextVersion(r, q), catalog)
  {
    TimelineOf(r);
    LatestIsLast(r.versions, MappingId(r.namespace, q.source, q.list));
  }

  lemma BuildsNext(r: Registry, q: Input, catalog: C.Registry)
    requires RegistryOk(r) && InputOk(q) && catalog.namespace == r.namespace && Advancing(r, q) && Bindable(q, catalog)
    requires VersionSound(NextVersion(r, q), r) && Bound(NextVersion(r, q), catalog)
    ensures Built(r, q, catalog) == Ok(NextVersion(r, q))
  {
    TimelineOf(r);
    LatestIsLast(r.versions, MappingId(r.namespace, q.source, q.list));
  }

  /** What could be built is the next version exactly if the input advances its timeline; otherwise it is the latest again. */
  lemma BuiltAdvances(r: Registry, q: Input, catalog: C.Registry)
    requires RegistryOk(r) && Built(r, q, catalog).Ok?
    ensures var v := Built(r, q, catalog).value; var m := MappingId(r.namespace, q.source, q.list);
      && (v !in r.versions <==> Advancing(r, q)) && v.body.id == VersionIdOf(r.id, m, q)
  {
    TimelineOf(r);
    LatestIsLast(r.versions, MappingId(r.namespace, q.source, q.list));
    BuiltNew(r, q, catalog);
    NextIsNew(r, q);
  }

  lemma LastSound(r: Registry, v: Version)
    requires RegistryOk(r) && v in r.versions
    ensures VersionSound(v, r)
  {
    var i :| 0 <= i < |r.versions| && r.versions[i] == v;
    assert VersionFits(r, i);
  }

  const RETIRE := Input("s", "l", Retire, "", 1, None, "reason", 1, "creator")

  const BARE := C.Registry("n", "", 0, C.NoEvent, [], [], [], [])

  lemma FirstInitialized()
    ensures Run([OpInitialize("n")]) == EMPTY.(registry := Some(NewRegistry("n"))) && NewRegistry("n").namespace == "n"
  {
    var ops := [OpInitialize("n")];
    assert ops[..0] == [];
    TrimFixed("n");
    assert Perform(Run([]), ops[0]) == Initialized(EMPTY, "n").0;
  }

  lemma RetireIsSound()
    ensures InputOk(RETIRE) && InputOk(RETIRE.(from := 2)) && Second(2) == Second(1)
  {
    Visible("reason");
    Visible("creator");
    assert "l"[..0] == "" && Bytes("l") == Utf8('l');
  }

  /** A run, and two inputs accepted and refused after it within one second. */
  lemma CollisionHappens()
    ensures var d := Run([OpInitialize("n")]); var d' := Registered(d, RETIRE, BARE).0;
      && Registered(d, RETIRE, BARE).1.Ok?
      && Registered(d', RETIRE.(from := 2), BARE) == (d', Err(VersionCollision))
  {
    var d := Run([OpInitialize("n")]);
    RunInv([OpInitialize("n")]);
    FirstInitialized();
    RetireIsSound();
    NextSound(NewRegistry("n"), RETIRE);
    assert Built(NewRegistry("n"), RETIRE, BARE) == Ok(NextVersion(NewRegistry("n"), RETIRE));
    RegisteredIs(d, RETIRE, BARE);
    LaterInTheSecond(d, RETIRE, BARE, 2);
  }
}

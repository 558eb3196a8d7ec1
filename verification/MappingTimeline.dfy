/** What holds of any timeline, and why registering keeps the registry valid. */
module MappingTimeline {
  import opened Wrappers
  import opened Text
  import opened Keyed
  import C = CatalogRegistry
  import opened AlertListMapping

  /** Every version advances over the last one of its mapping before it. */
  ghost predicate Timeline(versions: seq<Version>) {
    forall i :: 0 <= i < |versions| ==> AdvancesAt(versions, i)
  }

  predicate AdvancesAt(versions: seq<Version>, i: nat)
    requires i < |versions|
  {
    Advances(LastOf(versions[..i], versions[i].Mapping()), versions[i])
  }

  lemma TimelineOf(r: Registry)
    requires RegistryOk(r)
    ensures Timeline(r.versions)
  {
    forall i | 0 <= i < |r.versions| ensures AdvancesAt(r.versions, i) { assert VersionFits(r, i); }
  }

  lemma TimelineFront(versions: seq<Version>)
    requires Timeline(versions) && versions != []
    ensures Timeline(versions[..|versions| - 1]) && AdvancesAt(versions, |versions| - 1)
  {
    var front := versions[..|versions| - 1];
    forall i | 0 <= i < |front| ensures AdvancesAt(front, i) {
      assert AdvancesAt(versions, i) && front[..i] == versions[..i];
    }
  }

  /** The last version of a mapping takes effect no earlier than any other. */
  lemma {:induction false} LastIsLatest(versions: seq<Version>, m: string, i: nat)
    requires Timeline(versions) && i < |versions| && versions[i].Mapping() == m
    ensures LastOf(versions, m).Some? && versions[i].From() <= LastOf(versions, m).value.From()
  {
    var n := |versions| - 1;
    if i < n {
      TimelineFront(versions);
      LastIsLatest(versions[..n], m, i);
    }
  }

  /** A mapping's versions take effect in strictly rising order. */
  lemma TimelineRises(versions: seq<Version>, i: nat, j: nat)
    requires Timeline(versions) && i < j < |versions| && versions[i].Mapping() == versions[j].Mapping()
    ensures versions[i].From() < versions[j].From()
    decreases |versions|
  {
    if j == |versions| - 1 {
      TimelineFront(versions);
      LastIsLatest(versions[..j], versions[j].Mapping(), i);
    } else {
      TimelineFront(versions);
      TimelineRises(versions[..|versions| - 1], i, j);
    }
  }

  /** A version the scan may select. */
  predicate Candidate(v: Version, m: string, bound: Option<Time>) {
    v.Mapping() == m && (bound.Some? ==> v.From() <= bound.value)
  }

  /** The scan finds a candidate that takes effect latest, if there is any. */
  lemma {:induction false} LatestIs(versions: seq<Version>, m: string, bound: Option<Time>)
    ensures Latest(versions, m, bound).None? <==> forall v :: v in versions ==> !Candidate(v, m, bound)
    ensures Latest(versions, m, bound).Some? ==>
      var v := Latest(versions, m, bound).value;
      v in versions && Candidate(v, m, bound) && forall w :: w in versions && Candidate(w, m, bound) ==> w.From() <= v.From()
  {
    if versions != [] {
      var front, v := versions[..|versions| - 1], versions[|versions| - 1];
      assert versions == front + [v];
      LatestIs(front, m, bound);
      assert v in versions;
    }
  }

  /** Without a bound, the scan of BuildVersion finds the last version of the mapping. */
  lemma {:induction false} LatestIsLast(versions: seq<Version>, m: string)
    requires Timeline(versions)
    ensures Latest(versions, m, None) == LastOf(versions, m)
  {
    if versions != [] {
      TimelineFront(versions);
      LatestIsLast(versions[..|versions| - 1], m);
    }
  }

  /** In a timeline the selected version is the only one of its kind: two candidates that both take effect
      latest are the same version. */
  lemma SelectedUnique(versions: seq<Version>, m: string, at: Time, v: Version)
    requires Timeline(versions)
    ensures Latest(versions, m, Some(at)) == Some(v) <==>
      && v in versions && Candidate(v, m, Some(at))
      && forall w :: w in versions && Candidate(w, m, Some(at)) ==> w.From() <= v.From()
  {
    LatestIs(versions, m, Some(at));
    var s := Latest(versions, m, Some(at));
    if v in versions && Candidate(v, m, Some(at)) && s.Some? && s.value.From() == v.From() {
      var i :| 0 <= i < |versions| && versions[i] == v;
      var j :| 0 <= j < |versions| && versions[j] == s.value;
      if i < j { TimelineRises(versions, i, j); }
      if j < i { TimelineRises(versions, j, i); }
    }
  }

  // ---------------------------------------------------------------- mapping ids

  /** Sound sources and lists determine, and are determined by, the mapping id. */
  lemma MappingIdInjective(namespace: string, s1: string, l1: string, s2: string, l2: string)
    requires SourceOk(s1) && SourceOk(s2) && ListOk(l1) && ListOk(l2)
    requires MappingId(namespace, s1, l1) == MappingId(namespace, s2, l2)
    ensures s1 == s2 && l1 == l2
  {
    var prefix := "alert_list_mapping_";
    forall i | 0 <= i < |s1| ensures s1[i] != '/' { assert SourceChar(s1[i]); }
    forall i | 0 <= i < |s2| ensures s2[i] != '/' { assert SourceChar(s2[i]); }
    var x, y := l1 + "\n" + namespace, l2 + "\n" + namespace;
    var a, b := s1 + "/" + x, s2 + "/" + y;
    assert MappingId(namespace, s1, l1) == prefix + a && MappingId(namespace, s2, l2) == prefix + b;
    assert (prefix + a)[|prefix|..] == a && (prefix + b)[|prefix|..] == b;
    SplitFirst(s1, s2, x, y, '/');
    SplitFirst(l1, l2, namespace, namespace, '\n');
  }

  // ---------------------------------------------------------------- registering keeps the registry valid

  lemma TrimmedInput(q: Input)
    requires InputOk(q)
    ensures InputOk(Trimmed(q))
    ensures forall registry, m :: VersionIdOf(registry, m, Trimmed(q)) == VersionIdOf(registry, m, q)
  {
    Visible(q.component);
    Visible(q.reason);
    Visible(q.createdBy);
  }

  /** A version built from a sound input is sound. */
  lemma NextSound(r: Registry, q: Input)
    requires InputOk(q)
    ensures VersionSound(NextVersion(r, q), r)
  {
    TrimmedInput(q);
  }

  lemma KeyedBySame(r: Registry, v: Version)
    requires KeysOk(r) && VersionSound(v, r) && Find(KeyId, r.keys, v.Mapping()).Some?
    ensures IsKeyed(r, v)
  {
    var k := Find(KeyId, r.keys, v.Mapping()).value;
    assert KeyOk(k);
    MappingIdInjective(r.namespace, k.source, k.list, v.body.input.source, v.body.input.list);
  }

  lemma NewKeyOk(r: Registry, q: Input)
    requires RegistryOk(r) && InputOk(q)
    ensures KeyOk(NewKey(r, q)) && NewKey(r, q).registry == r.id && NewKey(r, q).namespace == r.namespace
  {
    Visible(q.createdBy);
  }

  lemma KeyAdded(r: Registry, k: Key)
    requires RegistryOk(r) && KeyOk(k) && k.registry == r.id && k.namespace == r.namespace && Find(KeyId, r.keys, k.id).None?
    ensures RegistryOk(WithKey(r, k)) && Find(KeyId, WithKey(r, k).keys, k.id) == Some(k)
  {
    var next := WithKey(r, k);
    Extended(KeyId, r.keys, k);
    forall i | 0 <= i < |next.versions| ensures VersionFits(next, i) { assert VersionFits(r, i); }
  }

  lemma VersionAdded(r: Registry, v: Version)
    requires RegistryOk(r) && VersionSound(v, r) && Find(KeyId, r.keys, v.Mapping()).Some?
    requires v.body.sequence == r.lastSequence + 1 && v.body.previous == r.auditHead
    requires Existing(r.versions, v.body.id).None? && Advances(LastOf(r.versions, v.Mapping()), v)
    ensures RegistryOk(WithVersion(r, v))
  {
    var next := WithVersion(r, v);
    KeyedBySame(r, v);
    LastFits(r, v);
    EarlierAllFit(r, v);
    AllFit(next, |r.versions|);
    KeysAsBefore(r, v);
    FittingIsOk(next);
  }

  /** The first n versions fit. */
  predicate FitsUpto(r: Registry, n: nat)
    requires n <= |r.versions|
  {
    forall i :: 0 <= i < n ==> VersionFits(r, i)
  }

  lemma AllFit(r: Registry, n: nat)
    requires |r.versions| == n + 1 && FitsUpto(r, n) && VersionFits(r, n)
    ensures FitsUpto(r, |r.versions|)
  {
  }

  lemma KeysAsBefore(r: Registry, v: Version)
    requires RegistryOk(r) && v.body.sequence == |r.versions| + 1
    ensures var next := WithVersion(r, v);
      KeysOk(next) && HeadOk(next) && SortedByKey(KeyId, next.keys) && next.id == RegistryId(next.namespace) && next.namespace != ""
  {
    assert WithVersion(r, v).keys == r.keys;
  }

  lemma FittingIsOk(r: Registry)
    requires KeysOk(r) && HeadOk(r) && SortedByKey(KeyId, r.keys) && r.id == RegistryId(r.namespace) && r.namespace != ""
    requires FitsUpto(r, |r.versions|)
    ensures RegistryOk(r)
  {
  }

  lemma EarlierAllFit(r: Registry, v: Version)
    requires RegistryOk(r)
    ensures FitsUpto(WithVersion(r, v), |r.versions|)
  {
    forall i | 0 <= i < |r.versions| ensures VersionFits(WithVersion(r, v), i) { EarlierFits(r, v, i); }
  }

  lemma EarlierFits(r: Registry, v: Version, i: nat)
    requires i < |r.versions| && VersionFits(r, i)
    ensures VersionFits(WithVersion(r, v), i)
  {
    var next := WithVersion(r, v);
    assert next.versions[..i] == r.versions[..i] && next.versions[i] == r.versions[i];
    assert i > 0 ==> next.versions[i - 1] == r.versions[i - 1];
    assert IdsBefore(next.versions, i) == IdsBefore(r.versions, i);
  }

  lemma LastFits(r: Registry, v: Version)
    requires HeadOk(r) && VersionSound(v, r) && IsKeyed(r, v)
    requires v.body.sequence == r.lastSequence + 1 && v.body.previous == r.auditHead
    requires Existing(r.versions, v.body.id).None? && Advances(LastOf(r.versions, v.Mapping()), v)
    ensures VersionFits(WithVersion(r, v), |r.versions|)
  {
    var next := WithVersion(r, v);
    assert next.versions[..|r.versions|] == r.versions;
    forall k | 0 <= k < |r.versions| ensures next.versions[k].body.id != v.body.id { assert r.versions[k] in r.versions; }
  }

  /** What a newly built version brings. */
  lemma BuiltNew(r: Registry, q: Input, catalog: C.Registry)
    requires RegistryOk(r) && Built(r, q, catalog).Ok?
    ensures InputOk(q)
    ensures var v := Built(r, q, catalog).value;
      && v.Mapping() == MappingId(r.namespace, q.source, q.list)
      && ((v in r.versions && Some(v) == Latest(r.versions, v.Mapping(), None))
          || (v == NextVersion(r, q) && VersionSound(v, r) && Bound(v, catalog) && Advances(LastOf(r.versions, v.Mapping()), v)))
  {
    var m := MappingId(r.namespace, q.source, q.list);
    TimelineOf(r);
    LatestIsLast(r.versions, m);
    LatestIs(r.versions, m, None);
  }

  lemma NextIsNew(r: Registry, q: Input)
    requires RegistryOk(r)
    ensures NextVersion(r, q) !in r.versions
  {
    forall v | v in r.versions ensures v != NextVersion(r, q) {
      var i :| 0 <= i < |r.versions| && r.versions[i] == v;
      assert VersionFits(r, i);
    }
  }

  lemma ExistingIsItself(r: Registry, v: Version)
    requires RegistryOk(r) && v in r.versions
    ensures Existing(r.versions, v.body.id) == Some(v)
  {
    var w := Existing(r.versions, v.body.id).value;
    var i :| 0 <= i < |r.versions| && r.versions[i] == v;
    var j :| 0 <= j < |r.versions| && r.versions[j] == w;
    if i < j { IdsDiffer(r, i, j); }
    if j < i { IdsDiffer(r, j, i); }
  }

  lemma IdsDiffer(r: Registry, i: nat, j: nat)
    requires RegistryOk(r) && i < j < |r.versions|
    ensures r.versions[i].body.id != r.versions[j].body.id
  {
    assert VersionFits(r, j);
    assert r.versions[i].body.id in IdsBefore(r.versions, j);
  }
}

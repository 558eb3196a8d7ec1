/** The loops and the store itself, proved against the specification. */
module MappingStore {
  import opened Wrappers
  import opened Text
  import opened Maps
  import opened Keyed
  import C = CatalogRegistry
  import opened AlertListMapping
  import opened MappingResolution

  /** The scans of BuildVersion and Resolve. */
  method ScanLatest(versions: seq<Version>, m: string, bound: Option<Time>) returns (selected: Option<Version>)
    ensures selected == Latest(versions, m, bound)
  {
    selected := None;
    for i := 0 to |versions|
      invariant selected == Latest(versions[..i], m, bound)
    {
      assert versions[..i + 1][..i] == versions[..i];
      var v := versions[i];
      if v.Mapping() == m && !(bound.Some? && v.From() > bound.value) {
        if selected.None? || v.From() > selected.value.From() { selected := Some(v); }
      }
    }
    assert versions[..|versions|] == versions;
  }

  method ScanKeys(keys: seq<Key>, id: string, q: Query) returns (found: bool)
    ensures found <==> HasKey(keys, id, q)
  {
    for i := 0 to |keys|
      invariant forall k :: 0 <= k < i ==> !KeyMatches(keys[k], id, q)
    {
      if keys[i].id == id && keys[i].source == q.source && keys[i].list == q.list {
        assert KeyMatches(keys[i], id, q);
        return true;
      }
    }
    return false;
  }

  function MappingOf(v: Version): string { v.Mapping() }

  /** lastByMapping: indexing by mapping keeps the last version of each. */
  lemma {:induction false} LastIndexed(versions: seq<Version>, m: string)
    ensures LastOf(versions, m) == C.Stored(ByKey(MappingOf, versions), m)
  {
    if versions != [] { LastIndexed(versions[..|versions| - 1], m); }
  }

  /** What the validator's loop over the versions has accumulated after n of them. */
  ghost predicate Scanned(r: Registry, n: nat, previous: Hash, last: map<string, Version>, seen: set<VersionId>) {
    && n <= |r.versions|
    && (forall k :: 0 <= k < n ==> VersionFits(r, k))
    && previous == (if n == 0 then NoHash else r.versions[n - 1].hash)
    && last == ByKey(MappingOf, r.versions[..n])
    && seen == IdsBefore(r.versions, n)
  }

  lemma ScannedNext(r: Registry, i: nat, previous: Hash, last: map<string, Version>, seen: set<VersionId>)
    requires i < |r.versions| && Scanned(r, i, previous, last, seen) && VersionFits(r, i)
    ensures var v := r.versions[i]; Scanned(r, i + 1, v.hash, last[v.Mapping() := v], seen + {v.body.id})
  {
    IndexNext(MappingOf, r.versions, i);
    SeenNext(r.versions, i);
  }

  lemma SeenNext(versions: seq<Version>, i: nat)
    requires i < |versions|
    ensures IdsBefore(versions, i + 1) == IdsBefore(versions, i) + {versions[i].body.id}
  {
  }

  /** The checks on one version, against what the loop has accumulated. */
  method CheckVersion(r: Registry, i: nat, keys: map<string, Key>, previous: Hash, last: map<string, Version>, seen: set<VersionId>)
    returns (ok: bool)
    requires i < |r.versions| && KeysOk(r) && keys == ByKey(KeyId, r.keys)
    requires previous == if i == 0 then NoHash else r.versions[i - 1].hash
    requires last == ByKey(MappingOf, r.versions[..i]) && seen == IdsBefore(r.versions, i)
    ensures ok <==> VersionFits(r, i)
  {
    var v := r.versions[i];
    FindIndexed(KeyId, r.keys, v.Mapping());
    LastIndexed(r.versions[..i], v.Mapping());
    if v.body.sequence != i + 1 || v.body.previous != previous || v.body.id in seen { return false; }
    if v.Mapping() !in keys || keys[v.Mapping()].source != v.body.input.source || keys[v.Mapping()].list != v.body.input.list { return false; }
    if v.Mapping() in last {
      var p := last[v.Mapping()];
      if !(v.From() > p.From()) || v.body.supersedes != Some(p.body.id) { return false; }
    } else if v.body.supersedes.Some? {
      return false;
    }
    return VersionSound(v, r);
  }

  predicate KeyAt(r: Registry, i: nat)
    requires i < |r.keys|
  {
    KeyOk(r.keys[i]) && r.keys[i].registry == r.id && r.keys[i].namespace == r.namespace && NewAt(KeyId, r.keys, i)
  }

  lemma KeysIff(r: Registry)
    ensures KeysOk(r) <==> forall i :: 0 <= i < |r.keys| ==> KeyAt(r, i)
  {
    DistinctIff(KeyId, r.keys);
    if forall i :: 0 <= i < |r.keys| ==> KeyAt(r, i) {
      forall i | 0 <= i < |r.keys| ensures NewAt(KeyId, r.keys, i) { assert KeyAt(r, i); }
      forall k | k in r.keys ensures KeyOk(k) && k.registry == r.id && k.namespace == r.namespace {
        var i :| 0 <= i < |r.keys| && r.keys[i] == k;
        assert KeyAt(r, i);
      }
    }
  }

  method CheckKeys(r: Registry) returns (ok: bool, byId: map<string, Key>)
    ensures ok <==> KeysOk(r)
    ensures ok ==> byId == ByKey(KeyId, r.keys)
  {
    KeysIff(r);
    var ids: set<string> := {};
    byId := map[];
    for i := 0 to |r.keys|
      invariant KeysScanned(r, i, byId, ids)
    {
      var k := r.keys[i];
      if !KeyOk(k) || k.registry != r.id || k.namespace != r.namespace || k.id in ids {
        assert !KeyAt(r, i);
        return false, byId;
      }
      KeysNext(r, i, byId, ids);
      byId := byId[k.id := k];
      ids := ids + {k.id};
    }
    assert r.keys[..|r.keys|] == r.keys;
    return true, byId;
  }

  /** The first n keys are sound, and indexed. */
  predicate KeysScanned(r: Registry, n: nat, byId: map<string, Key>, ids: set<string>)
    requires n <= |r.keys|
  {
    && (forall k :: 0 <= k < n ==> KeyAt(r, k))
    && byId == ByKey(KeyId, r.keys[..n]) && ids == KeysBefore(KeyId, r.keys, n)
  }

  lemma KeysNext(r: Registry, i: nat, byId: map<string, Key>, ids: set<string>)
    requires i < |r.keys| && KeysScanned(r, i, byId, ids) && KeyAt(r, i)
    ensures KeysScanned(r, i + 1, byId[r.keys[i].id := r.keys[i]], ids + {r.keys[i].id})
  {
    IndexNext(KeyId, r.keys, i);
  }

  method CheckVersions(r: Registry, keys: map<string, Key>) returns (ok: bool, head: Hash)
    requires KeysOk(r) && keys == ByKey(KeyId, r.keys)
    ensures ok <==> forall i :: 0 <= i < |r.versions| ==> VersionFits(r, i)
    ensures ok ==> head == if r.versions == [] then NoHash else r.versions[|r.versions| - 1].hash
  {
    head := NoHash;
    var seen := {};
    var last: map<string, Version> := map[];
    for i := 0 to |r.versions|
      invariant Scanned(r, i, head, last, seen)
    {
      var v := r.versions[i];
      var fits := CheckVersion(r, i, keys, head, last, seen);
      if !fits { return false, head; }
      ScannedNext(r, i, head, last, seen);
      last := last[v.Mapping() := v];
      seen := seen + {v.body.id};
      head := v.hash;
    }
    return true, head;
  }

  /** The catalog's part of the same checks, as a pass of its own. */
  method CheckBindings(r: Registry, catalog: C.Registry) returns (ok: bool)
    ensures ok <==> CatalogOk(r, catalog)
  {
    if catalog.id != "" && catalog.namespace != r.namespace { return false; }
    for i := 0 to |r.versions|
      invariant forall k :: 0 <= k < i ==> Bound(r.versions[k], catalog)
    {
      if !Bound(r.versions[i], catalog) {
        assert r.versions[i] in r.versions;
        return false;
      }
    }
    return true;
  }

  method ValidateRegistry(r: Registry, catalog: C.Registry) returns (ok: bool)
    ensures ok <==> Valid(r, catalog)
  {
    if r.id != RegistryId(r.namespace) || r.namespace == "" { return false; }
    var keysOk, keys := CheckKeys(r);
    if !keysOk { return false; }
    var versionsOk, head := CheckVersions(r, keys);
    if !versionsOk { return false; }
    var bound := CheckBindings(r, catalog);
    return bound && r.lastSequence == |r.versions| && r.auditHead == head && SortedByKey(KeyId, r.keys);
  }

  method Resolve(r: Registry, catalog: C.Registry, q: Query) returns (result: Result<Resolution, Error>)
    ensures result == ResolveResult(r, catalog, q)
  {
    var valid := ValidateRegistry(r, catalog);
    if !valid { return Err(InvalidRegistry); }
    if !QueryOk(q) { return Err(InvalidRequest); }
    var id := MappingId(r.namespace, q.source, q.list);
    var keyed := ScanKeys(r.keys, id, q);
    if !keyed { return Ok(Resolution(q, Unmapped, false, None, None, None, None)); }
    var v := ScanLatest(r.versions, id, Some(q.at));
    if v.None? { return Ok(Resolution(q, NotEffective, true, Some(id), None, None, None)); }
    return Ok(Selected(catalog, q, id, v.value));
  }

  // ---------------------------------------------------------------- batches

  datatype Alert = Alert(id: string, source: string, list: string)

  /** How many answers have each status. */
  function CountOf(answers: seq<Resolution>, s: Status): nat {
    if answers == [] then 0
    else CountOf(answers[..|answers| - 1], s) + (if answers[|answers| - 1].status == s then 1 else 0)
  }

  datatype Summary = Summary(
    total: nat, resolved: nat, unmapped: nat, notEffective: nat, expired: nat, retired: nat, missing: nat, retiredComponent: nat, notActive: nat)

  /** The counters tell how many answers have each status. */
  predicate Tallies(s: Summary, answers: seq<Resolution>) {
    && s.resolved == CountOf(answers, Status.Resolved) && s.unmapped == CountOf(answers, Unmapped)
    && s.notEffective == CountOf(answers, NotEffective) && s.expired == CountOf(answers, Expired)
    && s.retired == CountOf(answers, RetiredMapping) && s.missing == CountOf(answers, MissingComponent)
    && s.retiredComponent == CountOf(answers, RetiredComponent) && s.notActive == CountOf(answers, CatalogNotActive)
  }

  predicate AddsUp(s: Summary) {
    s.total == s.resolved + s.unmapped + s.notEffective + s.expired + s.retired + s.missing + s.retiredComponent + s.notActive
  }

  function Increment(s: Summary, status: Status): Summary {
    match status
    case Resolved => s.(resolved := s.resolved + 1)
    case Unmapped => s.(unmapped := s.unmapped + 1)
    case NotEffective => s.(notEffective := s.notEffective + 1)
    case Expired => s.(expired := s.expired + 1)
    case RetiredMapping => s.(retired := s.retired + 1)
    case MissingComponent => s.(missing := s.missing + 1)
    case RetiredComponent => s.(retiredComponent := s.retiredComponent + 1)
    case CatalogNotActive => s.(notActive := s.notActive + 1)
  }

  lemma TalliesNext(s: Summary, answers: seq<Resolution>, a: Resolution)
    requires Tallies(s, answers)
    ensures Tallies(Increment(s, a.status), answers + [a])
  {
    assert (answers + [a])[..|answers|] == answers;
  }

  /** Every answer is counted under one status, so the counters add up to the total. */
  lemma {:induction false} TalliesAddUp(answers: seq<Resolution>)
    ensures |answers| == CountOf(answers, Status.Resolved) + CountOf(answers, Unmapped) + CountOf(answers, NotEffective)
      + CountOf(answers, Expired) + CountOf(answers, RetiredMapping) + CountOf(answers, MissingComponent)
      + CountOf(answers, RetiredComponent) + CountOf(answers, CatalogNotActive)
  {
    if answers != [] { TalliesAddUp(answers[..|answers| - 1]); }
  }

  lemma TalliesTotal(s: Summary, answers: seq<Resolution>)
    requires Tallies(s, answers)
    ensures Tallies(s.(total := |answers|), answers) && AddsUp(s.(total := |answers|))
  {
    TalliesAddUp(answers);
  }

  predicate AlertAt(r: Registry, catalog: C.Registry, at: Time, alerts: seq<Alert>, i: nat)
    requires i < |alerts|
  {
    && alerts[i].id != "" && (forall j :: 0 <= j < i ==> alerts[j].id != alerts[i].id)
    && ResolveResult(r, catalog, Query(alerts[i].source, alerts[i].list, at)).Ok?
  }

  /** All or nothing: a batch is answered exactly when every alert has its own id and can be resolved; then each
      alert gets the answer it would get alone, in order, and the summary counts them. */
  method ResolveBatch(r: Registry, catalog: C.Registry, at: Time, alerts: seq<Alert>)
    returns (ok: bool, answers: seq<Resolution>, summary: Summary)
    ensures ok <==> at != 0 && forall i :: 0 <= i < |alerts| ==> AlertAt(r, catalog, at, alerts, i)
    ensures ok ==> |answers| == |alerts|
    ensures ok ==> forall i :: 0 <= i < |alerts| ==> answers[i] == Answer(r, catalog, Query(alerts[i].source, alerts[i].list, at))
    ensures ok ==> Tallies(summary, answers)
    ensures ok ==> AddsUp(summary)
  {
    answers, summary := [], Summary(0, 0, 0, 0, 0, 0, 0, 0, 0);
    if at == 0 { return false, answers, summary; }
    var seen: set<string> := {};
    for i := 0 to |alerts|
      invariant seen == SeenBefore(alerts, i) && Tallies(summary, answers) && AnsweredUpto(r, catalog, at, alerts, answers, i)
    {
      var answer := AnswerOne(r, catalog, at, alerts, i, seen);
      if answer.None? { return false, answers, summary; }
      TalliesNext(summary, answers, answer.value);
      AnsweredNext(r, catalog, at, alerts, answers, i, answer.value);
      seen := seen + {alerts[i].id};
      answers := answers + [answer.value];
      summary := Increment(summary, answer.value.status);
    }
    TalliesTotal(summary, answers);
    AllAnswered(r, catalog, at, alerts, answers);
    summary := summary.(total := |answers|);
    return true, answers, summary;
  }

  lemma AllAnswered(r: Registry, catalog: C.Registry, at: Time, alerts: seq<Alert>, answers: seq<Resolution>)
    requires AnsweredUpto(r, catalog, at, alerts, answers, |alerts|)
    ensures |answers| == |alerts| && forall i :: 0 <= i < |alerts| ==> AlertAt(r, catalog, at, alerts, i)
    ensures forall i :: 0 <= i < |alerts| ==> answers[i] == Answer(r, catalog, Query(alerts[i].source, alerts[i].list, at))
  {
  }

  lemma AnsweredNext(r: Registry, catalog: C.Registry, at: Time, alerts: seq<Alert>, answers: seq<Resolution>, i: nat, answer: Resolution)
    requires i < |alerts| && AnsweredUpto(r, catalog, at, alerts, answers, i) && AlertAt(r, catalog, at, alerts, i)
    requires answer == Answer(r, catalog, Query(alerts[i].source, alerts[i].list, at))
    ensures AnsweredUpto(r, catalog, at, alerts, answers + [answer], i + 1)
  {
  }

  function SeenBefore(alerts: seq<Alert>, n: nat): set<string>
    requires n <= |alerts|
  {
    set k | 0 <= k < n :: alerts[k].id
  }

  /** The first n alerts can be answered, and these are their answers. */
  predicate AnsweredUpto(r: Registry, catalog: C.Registry, at: Time, alerts: seq<Alert>, answers: seq<Resolution>, n: nat)
    requires n <= |alerts|
  {
    && |answers| == n && (forall k :: 0 <= k < n ==> AlertAt(r, catalog, at, alerts, k))
    && forall k :: 0 <= k < n ==> answers[k] == Answer(r, catalog, Query(alerts[k].source, alerts[k].list, at))
  }

  /** One alert of a batch: its answer, unless its id is missing or repeated, or it cannot be resolved. */
  method AnswerOne(r: Registry, catalog: C.Registry, at: Time, alerts: seq<Alert>, i: nat, seen: set<string>) returns (answer: Option<Resolution>)
    requires i < |alerts| && seen == SeenBefore(alerts, i)
    ensures answer.Some? <==> AlertAt(r, catalog, at, alerts, i)
    ensures answer.Some? ==> answer.value == Answer(r, catalog, Query(alerts[i].source, alerts[i].list, at))
  {
    if alerts[i].id == "" || alerts[i].id in seen { return None; }
    var result := Resolve(r, catalog, Query(alerts[i].source, alerts[i].list, at));
    return if result.Ok? then Some(result.value) else None;
  }

  // ---------------------------------------------------------------- the store object

  /** The state directory under its lock. */
  class Store {
    var registry: Option<Registry>
    var keyFiles: map<string, Key>
    var versionFiles: map<(nat, VersionId), Version>

    ghost function Files(): Disk
      reads this
    {
      Disk(registry, keyFiles, versionFiles)
    }

    constructor ()
      ensures Files() == EMPTY
    {
      registry, keyFiles, versionFiles := None, map[], map[];
    }

    /** Verify's loops over the listed keys and versions. */
    method CheckFiles(r: Registry) returns (ok: bool)
      ensures ok <==> FilesOk(Files(), r)
    {
      for i := 0 to |r.keys|
        invariant forall j :: 0 <= j < i ==> KeyFiled(Files(), r.keys[j])
      {
        if r.keys[i].id !in keyFiles || keyFiles[r.keys[i].id] != r.keys[i] {
          assert !KeyFiled(Files(), r.keys[i]);
          return false;
        }
      }
      for i := 0 to |r.versions|
        invariant forall j :: 0 <= j < i ==> VersionFiled(Files(), r.versions[j])
      {
        var name := (r.versions[i].body.sequence, r.versions[i].body.id);
        if name !in versionFiles || versionFiles[name] != r.versions[i] {
          assert !VersionFiled(Files(), r.versions[i]);
          return false;
        }
      }
      return true;
    }

    method Load(catalog: C.Registry) returns (result: Result<Registry, Error>)
      ensures result == Loaded(Files(), catalog)
    {
      if registry.None? { return Err(NotInitialized); }
      var valid := ValidateRegistry(registry.value, catalog);
      if !valid { return Err(InvalidRegistry); }
      var filed := CheckFiles(registry.value);
      if !filed { return Err(FileMismatch); }
      return Ok(registry.value);
    }

    method Initialize(namespace: string) returns (result: Result<Registry, Error>)
      modifies this
      ensures (Files(), result) == Initialized(old(Files()), namespace)
    {
      var loaded := Load(NO_CATALOG);
      if loaded.Ok? {
        if loaded.value.namespace != Trim(namespace) { return Err(OtherNamespace); }
        return loaded;
      }
      if !loaded.error.NotInitialized? { return loaded; }
      var r := NewRegistry(namespace);
      var valid := ValidateRegistry(r, NO_CATALOG);
      if !valid { return Err(InvalidRegistry); }
      registry := Some(r);
      return Ok(r);
    }

    /** BuildVersion. */
    method Build(r: Registry, q: Input, catalog: C.Registry) returns (result: Result<Version, Error>)
      ensures result == Built(r, q, catalog)
    {
      if !InputOk(q) { return Err(InvalidInput); }
      if catalog.namespace != r.namespace { return Err(OtherNamespace); }
      var m := MappingId(r.namespace, q.source, q.list);
      var previous := ScanLatest(r.versions, m, None);
      if previous.Some? && !(q.from > previous.value.From()) {
        if previous.value.body.id == VersionIdOf(r.id, m, q) { return Ok(previous.value); }
        return Err(NotAdvancing);
      }
      if q.action.Bind? {
        var c := Find(C.ComponentKeyId, catalog.components, q.component);
        if c.None? { return Err(ComponentMissing); }
        if !c.value.status.InUse? { return Err(ComponentRetired); }
      }
      var v := NextVersion(r, q);
      if !(VersionSound(v, r) && Bound(v, catalog)) { return Err(InvalidVersion); }
      return Ok(v);
    }

    /** The version file, then the registry when it validates. */
    method WriteVersion(r: Registry, v: Version, catalog: C.Registry) returns (result: Result<Version, Error>)
      modifies this
      ensures (Files(), result) == VersionWritten(old(Files()), r, v, catalog)
    {
      var name := (v.body.sequence, v.body.id);
      if name in versionFiles && versionFiles[name] != v { return Err(FileCollision); }
      versionFiles := versionFiles[name := v];
      var next := r.(versions := r.versions + [v], lastSequence := v.body.sequence, auditHead := v.hash);
      var valid := ValidateRegistry(next, catalog);
      if !valid { return Err(InvalidRegistry); }
      registry := Some(next);
      return Ok(v);
    }

    method Register(q: Input, catalog: C.Registry) returns (result: Result<Version, Error>)
      modifies this
      ensures (Files(), result) == Registered(old(Files()), q, catalog)
    {
      var loaded := Load(catalog);
      if loaded.Err? { return Err(loaded.error); }
      var r := loaded.value;
      var built := Build(r, q, catalog);
      if built.Err? { return Err(built.error); }
      var v := built.value;
      var existing := Existing(r.versions, v.body.id);
      if existing.Some? {
        if existing.value != v { return Err(VersionCollision); }
        return Ok(existing.value);
      }
      if Find(KeyId, r.keys, v.Mapping()).None? {
        var k := NewKey(r, q);
        if !KeyOk(k) { return Err(InvalidKey); }
        if k.id in keyFiles && keyFiles[k.id] != k { return Err(FileCollision); }
        keyFiles := keyFiles[k.id := k];
        r := r.(keys := SortKeyed(KeyId, r.keys + [k]));
      }
      result := WriteVersion(r, v, catalog);
    }
  }
}

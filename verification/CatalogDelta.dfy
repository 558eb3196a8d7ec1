/** The delta of internal/catalogrefresh: built from two catalogs, validated, and applied to the first to give the second. */
module CatalogDelta {
  import opened Wrappers
  import opened Ordering
  import opened Catalog
  import opened Maps
  import opened CatalogRefresh

  const DELTA_SCHEMA := "ofac-catalog-delta/v1alpha1"

  datatype Kind = AddRecord | ReplaceRecord | RemoveRecord | Unsupported(name: string)

  /** The digest of a record: its content, or none. */
  datatype RecordHash = NoHash | HashOf(record: Record)

  datatype Operation = Operation(kind: Kind, id: string, before: RecordHash, after: Option<Record>)

  datatype DeltaSum = NoDeltaSum | DeltaSumOf(
    schema: string, sequence: nat, base: Ref, target: Ref, manifest: Manifest, generatedAt: Time, operations: seq<Operation>)

  datatype DeltaId = NoId | DeltaIdOf(sequence: nat, base: Ref, target: Ref, sum: DeltaSum)

  datatype Delta = Delta(
    schema: string,
    id: DeltaId,
    sequence: nat,
    base: Ref,
    target: Ref,
    manifest: Manifest,
    generatedAt: Time,
    operations: seq<Operation>,
    sum: DeltaSum)

  function SumOfDelta(d: Delta): DeltaSum {
    DeltaSumOf(d.schema, d.sequence, d.base, d.target, d.manifest, d.generatedAt, d.operations)
  }

  function IdOfDelta(d: Delta): DeltaId { DeltaIdOf(d.sequence, d.base, d.target, d.sum) }

  // ---------------------------------------------------------------- validation

  predicate ShapeOk(op: Operation) {
    match op.kind
    case AddRecord => op.after.Some? && op.before.NoHash?
    case ReplaceRecord => op.after.Some? && op.before.HashOf?
    case RemoveRecord => op.after.None? && op.before.HashOf?
    case Unsupported(_) => false
  }

  /** Operation i is well formed and its id is above its predecessor's. */
  predicate Placed(ops: seq<Operation>, i: nat)
    requires i < |ops|
  {
    ops[i].id != "" && (i > 0 ==> StringLess(ops[i - 1].id, ops[i].id)) && ShapeOk(ops[i])
  }

  predicate OperationsOk(ops: seq<Operation>) { forall i :: 0 <= i < |ops| ==> Placed(ops, i) }

  predicate DeltaHeaderOk(d: Delta) {
    && d.schema == DELTA_SCHEMA && d.id != NoId && d.sequence != 0 && d.base.checksum.SumOf? && d.target.checksum.SumOf?
    && d.generatedAt != 0 && d.manifest.accepted && d.manifest.id != "" && d.target.count >= 1
  }

  /** ValidateDelta: strictly rising ids, well-formed operations, and the sums of its content. */
  predicate DeltaOk(d: Delta) {
    DeltaHeaderOk(d) && OperationsOk(d.operations) && d.sum == SumOfDelta(d) && d.id == IdOfDelta(d)
  }

  lemma {:induction false} IdsRise(ops: seq<Operation>, i: nat, j: nat)
    requires i < j < |ops| && forall k :: 0 <= k <= j ==> Placed(ops, k)
    ensures StringLess(ops[i].id, ops[j].id)
    decreases j
  {
    assert Placed(ops, j);
    if i < j - 1 {
      IdsRise(ops, i, j - 1);
      StringLessTransitive(ops[i].id, ops[j - 1].id, ops[j].id);
    }
  }

  /** Not below the previous id and not seen before is the same as strictly above it. */
  lemma RisesIff(ops: seq<Operation>, i: nat)
    requires i < |ops| && (forall k :: 0 <= k < i ==> Placed(ops, k)) && ops[i].id != ""
    ensures (i == 0 || StringLess(ops[i - 1].id, ops[i].id))
      <==> !(i > 0 && StringLess(ops[i].id, ops[i - 1].id)) && (forall k :: 0 <= k < i ==> ops[k].id != ops[i].id)
  {
    if i > 0 {
      var last, id := ops[i - 1].id, ops[i].id;
      StringOrder();
      if StringLess(last, id) {
        forall k | 0 <= k < i ensures ops[k].id != id {
          if k < i - 1 { IdsRise(ops, k, i - 1); }
        }
      } else if id != last {
        StringLessConnected(id, last);
      }
    }
  }

  function IdsBefore(ops: seq<Operation>, n: nat): set<string>
    requires n <= |ops|
  {
    set k | 0 <= k < n :: ops[k].id
  }

  lemma PlacedIff(ops: seq<Operation>, i: nat, last: string)
    requires i < |ops| && (forall k :: 0 <= k < i ==> Placed(ops, k))
    requires last == if i == 0 then "" else ops[i - 1].id
    ensures Placed(ops, i) <==>
      !(ops[i].id == "" || (last != "" && StringLess(ops[i].id, last)) || ops[i].id in IdsBefore(ops, i)) && ShapeOk(ops[i])
  {
    if i > 0 { assert Placed(ops, i - 1); }
    if ops[i].id != "" { RisesIff(ops, i); }
  }

  method CheckOperations(ops: seq<Operation>) returns (ok: bool)
    ensures ok <==> OperationsOk(ops)
  {
    var seen: set<string> := {};
    var last := "";
    for i := 0 to |ops|
      invariant forall k :: 0 <= k < i ==> Placed(ops, k)
      invariant last == if i == 0 then "" else ops[i - 1].id
      invariant seen == IdsBefore(ops, i)
    {
      var op := ops[i];
      PlacedIff(ops, i, last);
      if op.id == "" || (last != "" && StringLess(op.id, last)) || op.id in seen { return false; }
      last := op.id;
      seen := seen + {op.id};
      if !ShapeOk(op) { return false; }
    }
    return true;
  }

  method ValidateDelta(d: Delta) returns (ok: bool)
    ensures ok <==> DeltaOk(d)
  {
    if !DeltaHeaderOk(d) { return false; }
    var ordered := CheckOperations(d.operations);
    return ordered && d.sum == SumOfDelta(d) && d.id == IdOfDelta(d);
  }

  // ---------------------------------------------------------------- building

  /** The operation that takes one record from its state in the base to its state in the target. */
  function OperationFor(bm: Records, tm: Records, id: string): (op: Operation)
    requires id in bm || id in tm
    ensures op.id == id && ShapeOk(op)
  {
    if id !in tm then Operation(RemoveRecord, id, HashOf(bm[id]), None)
    else if id !in bm then Operation(AddRecord, id, NoHash, Some(tm[id]))
    else Operation(ReplaceRecord, id, HashOf(bm[id]), Some(tm[id]))
  }

  predicate Known(bm: Records, tm: Records, ids: seq<string>) { forall i :: 0 <= i < |ids| ==> ids[i] in bm || ids[i] in tm }

  function OperationsFor(bm: Records, tm: Records, ids: seq<string>): (ops: seq<Operation>)
    requires Known(bm, tm, ids)
    ensures |ops| == |ids| && forall i :: 0 <= i < |ids| ==> ops[i] == OperationFor(bm, tm, ids[i])
  {
    seq(|ids|, i requires 0 <= i < |ids| => OperationFor(bm, tm, ids[i]))
  }

  function Changed(bm: Records, tm: Records): set<string> { Removed(bm, tm) + Modified(bm, tm) + Added(bm, tm) }

  lemma ListedKnown(bm: Records, tm: Records, ids: seq<string>, s: set<string>)
    requires multiset(ids) == multiset(s) && s <= Changed(bm, tm)
    ensures Known(bm, tm, ids) && (forall i :: 0 <= i < |ids| ==> ids[i] in s)
  {
    forall i | 0 <= i < |ids| ensures ids[i] in s {
      assert ids[i] in multiset(ids);
    }
  }

  /** One operation per changed record, by id. */
  ghost function BuiltOperations(bm: Records, tm: Records): seq<Operation> {
    ListedKnown(bm, tm, SortedIds(Changed(bm, tm)), Changed(bm, tm));
    OperationsFor(bm, tm, SortedIds(Changed(bm, tm)))
  }

  function Assembled(base: Catalog, target: Catalog, sequence: nat, at: Time, ops: seq<Operation>): Delta {
    var d := Delta(DELTA_SCHEMA, NoId, sequence, Reference(base), Reference(target), target.manifest, at, ops, NoDeltaSum);
    var summed := d.(sum := SumOfDelta(d));
    summed.(id := IdOfDelta(summed))
  }

  ghost function BuildResult(base: Catalog, target: Catalog, sequence: nat, at: Time): Result<Delta, Error> {
    match DiffResult(base, target)
    case Err(error) => Err(error)
    case Ok(report) =>
      var d := Assembled(base, target, sequence, at, BuiltOperations(RecordMap(base.records), RecordMap(target.records)));
      if DeltaOk(d) then Ok(d) else Err(InvalidDelta)
  }

  predicate OperationLess(a: Operation, b: Operation) { StringLess(a.id, b.id) }

  /** Sorting the operations by id is sorting the ids. */
  lemma SortCommutes(bm: Records, tm: Records, ids: seq<string>)
    requires Known(bm, tm, ids)
    ensures Known(bm, tm, SortStrings(ids))
    ensures SortBy(OperationLess, OperationsFor(bm, tm, ids)) == OperationsFor(bm, tm, SortStrings(ids))
  {
    var f := id => OperationOrNone(bm, tm, id);
    SortMapped(StringLess, OperationLess, f, ids);
    KnownSorted(bm, tm, ids);
    MappedOperations(bm, tm, f, ids);
    MappedOperations(bm, tm, f, SortStrings(ids));
  }

  /** The operation for any id, total for the sake of mapping it over lists. */
  function OperationOrNone(bm: Records, tm: Records, id: string): (op: Operation)
    ensures op.id == id
  {
    if id in bm || id in tm then OperationFor(bm, tm, id) else Operation(Unsupported(""), id, NoHash, None)
  }

  lemma MappedOperations(bm: Records, tm: Records, f: string -> Operation, ids: seq<string>)
    requires Known(bm, tm, ids) && forall id :: f(id) == OperationOrNone(bm, tm, id)
    ensures Mapped(f, ids) == OperationsFor(bm, tm, ids)
  {
  }

  lemma KnownSorted(bm: Records, tm: Records, ids: seq<string>)
    requires Known(bm, tm, ids)
    ensures Known(bm, tm, SortStrings(ids))
  {
    MembersSame(ids, SortStrings(ids));
    forall i | 0 <= i < |SortStrings(ids)| ensures SortStrings(ids)[i] in bm || SortStrings(ids)[i] in tm {
      assert SortStrings(ids)[i] in ids;
    }
  }

  lemma AllChanges(bm: Records, tm: Records, removedIds: seq<string>, modifiedIds: seq<string>, addedIds: seq<string>)
    requires multiset(removedIds) == multiset(Removed(bm, tm)) && multiset(modifiedIds) == multiset(Modified(bm, tm))
    requires multiset(addedIds) == multiset(Added(bm, tm))
    ensures SortStrings(removedIds + modifiedIds + addedIds) == SortedIds(Changed(bm, tm))
  {
    assert multiset(Removed(bm, tm) + Modified(bm, tm)) == multiset(Removed(bm, tm)) + multiset(Modified(bm, tm));
    assert multiset(Changed(bm, tm)) == multiset(removedIds + modifiedIds + addedIds);
    SortedListing(removedIds + modifiedIds + addedIds, Changed(bm, tm));
  }

  /** One of the three loops of BuildDelta: an operation for every listed id, in order. */
  method AppendOperations(bm: Records, tm: Records, ids: seq<string>, before: seq<Operation>) returns (ops: seq<Operation>)
    requires Known(bm, tm, ids)
    ensures ops == before + OperationsFor(bm, tm, ids)
  {
    ops := before;
    for i := 0 to |ids|
      invariant ops == before + OperationsFor(bm, tm, ids)[..i]
    {
      var id := ids[i];
      if id !in tm {
        ops := ops + [Operation(RemoveRecord, id, HashOf(bm[id]), None)];
      } else if id in bm {
        ops := ops + [Operation(ReplaceRecord, id, HashOf(bm[id]), Some(tm[id]))];
      } else {
        ops := ops + [Operation(AddRecord, id, NoHash, Some(tm[id]))];
      }
    }
  }

  lemma Joined(bm: Records, tm: Records, a: seq<string>, b: seq<string>)
    requires Known(bm, tm, a) && Known(bm, tm, b)
    ensures Known(bm, tm, a + b)
    ensures OperationsFor(bm, tm, a) + OperationsFor(bm, tm, b) == OperationsFor(bm, tm, a + b)
  {
  }

  method ListOperations(bm: Records, tm: Records, removedIds: seq<string>, modifiedIds: seq<string>, addedIds: seq<string>)
    returns (ops: seq<Operation>)
    requires multiset(removedIds) == multiset(Removed(bm, tm)) && multiset(modifiedIds) == multiset(Modified(bm, tm))
    requires multiset(addedIds) == multiset(Added(bm, tm))
    ensures ops == BuiltOperations(bm, tm)
  {
    AllKnown(bm, tm, removedIds, modifiedIds, addedIds);
    ops := AppendOperations(bm, tm, removedIds, []);
    ops := AppendOperations(bm, tm, modifiedIds, ops);
    ops := AppendOperations(bm, tm, addedIds, ops);
    AllSorted(bm, tm, removedIds, modifiedIds, addedIds);
    ops := SortBy(OperationLess, ops);
  }

  lemma AllKnown(bm: Records, tm: Records, removedIds: seq<string>, modifiedIds: seq<string>, addedIds: seq<string>)
    requires multiset(removedIds) == multiset(Removed(bm, tm)) && multiset(modifiedIds) == multiset(Modified(bm, tm))
    requires multiset(addedIds) == multiset(Added(bm, tm))
    ensures Known(bm, tm, removedIds) && Known(bm, tm, modifiedIds) && Known(bm, tm, addedIds)
  {
    ListedKnown(bm, tm, removedIds, Removed(bm, tm));
    ListedKnown(bm, tm, modifiedIds, Modified(bm, tm));
    ListedKnown(bm, tm, addedIds, Added(bm, tm));
  }

  lemma AllSorted(bm: Records, tm: Records, removedIds: seq<string>, modifiedIds: seq<string>, addedIds: seq<string>)
    requires Known(bm, tm, removedIds) && Known(bm, tm, modifiedIds) && Known(bm, tm, addedIds)
    requires multiset(removedIds) == multiset(Removed(bm, tm)) && multiset(modifiedIds) == multiset(Modified(bm, tm))
    requires multiset(addedIds) == multiset(Added(bm, tm))
    ensures SortBy(OperationLess, [] + OperationsFor(bm, tm, removedIds) + OperationsFor(bm, tm, modifiedIds) + OperationsFor(bm, tm, addedIds))
         == BuiltOperations(bm, tm)
  {
    AllJoined(bm, tm, removedIds, modifiedIds, addedIds);
    SortCommutes(bm, tm, removedIds + modifiedIds + addedIds);
    AllChanges(bm, tm, removedIds, modifiedIds, addedIds);
  }

  lemma AllJoined(bm: Records, tm: Records, a: seq<string>, b: seq<string>, c: seq<string>)
    requires Known(bm, tm, a) && Known(bm, tm, b) && Known(bm, tm, c)
    ensures Known(bm, tm, a + b + c)
    ensures [] + OperationsFor(bm, tm, a) + OperationsFor(bm, tm, b) + OperationsFor(bm, tm, c) == OperationsFor(bm, tm, a + b + c)
  {
    Joined(bm, tm, a, b);
    Joined(bm, tm, a + b, c);
    assert [] + OperationsFor(bm, tm, a) == OperationsFor(bm, tm, a);
  }

  method BuildDelta(base: Catalog, target: Catalog, sequence: nat, at: Time) returns (r: Result<Delta, Error>)
    ensures r == BuildResult(base, target, sequence, at)
  {
    var report := Diff(base, target);
    if report.Err? { return Err(report.error); }
    var bm := BuildRecordMap(base.records);
    var tm := BuildRecordMap(target.records);
    var ops := ListOperations(bm, tm, report.value.removedIds, report.value.modifiedIds, report.value.addedIds);
    var d := Assembled(base, target, sequence, at, ops);
    var ok := ValidateDelta(d);
    if !ok { return Err(InvalidDelta); }
    return Ok(d);
  }

  // ---------------------------------------------------------------- applying

  /** The effect of one operation on the records, with its preconditions. */
  function ApplyOne(m: Records, op: Operation): (r: Result<Records, Error>)
    ensures r.Err? ==> r.error.InvalidOperation? || r.error.PreconditionMismatch?
  {
    match op.kind
    case AddRecord =>
      if op.id in m || op.after.None? || op.after.value.id != op.id then Err(InvalidOperation(op.id))
      else Ok(m[op.id := op.after.value])
    case ReplaceRecord =>
      if op.id !in m || op.after.None? || op.after.value.id != op.id then Err(InvalidOperation(op.id))
      else if HashOf(m[op.id]) != op.before then Err(PreconditionMismatch(op.id))
      else Ok(m[op.id := op.after.value])
    case RemoveRecord =>
      if op.id !in m || op.after.Some? then Err(InvalidOperation(op.id))
      else if HashOf(m[op.id]) != op.before then Err(PreconditionMismatch(op.id))
      else Ok(m - {op.id})
    case Unsupported(_) => Err(InvalidOperation(op.id))
  }

  function ApplyAll(m: Records, ops: seq<Operation>): (r: Result<Records, Error>)
    ensures r.Err? ==> r.error.InvalidOperation? || r.error.PreconditionMismatch?
  {
    if ops == [] then Ok(m)
    else
      match ApplyAll(m, ops[..|ops| - 1])
      case Err(error) => Err(error)
      case Ok(before) => ApplyOne(before, ops[|ops| - 1])
  }

  predicate UidLess(a: Record, b: Record) { UidNumber(a.uid) < UidNumber(b.uid) }

  /** A list of the records in the order of their uid numbers; records with equal numbers may come in any order. */
  ghost predicate Arranged(rs: seq<Record>, m: Records) { multiset(rs) == Values(m) && SortedBy(UidLess, rs) }

  /** The records the delta leaves, in one of the orders the map and the sort may produce. */
  ghost predicate IsOutput(base: Catalog, d: Delta, rs: seq<Record>) {
    var patched := ApplyAll(RecordMap(base.records), d.operations);
    patched.Ok? && Arranged(rs, patched.value)
  }

  function Rebuilt(base: Catalog, d: Delta, rs: seq<Record>): Catalog {
    var c := Catalog(SCHEMA, d.target.catalogId, d.target.version, NoSum, base.mode, base.projector, d.manifest, |rs|, rs);
    c.(checksum := Sum(c))
  }

  /** The outcome of Apply when the records come out of the map and the sort as `rs`. */
  function ApplyResult(base: Catalog, d: Delta, expected: nat, rs: seq<Record>): Result<Catalog, Error> {
    if !Valid(base) then Err(BaseInvalid)
    else if !DeltaOk(d) then Err(InvalidDelta)
    else if d.sequence != expected then Err(SequenceMismatch)
    else if d.base != Reference(base) then Err(BaseMismatch)
    else
      match ApplyAll(RecordMap(base.records), d.operations)
      case Err(error) => Err(error)
      case Ok(m) =>
        var out := Rebuilt(base, d, rs);
        if out.count != d.target.count || out.checksum != d.target.checksum then Err(IdentityMismatch)
        else if !Valid(out) then Err(InvalidResult)
        else Ok(out)
  }

  /** The loop over the operations, updating the map of records in place. */
  method Patch(base: Records, ops: seq<Operation>) returns (r: Result<Records, Error>)
    ensures r == ApplyAll(base, ops)
  {
    var records := base;
    for i := 0 to |ops|
      invariant ApplyAll(base, ops[..i]) == Ok(records)
    {
      assert ops[..i + 1][..i] == ops[..i];
      var step := ApplyOne(records, ops[i]);
      if step.Err? {
        FailedPrefix(base, ops, i + 1);
        return step;
      }
      records := step.value;
    }
    assert ops[..|ops|] == ops;
    return Ok(records);
  }

  lemma {:induction false} FailedPrefix(m: Records, ops: seq<Operation>, n: nat)
    requires n <= |ops| && ApplyAll(m, ops[..n]).Err?
    ensures ApplyAll(m, ops) == ApplyAll(m, ops[..n])
    decreases |ops|
  {
    if n == |ops| {
      assert ops[..n] == ops;
    } else {
      assert ops[..|ops| - 1][..n] == ops[..n];
      FailedPrefix(m, ops[..|ops| - 1], n);
    }
  }

  lemma CollectNext(m: Records, todo: set<string>, id: string)
    requires id in todo && id in m
    ensures Values(m - (todo - {id})) == Values(m - todo) + multiset{m[id]}
  {
    ValuesAdded(m - todo, id, m[id]);
    assert (m - todo)[id := m[id]] == m - (todo - {id});
  }

  /** The loop that collects the records, in whatever order the map yields them. */
  method Collect(m: Records) returns (rs: seq<Record>)
    ensures multiset(rs) == Values(m)
  {
    rs := [];
    var todo := m.Keys;
    assert m - todo == map[];
    while todo != {}
      invariant todo <= m.Keys && multiset(rs) == Values(m - todo)
    {
      var id :| id in todo;
      CollectNext(m, todo, id);
      todo := todo - {id};
      rs := rs + [m[id]];
    }
    assert m - todo == m;
  }

  lemma UidOrder()
    ensures Strict(UidLess)
  {
  }

  method Apply(base: Catalog, d: Delta, expected: nat) returns (r: Result<Catalog, Error>, ghost rs: seq<Record>)
    ensures r == ApplyResult(base, d, expected, rs)
    ensures r.Ok? || r.error in {IdentityMismatch, InvalidResult} ==> IsOutput(base, d, rs)
  {
    rs := [];
    var baseOk := ValidateCatalog(base);
    if !baseOk { return Err(BaseInvalid), rs; }
    var deltaOk := ValidateDelta(d);
    if !deltaOk { return Err(InvalidDelta), rs; }
    if d.sequence != expected { return Err(SequenceMismatch), rs; }
    if d.base != Reference(base) { return Err(BaseMismatch), rs; }
    var records := BuildRecordMap(base.records);
    var patched := Patch(records, d.operations);
    if patched.Err? { return Err(patched.error), rs; }
    var collected := Collect(patched.value);
    var sorted := SortBy(UidLess, collected);
    rs := sorted;
    UidOrder();
    SortSorted(UidLess, collected);
    var out := Rebuilt(base, d, sorted);
    if out.count != d.target.count || out.checksum != d.target.checksum { return Err(IdentityMismatch), rs; }
    var outOk := ValidateCatalog(out);
    if !outOk { return Err(InvalidResult), rs; }
    return Ok(out), rs;
  }
}

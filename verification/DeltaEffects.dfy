/** When a delta can be applied, and what a built one holds, in terms of the records of the catalogs. */
module DeltaEffects {
  import opened Wrappers
  import opened Ordering
  import opened Maps
  import opened Catalog
  import opened CatalogRefresh
  import opened CatalogDelta
  import opened DeltaRoundTrip
  import opened RefreshReports

  /** The catalog has exactly the record the operation was made against under its id, if any was. */
  predicate FitsBase(base: Catalog, op: Operation) {
    match op.kind
    case AddRecord => !HasId(base, op.id) && op.after.Some? && op.after.value.id == op.id
    case ReplaceRecord => HasRecord(base, op) && op.after.Some? && op.after.value.id == op.id
    case RemoveRecord => HasRecord(base, op) && op.after.None?
    case Unsupported(_) => false
  }

  predicate HasRecord(base: Catalog, op: Operation) { exists r :: r in base.records && r.id == op.id && op.before == HashOf(r) }

  lemma OneFits(base: Catalog, op: Operation)
    requires Valid(base)
    ensures ApplyOne(RecordMap(base.records), op).Ok? <==> FitsBase(base, op)
  {
    MappedRecords(base, op.id);
  }

  /** Why the operation does not fit: another record than it was made against, or none, or one too many. */
  function Misfit(base: Catalog, op: Operation): Error {
    var shaped := if op.kind.ReplaceRecord? then op.after.Some? && op.after.value.id == op.id else op.kind.RemoveRecord? && op.after.None?;
    if shaped && HasId(base, op.id) then PreconditionMismatch(op.id) else InvalidOperation(op.id)
  }

  lemma OneMisfits(base: Catalog, m: Records, op: Operation)
    requires Valid(base) && !FitsBase(base, op) && Lookup(m, op.id) == Lookup(RecordMap(base.records), op.id)
    ensures ApplyOne(m, op) == Err(Misfit(base, op))
  {
    MappedRecords(base, op.id);
  }

  lemma DistinctIds(ops: seq<Operation>)
    requires OperationsOk(ops)
    ensures DistinctOperations(ops)
  {
    forall i, j | 0 <= i < j < |ops| ensures ops[i].id != ops[j].id {
      IdsRise(ops, i, j);
      StringLessIrreflexive(ops[i].id);
    }
  }

  /** The first operation that does not fit the base decides. */
  lemma FirstMisfit(base: Catalog, ops: seq<Operation>, k: nat)
    requires Valid(base) && DistinctOperations(ops) && k < |ops| && !FitsBase(base, ops[k])
    requires forall i :: 0 <= i < k ==> FitsBase(base, ops[i])
    ensures ApplyAll(RecordMap(base.records), ops) == Err(Misfit(base, ops[k]))
  {
    var m, front := RecordMap(base.records), ops[..k];
    FrontApart(ops, k);
    AllFit(base, front);
    ApplyAllIs(m, front);
    Untouched(m, front, ApplyAll(m, front).value, ops[k].id);
    OneMisfits(base, ApplyAll(m, front).value, ops[k]);
    MisfitStops(m, ops, k);
  }

  lemma FrontApart(ops: seq<Operation>, k: nat)
    requires DistinctOperations(ops) && k < |ops|
    ensures DistinctOperations(ops[..k]) && forall op :: op in ops[..k] ==> op.id != ops[k].id
  {
  }

  lemma Untouched(m: Records, ops: seq<Operation>, r: Records, id: string)
    requires Patched(m, ops, r) && forall op :: op in ops ==> op.id != id
    ensures Lookup(r, id) == Lookup(m, id)
  {
  }

  lemma MisfitStops(m: Records, ops: seq<Operation>, k: nat)
    requires k < |ops| && ApplyAll(m, ops[..k]).Ok? && ApplyOne(ApplyAll(m, ops[..k]).value, ops[k]).Err?
    ensures ApplyAll(m, ops) == Err(ApplyOne(ApplyAll(m, ops[..k]).value, ops[k]).error)
  {
    assert ops[..k + 1][..k] == ops[..k];
    FailedPrefix(m, ops, k + 1);
  }

  lemma AllFit(base: Catalog, ops: seq<Operation>)
    requires Valid(base) && DistinctOperations(ops)
    ensures ApplyAll(RecordMap(base.records), ops).Ok? <==> forall op :: op in ops ==> FitsBase(base, op)
  {
    forall op | op in ops ensures ApplyOne(RecordMap(base.records), op).Ok? <==> FitsBase(base, op) { OneFits(base, op); }
    ApplyAllIs(RecordMap(base.records), ops);
  }

  /** A sound delta is applied only in its turn, to the very catalog it was built against, every record of which that it
      touches must be as it was; otherwise nothing comes of it, and the first demand not met is reported. */
  lemma ApplyNeeds(base: Catalog, d: Delta, expected: nat, rs: seq<Record>)
    requires Valid(base) && DeltaOk(d)
    ensures var mine := Ref(base.catalogId, base.version, base.checksum, base.count);
      && (d.sequence != expected ==> ApplyResult(base, d, expected, rs) == Err(SequenceMismatch))
      && (d.sequence == expected && d.base != mine ==> ApplyResult(base, d, expected, rs) == Err(BaseMismatch))
      && (ApplyResult(base, d, expected, rs).Ok? ==>
            d.sequence == expected && d.base == mine && forall op :: op in d.operations ==> FitsBase(base, op))
  {
    DistinctIds(d.operations);
    AllFit(base, d.operations);
  }

  lemma ApplyMisfit(base: Catalog, d: Delta, expected: nat, rs: seq<Record>, k: nat)
    requires Valid(base) && DeltaOk(d) && d.sequence == expected && d.base == Reference(base)
    requires k < |d.operations| && !FitsBase(base, d.operations[k]) && forall i :: 0 <= i < k ==> FitsBase(base, d.operations[i])
    ensures ApplyResult(base, d, expected, rs) == Err(Misfit(base, d.operations[k]))
  {
    DistinctIds(d.operations);
    FirstMisfit(base, d.operations, k);
  }

  /** The operation that a changed id calls for. */
  ghost predicate Calls(base: Catalog, target: Catalog, op: Operation) {
    || (op.kind == RemoveRecord && HasRecord(base, op) && !HasId(target, op.id) && op.after == None)
    || (op.kind == AddRecord && !HasId(base, op.id) && op.before == NoHash && op.after.Some? && op.after.value in target.records && op.after.value.id == op.id)
    || (op.kind == ReplaceRecord && HasRecord(base, op) && op.after.Some? && op.before != HashOf(op.after.value)
        && op.after.value in target.records && op.after.value.id == op.id)
  }

  lemma CalledFor(base: Catalog, target: Catalog, op: Operation)
    requires Valid(base) && Valid(target)
    ensures var bm, tm := RecordMap(base.records), RecordMap(target.records);
      Calls(base, target, op) <==> op.id in CatalogDelta.Changed(bm, tm) && op == OperationFor(bm, tm, op.id)
  {
    MappedRecords(base, op.id);
    MappedRecords(target, op.id);
  }

  /** A built delta: the operations the two catalogs call for, by ascending ids, under their references, the target's
      manifest, and the given number and time. */
  lemma BuiltIs(base: Catalog, target: Catalog, sequence: nat, at: Time)
    requires Valid(base) && Valid(target) && BuildResult(base, target, sequence, at).Ok?
    ensures var d := BuildResult(base, target, sequence, at).value;
      && d.schema == "ofac-catalog-delta/v1alpha1" && d.sequence == sequence && d.generatedAt == at && d.manifest == target.manifest
      && d.base == Ref(base.catalogId, base.version, base.checksum, base.count)
      && d.target == Ref(target.catalogId, target.version, target.checksum, target.count)
      && (forall i, j :: 0 <= i < j < |d.operations| ==> StringLess(d.operations[i].id, d.operations[j].id))
      && (forall op :: op in d.operations <==> Calls(base, target, op))
  {
    var d := BuildResult(base, target, sequence, at).value;
    var bm, tm := RecordMap(base.records), RecordMap(target.records);
    assert OperationsOk(d.operations);
    forall i, j | 0 <= i < j < |d.operations| ensures StringLess(d.operations[i].id, d.operations[j].id) { IdsRise(d.operations, i, j); }
    BuiltMembers(bm, tm);
    forall op ensures op in d.operations <==> Calls(base, target, op) {
      CalledFor(base, target, op);
      if op.id in CatalogDelta.Changed(bm, tm) { BuiltCovers(bm, tm, op.id); }
    }
  }

  // ---------------------------------------------------------------- what a sound delta is

  /** An operation brings a record or names the one it was made against, or both, as its kind asks. */
  predicate Shaped(op: Operation) {
    && !op.kind.Unsupported? && op.id != ""
    && (op.after.Some? <==> !op.kind.RemoveRecord?) && (op.before.HashOf? <==> !op.kind.AddRecord?)
  }

  /** A delta is sound exactly if its header is complete, its operations are shaped and come by ascending ids, and its sums cover it. */
  lemma SoundExactly(d: Delta)
    ensures DeltaOk(d) <==>
      && d.schema == "ofac-catalog-delta/v1alpha1" && d.sequence >= 1 && d.generatedAt != 0
      && d.base.checksum != NoSum && d.target.checksum != NoSum && d.target.count >= 1 && d.manifest.accepted && d.manifest.id != ""
      && (forall op :: op in d.operations ==> Shaped(op))
      && (forall i, j :: 0 <= i < j < |d.operations| ==> StringLess(d.operations[i].id, d.operations[j].id))
      && d.sum == DeltaSumOf(d.schema, d.sequence, d.base, d.target, d.manifest, d.generatedAt, d.operations)
      && d.id == DeltaIdOf(d.sequence, d.base, d.target, d.sum)
  {
    OperationsExactly(d.operations);
  }

  lemma OperationsExactly(ops: seq<Operation>)
    ensures OperationsOk(ops) <==>
      (forall op :: op in ops ==> Shaped(op)) && forall i, j :: 0 <= i < j < |ops| ==> StringLess(ops[i].id, ops[j].id)
  {
    if OperationsOk(ops) {
      forall op | op in ops ensures Shaped(op) { var i :| 0 <= i < |ops| && ops[i] == op; assert Placed(ops, i); }
      forall i, j | 0 <= i < j < |ops| ensures StringLess(ops[i].id, ops[j].id) { IdsRise(ops, i, j); }
    }
    if (forall op :: op in ops ==> Shaped(op)) && forall i, j :: 0 <= i < j < |ops| ==> StringLess(ops[i].id, ops[j].id) {
      forall i | 0 <= i < |ops| ensures Placed(ops, i) { assert ops[i] in ops; }
    }
  }
}

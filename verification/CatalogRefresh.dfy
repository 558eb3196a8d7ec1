/** Catalog refresh of internal/catalogrefresh: the diff of two catalogs, the delta built from it, and its application. */
module CatalogRefresh {
  import opened Wrappers
  import opened Ordering
  import opened Catalog
  import opened Maps

  type Time = int

  datatype Ref = Ref(catalogId: string, version: string, checksum: Checksum, count: int)

  function Reference(c: Catalog): Ref { Ref(c.catalogId, c.version, c.checksum, c.count) }

  datatype Error =
    | BaseInvalid
    | TargetInvalid
    | InvalidDiff
    | InvalidDelta
    | SequenceMismatch
    | BaseMismatch
    | InvalidOperation(id: string)
    | PreconditionMismatch(id: string)
    | IdentityMismatch
    | InvalidResult

  // ---------------------------------------------------------------- records by id

  type Records = map<string, Record>

  function IdOf(r: Record): string { r.id }

  /** recordMap: the records by id. */
  function RecordMap(rs: seq<Record>): Records { ByKey(IdOf, rs) }

  method BuildRecordMap(rs: seq<Record>) returns (m: Records)
    ensures m == RecordMap(rs)
  {
    m := map[];
    for i := 0 to |rs|
      invariant m == RecordMap(rs[..i])
    {
      assert rs[..i + 1][..i] == rs[..i];
      m := m[rs[i].id := rs[i]];
    }
    assert rs[..|rs|] == rs;
  }

  lemma ValidRecordMap(c: Catalog)
    requires Valid(c)
    ensures Values(RecordMap(c.records)) == multiset(c.records)
    ensures |RecordMap(c.records)| == |c.records| == c.count >= 1
    ensures forall id :: id in RecordMap(c.records) ==> RecordMap(c.records)[id].id == id
  {
    IdsDistinct(c.records);
    ValuesOfByKey(IdOf, c.records);
    KeysOfByKey(IdOf, c.records);
  }

  // ---------------------------------------------------------------- the diff

  datatype Report = Report(
    base: Ref,
    target: Ref,
    added: nat,
    modified: nat,
    removed: nat,
    same: nat,
    total: nat,
    changeRatio: nat,
    deletionRatio: nat,
    addedIds: seq<string>,
    modifiedIds: seq<string>,
    removedIds: seq<string>)

  /** The members of a set in some order. */
  ghost function Listing(s: set<string>): (r: seq<string>)
    ensures multiset(r) == multiset(s) && |r| == |s|
  {
    if s == {} then []
    else
      var x :| x in s;
      assert multiset(s) == multiset(s - {x}) + multiset{x};
      Listing(s - {x}) + [x]
  }

  ghost function SortedIds(s: set<string>): (r: seq<string>)
    ensures multiset(r) == multiset(s) && |r| == |s|
  {
    SortStrings(Listing(s))
  }

  lemma SortedListing(xs: seq<string>, s: set<string>)
    requires multiset(xs) == multiset(s)
    ensures SortStrings(xs) == SortedIds(s)
    ensures |xs| == |s|
  {
    SortStringsForgetsOrder(xs, Listing(s));
    MembersSame(xs, Listing(s));
  }

  function Ratio(n: nat, whole: int): nat { if whole > 0 then n * 10000 / whole else 0 }

  function Larger(x: int, y: int): int { if y > x then y else x }

  /** The report with the given numbers of changes and unchanged records, and the given ids. */
  function Summary(base: Ref, target: Ref, added: nat, modified: nat, removed: nat, same: nat,
                   addedIds: seq<string>, modifiedIds: seq<string>, removedIds: seq<string>): Report {
    var total := added + modified + removed;
    Report(base, target, added, modified, removed, same, total,
      Ratio(total, Larger(base.count, target.count)), Ratio(removed, base.count), addedIds, modifiedIds, removedIds)
  }

  ghost function ReportOf(base: Catalog, target: Catalog): Report {
    var bm, tm := RecordMap(base.records), RecordMap(target.records);
    Summary(Reference(base), Reference(target), |Added(bm, tm)|, |Modified(bm, tm)|, |Removed(bm, tm)|, |Same(bm, tm)|,
      SortedIds(Added(bm, tm)), SortedIds(Modified(bm, tm)), SortedIds(Removed(bm, tm)))
  }

  /** ValidateDiff: checksums on record, counts that add up, ratios within basis points. */
  predicate ReportOk(r: Report) {
    && r.base.checksum.SumOf? && r.target.checksum.SumOf?
    && r.total == r.added + r.modified + r.removed
    && r.changeRatio <= 10000 && r.deletionRatio <= 10000
  }

  ghost function DiffResult(base: Catalog, target: Catalog): Result<Report, Error> {
    if !Valid(base) then Err(BaseInvalid)
    else if !Valid(target) then Err(TargetInvalid)
    else if !ReportOk(ReportOf(base, target)) then Err(InvalidDiff)
    else Ok(ReportOf(base, target))
  }

  /** What the loop over the base records has found when the ids in `todo` are still to come. */
  ghost predicate Compared(bm: Records, tm: Records, todo: set<string>, removedIds: seq<string>, modifiedIds: seq<string>, same: nat) {
    && multiset(removedIds) == multiset(Removed(bm, tm) - todo)
    && multiset(modifiedIds) == multiset(Modified(bm, tm) - todo)
    && same == |Same(bm, tm) - todo|
  }

  lemma TakeOut(s: set<string>, todo: set<string>, id: string)
    requires id in todo
    ensures id !in s ==> s - (todo - {id}) == s - todo
    ensures id in s ==> multiset(s - (todo - {id})) == multiset(s - todo) + multiset{id} && |s - (todo - {id})| == |s - todo| + 1
  {
    if id in s {
      assert s - (todo - {id}) == (s - todo) + {id};
    } else {
      assert s - (todo - {id}) == s - todo;
    }
  }

  lemma ComparedNext(bm: Records, tm: Records, todo: set<string>, removedIds: seq<string>, modifiedIds: seq<string>, same: nat, id: string)
    requires Compared(bm, tm, todo, removedIds, modifiedIds, same) && id in todo && id in bm
    ensures id !in tm ==> Compared(bm, tm, todo - {id}, removedIds + [id], modifiedIds, same)
    ensures id in tm && bm[id] == tm[id] ==> Compared(bm, tm, todo - {id}, removedIds, modifiedIds, same + 1)
    ensures id in tm && bm[id] != tm[id] ==> Compared(bm, tm, todo - {id}, removedIds, modifiedIds + [id], same)
  {
    TakeOut(Removed(bm, tm), todo, id);
    TakeOut(Modified(bm, tm), todo, id);
    TakeOut(Same(bm, tm), todo, id);
  }

  /** The loop over the base records, in whatever order the map yields them. */
  method CompareBase(bm: Records, tm: Records) returns (removedIds: seq<string>, modifiedIds: seq<string>, same: nat)
    ensures Compared(bm, tm, {}, removedIds, modifiedIds, same)
  {
    removedIds, modifiedIds, same := [], [], 0;
    var todo := bm.Keys;
    assert Removed(bm, tm) - todo == {} && Modified(bm, tm) - todo == {} && Same(bm, tm) - todo == {};
    while todo != {}
      invariant todo <= bm.Keys && Compared(bm, tm, todo, removedIds, modifiedIds, same)
    {
      var id :| id in todo;
      ComparedNext(bm, tm, todo, removedIds, modifiedIds, same, id);
      todo := todo - {id};
      if id !in tm {
        removedIds := removedIds + [id];
      } else if bm[id] == tm[id] {
        same := same + 1;
      } else {
        modifiedIds := modifiedIds + [id];
      }
    }
  }

  /** The loop over the target records. */
  method CollectAdded(bm: Records, tm: Records) returns (addedIds: seq<string>)
    ensures multiset(addedIds) == multiset(Added(bm, tm))
  {
    addedIds := [];
    var todo := tm.Keys;
    while todo != {}
      invariant todo <= tm.Keys
      invariant multiset(addedIds) == multiset(Added(bm, tm) - todo)
    {
      var id :| id in todo;
      TakeOut(Added(bm, tm), todo, id);
      todo := todo - {id};
      if id !in bm { addedIds := addedIds + [id]; }
    }
    assert Added(bm, tm) - todo == Added(bm, tm);
  }

  lemma ComparedAll(bm: Records, tm: Records, removedIds: seq<string>, modifiedIds: seq<string>, same: nat)
    requires Compared(bm, tm, {}, removedIds, modifiedIds, same)
    ensures SortStrings(removedIds) == SortedIds(Removed(bm, tm)) && |removedIds| == |Removed(bm, tm)|
    ensures SortStrings(modifiedIds) == SortedIds(Modified(bm, tm)) && |modifiedIds| == |Modified(bm, tm)|
    ensures same == |Same(bm, tm)|
  {
    NothingTaken(Removed(bm, tm));
    NothingTaken(Modified(bm, tm));
    NothingTaken(Same(bm, tm));
    SortedListing(removedIds, Removed(bm, tm));
    SortedListing(modifiedIds, Modified(bm, tm));
  }

  lemma NothingTaken(s: set<string>)
    ensures s - {} == s
  {
  }

  /** The comparison of two catalogs already validated. */
  method Compare(base: Catalog, target: Catalog) returns (r: Report)
    ensures r == ReportOf(base, target)
  {
    var bm := BuildRecordMap(base.records);
    var tm := BuildRecordMap(target.records);
    var removedIds, modifiedIds, same := CompareBase(bm, tm);
    var addedIds := CollectAdded(bm, tm);
    ComparedAll(bm, tm, removedIds, modifiedIds, same);
    SortedListing(addedIds, Added(bm, tm));
    r := Summary(Reference(base), Reference(target), |addedIds|, |modifiedIds|, |removedIds|, same,
      SortStrings(addedIds), SortStrings(modifiedIds), SortStrings(removedIds));
  }

  method Diff(base: Catalog, target: Catalog) returns (r: Result<Report, Error>)
    ensures r == DiffResult(base, target)
  {
    var baseOk := ValidateCatalog(base);
    if !baseOk { return Err(BaseInvalid); }
    var targetOk := ValidateCatalog(target);
    if !targetOk { return Err(TargetInvalid); }
    var report := Compare(base, target);
    if !ReportOk(report) { return Err(InvalidDiff); }
    return Ok(report);
  }

  // ---------------------------------------------------------------- what the diff conserves

  /** Every base record is removed, modified or unchanged; every target record added, modified or unchanged. */
  lemma DiffConserves(base: Catalog, target: Catalog)
    requires Valid(base) && Valid(target)
    ensures var r := ReportOf(base, target);
      && r.removed + r.modified + r.same == |base.records| == base.count
      && r.added + r.modified + r.same == |target.records| == target.count
  {
    var bm, tm := RecordMap(base.records), RecordMap(target.records);
    ValidRecordMap(base);
    ValidRecordMap(target);
    Conserved(bm, tm);
  }

  lemma RatioWithin(n: nat, whole: nat)
    requires 0 < whole
    ensures n * 10000 / whole <= 10000 <==> 10000 * n < 10001 * whole
  {
    var q := n * 10000 / whole;
    assert q * whole <= n * 10000 < (q + 1) * whole;
    if q <= 10000 { Scaled(q + 1, 10001, whole); } else { Scaled(10001, q, whole); }
  }

  lemma Scaled(p: nat, q: nat, d: nat)
    requires p <= q
    ensures p * d <= q * d
  {
  }

  /** The diff of valid catalogs is accepted exactly below this bound on the changes; deletions alone never exceed it. */
  lemma DiffAccepted(base: Catalog, target: Catalog)
    requires Valid(base) && Valid(target)
    ensures DiffResult(base, target).Ok? <==> 10000 * ReportOf(base, target).total < 10001 * Larger(base.count, target.count)
    ensures DiffResult(base, target).Err? ==> DiffResult(base, target) == Err(InvalidDiff)
    ensures ReportOf(base, target).deletionRatio <= 10000
  {
    ReportFacts(base, target);
    BoundsDecide(ReportOf(base, target));
  }

  ghost predicate AddsUp(r: Report) {
    && r.base.checksum.SumOf? && r.target.checksum.SumOf? && r.total == r.added + r.modified + r.removed
    && r.base.count >= 1 && r.removed <= r.base.count
    && r.changeRatio == Ratio(r.total, Larger(r.base.count, r.target.count)) && r.deletionRatio == Ratio(r.removed, r.base.count)
  }

  lemma ReportFacts(base: Catalog, target: Catalog)
    requires Valid(base) && Valid(target)
    ensures AddsUp(ReportOf(base, target))
    ensures ReportOf(base, target).base == Reference(base) && ReportOf(base, target).target == Reference(target)
  {
    DiffConserves(base, target);
    Summed(base);
    Summed(target);
    var bm, tm := RecordMap(base.records), RecordMap(target.records);
    SummaryAddsUp(Reference(base), Reference(target), |Added(bm, tm)|, |Modified(bm, tm)|, |Removed(bm, tm)|, |Same(bm, tm)|,
      SortedIds(Added(bm, tm)), SortedIds(Modified(bm, tm)), SortedIds(Removed(bm, tm)));
  }

  lemma Summed(c: Catalog)
    requires Valid(c)
    ensures Reference(c).checksum.SumOf? && Reference(c).count >= 1
  {
  }

  lemma SummaryAddsUp(base: Ref, target: Ref, added: nat, modified: nat, removed: nat, same: nat,
                      addedIds: seq<string>, modifiedIds: seq<string>, removedIds: seq<string>)
    requires base.checksum.SumOf? && target.checksum.SumOf? && base.count >= 1 && removed <= base.count
    ensures AddsUp(Summary(base, target, added, modified, removed, same, addedIds, modifiedIds, removedIds))
  {
  }

  /** For a report over non-empty catalogs that adds up, only the change ratio can be out of bounds. */
  lemma BoundsDecide(r: Report)
    requires AddsUp(r)
    ensures ReportOk(r) <==> 10000 * r.total < 10001 * Larger(r.base.count, r.target.count)
    ensures r.deletionRatio <= 10000
  {
    RatioWithin(r.total, Larger(r.base.count, r.target.count));
    RatioWithin(r.removed, r.base.count);
  }

  /** Catalogs without a common record differ by all their records, and are refused unless one dwarfs the other. */
  lemma DisjointRefused(base: Catalog, target: Catalog)
    requires Valid(base) && Valid(target) && RecordMap(base.records).Keys !! RecordMap(target.records).Keys
    ensures ReportOf(base, target).total == base.count + target.count
    ensures DiffResult(base, target) == Err(InvalidDiff)
      <==> 10000 * (base.count + target.count) >= 10001 * Larger(base.count, target.count)
  {
    var bm, tm := RecordMap(base.records), RecordMap(target.records);
    DiffConserves(base, target);
    assert Modified(bm, tm) == {} && Same(bm, tm) == {};
    DiffAccepted(base, target);
  }
}

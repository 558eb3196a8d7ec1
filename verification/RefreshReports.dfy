/** What a diff report says of the two catalogs, in terms of their records. */
module RefreshReports {
  import opened Wrappers
  import opened Text
  import opened Ordering
  import opened Maps
  import opened Keyed
  import opened Catalog
  import opened CatalogRefresh

  /** Some record of the catalog has this id. */
  predicate HasId(c: Catalog, id: string) { exists r :: r in c.records && r.id == id }

  /** Both catalogs have a record of this id, and they differ, or are the same. */
  predicate Changed(base: Catalog, target: Catalog, id: string) {
    exists a, b :: a in base.records && b in target.records && a.id == b.id == id && a != b
  }

  lemma MappedRecords(c: Catalog, id: string)
    requires Valid(c)
    ensures HasId(c, id) <==> id in RecordMap(c.records)
    ensures forall r :: r in c.records && r.id == id ==> id in RecordMap(c.records) && RecordMap(c.records)[id] == r
    ensures id in RecordMap(c.records) ==> RecordMap(c.records)[id] in c.records && RecordMap(c.records)[id].id == id
  {
    IdsDistinct(c.records);
    FindIndexed(IdOf, c.records, id);
    forall r | r in c.records && r.id == id ensures Find(IdOf, c.records, id) == Some(r) { FindMember(IdOf, c.records, r); }
  }

  /** The listed ids, in order and each once. */
  ghost predicate Lists(ids: seq<string>, has: set<string>) { Ascending(ids) && |ids| == |has| && forall id :: id in ids <==> id in has }

  lemma SortedIdsList(s: set<string>)
    ensures Lists(SortedIds(s), s)
  {
    var listing := Listing(s);
    MembersSame(SortedIds(s), listing);
    forall x ensures x in listing <==> x in s { assert x in listing <==> x in multiset(listing); }
    ListingOnce(s);
    SortedAscends(listing);
  }

  lemma ListingOnce(s: set<string>)
    ensures forall i, j :: 0 <= i < j < |Listing(s)| ==> Listing(s)[i] != Listing(s)[j]
  {
    var xs := Listing(s);
    forall i, j | 0 <= i < j < |xs| ensures xs[i] != xs[j] {
      assert multiset(xs)[xs[i]] == multiset(s)[xs[i]];
      if xs[i] == xs[j] { AtTwice(xs, i, j); }
    }
  }

  /** The ids a report lists, by the records of the two catalogs. */
  ghost predicate IdsAre(base: Catalog, target: Catalog, r: Report) {
    && Ascending(r.addedIds) && Ascending(r.removedIds) && Ascending(r.modifiedIds)
    && (forall id :: id in r.addedIds <==> HasId(target, id) && !HasId(base, id))
    && (forall id :: id in r.removedIds <==> HasId(base, id) && !HasId(target, id))
    && (forall id :: id in r.modifiedIds <==> Changed(base, target, id))
  }

  /** Basis points, rounded down. */
  predicate BasisPoints(part: nat, whole: int, r: nat) { r * whole <= part * 10000 < (r + 1) * whole }

  /** The counts are of what is listed and the ratios are of the changes to the larger catalog and of the removals to the base. */
  predicate CountsAre(base: Catalog, target: Catalog, r: Report) {
    && r.added == |r.addedIds| && r.removed == |r.removedIds| && r.modified == |r.modifiedIds|
    && r.total == r.added + r.modified + r.removed
    && r.same == base.count - r.removed - r.modified == target.count - r.added - r.modified
    && BasisPoints(r.total, if base.count > target.count then base.count else target.count, r.changeRatio)
    && BasisPoints(r.removed, base.count, r.deletionRatio)
    && r.base == Ref(base.catalogId, base.version, base.checksum, base.count)
    && r.target == Ref(target.catalogId, target.version, target.checksum, target.count)
  }

  lemma ChangesAre(base: Catalog, target: Catalog, id: string)
    requires Valid(base) && Valid(target)
    ensures var bm, tm := RecordMap(base.records), RecordMap(target.records);
      && (id in Added(bm, tm) <==> HasId(target, id) && !HasId(base, id))
      && (id in Removed(bm, tm) <==> HasId(base, id) && !HasId(target, id))
      && (id in Modified(bm, tm) <==> Changed(base, target, id))
  {
    MappedRecords(base, id);
    MappedRecords(target, id);
  }

  lemma RatioIs(n: nat, whole: int)
    requires whole > 0
    ensures BasisPoints(n, whole, Ratio(n, whole))
  {
  }

  lemma IdsListed(base: Catalog, target: Catalog, added: set<string>, removed: set<string>, modified: set<string>, r: Report)
    requires forall id :: id in added <==> HasId(target, id) && !HasId(base, id)
    requires forall id :: id in removed <==> HasId(base, id) && !HasId(target, id)
    requires forall id :: id in modified <==> Changed(base, target, id)
    requires Lists(r.addedIds, added) && Lists(r.removedIds, removed) && Lists(r.modifiedIds, modified)
    ensures IdsAre(base, target, r)
  {
  }

  lemma ReportLists(base: Catalog, target: Catalog)
    ensures var r, bm, tm := ReportOf(base, target), RecordMap(base.records), RecordMap(target.records);
      Lists(r.addedIds, Added(bm, tm)) && Lists(r.removedIds, Removed(bm, tm)) && Lists(r.modifiedIds, Modified(bm, tm))
  {
    var bm, tm := RecordMap(base.records), RecordMap(target.records);
    SortedIdsList(Added(bm, tm));
    SortedIdsList(Removed(bm, tm));
    SortedIdsList(Modified(bm, tm));
  }

  /** The report of two valid catalogs: exactly the ids added, removed and modified, their numbers, and both ratios. */
  lemma ReportIs(base: Catalog, target: Catalog)
    requires Valid(base) && Valid(target)
    ensures IdsAre(base, target, ReportOf(base, target)) && CountsAre(base, target, ReportOf(base, target))
  {
    var bm, tm := RecordMap(base.records), RecordMap(target.records);
    forall id ensures id in Added(bm, tm) <==> HasId(target, id) && !HasId(base, id) { ChangesAre(base, target, id); }
    forall id ensures id in Removed(bm, tm) <==> HasId(base, id) && !HasId(target, id) { ChangesAre(base, target, id); }
    forall id ensures id in Modified(bm, tm) <==> Changed(base, target, id) { ChangesAre(base, target, id); }
    ReportLists(base, target);
    IdsListed(base, target, Added(bm, tm), Removed(bm, tm), Modified(bm, tm), ReportOf(base, target));
    NumbersAre(base, target);
  }

  lemma NumbersAre(base: Catalog, target: Catalog)
    requires Valid(base) && Valid(target)
    ensures CountsAre(base, target, ReportOf(base, target))
  {
    var r := ReportOf(base, target);
    DiffConserves(base, target);
    ReportFacts(base, target);
    ReportLists(base, target);
    ListLengths(base, target);
    RatioIs(r.total, Larger(base.count, target.count));
    RatioIs(r.removed, base.count);
    CountsBy(base, target, r);
  }

  lemma ListLengths(base: Catalog, target: Catalog)
    ensures var r := ReportOf(base, target); r.added == |r.addedIds| && r.removed == |r.removedIds| && r.modified == |r.modifiedIds|
  {
  }

  lemma CountsBy(base: Catalog, target: Catalog, r: Report)
    requires r.added == |r.addedIds| && r.removed == |r.removedIds| && r.modified == |r.modifiedIds| && AddsUp(r)
    requires r.removed + r.modified + r.same == base.count && r.added + r.modified + r.same == target.count
    requires r.base == Reference(base) && r.target == Reference(target)
    requires BasisPoints(r.total, Larger(base.count, target.count), Ratio(r.total, Larger(base.count, target.count)))
    requires BasisPoints(r.removed, base.count, Ratio(r.removed, base.count))
    ensures CountsAre(base, target, r)
  {
  }

  // ---------------------------------------------------------------- what a valid catalog is

  /** A record of the direct list: numbered, named, under a program, and identified by its uid. */
  predicate Sound(r: Record) {
    && UidNumber(r.uid) >= 1 && r.id == "ofac:sdn:" + r.uid && r.sourceId == r.uid
    && !IsBlank(r.name) && |r.programs| >= 1 && r.source == "ofac-sls" && r.list == "SDN"
  }

  /** A catalog is valid exactly if its header is that of the direct list, it counts its records, of which there are
      some, each is sound, no two have one id, their numbers never fall, and the checksum covers it all. */
  lemma ValidExactly(c: Catalog)
    ensures Valid(c) <==>
      && c.schema == "ofac-direct-list-catalog/v1alpha1" && c.catalogId == "ofac-sdn-direct" && c.mode == "direct_list"
      && c.projector == "ofac-direct-list-projector/v0.1.0" && c.manifest.accepted && c.count == |c.records| >= 1
      && (forall r :: r in c.records ==> Sound(r))
      && (forall i, j :: 0 <= i < j < |c.records| ==> c.records[i].id != c.records[j].id)
      && (forall i, j :: 0 <= i < j < |c.records| ==> UidNumber(c.records[i].uid) <= UidNumber(c.records[j].uid))
      && c.checksum == SumOf(c.schema, c.catalogId, c.version, c.mode, c.projector, c.manifest.covered, c.count, c.records)
  {
    RecordsExactly(c.records);
  }

  lemma RecordsExactly(rs: seq<Record>)
    ensures RecordsOk(rs) <==>
      && (forall r :: r in rs ==> Sound(r))
      && (forall i, j :: 0 <= i < j < |rs| ==> rs[i].id != rs[j].id)
      && (forall i, j :: 0 <= i < j < |rs| ==> UidNumber(rs[i].uid) <= UidNumber(rs[j].uid))
  {
    if RecordsOk(rs) {
      forall r | r in rs ensures Sound(r) { var i :| 0 <= i < |rs| && rs[i] == r; assert Fits(rs, i); }
      IdsDistinct(rs);
      forall i, j | 0 <= i < j < |rs| ensures UidNumber(rs[i].uid) <= UidNumber(rs[j].uid) { UidsRise(rs, i, j); }
    }
    if (forall r :: r in rs ==> Sound(r)) && (forall i, j :: 0 <= i < j < |rs| ==> rs[i].id != rs[j].id)
       && (forall i, j :: 0 <= i < j < |rs| ==> UidNumber(rs[i].uid) <= UidNumber(rs[j].uid))
    {
      forall i | 0 <= i < |rs| ensures Fits(rs, i) { assert rs[i] in rs; }
    }
  }
}

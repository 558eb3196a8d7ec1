/** Operations on distinct ids commute, and a built delta restores its target. */
module DeltaRoundTrip {
  import opened Wrappers
  import opened Text
  import opened Ordering
  import opened Catalog
  import opened Maps
  import opened CatalogRefresh
  import opened CatalogDelta

  function Lookup(m: Records, id: string): Option<Record> { if id in m then Some(m[id]) else None }

  predicate DistinctOperations(ops: seq<Operation>) { forall i, j :: 0 <= i < j < |ops| ==> ops[i].id != ops[j].id }

  /** Every operation's id holds what the operation leaves there, and every other id what it held. */
  ghost predicate Patched(m: Records, ops: seq<Operation>, r: Records) {
    && (forall op :: op in ops ==> Lookup(r, op.id) == op.after)
    && (forall id :: (forall op :: op in ops ==> op.id != id) ==> Lookup(r, id) == Lookup(m, id))
  }

  /** An operation looks at its own id only. */
  lemma ApplyOneLocal(m: Records, r: Records, op: Operation)
    requires Lookup(m, op.id) == Lookup(r, op.id)
    ensures ApplyOne(m, op).Ok? == ApplyOne(r, op).Ok?
    ensures ApplyOne(m, op).Ok? ==> Lookup(ApplyOne(m, op).value, op.id) == op.after
    ensures ApplyOne(m, op).Ok? ==> forall id :: id != op.id ==> Lookup(ApplyOne(m, op).value, id) == Lookup(m, id)
  {
  }

  /** Operations on distinct ids succeed together exactly when each succeeds alone. */
  lemma {:induction false} ApplyAllIs(m: Records, ops: seq<Operation>)
    requires DistinctOperations(ops)
    ensures ApplyAll(m, ops).Ok? <==> forall op :: op in ops ==> ApplyOne(m, op).Ok?
    ensures ApplyAll(m, ops).Ok? ==> Patched(m, ops, ApplyAll(m, ops).value)
  {
    if ops != [] {
      var front, last := ops[..|ops| - 1], ops[|ops| - 1];
      assert ops == front + [last];
      ApplyAllIs(m, front);
      LastDistinct(ops);
      if ApplyAll(m, front).Ok? {
        ApplyOneLocal(ApplyAll(m, front).value, m, last);
        if ApplyAll(m, ops).Ok? {
          PatchedNext(m, front, last, ApplyAll(m, front).value, ApplyAll(m, ops).value);
        }
      }
    }
  }

  lemma LastDistinct(ops: seq<Operation>)
    requires ops != [] && DistinctOperations(ops)
    ensures DistinctOperations(ops[..|ops| - 1])
    ensures forall op :: op in ops[..|ops| - 1] ==> op.id != ops[|ops| - 1].id
  {
  }

  lemma PatchedNext(m: Records, front: seq<Operation>, last: Operation, before: Records, r: Records)
    requires Patched(m, front, before) && forall op :: op in front ==> op.id != last.id
    requires Lookup(r, last.id) == last.after && forall id :: id != last.id ==> Lookup(r, id) == Lookup(before, id)
    ensures Patched(m, front + [last], r)
  {
    var ops := front + [last];
    forall op | op in ops ensures Lookup(r, op.id) == op.after {
      assert op in front || op == last;
    }
    forall id | forall op :: op in ops ==> op.id != id ensures Lookup(r, id) == Lookup(m, id) {
      assert last in ops;
      forall op | op in front ensures op.id != id { assert op in ops; }
    }
  }

  lemma PatchedOnce(m: Records, ops: seq<Operation>, more: seq<Operation>, r: Records, s: Records)
    requires Patched(m, ops, r) && Patched(m, more, s) && forall op :: op in ops <==> op in more
    ensures r == s
  {
    forall id ensures Lookup(r, id) == Lookup(s, id) {
      if op :| op in ops && op.id == id {
        assert op in more;
      } else {
        assert forall op :: op in more ==> op.id != id;
      }
    }
    SameLookups(r, s);
  }

  lemma SameLookups(r: Records, s: Records)
    requires forall id :: Lookup(r, id) == Lookup(s, id)
    ensures r == s
  {
    assert forall id :: id in r <==> Lookup(r, id).Some?;
    assert forall id :: id in s <==> Lookup(s, id).Some?;
    forall id | id in r ensures id in s && r[id] == s[id] {
      assert Lookup(r, id) == Lookup(s, id);
    }
    forall id | id in s ensures id in r {
      assert Lookup(r, id) == Lookup(s, id);
    }
    assert r.Keys == s.Keys;
  }

  /** Operations on distinct ids may be applied in any order. */
  lemma OrderFree(m: Records, ops: seq<Operation>, more: seq<Operation>)
    requires DistinctOperations(ops) && DistinctOperations(more) && multiset(ops) == multiset(more)
    ensures ApplyAll(m, ops).Ok? == ApplyAll(m, more).Ok?
    ensures ApplyAll(m, ops).Ok? ==> ApplyAll(m, ops) == ApplyAll(m, more)
  {
    MembersSame(ops, more);
    ApplyAllIs(m, ops);
    ApplyAllIs(m, more);
    if ApplyAll(m, ops).Ok? {
      PatchedOnce(m, ops, more, ApplyAll(m, ops).value, ApplyAll(m, more).value);
    }
  }

  // ---------------------------------------------------------------- the round trip

  lemma BuiltDistinct(bm: Records, tm: Records)
    ensures DistinctOperations(BuiltOperations(bm, tm))
  {
    var ids := SortedIds(Changed(bm, tm));
    ListedKnown(bm, tm, ids, Changed(bm, tm));
    NoRepeats(ids, Changed(bm, tm));
  }

  lemma BuiltMembers(bm: Records, tm: Records)
    ensures forall op :: op in BuiltOperations(bm, tm) ==> op.id in Changed(bm, tm) && op == OperationFor(bm, tm, op.id)
  {
    var ids, ops := SortedIds(Changed(bm, tm)), BuiltOperations(bm, tm);
    ListedKnown(bm, tm, ids, Changed(bm, tm));
    forall op | op in ops ensures op.id in Changed(bm, tm) && op == OperationFor(bm, tm, op.id) {
      var i :| 0 <= i < |ops| && ops[i] == op;
      assert op == OperationFor(bm, tm, ids[i]);
    }
  }

  lemma BuiltCovers(bm: Records, tm: Records, id: string)
    requires id in Changed(bm, tm)
    ensures OperationFor(bm, tm, id) in BuiltOperations(bm, tm)
  {
    var ids := SortedIds(Changed(bm, tm));
    ListedKnown(bm, tm, ids, Changed(bm, tm));
    assert id in multiset(ids);
    var i :| 0 <= i < |ids| && ids[i] == id;
    assert OperationsFor(bm, tm, ids)[i] == OperationFor(bm, tm, id);
  }

  lemma ChangedIff(bm: Records, tm: Records, id: string)
    ensures id in Changed(bm, tm) <==> Lookup(bm, id) != Lookup(tm, id)
  {
  }

  lemma OperationFits(bm: Records, tm: Records, id: string)
    requires id in Changed(bm, tm) && (id in tm ==> tm[id].id == id)
    ensures ApplyOne(bm, OperationFor(bm, tm, id)).Ok?
    ensures OperationFor(bm, tm, id).after == Lookup(tm, id)
  {
  }

  lemma {:induction false} NoRepeats(ids: seq<string>, s: set<string>)
    requires multiset(ids) == multiset(s)
    ensures forall i, j :: 0 <= i < j < |ids| ==> ids[i] != ids[j]
  {
    forall i, j | 0 <= i < j < |ids| ensures ids[i] != ids[j] {
      WithoutAt(ids, j);
      assert (ids[..j] + ids[j + 1..])[i] == ids[i];
      assert ids[i] in multiset(ids[..j] + ids[j + 1..]);
      assert multiset(s)[ids[j]] <= 1;
    }
  }

  /** The built operations turn the base's records into the target's. */
  lemma BuiltPatches(bm: Records, tm: Records)
    requires forall id :: id in tm ==> tm[id].id == id
    ensures ApplyAll(bm, BuiltOperations(bm, tm)) == Ok(tm)
  {
    var ops := BuiltOperations(bm, tm);
    BuiltDistinct(bm, tm);
    BuiltMembers(bm, tm);
    ApplyAllIs(bm, ops);
    forall op | op in ops ensures ApplyOne(bm, op).Ok? {
      OperationFits(bm, tm, op.id);
    }
    var r := ApplyAll(bm, ops).value;
    forall id ensures Lookup(r, id) == Lookup(tm, id) { BuiltLookup(bm, tm, r, id); }
    SameLookups(r, tm);
  }

  lemma BuiltLookup(bm: Records, tm: Records, r: Records, id: string)
    requires (id in tm ==> tm[id].id == id) && Patched(bm, BuiltOperations(bm, tm), r)
    ensures Lookup(r, id) == Lookup(tm, id)
  {
    var ops := BuiltOperations(bm, tm);
    BuiltMembers(bm, tm);
    ChangedIff(bm, tm, id);
    if id in Changed(bm, tm) {
      BuiltCovers(bm, tm, id);
      OperationFits(bm, tm, id);
    } else {
      assert forall op :: op in ops ==> op.id != id;
    }
  }

  /** The records' uid numbers rise strictly: no two spellings of one number, none out of 64 bits. */
  predicate StrictUids(rs: seq<Record>) { forall i :: 0 < i < |rs| ==> RisesAt(rs, i) }

  predicate RisesAt(rs: seq<Record>, i: nat)
    requires 0 < i < |rs|
  {
    UidNumber(rs[i - 1].uid) < UidNumber(rs[i].uid)
  }

  lemma {:induction false} StrictBetween(rs: seq<Record>, i: nat, j: nat)
    requires StrictUids(rs) && i < j < |rs|
    ensures UidNumber(rs[i].uid) < UidNumber(rs[j].uid)
    decreases j
  {
    assert RisesAt(rs, j);
    if i < j - 1 { StrictBetween(rs, i, j - 1); }
  }

  lemma OneArrangement(target: Catalog, rs: seq<Record>)
    requires Valid(target) && StrictUids(target.records) && Arranged(rs, RecordMap(target.records))
    ensures rs == target.records
  {
    var all := target.records;
    ValidRecordMap(target);
    forall x, y | x in all && y in all && x != y ensures UidLess(x, y) || UidLess(y, x) {
      var i :| 0 <= i < |all| && all[i] == x;
      var j :| 0 <= j < |all| && all[j] == y;
      if i < j { StrictBetween(all, i, j); } else { StrictBetween(all, j, i); }
    }
    forall i, j | 0 <= i < j < |all| ensures !UidLess(all[j], all[i]) { UidsRise(all, i, j); }
    UidOrder();
    SortedUnique(UidLess, all, rs);
  }

  lemma UidsSwapped(all: seq<Record>, rs: seq<Record>)
    requires RecordsOk(all) && |rs| == |all| && forall j :: 0 <= j < |rs| ==> UidNumber(rs[j].uid) == UidNumber(all[j].uid)
    ensures SortedBy(UidLess, rs)
  {
    forall j, k | 0 <= j < k < |rs| ensures !UidLess(rs[k], rs[j]) { UidsRise(all, j, k); }
  }

  /** Two neighbours with one uid number can come out the other way round. */
  lemma OtherArrangement(target: Catalog, i: nat) returns (rs: seq<Record>)
    requires Valid(target) && 0 < i < |target.records|
    requires UidNumber(target.records[i - 1].uid) == UidNumber(target.records[i].uid)
    ensures Arranged(rs, RecordMap(target.records)) && rs != target.records
  {
    var all := target.records;
    ValidRecordMap(target);
    IdsDistinct(all);
    rs := all[i - 1 := all[i]][i := all[i - 1]];
    assert rs[i] != all[i];
    UidsSwapped(all, rs);
  }

  /** Whatever the delta and the order of the records, Apply gives the very catalog the delta names, or an error. */
  lemma NoWrongTarget(base: Catalog, d: Delta, expected: nat, rs: seq<Record>, target: Catalog)
    requires Valid(target) && Reference(target) == d.target && target.manifest == d.manifest
    requires ApplyResult(base, d, expected, rs).Ok?
    ensures ApplyResult(base, d, expected, rs) == Ok(target)
  {
  }

  lemma BuiltFacts(base: Catalog, target: Catalog, sequence: nat, at: Time)
    requires BuildResult(base, target, sequence, at).Ok?
    ensures var d := BuildResult(base, target, sequence, at).value;
      && Valid(base) && Valid(target) && DeltaOk(d) && d.sequence == sequence && d.base == Reference(base) && d.target == Reference(target)
      && d.manifest == target.manifest && d.operations == BuiltOperations(RecordMap(base.records), RecordMap(target.records))
  {
  }

  /** Applying a built delta: the target when its records come out in the target's order, a refusal otherwise. */
  lemma AppliedBuilt(base: Catalog, target: Catalog, sequence: nat, at: Time, rs: seq<Record>)
    requires BuildResult(base, target, sequence, at).Ok?
    ensures ApplyResult(base, BuildResult(base, target, sequence, at).value, sequence, rs)
         == if rs == target.records then Ok(target) else Err(IdentityMismatch)
    ensures IsOutput(base, BuildResult(base, target, sequence, at).value, rs) <==> Arranged(rs, RecordMap(target.records))
  {
    var d := BuildResult(base, target, sequence, at).value;
    BuiltFacts(base, target, sequence, at);
    ValidRecordMap(target);
    BuiltPatches(RecordMap(base.records), RecordMap(target.records));
    RebuiltIs(base, target, d, rs);
  }

  lemma RebuiltIs(base: Catalog, target: Catalog, d: Delta, rs: seq<Record>)
    requires Valid(base) && Valid(target) && d.target == Reference(target) && d.manifest == target.manifest
    ensures rs == target.records ==> Rebuilt(base, d, rs) == target
    ensures rs != target.records ==> Rebuilt(base, d, rs).checksum != d.target.checksum
  {
  }

  /** The round trip. Once a delta is built, applying it gives back the target in every order that the map
      and the unstable sort may produce, exactly when the target's uid numbers rise strictly; in the
      other case some order makes Apply refuse, and none makes it return another catalog. */
  lemma RoundTrip(base: Catalog, target: Catalog, sequence: nat, at: Time)
    requires BuildResult(base, target, sequence, at).Ok?
    ensures var d := BuildResult(base, target, sequence, at).value;
      (forall rs :: IsOutput(base, d, rs) ==> ApplyResult(base, d, sequence, rs) == Ok(target)) <==> StrictUids(target.records)
  {
    if StrictUids(target.records) {
      StrictRoundTrip(base, target, sequence, at);
    } else {
      var rs := TiedRoundTrip(base, target, sequence, at);
    }
  }

  lemma StrictRoundTrip(base: Catalog, target: Catalog, sequence: nat, at: Time)
    requires BuildResult(base, target, sequence, at).Ok? && StrictUids(target.records)
    ensures var d := BuildResult(base, target, sequence, at).value;
      forall rs :: IsOutput(base, d, rs) ==> ApplyResult(base, d, sequence, rs) == Ok(target)
  {
    var d := BuildResult(base, target, sequence, at).value;
    BuiltFacts(base, target, sequence, at);
    forall rs | IsOutput(base, d, rs) ensures ApplyResult(base, d, sequence, rs) == Ok(target) {
      AppliedBuilt(base, target, sequence, at, rs);
      OneArrangement(target, rs);
    }
  }

  lemma TiedNeighbours(rs: seq<Record>) returns (i: nat)
    requires RecordsOk(rs) && !StrictUids(rs)
    ensures 0 < i < |rs| && UidNumber(rs[i - 1].uid) == UidNumber(rs[i].uid)
  {
    i :| 0 < i < |rs| && !RisesAt(rs, i);
    UidsRise(rs, i - 1, i);
  }

  lemma TiedRoundTrip(base: Catalog, target: Catalog, sequence: nat, at: Time) returns (rs: seq<Record>)
    requires BuildResult(base, target, sequence, at).Ok? && !StrictUids(target.records)
    ensures IsOutput(base, BuildResult(base, target, sequence, at).value, rs)
    ensures ApplyResult(base, BuildResult(base, target, sequence, at).value, sequence, rs) == Err(IdentityMismatch)
  {
    BuiltFacts(base, target, sequence, at);
    var i := TiedNeighbours(target.records);
    rs := OtherArrangement(target, i);
    AppliedBuilt(base, target, sequence, at, rs);
  }

  /** A delta can be built exactly for valid catalogs within the diff's bound, a real sequence number and
      time, and an identified target manifest; its operations never stand in the way. */
  lemma BuildExact(base: Catalog, target: Catalog, sequence: nat, at: Time)
    ensures BuildResult(base, target, sequence, at).Ok? <==>
      && Valid(base) && Valid(target)
      && 10000 * ReportOf(base, target).total < 10001 * Larger(base.count, target.count)
      && sequence != 0 && at != 0 && target.manifest.id != ""
  {
    if Valid(base) && Valid(target) {
      DiffAccepted(base, target);
      BuiltWellFormed(base, target);
      Summed(base);
      Summed(target);
      AssembledOk(base, target, sequence, at, BuiltOperations(RecordMap(base.records), RecordMap(target.records)));
    }
  }

  /** So every valid catalog with an identified manifest has a delta to itself. */
  lemma SelfDelta(c: Catalog, sequence: nat, at: Time)
    requires Valid(c) && c.manifest.id != "" && sequence != 0 && at != 0
    ensures BuildResult(c, c, sequence, at).Ok?
  {
    var m := RecordMap(c.records);
    assert Added(m, m) == {} && Modified(m, m) == {} && Removed(m, m) == {};
    BuildExact(c, c, sequence, at);
  }

  lemma AssembledOk(base: Catalog, target: Catalog, sequence: nat, at: Time, ops: seq<Operation>)
    requires Valid(target) && Reference(base).checksum.SumOf? && Reference(target).checksum.SumOf? && OperationsOk(ops)
    ensures DeltaOk(Assembled(base, target, sequence, at, ops)) <==> sequence != 0 && at != 0 && target.manifest.id != ""
  {
  }

  lemma IdsNotEmpty(c: Catalog)
    requires Valid(c)
    ensures forall id :: id in RecordMap(c.records) ==> id != ""
  {
    KeysOfByKey(IdOf, c.records);
    forall id | id in RecordMap(c.records) ensures id != "" {
      var i :| 0 <= i < |c.records| && IdOf(c.records[i]) == id;
      assert Fits(c.records, i);
    }
  }

  lemma BuiltWellFormed(base: Catalog, target: Catalog)
    requires Valid(base) && Valid(target)
    ensures OperationsOk(BuiltOperations(RecordMap(base.records), RecordMap(target.records)))
  {
    var bm, tm := RecordMap(base.records), RecordMap(target.records);
    var ids, ops := SortedIds(Changed(bm, tm)), BuiltOperations(bm, tm);
    ListedKnown(bm, tm, ids, Changed(bm, tm));
    NoRepeats(ids, Changed(bm, tm));
    IdsNotEmpty(base);
    IdsNotEmpty(target);
    StringOrder();
    SortSorted(StringLess, Listing(Changed(bm, tm)));
    forall i | 0 <= i < |ops| ensures Placed(ops, i) {
      assert ops[i] == OperationFor(bm, tm, ids[i]);
      if i > 0 { StringLessConnected(ids[i - 1], ids[i]); }
    }
  }

  // ---------------------------------------------------------------- a catalog with a tie

  function Listed(uid: string): Record { Record(ID_PREFIX + uid, uid, "NAME", ["SDN"], "ofac-sls", "SDN", uid, "") }

  function CatalogOf(records: seq<Record>): Catalog {
    var c := Catalog(SCHEMA, CATALOG_ID, "1", NoSum, DIRECT_LIST, PROJECTOR, Manifest("m", "", "", true), |records|, records);
    c.(checksum := Sum(c))
  }

  /** Two records whose uids are different texts of one number. */
  const TIED := CatalogOf([Listed("1"), Listed("01")])

  lemma OneNumber()
    ensures UidNumber("1") == 1 && UidNumber("01") == 1
  {
    assert Digits("1") && Digits("01");
    assert "1"[..0] == "" && "01"[..1] == "0" && "0"[..0] == "";
    assert Decimal("1") == 1 && Decimal("0") == 0 && Decimal("01") == 1;
  }

  lemma TiedIsValid()
    ensures Valid(TIED) && !StrictUids(TIED.records)
  {
    OneNumber();
    Visible("NAME");
    var rs := TIED.records;
    assert Listed("1").id != Listed("01").id by { assert Listed("1").id[|ID_PREFIX|] != Listed("01").id[|ID_PREFIX|]; }
    assert Fits(rs, 0) && Fits(rs, 1) && !RisesAt(rs, 1);
  }

  /** A valid catalog whose delta to itself some order of its own records makes Apply refuse. */
  lemma TiedHappens() returns (d: Delta, rs: seq<Record>)
    ensures Valid(TIED) && BuildResult(TIED, TIED, 1, 1) == Ok(d)
    ensures IsOutput(TIED, d, rs) && ApplyResult(TIED, d, 1, rs) == Err(IdentityMismatch)
  {
    TiedIsValid();
    SelfDelta(TIED, 1, 1);
    d := BuildResult(TIED, TIED, 1, 1).value;
    rs := TiedRoundTrip(TIED, TIED, 1, 1);
  }

  /** Two valid catalogs whose honest report is refused. */
  lemma DisjointHappens()
    ensures var a, b := CatalogOf([Listed("1")]), CatalogOf([Listed("2")]);
      Valid(a) && Valid(b) && DiffResult(a, b) == Err(InvalidDiff)
  {
    var a, b := CatalogOf([Listed("1")]), CatalogOf([Listed("2")]);
    OneValid('1');
    OneValid('2');
    KeysOfByKey(IdOf, a.records);
    KeysOfByKey(IdOf, b.records);
    assert Listed("1").id[|ID_PREFIX|] != Listed("2").id[|ID_PREFIX|];
    DisjointRefused(a, b);
  }

  lemma OneValid(digit: char)
    requires '1' <= digit <= '9'
    ensures Valid(CatalogOf([Listed([digit])]))
  {
    assert Digits([digit]) && [digit][..0] == "";
    assert Decimal([digit]) == digit as int - '0' as int;
    Visible("NAME");
    assert Fits([Listed([digit])], 0);
  }
}

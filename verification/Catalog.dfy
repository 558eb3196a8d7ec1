/** The direct-list catalog of internal/ofaccatalog: records in the order of their source uids, under a checksum. */
module Catalog {
  import opened Text

  const SCHEMA := "ofac-direct-list-catalog/v1alpha1"
  const CATALOG_ID := "ofac-sdn-direct"
  const DIRECT_LIST := "direct_list"
  const PROJECTOR := "ofac-direct-list-projector/v0.1.0"
  const ID_PREFIX := "ofac:sdn:"

  /** `rest` stands for the fields no check looks at. */
  datatype Record = Record(id: string, uid: string, name: string, programs: seq<string>, source: string, list: string, sourceId: string, rest: string)

  /** `covered` stands for the four fields under the catalog checksum; `accepted` is the verdict of the manifest's own checks. */
  datatype Manifest = Manifest(id: string, covered: string, other: string, accepted: bool)

  /** SHA-256 as an injective function: the sum of a catalog is what it covers. */
  datatype Checksum = NoSum | SumOf(schema: string, catalogId: string, version: string, mode: string, projector: string, covered: string, count: int, records: seq<Record>)

  datatype Catalog = Catalog(
    schema: string,
    catalogId: string,
    version: string,
    checksum: Checksum,
    mode: string,
    projector: string,
    manifest: Manifest,
    count: int,
    records: seq<Record>)

  function Sum(c: Catalog): Checksum {
    SumOf(c.schema, c.catalogId, c.version, c.mode, c.projector, c.manifest.covered, c.count, c.records)
  }

  // ---------------------------------------------------------------- uid numbers

  const MAX_INT := 0x7fff_ffff_ffff_ffff

  predicate Digits(s: string) { s != "" && forall i :: 0 <= i < |s| ==> '0' <= s[i] <= '9' }

  function Decimal(s: string): nat
    requires forall i :: 0 <= i < |s| ==> '0' <= s[i] <= '9'
  {
    if s == "" then 0 else Decimal(s[..|s| - 1]) * 10 + (s[|s| - 1] as int - '0' as int)
  }

  /** strconv.Atoi without its error: 0 for text that is no number, the nearest 64-bit number for one out of range. */
  function UidNumber(s: string): int {
    var signed := s != "" && s[0] in {'+', '-'};
    var digits := if signed then s[1..] else s;
    if !Digits(digits) then 0
    else if s[0] == '-' then (if Decimal(digits) > MAX_INT + 1 then -MAX_INT - 1 else 0 - Decimal(digits))
    else if Decimal(digits) > MAX_INT then MAX_INT
    else Decimal(digits)
  }

  // ---------------------------------------------------------------- validity

  predicate HeaderOk(c: Catalog) {
    && c.schema == SCHEMA && c.catalogId == CATALOG_ID && c.mode == DIRECT_LIST && c.projector == PROJECTOR
    && c.manifest.accepted && c.count >= 1 && c.count == |c.records|
  }

  predicate RecordOk(r: Record) {
    && UidNumber(r.uid) > 0 && r.id == ID_PREFIX + r.uid && !IsBlank(r.name) && r.programs != []
    && r.source == "ofac-sls" && r.list == "SDN" && r.sourceId == r.uid
  }

  function Ids(rs: seq<Record>, n: nat): set<string>
    requires n <= |rs|
  {
    set k | 0 <= k < n :: rs[k].id
  }

  /** Record i is sound, its uid number is not below its predecessor's, and no earlier record has its id. */
  predicate Fits(rs: seq<Record>, i: nat)
    requires i < |rs|
  {
    && RecordOk(rs[i]) && rs[i].id !in Ids(rs, i)
    && (i > 0 ==> UidNumber(rs[i - 1].uid) <= UidNumber(rs[i].uid))
  }

  predicate RecordsOk(rs: seq<Record>) { forall i :: 0 <= i < |rs| ==> Fits(rs, i) }

  /** What the validator accepts. */
  predicate Valid(c: Catalog) { HeaderOk(c) && RecordsOk(c.records) && c.checksum == Sum(c) }

  method ValidateCatalog(c: Catalog) returns (ok: bool)
    ensures ok <==> Valid(c)
  {
    if !HeaderOk(c) { return false; }
    var rs := c.records;
    var seen: set<string> := {};
    var last := 0;
    for i := 0 to |rs|
      invariant last == if i == 0 then 0 else UidNumber(rs[i - 1].uid)
      invariant forall k :: 0 <= k < i ==> Fits(rs, k)
      invariant seen == Ids(rs, i)
    {
      if UidNumber(rs[i].uid) < last || !RecordOk(rs[i]) || rs[i].id in seen {
        assert !Fits(rs, i);
        return false;
      }
      last := UidNumber(rs[i].uid);
      seen := seen + {rs[i].id};
    }
    return c.checksum == Sum(c);
  }

  lemma {:induction false} UidsRise(rs: seq<Record>, i: nat, j: nat)
    requires RecordsOk(rs) && i <= j < |rs|
    ensures UidNumber(rs[i].uid) <= UidNumber(rs[j].uid)
    decreases j
  {
    assert Fits(rs, j);
    if i < j { UidsRise(rs, i, j - 1); }
  }

  /** Accepted records have distinct ids. */
  lemma IdsDistinct(rs: seq<Record>)
    requires RecordsOk(rs)
    ensures forall i, j :: 0 <= i < j < |rs| ==> rs[i].id != rs[j].id
  {
    forall i, j | 0 <= i < j < |rs| ensures rs[i].id != rs[j].id {
      assert Fits(rs, j);
      assert rs[i].id in Ids(rs, j);
    }
  }
}

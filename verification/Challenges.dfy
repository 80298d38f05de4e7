/** The challenge table of `ctf_archive`: how the administrator's port map gets into
    two parallel SQL arrays and out again. */
module Challenges {
  import opened Basics
  import opened Wire

  /** The length of the name and image columns, in characters. */
  const MAX_TEXT := 63

  // ------------------------------------------------------------- casts

  /** `n as i16` for a `u16`. */
  function AsI16(n: u16): i16 {
    if n < 0x8000 then n else n - 0x1_0000
  }

  /** `n as u16` for an `i16`. */
  function AsU16(n: i16): u16 {
    if n >= 0 then n else n + 0x1_0000
  }

  /** Both casts keep the sixteen bits: the number modulo 65536. */
  lemma CastsInvert(n: u16, m: i16)
    ensures AsU16(AsI16(n)) == n && AsI16(AsU16(m)) == m
    ensures (AsI16(n) - n) % 65536 == 0 && (AsU16(m) - m) % 65536 == 0
  {
  }

  // ------------------------------------------------------------- the row

  /** The columns that matter here; array elements are nullable in the schema. */
  datatype Row = Row(
    name: string,
    category: int,
    dockerImage: Option<string>,
    portNumbers: seq<Option<i16>>,
    portTypes: seq<Option<PortType>>)

  function Present<T>(s: seq<T>): (r: seq<Option<T>>)
    ensures |r| == |s| && forall i :: 0 <= i < |s| ==> r[i] == Some(s[i])
  {
    seq(|s|, i requires 0 <= i < |s| => Some(s[i]))
  }

  function Flatten<T>(s: seq<Option<T>>): seq<T> {
    if s == [] then [] else (if s[0].Some? then [s[0].value] else []) + Flatten(s[1..])
  }

  /** `zip` of two lists, then each number on both sides of the mapping. */
  function ZipMappings(ns: seq<i16>, ts: seq<PortType>): (ms: seq<PortMapping>)
    ensures |ms| == if |ns| <= |ts| then |ns| else |ts|
  {
    if ns == [] || ts == [] then
      []
    else
      [PortMapping(AsU16(ns[0]), AsU16(ns[0]), ts[0])] + ZipMappings(ns[1..], ts[1..])
  }

  datatype Unpacked = AssertionFailed | Mappings(ms: seq<PortMapping>)

  /** How many elements `iter().map(Option::is_some)` yields: all of them, since
      mapping drops nothing. */
  function MappedCount<T>(s: seq<Option<T>>): nat {
    |seq(|s|, i requires 0 <= i < |s| => s[i].Some?)|
  }

  /** The port pipeline shared by `start` and `host_demo`. */
  function Unpack(row: Row): Unpacked {
    if |row.portNumbers| != |row.portTypes| then
      AssertionFailed
    else if MappedCount(row.portNumbers) != MappedCount(row.portTypes) then
      AssertionFailed
    else
      Mappings(ZipMappings(Flatten(row.portNumbers), Flatten(row.portTypes)))
  }

  /** Reading the two arrays index by index. */
  function Pairwise(ns: seq<Option<i16>>, ts: seq<Option<PortType>>): seq<PortMapping>
    requires |ns| == |ts|
  {
    if ns == [] then
      []
    else
      (if ns[0].Some? && ts[0].Some? then [PortMapping(AsU16(ns[0].value), AsU16(ns[0].value), ts[0].value)] else [])
      + Pairwise(ns[1..], ts[1..])
  }

  predicate NullsAligned(ns: seq<Option<i16>>, ts: seq<Option<PortType>>) {
    |ns| == |ts| && forall i :: 0 <= i < |ns| ==> (ns[i].Some? <==> ts[i].Some?)
  }

  lemma {:induction false} PairwiseShorter(ns: seq<Option<i16>>, ts: seq<Option<PortType>>)
    requires |ns| == |ts|
    ensures |Pairwise(ns, ts)| <= |Flatten(ns)| && |Pairwise(ns, ts)| <= |Flatten(ts)|
  {
    if ns != [] {
      PairwiseShorter(ns[1..], ts[1..]);
    }
  }

  lemma AlignedSplit(ns: seq<Option<i16>>, ts: seq<Option<PortType>>)
    requires |ns| == |ts| > 0
    ensures NullsAligned(ns, ts) <==> (ns[0].Some? <==> ts[0].Some?) && NullsAligned(ns[1..], ts[1..])
  {
    if NullsAligned(ns[1..], ts[1..]) && (ns[0].Some? <==> ts[0].Some?) {
      forall i | 0 <= i < |ns|
        ensures ns[i].Some? <==> ts[i].Some?
      {
        if i > 0 {
          assert ns[1..][i - 1] == ns[i] && ts[1..][i - 1] == ts[i];
        }
      }
    }
  }

  /** Nothing is lost and every element keeps its own partner exactly when the nulls
      of the two arrays sit at the same indexes. */
  lemma {:induction false} NothingLost(ns: seq<Option<i16>>, ts: seq<Option<PortType>>)
    requires |ns| == |ts|
    ensures |Flatten(ns)| == |Pairwise(ns, ts)| == |Flatten(ts)| <==> NullsAligned(ns, ts)
  {
    if ns != [] {
      NothingLost(ns[1..], ts[1..]);
      PairwiseShorter(ns[1..], ts[1..]);
      AlignedSplit(ns, ts);
    }
  }

  /** And then flattening the arrays separately pairs them as reading index by index
      does. */
  lemma {:induction false} FlattenThenZip(ns: seq<Option<i16>>, ts: seq<Option<PortType>>)
    requires NullsAligned(ns, ts)
    ensures ZipMappings(Flatten(ns), Flatten(ts)) == Pairwise(ns, ts)
  {
    if ns != [] {
      FlattenThenZip(ns[1..], ts[1..]);
      if ns[0].Some? {
        assert Flatten(ns) == [ns[0].value] + Flatten(ns[1..]);
        assert Flatten(ts) == [ts[0].value] + Flatten(ts[1..]);
        assert Flatten(ns)[1..] == Flatten(ns[1..]) && Flatten(ts)[1..] == Flatten(ts[1..]);
      } else {
        assert Flatten(ns) == Flatten(ns[1..]) && Flatten(ts) == Flatten(ts[1..]);
      }
    }
  }

  /** The assertions reject a row exactly for arrays of different lengths: nulls are
      counted like any other element. */
  lemma AssertionFailsExactly(row: Row)
    ensures Unpack(row) == AssertionFailed <==> |row.portNumbers| != |row.portTypes|
  {
  }

  /** The second assertion compares lengths again, so misplaced nulls pass both and
      pair port 2's number with port 1's protocol. */
  lemma MisplacedNullsPairWrongly()
    ensures var row := Row("", 0, None, [None, Some(2)], [Some(Tcp), None]);
            Unpack(row) == Mappings([PortMapping(2, 2, Tcp)]) && Pairwise(row.portNumbers, row.portTypes) == []
  {
  }

  lemma {:induction false} FlattenAll<T>(s: seq<Option<T>>)
    requires forall i :: 0 <= i < |s| ==> s[i].Some?
    ensures |Flatten(s)| == |s|
    ensures forall i :: 0 <= i < |s| ==> Flatten(s)[i] == s[i].value
  {
    if s != [] {
      FlattenAll(s[1..]);
    }
  }

  lemma {:induction false} ZipAt(ns: seq<i16>, ts: seq<PortType>, i: nat)
    requires i < |ns| == |ts|
    ensures ZipMappings(ns, ts)[i] == PortMapping(AsU16(ns[i]), AsU16(ns[i]), ts[i])
  {
    if i > 0 {
      ZipAt(ns[1..], ts[1..], i - 1);
    }
  }

  // ------------------------------------------------------------- packing

  type ExposedPorts = map<u16, PortType>

  /** The arrays list every exposed port exactly once, in some order. */
  ghost predicate Packs(ports: ExposedPorts, ns: seq<i16>, ts: seq<PortType>) {
    && |ns| == |ts| == |ports|
    && (forall i :: 0 <= i < |ns| ==> AsU16(ns[i]) in ports && ports[AsU16(ns[i])] == ts[i])
    && (forall i, j :: 0 <= i < j < |ns| ==> ns[i] != ns[j])
    && (forall p :: p in ports ==> AsI16(p) in ns)
  }

  /** The arrays list every exposed port outside `todo` exactly once. */
  ghost predicate PacksAllBut(ports: ExposedPorts, todo: set<u16>, ns: seq<i16>, ts: seq<PortType>) {
    && todo <= ports.Keys
    && |ns| == |ts| && |ns| + |todo| == |ports|
    && (forall i :: 0 <= i < |ns| ==>
          AsU16(ns[i]) in ports && AsU16(ns[i]) !in todo && ports[AsU16(ns[i])] == ts[i])
    && (forall i, j :: 0 <= i < j < |ns| ==> ns[i] != ns[j])
    && (forall p :: p in ports ==> p in todo || AsI16(p) in ns)
  }

  lemma PackOne(ports: ExposedPorts, todo: set<u16>, ns: seq<i16>, ts: seq<PortType>, p: u16)
    requires PacksAllBut(ports, todo, ns, ts) && p in todo
    ensures PacksAllBut(ports, todo - {p}, ns + [AsI16(p)], ts + [ports[p]])
  {
    var ns' := ns + [AsI16(p)];
    CastsInvert(p, 0);
    forall q | q in ports
      ensures q in todo - {p} || AsI16(q) in ns'
    {
      if q == p {
        assert ns'[|ns|] == AsI16(p);
      }
    }
  }

  /** The loop of `configure_docker`; the hash map yields its keys in any order. */
  method PackPorts(ports: ExposedPorts) returns (ns: seq<i16>, ts: seq<PortType>)
    ensures Packs(ports, ns, ts)
  {
    ns, ts := [], [];
    var todo := ports.Keys;
    while todo != {}
      invariant PacksAllBut(ports, todo, ns, ts)
      decreases todo
    {
      var p :| p in todo;
      PackOne(ports, todo, ns, ts, p);
      ns := ns + [AsI16(p)];
      ts := ts + [ports[p]];
      todo := todo - {p};
    }
  }

  // ------------------------------------------------------------- SQL checks

  /** PostgreSQL's `array_length`: NULL for a dimension the array does not have;
      dimensions count from 1. */
  function ArrayLength<T>(a: seq<T>, dim: int): Option<int> {
    if dim == 1 && |a| > 0 then Some(|a|) else None
  }

  function SqlLess(x: Option<int>, y: int): Option<bool> {
    if x.Some? then Some(x.value < y) else None
  }

  function SqlEqual(x: Option<int>, y: Option<int>): Option<bool> {
    if x.Some? && y.Some? then Some(x.value == y.value) else None
  }

  /** What a `VARCHAR(63)` column keeps of a text: a NUL is refused, excess trailing
      spaces are cut off, any other excess is refused. */
  function Stored(text: string): (r: Option<string>)
    ensures r.Some? <==> '\0' !in text && forall i :: 63 <= i < |text| ==> text[i] == ' '
    ensures r.Some? ==> r.value == if |text| <= 63 then text else text[..63]
  {
    if '\0' in text then
      None
    else if |text| <= MAX_TEXT then
      Some(text)
    else if forall i :: MAX_TEXT <= i < |text| ==> text[i] == ' ' then
      Some(text[..MAX_TEXT])
    else
      None
  }

  /** A CHECK constraint rejects only on false; NULL passes. */
  predicate CheckPasses(b: Option<bool>) {
    b != Some(false)
  }

  predicate TableChecks(row: Row) {
    && CheckPasses(SqlLess(ArrayLength(row.portNumbers, 0), 10))
    && CheckPasses(SqlEqual(ArrayLength(row.portTypes, 0), ArrayLength(row.portNumbers, 0)))
  }

  // ------------------------------------------------------------- the table

  datatype Status = Created | Success | Forbidden | BadRequest | Conflict | NotFound | InternalServerError

  /** No nulls, equal lengths, no number twice. */
  ghost predicate NullFree(row: Row) {
    && |row.portNumbers| == |row.portTypes|
    && (forall i :: 0 <= i < |row.portNumbers| ==> row.portNumbers[i].Some? && row.portTypes[i].Some?)
    && (forall i, j :: 0 <= i < j < |row.portNumbers| ==> row.portNumbers[i] != row.portNumbers[j])
  }

  /** The row's arrays list exactly the exposed ports, each once, in some order. */
  ghost predicate PackedFrom(row: Row, ports: ExposedPorts) {
    && NullFree(row)
    && |row.portNumbers| == |ports|
    && (forall i :: 0 <= i < |row.portNumbers| ==>
          var p := AsU16(row.portNumbers[i].value); p in ports && ports[p] == row.portTypes[i].value)
    && (forall p :: p in ports ==> Some(AsI16(p)) in row.portNumbers)
  }

  predicate ImageFits(row: Row) {
    row.dockerImage.Some? ==> |row.dockerImage.value| <= MAX_TEXT
  }

  /** What every row written by `create` or `configure_docker` satisfies. */
  ghost predicate WellPacked(row: Row) {
    NullFree(row) && ImageFits(row)
  }

  lemma PackedCovers(ports: ExposedPorts, ns: seq<i16>, ts: seq<PortType>, p: u16)
    requires Packs(ports, ns, ts) && p in ports
    ensures Some(AsI16(p)) in Present(ns)
  {
    assert AsI16(p) in ns;
    var i :| 0 <= i < |ns| && ns[i] == AsI16(p);
    assert Present(ns)[i] == Some(AsI16(p));
  }

  lemma PackedRow(row: Row, ports: ExposedPorts, ns: seq<i16>, ts: seq<PortType>)
    requires Packs(ports, ns, ts) && row.portNumbers == Present(ns) && row.portTypes == Present(ts)
    ensures PackedFrom(row, ports)
  {
    forall p | p in ports
      ensures Some(AsI16(p)) in row.portNumbers
    {
      PackedCovers(ports, ns, ts, p);
    }
    forall i | 0 <= i < |row.portNumbers|
      ensures row.portNumbers[i] == Some(ns[i]) && row.portTypes[i] == Some(ts[i])
    {
    }
  }

  /** The row after the update of `configure_docker`. */
  method PackRow(row: Row, image: string, ports: ExposedPorts) returns (row': Row)
    ensures row'.dockerImage == Some(image) && PackedFrom(row', ports)
    ensures row'.name == row.name && row'.category == row.category
  {
    var ns, ts := PackPorts(ports);
    row' := row.(dockerImage := Some(image), portNumbers := Present(ns), portTypes := Present(ts));
    PackedRow(row', ports, ns, ts);
  }

  /** The UNIQUE constraint on the image column. */
  predicate ImageTaken(rows: map<int, Row>, id: int, image: string) {
    exists other :: other in rows && other != id && rows[other].dockerImage == Some(image)
  }

  /** The UNIQUE constraint on name and category. */
  predicate NameTaken(rows: map<int, Row>, name: string, category: int) {
    exists other :: other in rows && rows[other].name == name && rows[other].category == category
  }

  /** The archive of a new challenge as the multipart body brings it. */
  datatype Upload = NoFile | ZipFile | Unreadable

  /** The database takes the row: its texts are as the columns store them. */
  ghost predicate AsStored(row: Row) {
    Stored(row.name) == Some(row.name) && (row.dockerImage.Some? ==> Stored(row.dockerImage.value) == row.dockerImage)
  }

  /** The two UNIQUE constraints. */
  ghost predicate NoDuplicates(rows: map<int, Row>) {
    forall i, j :: i in rows && j in rows && i != j ==>
      && (rows[i].dockerImage.Some? ==> rows[i].dockerImage != rows[j].dockerImage)
      && (rows[i].name, rows[i].category) != (rows[j].name, rows[j].category)
  }

  lemma StaysUnique(rows: map<int, Row>, id: int, row: Row)
    requires NoDuplicates(rows) && id in rows && row.dockerImage.Some? && !ImageTaken(rows, id, row.dockerImage.value)
    requires row.name == rows[id].name && row.category == rows[id].category
    ensures NoDuplicates(rows[id := row])
  {
  }

  lemma OwnImageIsFree(rows: map<int, Row>, id: int)
    requires NoDuplicates(rows) && id in rows && rows[id].dockerImage.Some?
    ensures !ImageTaken(rows, id, rows[id].dockerImage.value)
  {
  }

  class ChallengeTable {
    const categories: set<int>
    var rows: map<int, Row>

    /** Every row reachable through the two operations is well packed, and the table
        keeps its constraints. */
    ghost predicate Valid()
      reads this
    {
      (forall id :: id in rows ==> WellPacked(rows[id]) && AsStored(rows[id])) && NoDuplicates(rows)
    }

    constructor (categories: set<int>)
      ensures Valid() && rows == map[] && this.categories == categories
    {
      this.categories := categories;
      rows := map[];
    }

    /** `create`, with the id the database hands out. Whether the other texts of the
        request fit their columns is one flag. */
    method Create(canCreate: bool, upload: Upload, id: int, name: string, category: int, othersFit: bool)
      returns (status: Status)
      requires Valid() && id !in rows
      modifies this
      ensures Valid()
      ensures status == Forbidden <==> !canCreate
      ensures status == BadRequest <==> canCreate && upload.Unreadable?
      ensures status == InternalServerError
              <==> canCreate && !upload.Unreadable? && (Stored(name).None? || !othersFit)
      ensures status == Conflict ==>
                exists k :: k in old(rows) && old(rows)[k].category == category
                            && Stored(name) == Some(old(rows)[k].name)
      ensures status == NotFound || status == Created ==>
                forall k :: k in old(rows) && old(rows)[k].category == category ==>
                              Stored(name) != Some(old(rows)[k].name)
      ensures status == NotFound ==> category !in categories
      ensures status == Created ==> category in categories
      ensures status != Success
      ensures status != Created ==> rows == old(rows)
      ensures status == Created ==>
                Stored(name).Some? && rows == old(rows)[id := Row(Stored(name).value, category, None, [], [])]
    {
      if !canCreate {
        return Forbidden;
      }
      if upload.Unreadable? {
        return BadRequest;
      }
      var stored := Stored(name);
      if stored.None? || !othersFit {
        status := InternalServerError;
      } else if NameTaken(rows, stored.value, category) {
        status := Conflict;
      } else if category !in categories {
        status := NotFound;
      } else {
        rows := rows[id := Row(stored.value, category, None, [], [])];
        status := Created;
      }
    }

    /** `configure_docker`. An update that matches no row succeeds, and the port
        limit is never enforced. */
    method ConfigureDocker(canDocker: bool, id: int, image: string, ports: ExposedPorts) returns (status: Status)
      requires Valid()
      modifies this
      ensures Valid()
      ensures status == Forbidden <==> !canDocker
      ensures canDocker && id in old(rows) ==>
                var elsewhere := exists k :: k in old(rows) && k != id && old(rows)[k].dockerImage == Stored(image);
                && (status == InternalServerError <==> Stored(image).None?)
                && (status == Conflict <==> Stored(image).Some? && elsewhere)
                && (status == Success <==> Stored(image).Some? && !elsewhere)
      ensures canDocker && id in old(rows) && old(rows)[id].dockerImage == Some(image) ==> status == Success
      ensures canDocker && id !in old(rows) ==>
                status == Success || (status == InternalServerError && Stored(image) != Some(image))
      ensures status != Success || id !in old(rows) ==> rows == old(rows)
      ensures status == Success && id in old(rows) ==>
                && rows.Keys == old(rows).Keys
                && (forall k :: k in rows && k != id ==> rows[k] == old(rows)[k])
                && rows[id].dockerImage == Stored(image)
                && rows[id].name == old(rows)[id].name && rows[id].category == old(rows)[id].category
                && PackedFrom(rows[id], ports)
    {
      if !canDocker {
        return Forbidden;
      }
      var stored := Stored(image);
      if id !in rows {
        // a NUL is refused before any row is looked for; whether other excess is, with
        // no row to store it in, is up to the planner
        var refused := *;
        return if '\0' in image || (stored.None? && refused) then InternalServerError else Success;
      }
      if stored.None? {
        return InternalServerError;
      }
      status := Update(id, stored.value, ports);
    }

    /** The update of an existing row. */
    method Update(id: int, image: string, ports: ExposedPorts) returns (status: Status)
      requires Valid() && id in rows && Stored(image) == Some(image)
      modifies this
      ensures Valid()
      ensures status == if ImageTaken(old(rows), id, image) then Conflict else Success
      ensures old(rows)[id].dockerImage == Some(image) ==> status == Success
      ensures status != Success ==> rows == old(rows)
      ensures status == Success ==>
                && id in rows && rows == old(rows)[id := rows[id]]
                && rows[id].dockerImage == Some(image)
                && rows[id].name == old(rows)[id].name && rows[id].category == old(rows)[id].category
                && PackedFrom(rows[id], ports)
    {
      var row := PackRow(rows[id], image, ports);
      if rows[id].dockerImage == Some(image) {
        OwnImageIsFree(rows, id);
      }
      if !TableChecks(row) {
        status := BadRequest;
      } else if ImageTaken(rows, id, image) {
        status := Conflict;
      } else {
        StaysUnique(rows, id, row);
        rows := rows[id := row];
        status := Success;
      }
    }
  }

  /** Ten ports and more pass the table's checks, although the documentation promises
      to refuse them. */
  lemma ChecksNeverReject(row: Row)
    ensures TableChecks(row)
  {
  }
}

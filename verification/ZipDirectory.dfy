/**
 The byte-level ZIP central-directory scan (PKWARE APPNOTE.TXT, sections 4.3.12 and 4.3.16):
 find the end-of-central-directory record, walk the records it points at, and collect the names
 whose unix mode says "symbolic link". The scan reads whatever bytes it is given; what it means
 is stated against archives built by `Layout`.
 */
module ZipDirectory {
  import opened Basics

  const EOCD_SIGNATURE := 0x06054b50
  const CENTRAL_SIGNATURE := 0x02014b50
  const EOCD_SIZE := 22
  const CENTRAL_SIZE := 46
  const UNIX_HOST := 3
  /** S_IFLNK's file-type nibble, 0o120000 of 0o170000. */
  const LINK_TYPE := 10

  // --- reading: a byte past either end reads as JavaScript's undefined, so as 0 ------------

  function ByteAt(buf: Bytes, off: int): byte {
    if 0 <= off < |buf| then buf[off] else 0
  }

  function ReadU16(buf: Bytes, off: int): nat {
    ByteAt(buf, off) + 0x100 * ByteAt(buf, off + 1)
  }

  function ReadU32(buf: Bytes, off: int): nat {
    ReadU16(buf, off) + 0x1_0000 * ReadU16(buf, off + 2)
  }

  /** `subarray`, clamped at both ends. */
  function Sub(buf: Bytes, from: nat, to: nat): Bytes
    requires from <= to
  {
    if from >= |buf| then [] else if to <= |buf| then buf[from..to] else buf[from..]
  }

  function TailStart(buf: Bytes): nat {
    if |buf| >= EOCD_SIZE + 0xffff then |buf| - (EOCD_SIZE + 0xffff) else 0
  }

  /** Offset `i` could start an end record the backward search looks at. */
  predicate Candidate(buf: Bytes, i: int) {
    TailStart(buf) <= i <= |buf| - EOCD_SIZE && ReadU32(buf, i) == EOCD_SIGNATURE
  }

  /** `at` is the last candidate, or -1 when there is none. */
  ghost predicate IsEocd(buf: Bytes, at: int) {
    && (at == -1 || Candidate(buf, at))
    && (forall i | Candidate(buf, i) :: i <= at)
  }

  lemma EocdIsUnique(buf: Bytes, a: int, b: int)
    requires IsEocd(buf, a) && IsEocd(buf, b)
    ensures a == b
  {
  }

  /** `findEocd`: counts the offset down from the end. */
  method FindEocd(buf: Bytes) returns (at: int)
    ensures IsEocd(buf, at)
  {
    var i := |buf| - EOCD_SIZE;
    while i >= TailStart(buf)
      invariant i <= |buf| - EOCD_SIZE
      invariant forall j | Candidate(buf, j) :: j <= i
    {
      if ReadU32(buf, i) == EOCD_SIGNATURE {
        return i;
      }
      i := i - 1;
    }
    return -1;
  }

  predicate LinkMode(versionMadeBy: nat, externalAttrs: nat) {
    versionMadeBy / 0x100 == UNIX_HOST && (externalAttrs / 0x1_0000) % 0x1_0000 / 0x1000 == LINK_TYPE
  }

  /** What the scan reads of one record: its name, whether it is a link, and where the next one starts. */
  datatype Row = Row(name: string, link: bool, next: nat)

  /** The record at offset `p`, or None where the signature is wrong. */
  function RowAt(buf: Bytes, p: nat, decode: Bytes -> string): Option<Row> {
    if ReadU32(buf, p) != CENTRAL_SIGNATURE then None
    else
      var versionMadeBy := ReadU16(buf, p + 4);
      var nameLen := ReadU16(buf, p + 28);
      var extraLen := ReadU16(buf, p + 30);
      var commentLen := ReadU16(buf, p + 32);
      var externalAttrs := ReadU32(buf, p + 38);
      var name := decode(Sub(buf, p + CENTRAL_SIZE, p + CENTRAL_SIZE + nameLen));
      Some(Row(name, LinkMode(versionMadeBy, externalAttrs), p + CENTRAL_SIZE + nameLen + extraLen + commentLen))
  }

  /** The names `count` records from offset `p` on declare as links; the scan stops at a wrong signature. */
  function LinksFrom(buf: Bytes, p: nat, count: int, decode: Bytes -> string): set<string>
    decreases count
  {
    if count <= 0 then {}
    else
      match RowAt(buf, p, decode)
      case None => {}
      case Some(row) => (if row.link then {row.name} else {}) + LinksFrom(buf, row.next, count - 1, decode)
  }

  /** What the end record at `at` leads the scan to. */
  function LinksAt(buf: Bytes, at: int, decode: Bytes -> string): set<string> {
    if at < 0 then {} else LinksFrom(buf, ReadU32(buf, at + 16), ReadU16(buf, at + 10), decode)
  }

  lemma OneMoreRow(buf: Bytes, p: nat, count: nat, row: Row, decode: Bytes -> string)
    requires RowAt(buf, p, decode) == Some(row)
    ensures LinksFrom(buf, p, count + 1, decode) == (if row.link then {row.name} else {}) + LinksFrom(buf, row.next, count, decode)
  {
  }

  lemma NoMoreRows(buf: Bytes, p: nat, count: nat, decode: Bytes -> string)
    requires RowAt(buf, p, decode) == None
    ensures LinksFrom(buf, p, count, decode) == {}
  {
  }

  lemma Gather(names: set<string>, found: set<string>, rest: set<string>)
    ensures names + (found + rest) == (names + found) + rest && names + {} == names
  {
  }

  /** The cursor loop over the central directory. */
  method WalkDirectory(archive: Bytes, offset: nat, count: nat, decode: Bytes -> string) returns (names: set<string>)
    ensures names == LinksFrom(archive, offset, count, decode)
  {
    names := {};
    var p := offset;
    for i := 0 to count
      invariant names + LinksFrom(archive, p, count - i, decode) == LinksFrom(archive, offset, count, decode)
    {
      var row := RowAt(archive, p, decode);
      if row == None {
        NoMoreRows(archive, p, count - i, decode);
        return;
      }
      OneMoreRow(archive, p, count - i - 1, row.value, decode);
      Gather(names, if row.value.link then {row.value.name} else {}, LinksFrom(archive, row.value.next, count - i - 1, decode));
      if row.value.link {
        names := names + {row.value.name};
      }
      p := row.value.next;
    }
  }

  /** `detectSymlinkNames` */
  method DetectSymlinkNames(archive: Bytes, decode: Bytes -> string) returns (names: set<string>)
    ensures exists at :: IsEocd(archive, at) && names == LinksAt(archive, at, decode)
  {
    names := {};
    var eocd := FindEocd(archive);
    if eocd < 0 {
      assert names == LinksAt(archive, eocd, decode);
      return;
    }
    names := WalkDirectory(archive, ReadU32(archive, eocd + 16), ReadU16(archive, eocd + 10), decode);
    assert names == LinksAt(archive, eocd, decode);
  }

  // --- the reference: archives as APPNOTE.TXT lays them out ---------------------------------

  type U16 = x: int | 0 <= x < 0x1_0000
  type U32 = x: int | 0 <= x < 0x1_0000_0000

  function Put16(v: U16): (b: Bytes)
    ensures |b| == 2
  {
    [v % 0x100, v / 0x100]
  }

  function Put32(v: U32): (b: Bytes)
    ensures |b| == 4
  {
    Put16(v % 0x1_0000) + Put16(v / 0x1_0000)
  }

  /**
   One central-directory record. The scan reads the fields named here; `needed` (offsets 6-27)
   and `disk` (34-37) and `local` (42-45) stand for every other field, with any bytes.
   */
  datatype CentralRecord = CentralRecord(
    versionMadeBy: U16, needed: Bytes, disk: Bytes, externalAttrs: U32, local: Bytes,
    name: Bytes, extra: Bytes, comment: Bytes)
  {
    ghost predicate Valid() {
      && |needed| == 22 && |disk| == 4 && |local| == 4
      && |name| < 0x1_0000 && |extra| < 0x1_0000 && |comment| < 0x1_0000
    }

    function Header(): (b: Bytes)
      requires |name| < 0x1_0000 && |extra| < 0x1_0000 && |comment| < 0x1_0000
    {
      Put32(CENTRAL_SIGNATURE) + Put16(versionMadeBy) + needed
      + Put16(|name|) + Put16(|extra|) + Put16(|comment|) + disk + Put32(externalAttrs) + local
    }

    function Encode(): Bytes
      requires |name| < 0x1_0000 && |extra| < 0x1_0000 && |comment| < 0x1_0000
    {
      Header() + name + extra + comment
    }

    predicate IsLink() {
      LinkMode(versionMadeBy, externalAttrs)
    }
  }

  ghost predicate ValidAll(records: seq<CentralRecord>) {
    forall r | r in records :: r.Valid()
  }

  ghost function EncodeAll(records: seq<CentralRecord>): Bytes
    requires ValidAll(records)
  {
    if records == [] then []
    else
      assert records[0] in records;
      records[0].Encode() + EncodeAll(records[1..])
  }

  /** The end record: `head` is offsets 4-9 and `size` 12-15, which the scan never reads. */
  datatype EndRecord = EndRecord(head: Bytes, count: U16, size: Bytes, offset: U32, comment: Bytes)
  {
    ghost predicate Valid() {
      |head| == 6 && |size| == 4 && |comment| < 0x1_0000
    }

    function Encode(): Bytes
      requires |comment| < 0x1_0000
    {
      Put32(EOCD_SIGNATURE) + head + Put16(count) + size + Put32(offset) + Put16(|comment|) + comment
    }
  }

  /** Local entries (any bytes), the central directory, the end record: a single-disk, non-ZIP64 archive. */
  ghost predicate Layout(archive: Bytes, prefix: Bytes, records: seq<CentralRecord>, end: EndRecord) {
    && ValidAll(records) && end.Valid()
    && end.offset == |prefix| && end.count == |records|
    && archive == prefix + EncodeAll(records) + end.Encode()
  }

  ghost function EndOffset(prefix: Bytes, records: seq<CentralRecord>): nat
    requires ValidAll(records)
  {
    |prefix| + |EncodeAll(records)|
  }

  ghost function LinkNames(records: seq<CentralRecord>, decode: Bytes -> string): set<string> {
    set r | r in records && r.IsLink() :: decode(r.name)
  }

  // --- proofs ---------------------------------------------------------------------------------

  lemma ReadShifts(a: Bytes, b: Bytes, c: Bytes, off: nat)
    ensures off + 2 <= |b| ==> ReadU16(a + b + c, |a| + off) == ReadU16(b, off)
    ensures off + 4 <= |b| ==> ReadU32(a + b + c, |a| + off) == ReadU32(b, off)
  {
  }

  lemma ReadPut32(v: U32)
    ensures ReadU32(Put32(v), 0) == v
  {
    assert ReadU16(Put32(v), 0) == v % 0x1_0000;
    assert ReadU16(Put32(v), 2) == v / 0x1_0000;
  }

  /** The fixed 46 bytes read back field by field. */
  lemma HeaderReadsBack(r: CentralRecord)
    requires r.Valid()
    ensures |r.Header()| == CENTRAL_SIZE
    ensures ReadU32(r.Header(), 0) == CENTRAL_SIGNATURE
    ensures ReadU16(r.Header(), 4) == r.versionMadeBy
    ensures ReadU16(r.Header(), 28) == |r.name|
    ensures ReadU16(r.Header(), 30) == |r.extra|
    ensures ReadU16(r.Header(), 32) == |r.comment|
    ensures ReadU32(r.Header(), 38) == r.externalAttrs
  {
    var h := r.Header();
    ReadPut32(CENTRAL_SIGNATURE);
    ReadPut32(r.externalAttrs);
    assert h[0..4] == Put32(CENTRAL_SIGNATURE);
    assert h[4..6] == Put16(r.versionMadeBy);
    assert h[28..30] == Put16(|r.name|);
    assert h[30..32] == Put16(|r.extra|);
    assert h[32..34] == Put16(|r.comment|);
    assert h[38..42] == Put32(r.externalAttrs);
  }

  lemma ReadShifts32(a: Bytes, b: Bytes, c: Bytes, off: nat)
    requires off + 4 <= |b|
    ensures ReadU32(a + b + c, |a| + off) == ReadU32(b, off)
  {
    ReadShifts(a, b, c, off);
    ReadShifts(a, b, c, off + 2);
  }

  /** The fields of one record, read in place. */
  lemma FieldsInPlace(before: Bytes, r: CentralRecord, body: Bytes)
    requires r.Valid()
    ensures
      var buf, p := before + r.Header() + body, |before|;
      && ReadU32(buf, p) == CENTRAL_SIGNATURE
      && ReadU16(buf, p + 4) == r.versionMadeBy
      && ReadU16(buf, p + 28) == |r.name|
      && ReadU16(buf, p + 30) == |r.extra|
      && ReadU16(buf, p + 32) == |r.comment|
      && ReadU32(buf, p + 38) == r.externalAttrs
  {
    HeaderReadsBack(r);
    var h := r.Header();
    ReadShifts32(before, h, body, 0);
    ReadShifts(before, h, body, 4);
    ReadShifts(before, h, body, 28);
    ReadShifts(before, h, body, 30);
    ReadShifts(before, h, body, 32);
    ReadShifts32(before, h, body, 38);
  }

  lemma NameInPlace(before: Bytes, header: Bytes, name: Bytes, rest: Bytes)
    ensures Sub(before + header + (name + rest), |before| + |header|, |before| + |header| + |name|) == name
  {
    assert before + header + (name + rest) == before + header + name + rest;
  }

  /** A row is the fields it was read from. */
  lemma RowOfFields(buf: Bytes, p: nat, r: CentralRecord, decode: Bytes -> string)
    requires r.Valid()
    requires ReadU32(buf, p) == CENTRAL_SIGNATURE
    requires ReadU16(buf, p + 4) == r.versionMadeBy
    requires ReadU16(buf, p + 28) == |r.name|
    requires ReadU16(buf, p + 30) == |r.extra|
    requires ReadU16(buf, p + 32) == |r.comment|
    requires ReadU32(buf, p + 38) == r.externalAttrs
    requires Sub(buf, p + CENTRAL_SIZE, p + CENTRAL_SIZE + |r.name|) == r.name
    ensures RowAt(buf, p, decode)
         == Some(Row(decode(r.name), r.IsLink(), p + CENTRAL_SIZE + |r.name| + |r.extra| + |r.comment|))
  {
  }

  /** A record's encoding is its header, its name, and what follows. */
  lemma RecordSplits(before: Bytes, r: CentralRecord, tail: Bytes)
    requires r.Valid()
    ensures before + r.Encode() + tail == before + r.Header() + (r.name + (r.extra + r.comment + tail))
    ensures |r.Header()| == CENTRAL_SIZE ==> |before + r.Encode()| == |before| + CENTRAL_SIZE + |r.name| + |r.extra| + |r.comment|
  {
    Regroup5(before, r.Header(), r.name, r.extra, r.comment, tail);
  }

  lemma Regroup5(a: Bytes, b: Bytes, c: Bytes, d: Bytes, e: Bytes, f: Bytes)
    ensures a + (b + c + d + e) + f == a + b + (c + (d + e + f))
  {
  }

  /** A laid-out record reads as its own row. */
  lemma RowInPlace(buf: Bytes, before: Bytes, r: CentralRecord, tail: Bytes, decode: Bytes -> string)
    requires r.Valid()
    requires buf == before + r.Encode() + tail
    ensures RowAt(buf, |before|, decode) == Some(Row(decode(r.name), r.IsLink(), |before + r.Encode()|))
  {
    var rest := r.extra + r.comment + tail;
    HeaderReadsBack(r);
    RecordSplits(before, r, tail);
    FieldsInPlace(before, r, r.name + rest);
    NameInPlace(before, r.Header(), r.name, rest);
    RowOfFields(buf, |before|, r, decode);
  }

  lemma Regroup(a: Bytes, b: Bytes, c: Bytes, d: Bytes)
    ensures a + (b + c) + d == a + b + (c + d)
    ensures a + (b + c) + d == (a + b) + c + d
  {
  }

  /** The walk over laid-out records collects exactly the link names. */
  lemma {:induction false} WalkCollectsLinks(buf: Bytes, before: Bytes, records: seq<CentralRecord>, after: Bytes, decode: Bytes -> string)
    requires ValidAll(records) && buf == before + EncodeAll(records) + after
    ensures LinksFrom(buf, |before|, |records|, decode) == LinkNames(records, decode)
    decreases |records|
  {
    if records != [] {
      var r, rest := records[0], records[1..];
      assert r in records;
      assert ValidAll(rest);
      Regroup(before, r.Encode(), EncodeAll(rest), after);
      RowInPlace(buf, before, r, EncodeAll(rest) + after, decode);
      WalkCollectsLinks(buf, before + r.Encode(), rest, after, decode);
      OneMoreRow(buf, |before|, |rest|, Row(decode(r.name), r.IsLink(), |before + r.Encode()|), decode);
      LinkNamesStep(records, decode);
    } else {
      assert LinkNames(records, decode) == {};
    }
  }

  lemma LinkNamesStep(records: seq<CentralRecord>, decode: Bytes -> string)
    requires records != []
    ensures LinkNames(records, decode)
         == (if records[0].IsLink() then {decode(records[0].name)} else {}) + LinkNames(records[1..], decode)
  {
    assert records == [records[0]] + records[1..];
  }

  lemma EndReadsBack(archive: Bytes, prefix: Bytes, records: seq<CentralRecord>, end: EndRecord)
    requires Layout(archive, prefix, records, end)
    ensures Candidate(archive, EndOffset(prefix, records))
    ensures ReadU16(archive, EndOffset(prefix, records) + 10) == end.count
    ensures ReadU32(archive, EndOffset(prefix, records) + 16) == end.offset
  {
    var at, e := EndOffset(prefix, records), end.Encode();
    assert archive == (prefix + EncodeAll(records)) + e + [];
    ReadPut32(EOCD_SIGNATURE);
    ReadPut32(end.offset);
    assert e[0..4] == Put32(EOCD_SIGNATURE);
    assert e[10..12] == Put16(end.count);
    assert e[16..20] == Put32(end.offset);
    ReadShifts(prefix + EncodeAll(records), e, [], 0);
    ReadShifts(prefix + EncodeAll(records), e, [], 10);
    ReadShifts(prefix + EncodeAll(records), e, [], 16);
  }

  /** No end-record signature starts after the true one: the archive comment does not imitate one. */
  ghost predicate NoLaterSignature(archive: Bytes, at: nat) {
    forall i | at < i <= |archive| - EOCD_SIZE :: ReadU32(archive, i) != EOCD_SIGNATURE
  }

  /** The backward search finds the true end record exactly when nothing after it looks like one. */
  lemma FindsTheTrueEnd(archive: Bytes, prefix: Bytes, records: seq<CentralRecord>, end: EndRecord)
    requires Layout(archive, prefix, records, end)
    ensures IsEocd(archive, EndOffset(prefix, records)) <==> NoLaterSignature(archive, EndOffset(prefix, records))
  {
    EndReadsBack(archive, prefix, records, end);
    var at := EndOffset(prefix, records);
    if IsEocd(archive, at) {
      forall i | at < i <= |archive| - EOCD_SIZE ensures ReadU32(archive, i) != EOCD_SIGNATURE {
        assert !Candidate(archive, i);
      }
    }
  }

  /**
   The reader is correct: on every archive laid out as a prefix, any records and an end record no
   later bytes imitate, the scan answers exactly the names of the unix symbolic links.
   */
  method SymlinkNamesOf(archive: Bytes, ghost prefix: Bytes, ghost records: seq<CentralRecord>, ghost end: EndRecord, decode: Bytes -> string)
    returns (names: set<string>)
    requires Layout(archive, prefix, records, end)
    requires NoLaterSignature(archive, EndOffset(prefix, records))
    ensures names == LinkNames(records, decode)
  {
    names := DetectSymlinkNames(archive, decode);
    ghost var at :| IsEocd(archive, at) && names == LinksAt(archive, at, decode);
    LinksOfLayout(archive, prefix, records, end, at, decode);
  }

  lemma LinksOfLayout(archive: Bytes, prefix: Bytes, records: seq<CentralRecord>, end: EndRecord, at: int, decode: Bytes -> string)
    requires Layout(archive, prefix, records, end)
    requires NoLaterSignature(archive, EndOffset(prefix, records))
    requires IsEocd(archive, at)
    ensures LinksAt(archive, at, decode) == LinkNames(records, decode)
  {
    FindsTheTrueEnd(archive, prefix, records, end);
    EocdIsUnique(archive, at, EndOffset(prefix, records));
    EndReadsBack(archive, prefix, records, end);
    WalkCollectsLinks(archive, prefix, records, end.Encode(), decode);
  }

  // --- what the constants stand for -----------------------------------------------------------------

  /** The unix half of a record's attributes: a file type of four bits over twelve permission bits; the low half is another host's. */
  function UnixAttrs(fileType: nat, permissions: nat, low: nat): U32
    requires fileType < 0x10 && permissions < 0x1000 && low < 0x1_0000
  {
    fileType * 0x1000_0000 + permissions * 0x1_0000 + low
  }

  /** `version made by`: the host system over the version of its writer. */
  function MadeBy(host: nat, version: nat): U16
    requires host < 0x100 && version < 0x100
  {
    host * 0x100 + version
  }

  /** A record is a link exactly when its host is unix, 3, and its file type S_IFLNK's, 0o12, whatever its permissions and other bits. */
  lemma LinkIsUnixSymlink(host: nat, version: nat, fileType: nat, permissions: nat, low: nat)
    requires host < 0x100 && version < 0x100 && fileType < 0x10 && permissions < 0x1000 && low < 0x1_0000
    ensures LinkMode(MadeBy(host, version), UnixAttrs(fileType, permissions, low)) <==> host == 3 && fileType == 0xa
  {
    var attrs := UnixAttrs(fileType, permissions, low);
    assert attrs / 0x1_0000 == fileType * 0x1000 + permissions;
    assert (fileType * 0x1000 + permissions) % 0x1_0000 == fileType * 0x1000 + permissions;
    assert (fileType * 0x1000 + permissions) / 0x1000 == fileType;
    assert MadeBy(host, version) / 0x100 == host;
  }

  /** Every record's two fields are laid out that way, so this is every record. */
  lemma FieldsOfRecord(r: CentralRecord) returns (host: nat, version: nat, fileType: nat, permissions: nat, low: nat)
    ensures host < 0x100 && version < 0x100 && fileType < 0x10 && permissions < 0x1000 && low < 0x1_0000
    ensures r.versionMadeBy == MadeBy(host, version) && r.externalAttrs == UnixAttrs(fileType, permissions, low)
    ensures r.IsLink() <==> host == 3 && fileType == 0xa
  {
    host, version := r.versionMadeBy / 0x100, r.versionMadeBy % 0x100;
    low := r.externalAttrs % 0x1_0000;
    var high := r.externalAttrs / 0x1_0000;
    fileType, permissions := high / 0x1000, high % 0x1000;
    LinkIsUnixSymlink(host, version, fileType, permissions, low);
  }

  /** A unix symbolic link, by its own bytes: some host byte 3 and file type 0o12. */
  ghost predicate IsUnixSymlink(r: CentralRecord) {
    exists version, permissions, low :: LaidOut(r, 3, version, 0xa, permissions, low)
  }

  predicate LaidOut(r: CentralRecord, host: int, version: int, fileType: int, permissions: int, low: int) {
    && 0 <= host < 0x100 && 0 <= version < 0x100 && 0 <= fileType < 0x10 && 0 <= permissions < 0x1000 && 0 <= low < 0x1_0000
    && r.versionMadeBy == MadeBy(host, version) && r.externalAttrs == UnixAttrs(fileType, permissions, low)
  }

  /** On every well laid out archive the scan answers a name if and only if some record of that name is a unix symbolic link. */
  method UnixSymlinksOf(archive: Bytes, ghost prefix: Bytes, ghost records: seq<CentralRecord>, ghost end: EndRecord, decode: Bytes -> string)
    returns (names: set<string>)
    requires Layout(archive, prefix, records, end)
    requires NoLaterSignature(archive, EndOffset(prefix, records))
    ensures forall name :: name in names <==> exists r | r in records :: decode(r.name) == name && IsUnixSymlink(r)
  {
    names := SymlinkNamesOf(archive, prefix, records, end, decode);
    forall r | r in records ensures r.IsLink() <==> IsUnixSymlink(r) {
      SymlinkByItsBytes(r);
    }
  }

  lemma SymlinkByItsBytes(r: CentralRecord)
    ensures r.IsLink() <==> IsUnixSymlink(r)
  {
    var host, version, fileType, permissions, low := FieldsOfRecord(r);
    assert LaidOut(r, host, version, fileType, permissions, low);
    if IsUnixSymlink(r) {
      var v, p, l :| LaidOut(r, 3, v, 0xa, p, l);
      LinkIsUnixSymlink(3, v, 0xa, p, l);
    }
  }

  /** A symbolic link and a plain file as a unix archiver writes them, and a link's mode under another host. */
  lemma CommonRecords(r: CentralRecord)
    ensures r.versionMadeBy == 0x031e && r.externalAttrs == 0xa1ff0000 ==> r.IsLink()
    ensures r.versionMadeBy == 0x031e && r.externalAttrs == 0x81a40000 ==> !r.IsLink()
    ensures r.versionMadeBy == 0x0014 && r.externalAttrs == 0xa1ff0000 ==> !r.IsLink()
  {
    assert 0xa1ff == 0xa * 0x1000 + 0x1ff && 0x81a4 == 0x8 * 0x1000 + 0x1a4;
    LinkIsUnixSymlink(3, 0x1e, 0xa, 0x1ff, 0);
    LinkIsUnixSymlink(3, 0x1e, 0x8, 0x1a4, 0);
    LinkIsUnixSymlink(0, 0x14, 0xa, 0x1ff, 0);
  }

  /** The two signatures as bytes: "PK" and 5, 6 before an end record, 1, 2 before a central one. */
  lemma SignaturesInBytes()
    ensures Put32(EOCD_SIGNATURE) == [0x50, 0x4b, 5, 6] && Put32(CENTRAL_SIGNATURE) == [0x50, 0x4b, 1, 2]
  {
  }

  /** An end record's signature, by its bytes, with room for the record after it. */
  predicate SignsEnd(buf: Bytes, i: int) {
    0 <= i <= |buf| - 22 && buf[i..i + 4] == [0x50, 0x4b, 5, 6]
  }

  /** Numbers are read low byte first, and a byte past either end of the archive reads as 0. */
  lemma ReadsByteByByte(buf: Bytes, off: int)
    ensures 0 <= off < |buf| - 1 ==> ReadU16(buf, off) == buf[off] as int + 256 * buf[off + 1] as int
    ensures off == |buf| - 1 >= 0 ==> ReadU16(buf, off) == buf[off] as int
    ensures off >= |buf| || off < -1 ==> ReadU16(buf, off) == 0
    ensures ReadU32(buf, off) == ReadU16(buf, off) + 65536 * ReadU16(buf, off + 2)
  {
  }

  /** Where the search looks, by the bytes alone: the last signature within the last 22 + 65535 bytes. */
  lemma EndIsTheLastSignature(buf: Bytes, at: int)
    requires IsEocd(buf, at)
    ensures forall i | SignsEnd(buf, i) && i >= |buf| - 65557 :: i <= at
    ensures at >= 0 ==> SignsEnd(buf, at) && at >= |buf| - 65557
    ensures at >= -1
  {
    forall i | 0 <= i <= |buf| - 22 ensures SignsEnd(buf, i) <==> ReadU32(buf, i) == EOCD_SIGNATURE {
      BytesOfSignature(buf, i);
    }
    forall i | SignsEnd(buf, i) && i >= |buf| - 65557 ensures i <= at {
      assert Candidate(buf, i);
    }
  }

  lemma BytesOfSignature(buf: Bytes, i: int)
    requires 0 <= i <= |buf| - 22
    ensures SignsEnd(buf, i) <==> ReadU32(buf, i) == EOCD_SIGNATURE
  {
    var a: int, b: int, c: int, d: int := buf[i], buf[i + 1], buf[i + 2], buf[i + 3];
    assert SignsEnd(buf, i) <==> a == 0x50 && b == 0x4b && c == 5 && d == 6 by {
      var four := buf[i..i + 4];
      assert four[0] == a && four[1] == b && four[2] == c && four[3] == d;
    }
    FourBytes(buf[i], buf[i + 1], buf[i + 2], buf[i + 3]);
  }

  /** Four bytes read as one number are the number's own bytes. */
  lemma FourBytes(a: byte, b: byte, c: byte, d: byte)
    ensures a as int + 0x100 * b as int + 0x1_0000 * (c as int + 0x100 * d as int) == 0x0605_4b50 <==> a == 0x50 && b == 0x4b && c == 5 && d == 6
  {
  }

  /** A 22-byte comment that imitates an empty end record. */
  const DECOY := Put32(EOCD_SIGNATURE) + [0, 0, 0, 0, 0, 0, 0, 0, 0, 0, 0, 0, 0, 0, 0, 0, 0, 0]

  lemma DecoyReads(front: Bytes, archive: Bytes)
    requires archive == front + DECOY
    ensures Candidate(archive, |front|) && ReadU16(archive, |front| + 10) == 0
  {
    assert archive == front + DECOY + [];
    ReadPut32(EOCD_SIGNATURE);
    assert DECOY[0..4] == Put32(EOCD_SIGNATURE);
    ReadShifts32(front, DECOY, [], 0);
    ReadShifts(front, DECOY, [], 10);
  }

  /**
   Without that condition the reader misses links: whatever an archive holds, a comment of these 22
   bytes is found instead of its end record, claims no records, and no link is reported.
   */
  lemma DecoyHidesEveryLink(archive: Bytes, prefix: Bytes, records: seq<CentralRecord>, end: EndRecord, at: int, decode: Bytes -> string)
    requires Layout(archive, prefix, records, end) && end.comment == DECOY && IsEocd(archive, at)
    ensures at == |archive| - EOCD_SIZE && at != EndOffset(prefix, records) && LinksAt(archive, at, decode) == {}
  {
    var head := Put32(EOCD_SIGNATURE) + end.head + Put16(end.count) + end.size + Put32(end.offset) + Put16(|end.comment|);
    var front := prefix + EncodeAll(records) + head;
    assert end.Encode() == head + DECOY;
    assert archive == front + DECOY;
    DecoyReads(front, archive);
    assert |front| == |archive| - EOCD_SIZE;
  }
}

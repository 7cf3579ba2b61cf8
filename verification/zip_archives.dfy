/** Which data is a ZIP archive: a chain of central headers, each pointing at a matching local
    record. The reader of `src/archive/zip.rs` accepts exactly that. */
module ZipArchives {
  import opened Prelude
  import opened Bytes
  import opened ZipFields
  import opened Zip

  /** A central header, where it stands, the name behind it, and the payload it points at. */
  datatype Record = Record(at: nat, central: Central, nameBytes: seq<Byte>, name: string, payload: seq<Byte>)

  /** No field holds the mark of a 64-bit archive. */
  predicate Zip32(c: Central) {
    c.compressed != 0xFFFF_FFFF && c.uncompressed != 0xFFFF_FFFF && c.local != 0xFFFF_FFFF
  }

  /** The numbers of a central header, each at its place. */
  predicate CentralStands(data: seq<Byte>, at: nat, c: Central) {
    && at + 46 <= |data| && Holds(data, at, [0x50, 0x4B, 0x01, 0x02])
    && c.code == ReadU16(data, at + 10)
    && c.compressed == ReadU32(data, at + 20) && c.uncompressed == ReadU32(data, at + 24)
    && c.nameLen == ReadU16(data, at + 28) && c.extraLen == ReadU16(data, at + 30)
    && c.commentLen == ReadU16(data, at + 32) && c.local == ReadU32(data, at + 42)
  }

  /** The header and its name stand in the data, and the name is one the reader accepts. */
  predicate HeaderStands(names: NameReader, data: seq<Byte>, r: Record) {
    && CentralStands(data, r.at, r.central) && Zip32(r.central)
    && |r.nameBytes| == r.central.nameLen && Holds(data, r.at + 46, r.nameBytes)
    && names(r.nameBytes) == Ok(r.name)
  }

  /** A stored file is as long as it says, and none takes more than 256 MiB in the archive. */
  predicate SizesMeet(c: Central) {
    c.compressed <= 268435456 && (c.code == 0 ==> c.compressed == c.uncompressed)
  }

  /** A local record stands where the header says: its signature, the same name, an extra field
      of the length it declares, and the payload. */
  predicate LocalStands(data: seq<Byte>, c: Central, nameBytes: seq<Byte>, payload: seq<Byte>) {
    && c.local + 30 <= |data| && Holds(data, c.local, [0x50, 0x4B, 0x03, 0x04])
    && ReadU16(data, c.local + 26) == |nameBytes| && Holds(data, c.local + 30, nameBytes)
    && SizesMeet(c) && |payload| == c.compressed
    && Holds(data, c.local + 30 + |nameBytes| + ReadU16(data, c.local + 28), payload)
  }

  /** Names that end in a slash are directories. */
  predicate NamesDirectory(name: string) {
    name != "" && name[|name| - 1] == '/'
  }

  predicate RecordStands(names: NameReader, data: seq<Byte>, r: Record) {
    && HeaderStands(names, data, r)
    && (NamesDirectory(r.name) || LocalStands(data, r.central, r.nameBytes, r.payload))
  }

  /** Where the header after the first `i` of the chain stands. */
  function HeaderPos(rs: seq<Record>, start: nat, i: nat): nat
    requires i <= |rs|
  {
    if i == 0 then start
    else
      var c := rs[i - 1].central;
      rs[i - 1].at + 46 + c.nameLen + c.extraLen + c.commentLen
  }

  /** Whether a record stands in the data. */
  type Standing = Record -> bool

  function Stands(names: NameReader, data: seq<Byte>): Standing {
    r => RecordStands(names, data, r)
  }

  /** The record stands in the data, right behind the one before it. */
  predicate FollowsIn(stands: Standing, start: nat, rs: seq<Record>, i: nat)
    requires i < |rs|
  {
    stands(rs[i]) && rs[i].at == HeaderPos(rs, start, i)
  }

  /** The records stand in the data and follow each other from `start` on. */
  predicate ChainStands(stands: Standing, start: nat, rs: seq<Record>) {
    forall i :: 0 <= i < |rs| ==> FollowsIn(stands, start, rs, i)
  }

  /** Method 0 is stored, method 8 is deflated, and any other is kept as its number. */
  function EntryOf(r: Record): Option<ZipEntry> {
    if NamesDirectory(r.name) then None
    else
      var how := match r.central.code case 0 => Stored case 8 => Deflated case other => Other(other);
      Some(ZipEntry(r.name, r.central.uncompressed, how, r.payload))
  }

  /** The files among the first `n` records, in order. */
  function EntriesOf(rs: seq<Record>, n: nat): seq<ZipEntry>
    requires n <= |rs|
  {
    if n == 0 then [] else Extended(EntriesOf(rs, n - 1), EntryOf(rs[n - 1]))
  }

  /** An end record may start here. */
  predicate EndStands(data: seq<Byte>, at: nat) {
    at + 22 <= |data| && Holds(data, at, [0x50, 0x4B, 0x05, 0x06])
  }

  /** The last end record, at `at` and with at most 65535 bytes behind it, announces the chain of
      records. */
  predicate IsZip(names: NameReader, data: seq<Byte>, at: nat, rs: seq<Record>) {
    && EndStands(data, at) && |data| - 22 - at <= 65535
    && (forall later :: at < later <= |data| - 22 ==> !EndStands(data, later))
    && ReadU16(data, at + 10) == |rs| != 0xFFFF
    && ReadU32(data, at + 16) != 0xFFFF_FFFF
    && ChainStands(Stands(names, data), ReadU32(data, at + 16), rs)
  }

  // ---------------------------------------------------------------- signatures

  lemma SignatureBytes(data: seq<Byte>, at: nat, third: Byte, fourth: Byte)
    requires at + 4 <= |data|
    ensures Holds(data, at, [0x50, 0x4B, third, fourth]) <==>
      ReadU32(data, at) == 0x50 + 0x100 * 0x4B + 0x1_0000 * (third as int) + 0x100_0000 * (fourth as int)
  {
    var b := data[at..at + 4];
    assert b == [data[at], data[at + 1], data[at + 2], data[at + 3]];
  }

  lemma EndIsSignature(data: seq<Byte>, at: nat)
    ensures EndStands(data, at) <==> SignatureAt(data, at)
  {
    if at + 22 <= |data| {
      SignatureBytes(data, at, 0x05, 0x06);
    }
  }

  lemma LastEnd(data: seq<Byte>, at: nat)
    ensures LastRecordAt(data, at) <==>
      && EndStands(data, at) && |data| - 22 - at <= 65535
      && forall later :: at < later <= |data| - 22 ==> !EndStands(data, later)
  {
    forall k: nat ensures EndStands(data, k) <==> SignatureAt(data, k) {
      EndIsSignature(data, k);
    }
  }

  lemma CentralIsRead(data: seq<Byte>, at: nat, c: Central)
    requires at + 46 <= |data|
    ensures CentralStands(data, at, c) <==> ReadU32(data, at) == CENTRAL_SIGNATURE && ReadCentral(data, at) == c
  {
    SignatureBytes(data, at, 0x01, 0x02);
  }

  // ---------------------------------------------------------------- one record

  lemma HeaderIsNamed(names: NameReader, data: seq<Byte>, r: Record)
    requires HeaderStands(names, data, r)
    ensures ReadNamed(names, data, r.at) == Ok(Named(r.central, r.nameBytes, r.name))
  {
    CentralIsRead(data, r.at, r.central);
  }

  lemma NamedIsHeader(names: NameReader, data: seq<Byte>, pos: nat, payload: seq<Byte>)
    requires ReadNamed(names, data, pos).Ok?
    ensures var n := ReadNamed(names, data, pos).value;
            HeaderStands(names, data, Record(pos, n.c, n.nameBytes, n.name, payload))
  {
    CentralIsRead(data, pos, ReadNamed(names, data, pos).value.c);
  }

  /** The payload read is the one that stands there. */
  lemma LocalIsRead(data: seq<Byte>, pos: nat, c: Central, nameBytes: seq<Byte>, payload: seq<Byte>)
    ensures LocalStands(data, c, nameBytes, payload) <==> ReadLocal(data, pos, c, nameBytes) == Ok(payload)
  {
    var nameStart := c.local + LOCAL_SIZE;
    if nameStart <= |data| {
      SignatureBytes(data, c.local, 0x03, 0x04);
      var nameEnd := nameStart + ReadU16(data, c.local + 26);
      if nameEnd <= |data| {
        assert data[nameStart..nameEnd] == nameBytes ==> nameEnd - nameStart == |nameBytes|;
      }
    }
  }

  /** The reader's turn at the record gives its entry and moves to the header behind it. */
  predicate TurnsTo(turn: TurnReader, r: Record) {
    var c := r.central;
    turn(r.at) == Ok(Turned(EntryOf(r), r.at + 46 + c.nameLen + c.extraLen + c.commentLen))
  }

  lemma HalvesTurn(h: Halves, r: Record)
    requires h.named(r.at) == Ok(Named(r.central, r.nameBytes, r.name))
    requires NamesDirectory(r.name) || h.local(r.at, r.central, r.nameBytes) == Ok(r.payload)
    ensures TurnsTo(TurnsWith(h), r)
  {
  }

  lemma RecordIsTurn(names: NameReader, data: seq<Byte>, r: Record)
    requires RecordStands(names, data, r)
    ensures TurnsTo(Turns(names, data), r)
  {
    HeaderIsNamed(names, data, r);
    if !NamesDirectory(r.name) {
      LocalIsRead(data, r.at, r.central, r.nameBytes, r.payload);
    }
    HalvesTurn(Reading(names, data), r);
  }

  lemma TurnIsRecord(names: NameReader, data: seq<Byte>, pos: nat)
    requires ReadEntry(names, data, pos).Ok?
    ensures exists r: Record :: r.at == pos && RecordStands(names, data, r)
  {
    var n := ReadNamed(names, data, pos).value;
    var payload := if NamesDirectory(n.name) then [] else ReadLocal(data, pos, n.c, n.nameBytes).value;
    var r := Record(pos, n.c, n.nameBytes, n.name, payload);
    NamedIsHeader(names, data, pos, payload);
    if !NamesDirectory(n.name) {
      LocalIsRead(data, pos, n.c, n.nameBytes, payload);
    }
    assert RecordStands(names, data, r);
  }

  /** A record stands exactly where a turn succeeds, and the turn gives its entry. */
  ghost predicate Matched(turn: TurnReader, stands: Standing) {
    && (forall r :: stands(r) ==> TurnsTo(turn, r))
    && (forall pos: nat :: turn(pos).Ok? ==> exists r: Record :: r.at == pos && stands(r))
  }

  lemma ReaderMatches(names: NameReader, data: seq<Byte>)
    ensures Matched(Turns(names, data), Stands(names, data))
  {
    var turn, stands := Turns(names, data), Stands(names, data);
    forall r | stands(r) ensures TurnsTo(turn, r) {
      RecordIsTurn(names, data, r);
    }
    forall pos: nat | turn(pos).Ok? ensures exists r: Record :: r.at == pos && stands(r) {
      TurnIsRecord(names, data, pos);
      var r: Record :| r.at == pos && RecordStands(names, data, r);
      assert stands(r);
    }
  }

  // ---------------------------------------------------------------- what is wrong with other data

  /** What a central header is refused for. */
  lemma HeaderFaults(names: NameReader, data: seq<Byte>, pos: nat, c: Central)
    ensures pos + 46 > |data| ==>
      ReadNamed(names, data, pos) == Err(Truncated(pos, 46, if pos <= |data| then |data| - pos else 0))
    ensures pos + 46 <= |data| && !Holds(data, pos, [0x50, 0x4B, 0x01, 0x02]) ==>
      ReadNamed(names, data, pos) == Err(InvalidHeader(pos))
    ensures CentralStands(data, pos, c) && !Zip32(c) ==>
      ReadNamed(names, data, pos) == Err(InvalidHeader(
        if c.compressed == 0xFFFF_FFFF then pos + 20 else if c.uncompressed == 0xFFFF_FFFF then pos + 24 else pos + 42))
    ensures CentralStands(data, pos, c) && Zip32(c) && pos + 46 + c.nameLen > |data| ==>
      ReadNamed(names, data, pos) == Err(Truncated(pos + 46, c.nameLen, |data| - pos - 46))
    ensures CentralStands(data, pos, c) && Zip32(c) && pos + 46 + c.nameLen <= |data| ==>
      var name := names(data[pos + 46..pos + 46 + c.nameLen]);
      name.Err? ==> ReadNamed(names, data, pos) == Err(Located(name.error, pos + 46))
  {
    if pos + 46 <= |data| {
      SignatureBytes(data, pos, 0x01, 0x02);
      if CentralStands(data, pos, c) {
        CentralIsRead(data, pos, c);
      }
    }
  }

  /** What the record behind a header is refused for: no record, another name, its sizes, or too few
      bytes behind it. */
  lemma LocalFaults(data: seq<Byte>, pos: nat, c: Central, nameBytes: seq<Byte>)
    ensures var r, at := ReadLocal(data, pos, c, nameBytes), c.local;
      if at + 30 > |data| then r == Err(Truncated(at, 30, if at <= |data| then |data| - at else 0))
      else if !Holds(data, at, [0x50, 0x4B, 0x03, 0x04]) then r == Err(InvalidHeader(at))
      else
        var n, start := ReadU16(data, at + 26), at + 30 + ReadU16(data, at + 26) + ReadU16(data, at + 28);
        if at + 30 + n > |data| then r == Err(Truncated(at + 30, n, |data| - at - 30))
        else if data[at + 30..at + 30 + n] != nameBytes then r == Err(InvalidHeader(at))
        else if c.compressed > 268435456 then r == Err(EntryTooLarge(c.compressed, 268435456))
        else if c.code == 0 && c.compressed != c.uncompressed then r == Err(InvalidHeader(pos))
        else r.Ok? <==> start + c.compressed <= |data|
  {
    if c.local + 30 <= |data| {
      SignatureBytes(data, c.local, 0x03, 0x04);
    }
  }

  // ---------------------------------------------------------------- the chain

  lemma {:induction false} ChainIsRead(turn: TurnReader, stands: Standing, start: nat, rs: seq<Record>, n: nat)
    requires Matched(turn, stands) && ChainStands(stands, start, rs) && n <= |rs|
    ensures ReadEntries(turn, start, n) == Ok(Progress(HeaderPos(rs, start, n), EntriesOf(rs, n)))
  {
    if n > 0 {
      ChainIsRead(turn, stands, start, rs, n - 1);
      assert FollowsIn(stands, start, rs, n - 1);
      assert TurnsTo(turn, rs[n - 1]);
    }
  }

  lemma {:induction false} ReadIsChain(turn: TurnReader, stands: Standing, start: nat, n: nat) returns (rs: seq<Record>)
    requires Matched(turn, stands) && ReadEntries(turn, start, n).Ok?
    ensures |rs| == n && ChainStands(stands, start, rs)
  {
    rs := [];
    if n > 0 {
      var before := ReadIsChain(turn, stands, start, n - 1);
      ChainIsRead(turn, stands, start, before, n - 1);
      var r: Record :| r.at == HeaderPos(before, start, n - 1) && stands(r);
      rs := before + [r];
      forall i | 0 <= i < n ensures FollowsIn(stands, start, rs, i) {
        if i < n - 1 {
          assert FollowsIn(stands, start, before, i);
        }
      }
    }
  }

  lemma RecordIsFound(data: seq<Byte>, at: nat)
    requires LastRecordAt(data, at) && ReadU16(data, at + 10) != 0xFFFF && ReadU32(data, at + 16) != ZIP32_SENTINEL
    ensures FoundEocd(data) == Ok(Eocd(ReadU16(data, at + 10), ReadU32(data, at + 16)))
  {
    assert LastRecord(data) == Some(at);
  }

  lemma ReadFromRecord(names: NameReader, data: seq<Byte>, eocd: Eocd, p: Progress)
    requires FoundEocd(data) == Ok(eocd) && eocd.entryCount <= MAX_ENTRIES
    requires ReadEntries(Turns(names, data), eocd.cdOffset, eocd.entryCount) == Ok(p)
    ensures ReadZip(names, data) == Ok(p.entries)
  {
  }

  /** An archive is read as the files of its chain. */
  lemma ZipIsRead(names: NameReader, data: seq<Byte>, at: nat, rs: seq<Record>)
    requires IsZip(names, data, at, rs)
    ensures ReadZip(names, data) == Ok(EntriesOf(rs, |rs|))
  {
    var start := ReadU32(data, at + 16);
    LastEnd(data, at);
    ReaderMatches(names, data);
    ChainIsRead(Turns(names, data), Stands(names, data), start, rs, |rs|);
    RecordIsFound(data, at);
    ReadFromRecord(names, data, Eocd(|rs|, start), Progress(HeaderPos(rs, start, |rs|), EntriesOf(rs, |rs|)));
  }

  /** The reader succeeds exactly on archives, and gives the files of the chain. */
  lemma ReadZipIffArchive(names: NameReader, data: seq<Byte>)
    ensures ReadZip(names, data).Ok? <==> exists at: nat, rs :: IsZip(names, data, at, rs)
    ensures forall at: nat, rs :: IsZip(names, data, at, rs) ==> ReadZip(names, data) == Ok(EntriesOf(rs, |rs|))
  {
    forall at: nat, rs | IsZip(names, data, at, rs) ensures ReadZip(names, data) == Ok(EntriesOf(rs, |rs|)) {
      ZipIsRead(names, data, at, rs);
    }
    if ReadZip(names, data).Ok? {
      var at := LastRecord(data).value;
      var eocd := ParseEocd(data, at).value;
      LastEnd(data, at);
      ReaderMatches(names, data);
      var rs := ReadIsChain(Turns(names, data), Stands(names, data), eocd.cdOffset, eocd.entryCount);
      assert IsZip(names, data, at, rs);
    }
  }

  // ---------------------------------------------------------------- where the directory lies

  lemma {:induction false} HeadersTakeRoom(stands: Standing, start: nat, rs: seq<Record>, n: nat)
    requires ChainStands(stands, start, rs) && n <= |rs|
    ensures HeaderPos(rs, start, n) >= start + 46 * n
  {
    if n > 0 {
      HeadersTakeRoom(stands, start, rs, n - 1);
      assert FollowsIn(stands, start, rs, n - 1);
    }
  }

  /** The directory of an archive lies inside the data, unless it is empty and its offset does not. */
  lemma DirectoryInsideIff(names: NameReader, data: seq<Byte>, at: nat, rs: seq<Record>)
    requires IsZip(names, data, at, rs)
    ensures ReadU32(data, at + 16) + 46 * |rs| <= |data| <==> rs != [] || ReadU32(data, at + 16) <= |data|
  {
    if rs != [] {
      var start, last := ReadU32(data, at + 16), |rs| - 1;
      HeadersTakeRoom(Stands(names, data), start, rs, last);
      assert FollowsIn(Stands(names, data), start, rs, last);
    }
  }

  /** An end record that announces no entries, and a directory at offset 23, beyond the end of the
      data. */
  function BeyondTheEnd(): (data: seq<Byte>)
    ensures |data| == 22
  {
    [0x50, 0x4B, 0x05, 0x06] + Zeros(12) + [23, 0, 0, 0] + Zeros(2)
  }

  /** Such an archive is read, and is empty. */
  lemma EmptyDirectoryExample(names: NameReader)
    ensures var data := BeyondTheEnd();
      && IsZip(names, data, 0, []) && ReadZip(names, data) == Ok([])
      && ReadU32(data, 16) > |data|
  {
    var data := BeyondTheEnd();
    assert data[0..4] == [0x50, 0x4B, 0x05, 0x06];
    assert data[10] == 0 && data[11] == 0;
    assert data[16] == 23 && data[17] == 0 && data[18] == 0 && data[19] == 0;
    assert IsZip(names, data, 0, []);
    ZipIsRead(names, data, 0, []);
  }
}

/** The ZIP reader (`src/archive/zip.rs`). Names are read by a given function. */
module Zip {
  import opened Prelude
  import opened Bytes
  import opened EntryNames
  import opened ZipFields

  datatype ZipCompression = Stored | Deflated | Other(code: nat)

  datatype ZipEntry = ZipEntry(name: string, size: nat, compression: ZipCompression, data: seq<Byte>)

  const CENTRAL_SIGNATURE: nat := 0x0201_4B50
  const LOCAL_SIGNATURE: nat := 0x0403_4B50
  const CENTRAL_SIZE: nat := 46
  const LOCAL_SIZE: nat := 30

  function CompressionOf(code: nat): ZipCompression {
    if code == 0 then Stored else if code == 8 then Deflated else Other(code)
  }

  /** The numbers of a central directory header. */
  datatype Central = Central(code: nat, compressed: nat, uncompressed: nat, nameLen: nat, extraLen: nat,
                             commentLen: nat, local: nat)

  function ReadCentral(data: seq<Byte>, pos: nat): (c: Central)
    requires pos + CENTRAL_SIZE <= |data|
    ensures c.compressed <= 0xFFFF_FFFF && c.nameLen <= 0xFFFF && c.extraLen <= 0xFFFF && c.commentLen <= 0xFFFF
    ensures c.local <= 0xFFFF_FFFF
  {
    Central(ReadU16(data, pos + 10), ReadU32(data, pos + 20), ReadU32(data, pos + 24), ReadU16(data, pos + 28),
            ReadU16(data, pos + 30), ReadU16(data, pos + 32), ReadU32(data, pos + 42))
  }

  /** `reject_zip64_field`, for each field that can hold the mark. */
  function Zip64Fault(pos: nat, c: Central): Option<ArchiveError> {
    if c.compressed == ZIP32_SENTINEL then Some(InvalidHeader(pos + 20))
    else if c.uncompressed == ZIP32_SENTINEL then Some(InvalidHeader(pos + 24))
    else if c.local == ZIP32_SENTINEL then Some(InvalidHeader(pos + 42))
    else None
  }

  /** Reads a name: valid UTF-8 that does not climb. */
  type NameReader = seq<Byte> -> Result<string, HeaderFault>

  function Names(u: Utf8): NameReader {
    bytes =>
      match u.strict(bytes)
      case None => Err(Malformed)
      case Some(name) => if ValidName(name) then Ok(name) else Err(Escaping(name))
  }

  ghost predicate Careful(names: NameReader) {
    forall bytes :: names(bytes).Ok? ==> ValidName(names(bytes).value)
  }

  lemma NamesAreCareful(u: Utf8)
    ensures Careful(Names(u))
  {
  }

  predicate IsDirectory(name: string) {
    name != "" && name[|name| - 1] == '/'
  }

  // ---------------------------------------------------------------- one entry

  /** What the sizes in a central header are refused for. */
  function SizeFault(pos: nat, c: Central): Option<ArchiveError> {
    if c.compressed > MAX_ENTRY_BYTES then Some(EntryTooLarge(c.compressed, MAX_ENTRY_BYTES))
    else if c.code == 0 && c.compressed != c.uncompressed then Some(InvalidHeader(pos))
    else if c.code == 0 && c.uncompressed > MAX_ENTRY_BYTES then Some(EntryTooLarge(c.uncompressed, MAX_ENTRY_BYTES))
    else None
  }

  /** The payload behind the local header of an entry. */
  function ReadLocal(data: seq<Byte>, pos: nat, c: Central, nameBytes: seq<Byte>): (r: Result<seq<Byte>, ArchiveError>)
    ensures r.Ok? ==> |r.value| == c.compressed
  {
    var at, nameStart := c.local, c.local + LOCAL_SIZE;
    if nameStart > |data| then Err(Truncated(at, LOCAL_SIZE, Have(data, at)))
    else if ReadU32(data, at) != LOCAL_SIGNATURE then Err(InvalidHeader(at))
    else
      var nameLen, extraLen := ReadU16(data, at + 26), ReadU16(data, at + 28);
      var nameEnd := nameStart + nameLen;
      if nameEnd > |data| then Err(Truncated(nameStart, nameLen, Have(data, nameStart)))
      else if data[nameStart..nameEnd] != nameBytes then Err(InvalidHeader(at))
      else if SizeFault(pos, c).Some? then Err(SizeFault(pos, c).value)
      else
        var start := nameEnd + extraLen;
        var end := start + c.compressed;
        if end > |data| then Err(Truncated(start, c.compressed, Have(data, start)))
        else Ok(data[start..end])
  }

  /** `data.len().saturating_sub(at)`. */
  function Have(data: seq<Byte>, at: nat): nat {
    if at <= |data| then |data| - at else 0
  }

  // ---------------------------------------------------------------- the central directory

  /** What one turn of the reader's loop makes of the header at `pos`: its entry, unless it is a
      directory, and the position of the next header. */
  datatype Turned = Turned(entry: Option<ZipEntry>, next: nat)

  /** A central header and the bytes of the name behind it. */
  datatype Named = Named(c: Central, nameBytes: seq<Byte>, name: string)

  function ReadNamed(names: NameReader, data: seq<Byte>, pos: nat): (r: Result<Named, ArchiveError>)
    ensures r.Ok? ==> pos + CENTRAL_SIZE + r.value.c.nameLen <= |data|
  {
    var nameStart := pos + CENTRAL_SIZE;
    if nameStart > |data| then Err(Truncated(pos, CENTRAL_SIZE, Have(data, pos)))
    else if ReadU32(data, pos) != CENTRAL_SIGNATURE then Err(InvalidHeader(pos))
    else
      var c := ReadCentral(data, pos);
      var nameEnd := nameStart + c.nameLen;
      if Zip64Fault(pos, c).Some? then Err(Zip64Fault(pos, c).value)
      else if nameEnd > |data| then Err(Truncated(nameStart, c.nameLen, Have(data, nameStart)))
      else
        match names(data[nameStart..nameEnd])
        case Err(fault) => Err(Located(fault, nameStart))
        case Ok(name) => Ok(Named(c, data[nameStart..nameEnd], name))
  }

  function NextHeader(pos: nat, c: Central): nat {
    pos + CENTRAL_SIZE + c.nameLen + c.extraLen + c.commentLen
  }

  /** The two halves of reading an entry: its central header, and the payload behind its local one. */
  datatype Halves = Halves(named: nat -> Result<Named, ArchiveError>,
                           local: (nat, Central, seq<Byte>) -> Result<seq<Byte>, ArchiveError>)

  function Reading(names: NameReader, data: seq<Byte>): Halves {
    Halves((pos: nat) => ReadNamed(names, data, pos), (pos: nat, c, bytes) => ReadLocal(data, pos, c, bytes))
  }

  function TurnOf(h: Halves, pos: nat): Result<Turned, ArchiveError> {
    match h.named(pos)
    case Err(e) => Err(e)
    case Ok(Named(c, nameBytes, name)) =>
      if IsDirectory(name) then Ok(Turned(None, NextHeader(pos, c)))
      else
        match h.local(pos, c, nameBytes)
        case Err(e) => Err(e)
        case Ok(payload) =>
          Ok(Turned(Some(ZipEntry(name, c.uncompressed, CompressionOf(c.code), payload)), NextHeader(pos, c)))
  }

  function ReadEntry(names: NameReader, data: seq<Byte>, pos: nat): (r: Result<Turned, ArchiveError>)
    ensures r.Ok? ==> pos + CENTRAL_SIZE <= |data| && r.value.next >= pos + CENTRAL_SIZE
  {
    TurnOf(Reading(names, data), pos)
  }

  type TurnReader = nat -> Result<Turned, ArchiveError>

  function TurnsWith(h: Halves): TurnReader {
    (pos: nat) => TurnOf(h, pos)
  }

  function Turns(names: NameReader, data: seq<Byte>): TurnReader {
    TurnsWith(Reading(names, data))
  }

  function Extended(entries: seq<ZipEntry>, e: Option<ZipEntry>): seq<ZipEntry> {
    match e case None => entries case Some(entry) => entries + [entry]
  }

  /** How far the reader has come: where the next header starts, and the entries so far. */
  datatype Progress = Progress(pos: nat, entries: seq<ZipEntry>)

  /** The first `n` headers from `start` on. */
  function ReadEntries(turn: TurnReader, start: nat, n: nat): Result<Progress, ArchiveError> {
    if n == 0 then Ok(Progress(start, []))
    else
      match ReadEntries(turn, start, n - 1)
      case Err(e) => Err(e)
      case Ok(p) =>
        match turn(p.pos)
        case Err(e) => Err(e)
        case Ok(turned) => Ok(Progress(turned.next, Extended(p.entries, turned.entry)))
  }

  /** An error is final. */
  lemma {:induction false} ErrorStays(turn: TurnReader, start: nat, m: nat, n: nat)
    requires m <= n && ReadEntries(turn, start, m).Err?
    ensures ReadEntries(turn, start, n) == ReadEntries(turn, start, m)
    decreases n
  {
    if m < n {
      ErrorStays(turn, start, m, n - 1);
    }
  }

  /** The entries of an archive. */
  function ReadZip(names: NameReader, data: seq<Byte>): Result<seq<ZipEntry>, ArchiveError> {
    match FoundEocd(data)
    case Err(e) => Err(e)
    case Ok(eocd) =>
      if eocd.entryCount > MAX_ENTRIES then Err(TooManyEntries(eocd.entryCount, MAX_ENTRIES))
      else
        match ReadEntries(Turns(names, data), eocd.cdOffset, eocd.entryCount)
        case Err(e) => Err(e)
        case Ok(p) => Ok(p.entries)
  }

  // ---------------------------------------------------------------- the reader's loop

  /** Positions and lengths of the reader: `usize` on a 64-bit machine. */
  type Usize = x: int | 0 <= x <= USIZE_MAX

  /** Reads behind the local header. The sums of offsets never leave the `usize` range. */
  method FetchPayload(data: seq<Byte>, pos: Usize, c: Central, nameBytes: seq<Byte>)
    returns (r: Result<seq<Byte>, ArchiveError>)
    requires |data| <= I64_MAX && c.local <= 0xFFFF_FFFF && c.compressed <= 0xFFFF_FFFF
    ensures r == ReadLocal(data, pos, c, nameBytes)
  {
    var at: Usize, nameStart: Usize := c.local, c.local + LOCAL_SIZE;
    if nameStart > |data| {
      return Err(Truncated(at, LOCAL_SIZE, Have(data, at)));
    }
    if ReadU32(data, at) != LOCAL_SIGNATURE {
      return Err(InvalidHeader(at));
    }
    var nameLen, extraLen := ReadU16(data, at + 26), ReadU16(data, at + 28);
    var nameEnd: Usize := nameStart + nameLen;
    if nameEnd > |data| {
      return Err(Truncated(nameStart, nameLen, Have(data, nameStart)));
    }
    if data[nameStart..nameEnd] != nameBytes {
      return Err(InvalidHeader(at));
    }
    var start: Usize := nameEnd + extraLen;
    if c.compressed > MAX_ENTRY_BYTES {
      return Err(EntryTooLarge(c.compressed, MAX_ENTRY_BYTES));
    }
    if CompressionOf(c.code) == Stored {
      if c.compressed != c.uncompressed {
        return Err(InvalidHeader(pos));
      }
      if c.uncompressed > MAX_ENTRY_BYTES {
        return Err(EntryTooLarge(c.uncompressed, MAX_ENTRY_BYTES));
      }
    }
    var end: Usize := start + c.compressed;
    if end > |data| {
      return Err(Truncated(start, c.compressed, Have(data, start)));
    }
    return Ok(data[start..end]);
  }

  /** Reads the header at `pos` and the name behind it. */
  method FetchNamed(names: NameReader, data: seq<Byte>, pos: Usize) returns (r: Result<Named, ArchiveError>)
    requires |data| <= I64_MAX && pos <= |data| + 0x1_0000_0000
    ensures r == ReadNamed(names, data, pos)
    ensures r.Ok? ==> r.value.c == ReadCentral(data, pos)
  {
    var nameStart: Usize := pos + CENTRAL_SIZE;
    if nameStart > |data| {
      return Err(Truncated(pos, CENTRAL_SIZE, Have(data, pos)));
    }
    if ReadU32(data, pos) != CENTRAL_SIGNATURE {
      return Err(InvalidHeader(pos));
    }
    var c := ReadCentral(data, pos);
    if c.compressed == ZIP32_SENTINEL {
      return Err(InvalidHeader(pos + 20));
    }
    if c.uncompressed == ZIP32_SENTINEL {
      return Err(InvalidHeader(pos + 24));
    }
    if c.local == ZIP32_SENTINEL {
      return Err(InvalidHeader(pos + 42));
    }
    var nameEnd: Usize := nameStart + c.nameLen;
    if nameEnd > |data| {
      return Err(Truncated(nameStart, c.nameLen, Have(data, nameStart)));
    }
    var nameBytes := data[nameStart..nameEnd];
    var name := names(nameBytes);
    if name.Err? {
      return Err(Located(name.error, nameStart));
    }
    return Ok(Named(c, nameBytes, name.value));
  }

  /** One turn of the loop over the central directory. */
  method TakeEntry(names: NameReader, data: seq<Byte>, pos: Usize) returns (r: Result<Turned, ArchiveError>)
    requires |data| <= I64_MAX && pos <= |data| + 0x1_0000_0000
    ensures r == ReadEntry(names, data, pos)
    ensures r.Ok? ==> pos + 46 <= |data| && r.value.next <= |data| + 0x1_0000_0000
    ensures r.Ok? && r.value.entry.Some? ==>
      var code, how := ReadU16(data, pos + 10), r.value.entry.value.compression;
      (how == Stored <==> code == 0) && (how == Deflated <==> code == 8) && (how.Other? ==> how == Other(code))
  {
    var named := FetchNamed(names, data, pos);
    if named.Err? {
      return Err(named.error);
    }
    var c, name := named.value.c, named.value.name;
    var entry: Option<ZipEntry> := None;
    if !IsDirectory(name) {
      var payload := FetchPayload(data, pos, c, named.value.nameBytes);
      if payload.Err? {
        return Err(payload.error);
      }
      entry := Some(ZipEntry(name, c.uncompressed, CompressionOf(c.code), payload.value));
    }
    var next: Usize := pos + CENTRAL_SIZE + c.nameLen + c.extraLen + c.commentLen;
    return Ok(Turned(entry, next));
  }

  /** The loop over the central directory. */
  method TakeEntries(names: NameReader, data: seq<Byte>, start: Usize, count: nat)
    returns (r: Result<Progress, ArchiveError>)
    requires |data| <= I64_MAX && start <= 0xFFFF_FFFF
    ensures r == ReadEntries(Turns(names, data), start, count)
  {
    var entries: seq<ZipEntry>, pos: Usize := [], start;
    for i := 0 to count
      invariant 0 <= pos <= |data| + 0x1_0000_0000
      invariant ReadEntries(Turns(names, data), start, i) == Ok(Progress(pos, entries))
    {
      var turned := TakeEntry(names, data, pos);
      if turned.Err? {
        ErrorStays(Turns(names, data), start, i + 1, count);
        return Err(turned.error);
      }
      entries := Extended(entries, turned.value.entry);
      pos := turned.value.next;
    }
    return Ok(Progress(pos, entries));
  }

  /** `ZipReader::entries`. No read is out of bounds and no position overflows. */
  method Entries(names: NameReader, data: seq<Byte>) returns (r: Result<seq<ZipEntry>, ArchiveError>)
    requires |data| <= I64_MAX
    ensures r == ReadZip(names, data)
  {
    var eocd := FindEocd(data);
    if eocd.Err? {
      return Err(eocd.error);
    }
    if eocd.value.entryCount > MAX_ENTRIES {
      return Err(TooManyEntries(eocd.value.entryCount, MAX_ENTRIES));
    }
    EocdBounds(data);
    var taken := TakeEntries(names, data, eocd.value.cdOffset, eocd.value.entryCount);
    r := if taken.Ok? then Ok(taken.value.entries) else Err(taken.error);
  }

  lemma EocdBounds(data: seq<Byte>)
    ensures FoundEocd(data).Ok? ==> FoundEocd(data).value.cdOffset <= 0xFFFF_FFFF
  {
  }

  // ---------------------------------------------------------------- what entries look like

  /** An entry is a named file, with a payload taken from the data as it stands. */
  ghost predicate EntryOk(data: seq<Byte>, e: ZipEntry) {
    && ValidName(e.name) && !IsDirectory(e.name)
    && |e.data| <= MAX_ENTRY_BYTES
    && (e.compression == Stored ==> e.size == |e.data|)
    && exists start: nat :: Holds(data, start, e.data)
  }

  lemma ReadEntryOk(names: NameReader, data: seq<Byte>, pos: nat)
    requires Careful(names) && ReadEntry(names, data, pos).Ok? && ReadEntry(names, data, pos).value.entry.Some?
    ensures EntryOk(data, ReadEntry(names, data, pos).value.entry.value)
  {
    var named := ReadNamed(names, data, pos).value;
    LocalIsInside(data, pos, named.c, named.nameBytes);
  }

  lemma LocalIsInside(data: seq<Byte>, pos: nat, c: Central, nameBytes: seq<Byte>)
    requires ReadLocal(data, pos, c, nameBytes).Ok?
    ensures exists start: nat :: Holds(data, start, ReadLocal(data, pos, c, nameBytes).value)
  {
    var start := c.local + LOCAL_SIZE + ReadU16(data, c.local + 26) + ReadU16(data, c.local + 28);
    assert Holds(data, start, ReadLocal(data, pos, c, nameBytes).value);
  }

  ghost predicate TurnOk(data: seq<Byte>, pos: nat, turned: Turned) {
    && pos + CENTRAL_SIZE <= |data| && turned.next >= pos + CENTRAL_SIZE
    && (turned.entry.Some? ==> EntryOk(data, turned.entry.value))
  }

  ghost predicate TurnsOk(data: seq<Byte>, turn: TurnReader) {
    forall pos :: turn(pos).Ok? ==> TurnOk(data, pos, turn(pos).value)
  }

  lemma ReaderTurnsOk(names: NameReader, data: seq<Byte>)
    requires Careful(names)
    ensures TurnsOk(data, Turns(names, data))
  {
    forall pos | Turns(names, data)(pos).Ok? ensures TurnOk(data, pos, Turns(names, data)(pos).value) {
      if Turns(names, data)(pos).value.entry.Some? {
        ReadEntryOk(names, data, pos);
      }
    }
  }

  /** Every entry is such a file, and each header taken lies inside the data. */
  lemma {:induction false} EntriesFit(turn: TurnReader, data: seq<Byte>, start: nat, n: nat)
    requires TurnsOk(data, turn) && ReadEntries(turn, start, n).Ok?
    ensures var p := ReadEntries(turn, start, n).value;
            && |p.entries| <= n && p.pos >= start + CENTRAL_SIZE * n
            && (forall i :: 0 <= i < |p.entries| ==> EntryOk(data, p.entries[i]))
    ensures n > 0 ==> start + CENTRAL_SIZE * n <= |data|
  {
    if n > 0 {
      EntriesFit(turn, data, start, n - 1);
      var p := ReadEntries(turn, start, n - 1).value;
      assert TurnOk(data, p.pos, turn(p.pos).value);
    }
  }

  /** The record at `at` announces a directory that lies inside the data. */
  predicate DirectoryFits(data: seq<Byte>, at: nat, entries: nat) {
    && at + EOCD_SIZE <= |data| && ParseEocd(data, at).Ok?
    && var eocd := ParseEocd(data, at).value;
       && entries <= eocd.entryCount < 0xFFFF
       && (eocd.entryCount > 0 ==> eocd.cdOffset + CENTRAL_SIZE * eocd.entryCount <= |data|)
  }

  /** A successful read: the last end record's directory lies inside the data, and every entry
      is a safely named part of the data. */
  lemma ReadZipFits(names: NameReader, data: seq<Byte>)
    requires Careful(names) && ReadZip(names, data).Ok?
    ensures exists at: nat :: LastRecordAt(data, at) && DirectoryFits(data, at, |ReadZip(names, data).value|)
    ensures forall i :: 0 <= i < |ReadZip(names, data).value| ==> EntryOk(data, ReadZip(names, data).value[i])
  {
    var at := LastRecord(data).value;
    var eocd := ParseEocd(data, at).value;
    ReaderTurnsOk(names, data);
    EntriesFit(Turns(names, data), data, eocd.cdOffset, eocd.entryCount);
    assert LastRecordAt(data, at) && DirectoryFits(data, at, |ReadZip(names, data).value|);
  }
}

/** A ZIP writer to set against the reader: what it writes, the reader of `src/archive/zip.rs`
    gives back. Layout as in PKWARE APPNOTE.TXT, sections 4.3.7, 4.3.12 and 4.3.16. */
module ZipWriter {
  import opened Prelude
  import opened Bytes
  import opened EntryNames
  import opened ZipFields
  import opened Zip

  /** One file or directory to write. `made`, `stamp`, `attributes` and `localHead` fill the
      fields the reader ignores. */
  datatype ZipFile = ZipFile(name: string, code: nat, size: nat, payload: seq<Byte>,
                             made: seq<Byte>, stamp: seq<Byte>, attributes: seq<Byte>, extra: seq<Byte>,
                             comment: seq<Byte>, localHead: seq<Byte>, localExtra: seq<Byte>)

  /** Every field fits the place it is written to. */
  predicate FieldsOk(u: Utf8, f: ZipFile) {
    && |u.encode(f.name)| <= 0xFFFF
    && f.code <= 0xFFFF && f.size < ZIP32_SENTINEL && |f.payload| <= MAX_ENTRY_BYTES
    && (f.code == 0 ==> f.size == |f.payload|)
    && |f.made| == 6 && |f.stamp| == 8 && |f.attributes| == 8 && |f.localHead| == 22
    && |f.extra| <= 0xFFFF && |f.comment| <= 0xFFFF && |f.localExtra| <= 0xFFFF
  }

  predicate Writable(u: Utf8, f: ZipFile) {
    FieldsOk(u, f) && ValidName(f.name)
  }

  predicate AllWritable(u: Utf8, fs: seq<ZipFile>) {
    forall i :: 0 <= i < |fs| ==> Writable(u, fs[i])
  }

  // ---------------------------------------------------------------- records

  function LocalHeader(u: Utf8, f: ZipFile): seq<Byte> {
    Le32(LOCAL_SIGNATURE) + f.localHead + Le16(|u.encode(f.name)|) + Le16(|f.localExtra|)
  }

  function LocalBytes(u: Utf8, f: ZipFile): seq<Byte> {
    LocalHeader(u, f) + u.encode(f.name) + f.localExtra + f.payload
  }

  function CentralHeader(u: Utf8, f: ZipFile, local: nat): seq<Byte> {
    Le32(CENTRAL_SIGNATURE) + f.made + Le16(f.code) + f.stamp + Le32(|f.payload|) + Le32(f.size)
    + Le16(|u.encode(f.name)|) + Le16(|f.extra|) + Le16(|f.comment|) + f.attributes + Le32(local)
  }

  function CentralBytes(u: Utf8, f: ZipFile, local: nat): seq<Byte> {
    CentralHeader(u, f, local) + u.encode(f.name) + f.extra + f.comment
  }

  /** How a file is written: its local record, and its central record for a given offset. */
  datatype Writer = Writer(local: ZipFile -> seq<Byte>, central: (ZipFile, nat) -> seq<Byte>)

  function Records(u: Utf8): Writer {
    Writer(f => LocalBytes(u, f), (f, local: nat) => CentralBytes(u, f, local))
  }

  // ---------------------------------------------------------------- reading what stands in the data

  lemma Held16(data: seq<Byte>, at: nat, bytes: seq<Byte>, k: nat, v: nat)
    requires Holds(data, at, bytes) && k + 2 <= |bytes| && v <= 0xFFFF && bytes[k..k + 2] == Le16(v)
    ensures ReadU16(data, at + k) == v
  {
    HeldPart(data, at, bytes, k, k + 2);
    FieldsRoundTrip(data, at + k, v);
  }

  lemma Held32(data: seq<Byte>, at: nat, bytes: seq<Byte>, k: nat, v: nat)
    requires Holds(data, at, bytes) && k + 4 <= |bytes| && v <= 0xFFFF_FFFF && bytes[k..k + 4] == Le32(v)
    ensures ReadU32(data, at + k) == v
  {
    HeldPart(data, at, bytes, k, k + 4);
    FieldsRoundTrip(data, at + k, v);
  }

  lemma CentralFields(u: Utf8, f: ZipFile, local: nat)
    requires FieldsOk(u, f)
    ensures var h := CentralHeader(u, f, local);
            && |h| == CENTRAL_SIZE
            && h[0..4] == Le32(CENTRAL_SIGNATURE) && h[10..12] == Le16(f.code)
            && h[20..24] == Le32(|f.payload|) && h[24..28] == Le32(f.size)
            && h[28..30] == Le16(|u.encode(f.name)|) && h[30..32] == Le16(|f.extra|)
            && h[32..34] == Le16(|f.comment|) && h[42..46] == Le32(local)
  {
  }

  function CentralOf(u: Utf8, f: ZipFile, local: nat): Central {
    Central(f.code, |f.payload|, f.size, |u.encode(f.name)|, |f.extra|, |f.comment|, local)
  }

  lemma HeaderReads(u: Utf8, f: ZipFile, local: nat, data: seq<Byte>, pos: nat)
    requires FieldsOk(u, f) && local < ZIP32_SENTINEL && Holds(data, pos, CentralHeader(u, f, local))
    ensures pos + CENTRAL_SIZE <= |data|
    ensures ReadU32(data, pos) == CENTRAL_SIGNATURE && ReadCentral(data, pos) == CentralOf(u, f, local)
  {
    var h := CentralHeader(u, f, local);
    CentralFields(u, f, local);
    Held32(data, pos, h, 0, CENTRAL_SIGNATURE);
    Held16(data, pos, h, 10, f.code);
    Held32(data, pos, h, 20, |f.payload|);
    Held32(data, pos, h, 24, f.size);
    Held16(data, pos, h, 28, |u.encode(f.name)|);
    Held16(data, pos, h, 30, |f.extra|);
    Held16(data, pos, h, 32, |f.comment|);
    Held32(data, pos, h, 42, local);
  }

  lemma CentralParts(u: Utf8, f: ZipFile, local: nat, data: seq<Byte>, pos: nat)
    requires FieldsOk(u, f) && Holds(data, pos, CentralBytes(u, f, local))
    ensures var n := u.encode(f.name);
            && Holds(data, pos, CentralHeader(u, f, local)) && Holds(data, pos + CENTRAL_SIZE, n)
            && |CentralBytes(u, f, local)| == CENTRAL_SIZE + |n| + |f.extra| + |f.comment|
  {
    var h, n := CentralHeader(u, f, local), u.encode(f.name);
    HeldSplit(data, pos, h + n + f.extra, f.comment);
    HeldSplit(data, pos, h + n, f.extra);
    HeldSplit(data, pos, h, n);
  }

  /** The header of a written file and its name are read back. */
  lemma NamedReads(names: NameReader, u: Utf8, f: ZipFile, local: nat, data: seq<Byte>, pos: nat)
    requires FieldsOk(u, f) && names(u.encode(f.name)) == Ok(f.name)
    requires local < ZIP32_SENTINEL && Holds(data, pos, CentralBytes(u, f, local))
    ensures ReadNamed(names, data, pos) == Ok(Named(CentralOf(u, f, local), u.encode(f.name), f.name))
  {
    CentralParts(u, f, local, data, pos);
    HeaderReads(u, f, local, data, pos);
  }

  lemma LocalParts(u: Utf8, f: ZipFile, data: seq<Byte>, at: nat)
    requires FieldsOk(u, f) && Holds(data, at, LocalBytes(u, f))
    ensures var n := u.encode(f.name);
            && Holds(data, at, LocalHeader(u, f)) && Holds(data, at + LOCAL_SIZE, n)
            && Holds(data, at + LOCAL_SIZE + |n| + |f.localExtra|, f.payload)
  {
    var h, n := LocalHeader(u, f), u.encode(f.name);
    HeldSplit(data, at, h + n + f.localExtra, f.payload);
    HeldSplit(data, at, h + n, f.localExtra);
    HeldSplit(data, at, h, n);
  }

  lemma LocalHeaderReads(u: Utf8, f: ZipFile, data: seq<Byte>, at: nat)
    requires FieldsOk(u, f) && Holds(data, at, LocalHeader(u, f))
    ensures at + LOCAL_SIZE <= |data| && ReadU32(data, at) == LOCAL_SIGNATURE
    ensures ReadU16(data, at + 26) == |u.encode(f.name)| && ReadU16(data, at + 28) == |f.localExtra|
  {
    var h, n := LocalHeader(u, f), u.encode(f.name);
    assert |h| == LOCAL_SIZE;
    assert h[0..4] == Le32(LOCAL_SIGNATURE) && h[26..28] == Le16(|n|) && h[28..30] == Le16(|f.localExtra|);
    Held32(data, at, h, 0, LOCAL_SIGNATURE);
    Held16(data, at, h, 26, |n|);
    Held16(data, at, h, 28, |f.localExtra|);
  }

  /** The payload of a written file is read back. */
  lemma LocalReads(u: Utf8, f: ZipFile, local: nat, data: seq<Byte>, pos: nat)
    requires FieldsOk(u, f) && Holds(data, local, LocalBytes(u, f))
    ensures ReadLocal(data, pos, CentralOf(u, f, local), u.encode(f.name)) == Ok(f.payload)
  {
    LocalParts(u, f, data, local);
    LocalHeaderReads(u, f, data, local);
  }

  /** What reading one written file should give; names that end in a slash are directories. */
  function Expected(f: ZipFile): Option<ZipEntry> {
    if f.name != "" && f.name[|f.name| - 1] == '/' then None
    else
      var how := match f.code case 0 => Stored case 8 => Deflated case other => Other(other);
      Some(ZipEntry(f.name, f.size, how, f.payload))
  }

  /** Wherever its records stand, the halves of reading the file give back what was written. */
  ghost predicate HalvesBack(h: Halves, u: Utf8, w: Writer, data: seq<Byte>, f: ZipFile) {
    && (forall local: nat, pos: nat :: local < ZIP32_SENTINEL && Holds(data, pos, w.central(f, local)) ==>
          && h.named(pos) == Ok(Named(CentralOf(u, f, local), u.encode(f.name), f.name))
          && NextHeader(pos, CentralOf(u, f, local)) == pos + |w.central(f, local)|)
    && (forall local: nat, pos: nat :: Holds(data, local, w.local(f)) ==>
          h.local(pos, CentralOf(u, f, local), u.encode(f.name)) == Ok(f.payload))
  }

  lemma HalvesReadBack(names: NameReader, u: Utf8, f: ZipFile, data: seq<Byte>)
    requires FieldsOk(u, f) && names(u.encode(f.name)) == Ok(f.name)
    ensures HalvesBack(Reading(names, data), u, Records(u), data, f)
  {
    forall local: nat, pos: nat | local < ZIP32_SENTINEL && Holds(data, pos, CentralBytes(u, f, local))
      ensures ReadNamed(names, data, pos) == Ok(Named(CentralOf(u, f, local), u.encode(f.name), f.name))
      ensures NextHeader(pos, CentralOf(u, f, local)) == pos + |CentralBytes(u, f, local)|
    {
      NamedReads(names, u, f, local, data, pos);
      CentralParts(u, f, local, data, pos);
    }
    forall local: nat, pos: nat | Holds(data, local, LocalBytes(u, f))
      ensures ReadLocal(data, pos, CentralOf(u, f, local), u.encode(f.name)) == Ok(f.payload)
    {
      LocalReads(u, f, local, data, pos);
    }
  }

  lemma NameReads(u: Utf8, f: ZipFile)
    requires u.Lawful() && Writable(u, f)
    ensures Names(u)(u.encode(f.name)) == Ok(f.name)
  {
    assert u.strict(u.encode(f.name)) == Some(f.name);
  }

  // ---------------------------------------------------------------- archives

  function Locals(w: Writer, fs: seq<ZipFile>): seq<Byte> {
    if fs == [] then [] else Locals(w, fs[..|fs| - 1]) + w.local(fs[|fs| - 1])
  }

  function Centrals(w: Writer, fs: seq<ZipFile>): seq<Byte> {
    if fs == [] then []
    else
      var init := fs[..|fs| - 1];
      Centrals(w, init) + w.central(fs[|fs| - 1], |Locals(w, init)|)
  }

  /** The files of the list, in order; directories are left out. */
  function ExpectedEntries(fs: seq<ZipFile>): seq<ZipEntry> {
    if fs == [] then [] else Extended(ExpectedEntries(fs[..|fs| - 1]), Expected(fs[|fs| - 1]))
  }

  lemma {:induction false} RecordsPrefix(w: Writer, fs: seq<ZipFile>, i: nat)
    requires i <= |fs|
    ensures Locals(w, fs[..i]) <= Locals(w, fs) && Centrals(w, fs[..i]) <= Centrals(w, fs)
  {
    if i < |fs| {
      RecordsPrefix(w, fs[..|fs| - 1], i);
      assert fs[..|fs| - 1][..i] == fs[..i];
    } else {
      assert fs[..i] == fs;
    }
  }

  lemma PrefixHolds(data: seq<Byte>, at: nat, all: seq<Byte>, before: seq<Byte>, piece: seq<Byte>)
    requires Holds(data, at, all) && before + piece <= all
    ensures Holds(data, at + |before|, piece)
  {
    HeldPart(data, at, all, 0, |before + piece|);
    HeldSplit(data, at, before, piece);
  }

  /** Where the records of file `i` stand. */
  lemma RecordsStand(w: Writer, fs: seq<ZipFile>, i: nat, data: seq<Byte>, start: nat)
    requires i < |fs| && Holds(data, 0, Locals(w, fs)) && Holds(data, start, Centrals(w, fs))
    ensures var local, pos := |Locals(w, fs[..i])|, start + |Centrals(w, fs[..i])|;
            && local <= |Locals(w, fs)|
            && Holds(data, local, w.local(fs[i])) && Holds(data, pos, w.central(fs[i], local))
            && start + |Centrals(w, fs[..i + 1])| == pos + |w.central(fs[i], local)|
  {
    assert fs[..i + 1][..i] == fs[..i] && fs[..i + 1][i] == fs[i];
    RecordsPrefix(w, fs, i);
    RecordsPrefix(w, fs, i + 1);
    PrefixHolds(data, 0, Locals(w, fs), Locals(w, fs[..i]), w.local(fs[i]));
    PrefixHolds(data, start, Centrals(w, fs), Centrals(w, fs[..i]), w.central(fs[i], |Locals(w, fs[..i])|));
  }

  /** Turn `k` of the reader goes over the records of file `k`. */
  predicate TurnsOver(turn: TurnReader, w: Writer, fs: seq<ZipFile>, start: nat, k: nat)
    requires k < |fs|
  {
    turn(start + |Centrals(w, fs[..k])|) == Ok(Turned(Expected(fs[k]), start + |Centrals(w, fs[..k + 1])|))
  }

  predicate AllTurnsOver(turn: TurnReader, w: Writer, fs: seq<ZipFile>, start: nat) {
    forall k :: 0 <= k < |fs| ==> TurnsOver(turn, w, fs, start, k)
  }

  lemma TurnBack(h: Halves, u: Utf8, w: Writer, data: seq<Byte>, f: ZipFile, local: nat, pos: nat)
    requires HalvesBack(h, u, w, data, f) && local < ZIP32_SENTINEL
    requires Holds(data, pos, w.central(f, local)) && Holds(data, local, w.local(f))
    ensures TurnOf(h, pos) == Ok(Turned(Expected(f), pos + |w.central(f, local)|))
  {
    assert h.local(pos, CentralOf(u, f, local), u.encode(f.name)) == Ok(f.payload);
  }

  /** Where the records of file `k` stand, and where the next central record does. */
  predicate StandAt(w: Writer, fs: seq<ZipFile>, k: nat, data: seq<Byte>, start: nat, local: nat, pos: nat, next: nat)
    requires k < |fs|
  {
    && local < ZIP32_SENTINEL && Holds(data, local, w.local(fs[k])) && Holds(data, pos, w.central(fs[k], local))
    && pos == start + |Centrals(w, fs[..k])| && next == start + |Centrals(w, fs[..k + 1])|
    && next == pos + |w.central(fs[k], local)|
  }

  lemma TurnOfRecords(h: Halves, u: Utf8, w: Writer, fs: seq<ZipFile>, k: nat, data: seq<Byte>, start: nat,
                      local: nat, pos: nat, next: nat)
    requires k < |fs| && HalvesBack(h, u, w, data, fs[k]) && StandAt(w, fs, k, data, start, local, pos, next)
    ensures TurnsWith(h)(pos) == Ok(Turned(Expected(fs[k]), next))
  {
    TurnBack(h, u, w, data, fs[k], local, pos);
  }

  lemma TurnIsOver(turn: TurnReader, w: Writer, fs: seq<ZipFile>, start: nat, k: nat, pos: nat, next: nat)
    requires k < |fs| && pos == start + |Centrals(w, fs[..k])| && next == start + |Centrals(w, fs[..k + 1])|
    requires turn(pos) == Ok(Turned(Expected(fs[k]), next))
    ensures TurnsOver(turn, w, fs, start, k)
  {
  }

  lemma EachTurn(h: Halves, u: Utf8, w: Writer, fs: seq<ZipFile>, k: nat, data: seq<Byte>, start: nat)
    requires k < |fs| && |Locals(w, fs)| < ZIP32_SENTINEL && HalvesBack(h, u, w, data, fs[k])
    requires Holds(data, 0, Locals(w, fs)) && Holds(data, start, Centrals(w, fs))
    ensures TurnsOver(TurnsWith(h), w, fs, start, k)
  {
    var local, pos, next := |Locals(w, fs[..k])|, start + |Centrals(w, fs[..k])|, start + |Centrals(w, fs[..k + 1])|;
    assert StandAt(w, fs, k, data, start, local, pos, next) by {
      RecordsStand(w, fs, k, data, start);
    }
    TurnOfRecords(h, u, w, fs, k, data, start, local, pos, next);
    TurnIsOver(TurnsWith(h), w, fs, start, k, pos, next);
  }

  /** After `i` headers the reader stands behind the first `i` records, with their files in hand. */
  lemma {:induction false} DirectoryReads(turn: TurnReader, w: Writer, fs: seq<ZipFile>, i: nat, start: nat)
    requires i <= |fs| && AllTurnsOver(turn, w, fs, start)
    ensures ReadEntries(turn, start, i) == Ok(Progress(start + |Centrals(w, fs[..i])|, ExpectedEntries(fs[..i])))
  {
    if i > 0 {
      DirectoryReads(turn, w, fs, i - 1, start);
      assert TurnsOver(turn, w, fs, start, i - 1);
      assert fs[..i][..i - 1] == fs[..i - 1];
    }
  }

  // ---------------------------------------------------------------- the end record

  /** What surrounds the files: the fields of the end record the reader ignores, and the comment. */
  datatype Trailer = Trailer(disks: seq<Byte>, directorySize: nat, comment: seq<Byte>)

  predicate TrailerOk(t: Trailer) {
    |t.disks| == 6 && t.directorySize <= 0xFFFF_FFFF && |t.comment| <= 0xFFFF
  }

  function EndRecord(t: Trailer, count: nat, offset: nat): seq<Byte> {
    Le32(EOCD_SIGNATURE) + t.disks + Le16(count) + Le32(t.directorySize) + Le32(offset) + Le16(|t.comment|) + t.comment
  }

  /** No end record starts inside the written one or its comment. */
  predicate NoLaterRecord(record: seq<Byte>) {
    forall k :: 0 < k <= |record| - EOCD_SIZE ==> !SignatureAt(record, k)
  }

  lemma SignatureShifts(data: seq<Byte>, at: nat, record: seq<Byte>, k: nat)
    requires Holds(data, at, record) && at + |record| == |data|
    ensures SignatureAt(data, at + k) <==> SignatureAt(record, k)
  {
    if k + EOCD_SIZE <= |record| {
      HeldPart(data, at, record, k, |record|);
      var rest := record[k..];
      assert data[at + k..] == rest && rest[0] == record[k] && rest[1] == record[k + 1];
      assert rest[2] == record[k + 2] && rest[3] == record[k + 3];
    }
  }

  /** The reader finds the written record exactly when its comment hides no later one. */
  lemma FindsRecord(data: seq<Byte>, at: nat, record: seq<Byte>)
    requires Holds(data, at, record) && at + |record| == |data|
    requires EOCD_SIZE <= |record| <= EOCD_SIZE + 0xFFFF && SignatureAt(record, 0)
    ensures LastRecord(data) == Some(at) <==> NoLaterRecord(record)
  {
    SignatureShifts(data, at, record, 0);
    if NoLaterRecord(record) {
      forall later | at < later <= |data| - EOCD_SIZE ensures !SignatureAt(data, later) {
        SignatureShifts(data, at, record, later - at);
      }
      assert LastRecordAt(data, at);
    } else {
      var k :| 0 < k <= |record| - EOCD_SIZE && SignatureAt(record, k);
      SignatureShifts(data, at, record, k);
      assert !LastRecordAt(data, at);
    }
  }

  lemma EndFields(t: Trailer, count: nat, offset: nat)
    requires TrailerOk(t) && count < 0xFFFF && offset < ZIP32_SENTINEL
    ensures var r := EndRecord(t, count, offset);
            r[0..4] == Le32(EOCD_SIGNATURE) && r[10..12] == Le16(count) && r[16..20] == Le32(offset)
  {
  }

  lemma EndRecordReads(t: Trailer, count: nat, offset: nat, data: seq<Byte>, at: nat)
    requires TrailerOk(t) && count < 0xFFFF && offset < ZIP32_SENTINEL
    requires Holds(data, at, EndRecord(t, count, offset))
    ensures SignatureAt(EndRecord(t, count, offset), 0)
    ensures ParseEocd(data, at) == Ok(Eocd(count, offset))
  {
    var r := EndRecord(t, count, offset);
    EndFields(t, count, offset);
    assert r[0..|r|] == r;
    Held32(r, 0, r, 0, EOCD_SIGNATURE);
    Held16(data, at, r, 10, count);
    Held32(data, at, r, 16, offset);
  }

  // ---------------------------------------------------------------- round trip

  function WriteZip(w: Writer, fs: seq<ZipFile>, t: Trailer): seq<Byte> {
    Locals(w, fs) + Centrals(w, fs) + EndRecord(t, |fs|, |Locals(w, fs)|)
  }

  predicate ArchiveOk(u: Utf8, fs: seq<ZipFile>, t: Trailer) {
    AllWritable(u, fs) && |fs| < 0xFFFF && |Locals(Records(u), fs)| < ZIP32_SENTINEL && TrailerOk(t)
  }

  lemma PartsHold(a: seq<Byte>, b: seq<Byte>, c: seq<Byte>)
    ensures var data := a + b + c;
            Holds(data, 0, a) && Holds(data, |a|, b) && Holds(data, |a| + |b|, c)
  {
    var data := a + b + c;
    assert data[0..|data|] == data;
    HeldSplit(data, 0, a + b, c);
    HeldSplit(data, 0, a, b);
  }

  lemma WrittenTurn(u: Utf8, fs: seq<ZipFile>, k: nat, data: seq<Byte>, start: nat)
    requires u.Lawful() && k < |fs| && Writable(u, fs[k]) && |Locals(Records(u), fs)| < ZIP32_SENTINEL
    requires Holds(data, 0, Locals(Records(u), fs)) && Holds(data, start, Centrals(Records(u), fs))
    ensures TurnsOver(Turns(Names(u), data), Records(u), fs, start, k)
  {
    NameReads(u, fs[k]);
    HalvesReadBack(Names(u), u, fs[k], data);
    EachTurn(Reading(Names(u), data), u, Records(u), fs, k, data, start);
  }

  lemma WrittenTurns(u: Utf8, fs: seq<ZipFile>, data: seq<Byte>, start: nat)
    requires u.Lawful() && AllWritable(u, fs) && |Locals(Records(u), fs)| < ZIP32_SENTINEL
    requires Holds(data, 0, Locals(Records(u), fs)) && Holds(data, start, Centrals(Records(u), fs))
    ensures AllTurnsOver(Turns(Names(u), data), Records(u), fs, start)
  {
    forall k | 0 <= k < |fs| ensures TurnsOver(Turns(Names(u), data), Records(u), fs, start, k) {
      WrittenTurn(u, fs, k, data, start);
    }
  }

  lemma FoundIsParsed(data: seq<Byte>, at: nat, eocd: Eocd)
    requires LastRecord(data) == Some(at) && ParseEocd(data, at) == Ok(eocd)
    ensures FoundEocd(data) == Ok(eocd)
  {
  }

  /** Wherever a written end record ends the data, it is the one that is found. */
  lemma EndIsFound(data: seq<Byte>, at: nat, t: Trailer, count: nat, offset: nat)
    requires TrailerOk(t) && count < 0xFFFF && offset < ZIP32_SENTINEL
    requires NoLaterRecord(EndRecord(t, count, offset))
    requires Holds(data, at, EndRecord(t, count, offset)) && at + |EndRecord(t, count, offset)| == |data|
    ensures FoundEocd(data) == Ok(Eocd(count, offset))
  {
    EndRecordReads(t, count, offset, data, at);
    FindsRecord(data, at, EndRecord(t, count, offset));
    FoundIsParsed(data, at, Eocd(count, offset));
  }

  lemma WrittenEocd(u: Utf8, fs: seq<ZipFile>, t: Trailer)
    requires ArchiveOk(u, fs, t) && NoLaterRecord(EndRecord(t, |fs|, |Locals(Records(u), fs)|))
    ensures var l, data := Locals(Records(u), fs), WriteZip(Records(u), fs, t);
            && FoundEocd(data) == Ok(Eocd(|fs|, |l|))
            && Holds(data, 0, l) && Holds(data, |l|, Centrals(Records(u), fs))
  {
    var l, c := Locals(Records(u), fs), Centrals(Records(u), fs);
    PartsHold(l, c, EndRecord(t, |fs|, |l|));
    EndIsFound(WriteZip(Records(u), fs, t), |l| + |c|, t, |fs|, |l|);
  }

  /** Reading a written archive gives back its files, in order, with names, sizes, methods and
      payloads, as long as the archive comment holds no later end record. */
  lemma ZipRoundTrip(u: Utf8, fs: seq<ZipFile>, t: Trailer)
    requires u.Lawful() && ArchiveOk(u, fs, t)
    requires NoLaterRecord(EndRecord(t, |fs|, |Locals(Records(u), fs)|))
    ensures ReadZip(Names(u), WriteZip(Records(u), fs, t)) == Ok(ExpectedEntries(fs))
  {
    var data, start := WriteZip(Records(u), fs, t), |Locals(Records(u), fs)|;
    WrittenEocd(u, fs, t);
    WrittenTurns(u, fs, data, start);
    DirectoryReads(Turns(Names(u), data), Records(u), fs, |fs|, start);
    assert fs[..|fs|] == fs;
  }
}

/** Little-endian fields and the end-of-central-directory search of the ZIP reader
    (`src/archive/zip.rs`). */
module ZipFields {
  import opened Prelude
  import opened Bytes

  function ReadU16(data: seq<Byte>, at: nat): (v: nat)
    requires at + 2 <= |data|
    ensures v <= 0xFFFF
  {
    data[at] as int + 0x100 * data[at + 1] as int
  }

  function ReadU32(data: seq<Byte>, at: nat): (v: nat)
    requires at + 4 <= |data|
    ensures v <= 0xFFFF_FFFF
  {
    data[at] as int + 0x100 * data[at + 1] as int + 0x1_0000 * data[at + 2] as int + 0x100_0000 * data[at + 3] as int
  }

  /** The low 16 bits of a number, and the low 32. */
  function Le16(v: nat): (r: seq<Byte>)
    ensures |r| == 2
  {
    [v % 0x100, v / 0x100 % 0x100]
  }

  function Le32(v: nat): (r: seq<Byte>)
    ensures |r| == 4
  {
    Le16(v % 0x1_0000) + Le16(v / 0x1_0000)
  }

  /** The least significant byte comes first. */
  lemma LeastByteFirst()
    ensures Le16(0x1234) == [0x34, 0x12] && Le32(0x1234_5678) == [0x78, 0x56, 0x34, 0x12]
    ensures ReadU16([0x34, 0x12], 0) == 0x1234 && ReadU32([0x78, 0x56, 0x34, 0x12], 0) == 0x1234_5678
  {
  }

  /** Every 16-bit and every 32-bit number survives being written and read. */
  lemma FieldsRoundTrip(data: seq<Byte>, at: nat, v: nat)
    ensures v <= 0xFFFF && at + 2 <= |data| && data[at..at + 2] == Le16(v) ==> ReadU16(data, at) == v
    ensures v <= 0xFFFF_FFFF && at + 4 <= |data| && data[at..at + 4] == Le32(v) ==> ReadU32(data, at) == v
  {
    if at + 2 <= |data| {
      assert data[at] == data[at..at + 2][0] && data[at + 1] == data[at..at + 2][1];
    }
    if v <= 0xFFFF_FFFF && at + 4 <= |data| && data[at..at + 4] == Le32(v) {
      var low, high := v % 0x1_0000, v / 0x1_0000;
      assert Le32(v)[0] == low % 0x100 && Le32(v)[1] == low / 0x100;
      assert Le32(v)[2] == high % 0x100 && Le32(v)[3] == high / 0x100;
      assert data[at] == Le32(v)[0] && data[at + 1] == Le32(v)[1];
      assert data[at + 2] == Le32(v)[2] && data[at + 3] == Le32(v)[3];
    }
  }

  // ---------------------------------------------------------------- end of central directory

  const EOCD_SIGNATURE: nat := 0x0605_4B50
  const EOCD_SIZE: nat := 22
  const ZIP32_SENTINEL: nat := 0xFFFF_FFFF

  datatype Eocd = Eocd(entryCount: nat, cdOffset: nat)

  predicate SignatureAt(data: seq<Byte>, at: nat) {
    at + EOCD_SIZE <= |data| && ReadU32(data, at) == EOCD_SIGNATURE
  }

  /** How far from the end the search goes: the longest comment a record can have. */
  function MaxComment(data: seq<Byte>): nat
    requires |data| >= EOCD_SIZE
  {
    if |data| - EOCD_SIZE < 65535 then |data| - EOCD_SIZE else 65535
  }

  /** The last end record within reach of the end of the data. */
  predicate LastRecordAt(data: seq<Byte>, at: nat) {
    && SignatureAt(data, at)
    && |data| - EOCD_SIZE - at <= 65535
    && forall later :: at < later <= |data| - EOCD_SIZE ==> !SignatureAt(data, later)
  }

  function ParseEocd(data: seq<Byte>, at: nat): Result<Eocd, ArchiveError>
    requires at + EOCD_SIZE <= |data|
  {
    var entryCount, cdOffset := ReadU16(data, at + 10), ReadU32(data, at + 16);
    if entryCount == 0xFFFF || cdOffset == ZIP32_SENTINEL then Err(InvalidHeader(at))
    else Ok(Eocd(entryCount, cdOffset))
  }

  /** The nearest record at or before `at`, at most `reach` positions away. */
  function ScanBack(data: seq<Byte>, at: nat, reach: nat): (r: Option<nat>)
    requires reach <= at
    ensures match r
            case Some(found) =>
              && at - reach <= found <= at && SignatureAt(data, found)
              && forall later :: found < later <= at ==> !SignatureAt(data, later)
            case None => forall other :: at - reach <= other <= at ==> !SignatureAt(data, other)
  {
    if SignatureAt(data, at) then Some(at)
    else if reach == 0 then None
    else ScanBack(data, at - 1, reach - 1)
  }

  /** Where the last record is, if there is one. */
  function LastRecord(data: seq<Byte>): (r: Option<nat>)
    ensures r.Some? ==> LastRecordAt(data, r.value)
    ensures forall at: nat :: LastRecordAt(data, at) ==> r == Some(at)
  {
    if |data| < EOCD_SIZE then None else ScanBack(data, |data| - EOCD_SIZE, MaxComment(data))
  }

  function FoundEocd(data: seq<Byte>): Result<Eocd, ArchiveError> {
    match LastRecord(data)
    case Some(at) => ParseEocd(data, at)
    case None => Err(InvalidHeader(0))
  }

  /** `find_eocd`: reads the last end record, wherever it is; without one there is no archive. */
  method FindEocd(data: seq<Byte>) returns (r: Result<Eocd, ArchiveError>)
    ensures r == FoundEocd(data)
  {
    if |data| < EOCD_SIZE {
      return Err(InvalidHeader(0));
    }
    var maxComment := MaxComment(data);
    for i := 0 to maxComment + 1
      invariant forall later :: |data| - EOCD_SIZE - i < later <= |data| - EOCD_SIZE ==> !SignatureAt(data, later)
    {
      var pos := |data| - EOCD_SIZE - i;
      if ReadU32(data, pos) == EOCD_SIGNATURE {
        assert LastRecordAt(data, pos);
        var entryCount, cdOffset := ReadU16(data, pos + 10), ReadU32(data, pos + 16);
        if entryCount == 0xFFFF {
          return Err(InvalidHeader(pos));
        }
        if cdOffset == ZIP32_SENTINEL {
          return Err(InvalidHeader(pos));
        }
        return Ok(Eocd(entryCount, cdOffset));
      }
    }
    return Err(InvalidHeader(0));
  }
}

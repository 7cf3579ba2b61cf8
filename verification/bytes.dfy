/** Bytes, text encodings and archive errors shared by the readers. */
module Bytes {
  import opened Prelude

  type Byte = b: int | 0 <= b < 0x100

  const U64_MAX: nat := 0xFFFF_FFFF_FFFF_FFFF
  const USIZE_MAX: nat := 0xFFFF_FFFF_FFFF_FFFF
  const I64_MAX: nat := 0x7FFF_FFFF_FFFF_FFFF

  const SPACE: Byte := 32

  function Zeros(n: nat): (r: seq<Byte>)
    ensures |r| == n && forall i :: 0 <= i < n ==> r[i] == 0
  {
    seq(n, _ => 0)
  }

  /** `bytes` stand in the data from `at` on. */
  predicate Holds(data: seq<Byte>, at: nat, bytes: seq<Byte>) {
    at + |bytes| <= |data| && data[at..at + |bytes|] == bytes
  }

  lemma HeldPart(data: seq<Byte>, at: nat, bytes: seq<Byte>, from: nat, to: nat)
    requires Holds(data, at, bytes) && from <= to <= |bytes|
    ensures Holds(data, at + from, bytes[from..to])
  {
    forall j | from <= j < to ensures data[at + j] == bytes[j] {
      assert data[at..at + |bytes|][j] == data[at + j];
    }
    assert data[at + from..at + to] == bytes[from..to];
  }

  lemma HeldSplit(data: seq<Byte>, at: nat, a: seq<Byte>, b: seq<Byte>)
    requires Holds(data, at, a + b)
    ensures Holds(data, at, a) && Holds(data, at + |a|, b)
  {
    HeldPart(data, at, a + b, 0, |a|);
    HeldPart(data, at, a + b, |a|, |a + b|);
    assert (a + b)[0..|a|] == a && (a + b)[|a|..|a + b|] == b;
  }

  predicate Ascii(s: string) {
    forall i :: 0 <= i < |s| ==> s[i] as int < 128
  }

  function ByteOf(c: char): Byte
    requires c as int < 128
  {
    c as int
  }

  function AsciiBytes(s: string): (r: seq<Byte>)
    requires Ascii(s)
    ensures |r| == |s|
  {
    seq(|s|, i requires 0 <= i < |s| => ByteOf(s[i]))
  }

  /** `String::from_utf8_lossy`, `str::from_utf8` and the encoding they invert. */
  datatype Utf8 = Utf8(encode: string -> seq<Byte>, lossy: seq<Byte> -> string, strict: seq<Byte> -> Option<string>) {

    /** What the readers rely on: decoding inverts encoding, and ASCII text is its own encoding. */
    ghost predicate Lawful() {
      && (forall s: string :: lossy(encode(s)) == s)
      && (forall s: string :: strict(encode(s)) == Some(s))
      && (forall s: string :: Ascii(s) ==> encode(s) == AsciiBytes(s))
    }

    lemma AsciiDecodes(s: string)
      requires Lawful() && Ascii(s)
      ensures strict(AsciiBytes(s)) == Some(s) && lossy(AsciiBytes(s)) == s
    {
      assert encode(s) == AsciiBytes(s);
    }
  }

  /** Failures of the archive readers, without their message texts. */
  datatype ArchiveError =
    | Truncated(offset: nat, need: nat, have: nat)
    | InvalidHeader(offset: nat)
    | EntryTooLarge(size: nat, max: nat)
    | PathTraversal(name: string)
    | TooManyEntries(count: nat, max: nat)

  /** What is wrong with a header, wherever it stands. */
  datatype HeaderFault = Malformed | Escaping(name: string)

  function Located(fault: HeaderFault, offset: nat): ArchiveError {
    match fault
    case Malformed => InvalidHeader(offset)
    case Escaping(name) => PathTraversal(name)
  }

  const MAX_ENTRY_BYTES: nat := 256 * 1024 * 1024
  const MAX_ENTRIES: nat := 1_000_000

  /** One regular file of an archive. */
  datatype ArchiveEntry = ArchiveEntry(name: string, size: nat, data: seq<Byte>)

  /** `collect::<Result<Vec<_>, _>>()` step: put one entry before the rest. */
  function Before<T>(first: T, rest: Result<seq<T>, ArchiveError>): Result<seq<T>, ArchiveError> {
    match rest
    case Ok(s) => Ok([first] + s)
    case Err(e) => Err(e)
  }
}

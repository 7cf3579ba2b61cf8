/** Numeric fields and checksums of tar headers (`src/archive/tar.rs`). */
module TarFields {
  import opened Prelude
  import opened Bytes
  import opened EntryNames

  // ---------------------------------------------------------------- octal

  predicate IsOctal(c: char) {
    '0' <= c <= '7'
  }

  predicate AllOctal(s: string) {
    forall i :: 0 <= i < |s| ==> IsOctal(s[i])
  }

  /** The number a string of octal digits denotes. */
  function OctalValue(s: string): nat
    requires AllOctal(s)
  {
    if s == "" then 0 else 8 * OctalValue(s[..|s| - 1]) + (s[|s| - 1] as int - '0' as int)
  }

  /** `u64::from_str_radix(s, 8)`. */
  function FromRadix8(s: string): Option<nat> {
    var digits := if s != "" && s[0] == '+' then s[1..] else s;
    if digits == "" || !AllOctal(digits) then None
    else if OctalValue(digits) > U64_MAX then None
    else Some(OctalValue(digits))
  }

  /** The bytes before the first NUL or space. */
  function TakeDigits(field: seq<Byte>): seq<Byte> {
    if field == [] || field[0] == 0 || field[0] == SPACE then []
    else [field[0]] + TakeDigits(field[1..])
  }

  // ---------------------------------------------------------------- base 256

  /** The big-endian number in `bytes`. */
  function BigEndian(bytes: seq<Byte>): nat {
    if bytes == [] then 0 else 256 * BigEndian(bytes[..|bytes| - 1]) + bytes[|bytes| - 1]
  }

  function ClearFlag(field: seq<Byte>): (r: seq<Byte>)
    requires field != []
    ensures |r| == |field|
  {
    [field[0] % 128] + field[1..]
  }

  /** What a base-256 field denotes: nothing when it is negative or does not fit 64 bits. */
  function Base256(field: seq<Byte>): Option<nat>
    requires field != []
  {
    if field[0] == 0xff then None
    else if BigEndian(ClearFlag(field)) > U64_MAX then None
    else Some(BigEndian(ClearFlag(field)))
  }

  lemma {:induction false} BigEndianPrefix(bytes: seq<Byte>, n: nat)
    requires n <= |bytes|
    ensures BigEndian(bytes[..n]) <= BigEndian(bytes)
  {
    if n < |bytes| {
      BigEndianPrefix(bytes[..|bytes| - 1], n);
      assert bytes[..|bytes| - 1][..n] == bytes[..n];
    } else {
      assert bytes[..n] == bytes;
    }
  }

  /** `parse_base256_field`: checked multiplication and addition, byte by byte, fails exactly
      when the whole number does not fit. */
  method ParseBase256Field(field: seq<Byte>, offset: nat) returns (r: Result<nat, ArchiveError>)
    requires field != []
    ensures match Base256(field) case Some(v) => r == Ok(v) case None => r == Err(InvalidHeader(offset))
  {
    if field[0] == 0xff {
      return Err(InvalidHeader(offset));
    }
    ghost var bits := ClearFlag(field);
    var value: nat := field[0] % 128;
    assert bits[..1] == [bits[0]] && bits[..1][..0] == [];
    assert BigEndian(bits[..0]) == 0 && BigEndian(bits[..1]) == value;
    var i := 1;
    while i < |field|
      invariant 1 <= i <= |field|
      invariant value == BigEndian(bits[..i]) && value <= U64_MAX
    {
      assert bits[..i + 1][..i] == bits[..i];
      BigEndianPrefix(bits, i + 1);
      if value * 256 > U64_MAX {
        return Err(InvalidHeader(offset));
      }
      if value * 256 + field[i] > U64_MAX {
        return Err(InvalidHeader(offset));
      }
      value := value * 256 + field[i];
      i := i + 1;
    }
    assert bits[..i] == bits;
    return Ok(value);
  }

  // ---------------------------------------------------------------- a numeric field

  /** `parse_octal_field`. */
  function NumericField(u: Utf8, field: seq<Byte>): Option<nat> {
    if field != [] && field[0] >= 0x80 then
      Base256(field)
    else
      match u.strict(TakeDigits(field))
      case None => None
      case Some(s) => if Trim(s) == "" then Some(0) else FromRadix8(Trim(s))
  }

  method ParseOctalField(u: Utf8, field: seq<Byte>, offset: nat) returns (r: Result<nat, ArchiveError>)
    ensures match NumericField(u, field) case Some(v) => r == Ok(v) case None => r == Err(InvalidHeader(offset))
  {
    if field != [] && field[0] >= 0x80 {
      r := ParseBase256Field(field, offset);
      return;
    }
    var s := u.strict(TakeDigits(field));
    if s.None? {
      return Err(InvalidHeader(offset));
    }
    if Trim(s.value) == "" {
      return Ok(0);
    }
    var v := FromRadix8(Trim(s.value));
    r := if v.Some? then Ok(v.value) else Err(InvalidHeader(offset));
  }

  // ---------------------------------------------------------------- writing numbers

  function Pow8(n: nat): nat {
    if n == 0 then 1 else 8 * Pow8(n - 1)
  }

  function Digit(d: nat): (c: char)
    requires d < 8
    ensures IsOctal(c) && c as int == '0' as int + d
  {
    ('0' as int + d) as char
  }

  /** `v` in exactly `width` octal digits. */
  function OctalDigits(v: nat, width: nat): (s: string)
    ensures |s| == width && AllOctal(s)
  {
    if width == 0 then "" else OctalDigits(v / 8, width - 1) + [Digit(v % 8)]
  }

  lemma {:induction false} OctalDigitsValue(v: nat, width: nat)
    requires v < Pow8(width)
    ensures OctalValue(OctalDigits(v, width)) == v
  {
    if width > 0 {
      OctalDigitsValue(v / 8, width - 1);
      assert OctalDigits(v, width)[..width - 1] == OctalDigits(v / 8, width - 1);
    }
  }

  lemma {:induction false} TakeDigitsStops(digits: seq<Byte>, rest: seq<Byte>)
    requires forall i :: 0 <= i < |digits| ==> digits[i] != 0 && digits[i] != SPACE
    requires rest == [] || rest[0] == 0 || rest[0] == SPACE
    ensures TakeDigits(digits + rest) == digits
  {
    if digits == [] {
      assert digits + rest == rest;
    } else {
      assert (digits + rest)[1..] == digits[1..] + rest;
      TakeDigitsStops(digits[1..], rest);
    }
  }

  lemma OctalIsTrimmed(s: string)
    requires s != "" && AllOctal(s)
    ensures Trim(s) == s && s[0] != '+'
  {
    assert IsOctal(s[0]) && IsOctal(s[|s| - 1]);
  }

  /** Digits, then a NUL or space: the conventional octal field. */
  function OctalField(v: nat, width: nat, tail: seq<Byte>): (f: seq<Byte>)
    ensures |f| == width + |tail|
  {
    var s := OctalDigits(v, width);
    assert Ascii(s) by { assert forall i :: 0 <= i < |s| ==> IsOctal(s[i]); }
    AsciiBytes(s) + tail
  }

  /** Reading back a conventional octal field gives the number that was written. */
  lemma OctalFieldRoundTrip(u: Utf8, v: nat, width: nat, tail: seq<Byte>)
    requires u.Lawful() && v < Pow8(width) && v <= U64_MAX && width > 0
    requires tail == [] || tail[0] == 0 || tail[0] == SPACE
    ensures NumericField(u, OctalField(v, width, tail)) == Some(v)
  {
    var s := OctalDigits(v, width);
    OctalDigitsValue(v, width);
    OctalTextIsRead(u, s, tail);
  }

  lemma OctalTextIsRead(u: Utf8, s: string, tail: seq<Byte>)
    requires u.Lawful() && AllOctal(s) && s != "" && Ascii(s) && OctalValue(s) <= U64_MAX
    requires tail == [] || tail[0] == 0 || tail[0] == SPACE
    ensures NumericField(u, AsciiBytes(s) + tail) == Some(OctalValue(s))
  {
    var digits := AsciiBytes(s);
    assert forall i :: 0 <= i < |digits| ==> IsOctal(s[i]) && digits[i] == s[i] as int;
    TakeDigitsStops(digits, tail);
    assert digits[0] == (digits + tail)[0] < 0x80;
    u.AsciiDecodes(s);
    OctalIsTrimmed(s);
  }

  /** Writing a 64-bit number big-endian under a `0x80` flag byte. */
  function BigEndianBytes(v: nat, width: nat): (r: seq<Byte>)
    ensures |r| == width
  {
    if width == 0 then [] else BigEndianBytes(v / 256, width - 1) + [v % 256]
  }

  function Pow256(n: nat): nat {
    if n == 0 then 1 else 256 * Pow256(n - 1)
  }

  lemma {:induction false} BigEndianRoundTrip(v: nat, width: nat)
    requires v < Pow256(width)
    ensures BigEndian(BigEndianBytes(v, width)) == v
  {
    if width > 0 {
      BigEndianRoundTrip(v / 256, width - 1);
      assert BigEndianBytes(v, width)[..width - 1] == BigEndianBytes(v / 256, width - 1);
    }
  }

  lemma {:induction false} BigEndianLeadingZero(bytes: seq<Byte>)
    ensures BigEndian([0] + bytes) == BigEndian(bytes)
  {
    if bytes == [] {
      assert [0][..0] == [];
      assert [0] + bytes == [0];
      assert BigEndian([0]) == 256 * BigEndian([0][..0]) + 0;
    } else {
      BigEndianLeadingZero(bytes[..|bytes| - 1]);
      assert ([0] + bytes)[..|bytes|] == [0] + bytes[..|bytes| - 1];
    }
  }

  lemma FlaggedBytes(u: Utf8, bytes: seq<Byte>)
    requires BigEndian([0] + bytes) <= U64_MAX
    ensures NumericField(u, [0x80] + bytes) == Some(BigEndian([0] + bytes))
  {
    assert ClearFlag([0x80] + bytes) == [0] + bytes;
  }

  /** Reading back a base-256 field gives the number that was written, for every 64-bit value. */
  lemma Base256RoundTrip(u: Utf8, v: nat, width: nat)
    requires v <= U64_MAX && v < Pow256(width)
    ensures NumericField(u, [0x80] + BigEndianBytes(v, width)) == Some(v)
  {
    var bytes := BigEndianBytes(v, width);
    BigEndianRoundTrip(v, width);
    BigEndianLeadingZero(bytes);
    FlaggedBytes(u, bytes);
  }

  // ---------------------------------------------------------------- checksums

  const BLOCK: nat := 512

  /** The byte a checksum counts at position `i`: a space inside the checksum field. */
  function Counted(block: seq<Byte>, i: nat): Byte
    requires i < |block|
  {
    if 148 <= i < 156 then SPACE else block[i]
  }

  function SignedByte(b: Byte): int {
    if b < 128 then b else b - 256
  }

  function UnsignedSum(block: seq<Byte>, n: nat): (r: nat)
    requires n <= |block|
    ensures r <= 255 * n
  {
    if n == 0 then 0 else UnsignedSum(block, n - 1) + Counted(block, n - 1)
  }

  function SignedSum(block: seq<Byte>, n: nat): (r: int)
    requires n <= |block|
    ensures -128 * n <= r <= 127 * n
  {
    if n == 0 then 0 else SignedSum(block, n - 1) + SignedByte(Counted(block, n - 1))
  }

  /** `checksum_valid`: the stored number is the unsigned or the signed sum. */
  predicate ChecksumValid(u: Utf8, block: seq<Byte>)
    requires |block| == BLOCK
  {
    match NumericField(u, block[148..156])
    case None => false
    case Some(stored) =>
      stored <= I64_MAX && (UnsignedSum(block, BLOCK) == stored || SignedSum(block, BLOCK) == stored)
  }

  newtype uint32 = x: int | 0 <= x < 0x1_0000_0000
  newtype int32 = x: int | -0x8000_0000 <= x < 0x8000_0000

  /** The loop over the block. The 32-bit accumulators never overflow. */
  method CheckChecksum(u: Utf8, block: seq<Byte>) returns (valid: bool)
    requires |block| == BLOCK
    ensures valid == ChecksumValid(u, block)
  {
    var unsignedSum: uint32 := 0;
    var signedSum: int32 := 0;
    for i := 0 to BLOCK
      invariant unsignedSum as int == UnsignedSum(block, i)
      invariant signedSum as int == SignedSum(block, i)
    {
      var val := if 148 <= i < 156 then SPACE else block[i];
      unsignedSum := unsignedSum + val as uint32;
      signedSum := signedSum + SignedByte(val) as int32;
    }
    var stored := ParseOctalField(u, block[148..156], 0);
    if stored.Err? || stored.value > I64_MAX {
      return false;
    }
    return unsignedSum as int == stored.value || signedSum as int == stored.value;
  }

  /** The sums do not look at the checksum field. */
  lemma {:induction false} SumsIgnoreChecksum(a: seq<Byte>, b: seq<Byte>, n: nat)
    requires |a| == |b| && n <= |a|
    requires forall i :: 0 <= i < |a| && !(148 <= i < 156) ==> a[i] == b[i]
    ensures UnsignedSum(a, n) == UnsignedSum(b, n) && SignedSum(a, n) == SignedSum(b, n)
  {
    if n > 0 {
      SumsIgnoreChecksum(a, b, n - 1);
    }
  }

  /** Where the checksum is stored: six digits, a NUL and a space. */
  function ChecksumField(sum: nat): (f: seq<Byte>)
    ensures |f| == 8
  {
    OctalField(sum, 6, [0, SPACE])
  }

  function Sealed(block: seq<Byte>, sum: nat): (r: seq<Byte>)
    requires |block| == BLOCK
    ensures |r| == BLOCK && r[148..156] == ChecksumField(sum)
    ensures forall i :: 0 <= i < BLOCK && !(148 <= i < 156) ==> r[i] == block[i]
  {
    block[..148] + ChecksumField(sum) + block[156..]
  }

  /** Storing either sum of a block in it makes the block valid, whatever was there before. */
  lemma SealedIsValid(u: Utf8, block: seq<Byte>)
    requires u.Lawful() && |block| == BLOCK
    ensures ChecksumValid(u, Sealed(block, UnsignedSum(block, BLOCK)))
    ensures SignedSum(block, BLOCK) >= 0 ==> ChecksumValid(u, Sealed(block, SignedSum(block, BLOCK)))
  {
    Pow8Six();
    var sum := UnsignedSum(block, BLOCK);
    SumsIgnoreChecksum(block, Sealed(block, sum), BLOCK);
    OctalFieldRoundTrip(u, sum, 6, [0, SPACE]);
    if SignedSum(block, BLOCK) >= 0 {
      var signed := SignedSum(block, BLOCK);
      SumsIgnoreChecksum(block, Sealed(block, signed), BLOCK);
      OctalFieldRoundTrip(u, signed, 6, [0, SPACE]);
    }
  }

  lemma Pow8Six()
    ensures Pow8(6) == 262144 && Pow8(11) == 8589934592
  {
    assert Pow8(3) == 512;
    assert Pow8(6) == 262144;
    assert Pow8(9) == 134217728;
  }

  /** A valid checksum is one of the two sums: no other stored number passes. */
  lemma ValidMeansSum(u: Utf8, block: seq<Byte>)
    requires |block| == BLOCK && ChecksumValid(u, block)
    ensures NumericField(u, block[148..156]) == Some(UnsignedSum(block, BLOCK))
         || (SignedSum(block, BLOCK) >= 0 && NumericField(u, block[148..156]) == Some(SignedSum(block, BLOCK)))
  {
  }
}

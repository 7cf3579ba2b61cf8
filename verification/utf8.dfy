/**
 UTF-8 (RFC 3629): an encoding of text and its two decodings, with everything the archive
 readers and writers ask of one.
 */
module Utf8Text {
  import opened Prelude
  import opened Bytes

  const REPLACEMENT: char := '\U{FFFD}'

  predicate Continues(b: Byte) {
    0x80 <= b < 0xC0
  }

  /** The bytes that may follow a leading byte: no overlong forms, no surrogates, nothing above
      U+10FFFF (section 4 of RFC 3629). */
  predicate MayFollow(first: Byte, second: Byte) {
    Continues(second)
    && (first == 0xE0 ==> 0xA0 <= second)
    && (first == 0xED ==> second < 0xA0)
    && (first == 0xF0 ==> 0x90 <= second)
    && (first == 0xF4 ==> second < 0x90)
  }

  /** How many bytes a leading byte announces, 0 if it announces none. */
  function Width(first: Byte): nat {
    if first < 0x80 then 1
    else if 0xC2 <= first < 0xE0 then 2
    else if 0xE0 <= first < 0xF0 then 3
    else if 0xF0 <= first < 0xF5 then 4
    else 0
  }

  // ---------------------------------------------------------------- encoding

  function EncodeChar(c: char): (r: seq<Byte>)
    ensures 1 <= |r| <= 4
  {
    var x := c as int;
    if x < 0x80 then [x]
    else if x < 0x800 then [0xC0 + x / 0x40, 0x80 + x % 0x40]
    else if x < 0x1_0000 then [0xE0 + x / 0x40 / 0x40, 0x80 + x / 0x40 % 0x40, 0x80 + x % 0x40]
    else [0xF0 + x / 0x40 / 0x40 / 0x40, 0x80 + x / 0x40 / 0x40 % 0x40, 0x80 + x / 0x40 % 0x40, 0x80 + x % 0x40]
  }

  function Encode(s: string): seq<Byte> {
    if s == [] then [] else EncodeChar(s[0]) + Encode(s[1..])
  }

  // ---------------------------------------------------------------- decoding

  /** What stands at the front of some bytes: a character, or bytes that are none. */
  datatype Front = Valid(c: char, width: nat) | Invalid(width: nat)

  function FrontOf(b: seq<Byte>): (f: Front)
    requires b != []
    ensures 1 <= f.width <= |b|
  {
    var width := Width(b[0]);
    if width == 1 then Valid(b[0] as char, 1)
    else if width == 0 || |b| < 2 || !MayFollow(b[0], b[1]) then Invalid(1)
    else if width == 2 then Valid(Two(b[0], b[1]), 2)
    else if |b| < 3 || !Continues(b[2]) then Invalid(2)
    else if width == 3 then Valid(Three(b[0], b[1], b[2]), 3)
    else if |b| < 4 || !Continues(b[3]) then Invalid(3)
    else Valid(Four(b[0], b[1], b[2], b[3]), 4)
  }

  function Two(a: Byte, b: Byte): char
    requires Width(a) == 2 && MayFollow(a, b)
  {
    ((a - 0xC0) * 0x40 + (b - 0x80)) as char
  }

  function Three(a: Byte, b: Byte, c: Byte): char
    requires Width(a) == 3 && MayFollow(a, b) && Continues(c)
  {
    (((a - 0xE0) * 0x40 + (b - 0x80)) * 0x40 + (c - 0x80)) as char
  }

  function Four(a: Byte, b: Byte, c: Byte, d: Byte): char
    requires Width(a) == 4 && MayFollow(a, b) && Continues(c) && Continues(d)
  {
    ((((a - 0xF0) * 0x40 + (b - 0x80)) * 0x40 + (c - 0x80)) * 0x40 + (d - 0x80)) as char
  }

  /** `str::from_utf8`. */
  function Strict(b: seq<Byte>): Option<string> {
    if b == [] then
      Some("")
    else
      match FrontOf(b)
      case Invalid(_) => None
      case Valid(c, width) =>
        match Strict(b[width..])
        case None => None
        case Some(rest) => Some([c] + rest)
  }

  /** `String::from_utf8_lossy`: whatever is no character gives way to one replacement character. */
  function Lossy(b: seq<Byte>): string {
    if b == [] then
      ""
    else
      match FrontOf(b)
      case Invalid(width) => [REPLACEMENT] + Lossy(b[width..])
      case Valid(c, width) => [c] + Lossy(b[width..])
  }

  // ---------------------------------------------------------------- decoding inverts encoding

  /** Splitting off six bits and putting them back. */
  lemma SixBits(x: nat)
    ensures 0 <= x % 0x40 < 0x40 && x == x / 0x40 * 0x40 + x % 0x40
  {
  }

  lemma SixBitsAgain(y: nat, r: nat)
    requires r < 0x40
    ensures (y * 0x40 + r) / 0x40 == y && (y * 0x40 + r) % 0x40 == r
  {
  }

  lemma TwoDecodes(c: char)
    requires 0x80 <= c as int < 0x800
    ensures var b := EncodeChar(c);
      |b| == 2 && Width(b[0]) == 2 && MayFollow(b[0], b[1]) && Two(b[0], b[1]) == c
  {
    SixBits(c as int);
  }

  lemma ThreeDecodes(c: char)
    requires 0x800 <= c as int < 0x1_0000
    ensures var b := EncodeChar(c);
      |b| == 3 && Width(b[0]) == 3 && MayFollow(b[0], b[1]) && Continues(b[2]) && Three(b[0], b[1], b[2]) == c
  {
    SixBits(c as int);
    SixBits(c as int / 0x40);
  }

  lemma FourDecodes(c: char)
    requires 0x1_0000 <= c as int
    ensures var b := EncodeChar(c);
      && |b| == 4 && Width(b[0]) == 4 && MayFollow(b[0], b[1]) && Continues(b[2]) && Continues(b[3])
      && Four(b[0], b[1], b[2], b[3]) == c
  {
    SixBits(c as int);
    SixBits(c as int / 0x40);
    SixBits(c as int / 0x40 / 0x40);
  }

  lemma CharDecodes(c: char, rest: seq<Byte>)
    ensures FrontOf(EncodeChar(c) + rest) == Valid(c, |EncodeChar(c)|)
  {
    var x := c as int;
    if x < 0x80 {
      assert (EncodeChar(c) + rest)[0] == x;
    } else if x < 0x800 {
      TwoDecodes(c);
    } else if x < 0x1_0000 {
      ThreeDecodes(c);
    } else {
      FourDecodes(c);
    }
  }

  lemma {:induction false} EncodedDecodes(s: string)
    ensures Strict(Encode(s)) == Some(s) && Lossy(Encode(s)) == s
  {
    if s != [] {
      var first, rest := EncodeChar(s[0]), Encode(s[1..]);
      CharDecodes(s[0], rest);
      EncodedDecodes(s[1..]);
      assert (first + rest)[|first|..] == rest && [s[0]] + s[1..] == s;
    }
  }

  lemma TwoEncodes(a: Byte, b: Byte)
    requires Width(a) == 2 && MayFollow(a, b)
    ensures EncodeChar(Two(a, b)) == [a, b]
  {
    SixBitsAgain(a - 0xC0, b - 0x80);
  }

  lemma ThreeEncodes(a: Byte, b: Byte, c: Byte)
    requires Width(a) == 3 && MayFollow(a, b) && Continues(c)
    ensures EncodeChar(Three(a, b, c)) == [a, b, c]
  {
    var y := (a - 0xE0) * 0x40 + (b - 0x80);
    SixBitsAgain(a - 0xE0, b - 0x80);
    SixBitsAgain(y, c - 0x80);
  }

  lemma FourEncodes(a: Byte, b: Byte, c: Byte, d: Byte)
    requires Width(a) == 4 && MayFollow(a, b) && Continues(c) && Continues(d)
    ensures EncodeChar(Four(a, b, c, d)) == [a, b, c, d]
  {
    var y := (a - 0xF0) * 0x40 + (b - 0x80);
    SixBitsAgain(a - 0xF0, b - 0x80);
    SixBitsAgain(y, c - 0x80);
    SixBitsAgain(y * 0x40 + (c - 0x80), d - 0x80);
  }

  /** A character is decoded from the very bytes that encode it. */
  lemma DecodedChar(b: seq<Byte>)
    requires b != [] && FrontOf(b).Valid?
    ensures b[..FrontOf(b).width] == EncodeChar(FrontOf(b).c)
  {
    var width := Width(b[0]);
    if width == 2 {
      TwoEncodes(b[0], b[1]);
    } else if width == 3 {
      ThreeEncodes(b[0], b[1], b[2]);
    } else if width == 4 {
      FourEncodes(b[0], b[1], b[2], b[3]);
    }
  }

  lemma EncodeMore(c: char, s: string)
    ensures Encode([c] + s) == EncodeChar(c) + Encode(s)
  {
    assert ([c] + s)[1..] == s;
  }

  lemma StrictMore(b: seq<Byte>)
    requires b != [] && Strict(b).Some?
    ensures var f := FrontOf(b);
      f.Valid? && Strict(b[f.width..]).Some? && Strict(b) == Some([f.c] + Strict(b[f.width..]).value)
  {
  }

  lemma {:induction false} StrictIsEncoded(b: seq<Byte>)
    requires Strict(b).Some?
    ensures Encode(Strict(b).value) == b
    decreases b, 1
  {
    if b != [] {
      StrictMore(b);
      DecodedChar(b);
      var c, width := FrontOf(b).c, FrontOf(b).width;
      Rejoin(b, c, width);
    }
  }

  lemma {:induction false} Rejoin(b: seq<Byte>, c: char, width: nat)
    requires 0 < width <= |b| && Strict(b[width..]).Some? && b[..width] == EncodeChar(c)
    ensures Encode([c] + Strict(b[width..]).value) == b
    decreases b, 0
  {
    StrictIsEncoded(b[width..]);
    EncodeMore(c, Strict(b[width..]).value);
    assert b == b[..width] + b[width..];
  }

  /** Bytes are accepted exactly when they are the encoding of some text, which is then the result. */
  lemma StrictIffEncoded(b: seq<Byte>, s: string)
    ensures Strict(b) == Some(s) <==> Encode(s) == b
  {
    EncodedDecodes(s);
    if Strict(b).Some? {
      StrictIsEncoded(b);
    }
  }

  lemma {:induction false} AsciiIsItself(s: string)
    requires Ascii(s)
    ensures Encode(s) == AsciiBytes(s)
  {
    if s != [] {
      assert s[0] as int < 128;
      AsciiIsItself(s[1..]);
      assert AsciiBytes(s) == [ByteOf(s[0])] + AsciiBytes(s[1..]);
    }
  }

  /** A character of each length, and bytes that are none: an unfinished character gives way to one
      replacement, an overlong form to one for each of its bytes. */
  lemma Examples()
    ensures EncodeChar('A') == [0x41] && EncodeChar('\U{E9}') == [0xC3, 0xA9]
    ensures EncodeChar('\U{20AC}') == [0xE2, 0x82, 0xAC] && EncodeChar('\U{1F600}') == [0xF0, 0x9F, 0x98, 0x80]
    ensures Strict([0xE2, 0x82]).None? && Lossy([0xE2, 0x82]) == [REPLACEMENT]
    ensures Strict([0xC0, 0x80]).None? && Lossy([0xC0, 0x80]) == [REPLACEMENT, REPLACEMENT]
  {
    var none: seq<Byte> := [];
    assert [0xE2, 0x82][2..] == none && Lossy(none) == "";
    assert [0xC0, 0x80][1..] == [0x80 as Byte] && [0x80 as Byte][1..] == none;
    assert Lossy([0x80]) == [REPLACEMENT] + Lossy(none);
  }

  /** The codec the readers and writers are used with. */
  function Standard(): Utf8 {
    Utf8(Encode, Lossy, Strict)
  }

  lemma StandardIsLawful()
    ensures Standard().Lawful()
  {
    forall s: string
      ensures Lossy(Encode(s)) == s && Strict(Encode(s)) == Some(s)
      ensures Ascii(s) ==> Encode(s) == AsciiBytes(s)
    {
      EncodedDecodes(s);
      if Ascii(s) {
        AsciiIsItself(s);
      }
    }
  }
}

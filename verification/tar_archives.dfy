/**
 Which data is a tar archive, told from the bytes: where each field of a header stands, what a
 checksum is, which type flags are files, and how members and the end marker follow each other.
 The reader of `src/archive/tar.rs` accepts exactly that. Layout as in POSIX.1-2017, `pax`,
 section "ustar Interchange Format".
 */
module TarArchives {
  import opened Prelude
  import opened Bytes
  import opened EntryNames
  import opened TarFields
  import opened TarHeaders
  import T = Tar

  // ---------------------------------------------------------------- checksums

  /** The sum of some bytes. */
  function PlainSum(bytes: seq<Byte>): nat {
    if bytes == [] then 0 else PlainSum(bytes[..|bytes| - 1]) + bytes[|bytes| - 1]
  }

  /** How many bytes have their high bit set, which makes them negative when read as signed. */
  function Negatives(bytes: seq<Byte>): nat {
    if bytes == [] then 0
    else Negatives(bytes[..|bytes| - 1]) + if bytes[|bytes| - 1] >= 128 then 1 else 0
  }

  lemma {:induction false} SumsUpTo(block: seq<Byte>, n: nat)
    requires |block| == 512 && n <= 512
    ensures n <= 148 ==>
      && UnsignedSum(block, n) == PlainSum(block[..n])
      && SignedSum(block, n) == PlainSum(block[..n]) - 256 * Negatives(block[..n])
    ensures 148 <= n <= 156 ==>
      && UnsignedSum(block, n) == PlainSum(block[..148]) + 32 * (n - 148)
      && SignedSum(block, n) == PlainSum(block[..148]) - 256 * Negatives(block[..148]) + 32 * (n - 148)
    ensures 156 <= n ==>
      && UnsignedSum(block, n) == PlainSum(block[..148]) + 256 + PlainSum(block[156..n])
      && SignedSum(block, n)
         == PlainSum(block[..148]) - 256 * Negatives(block[..148]) + 256
            + PlainSum(block[156..n]) - 256 * Negatives(block[156..n])
  {
    if n == 0 {
      assert block[..0] == [];
    } else {
      SumsUpTo(block, n - 1);
      if n <= 148 {
        assert block[..n][..n - 1] == block[..n - 1];
      } else if n == 156 {
        assert block[156..156] == [];
      } else if n > 156 {
        assert block[156..n][..n - 157] == block[156..n - 1];
      }
    }
  }

  /** A checksum is the sum of all bytes, the eight of its own field counted as spaces; read as
      signed bytes it is 256 less for each byte with the high bit set. */
  lemma ChecksumMeans(block: seq<Byte>)
    requires |block| == 512
    ensures var rest := block[..148] + block[156..];
      && UnsignedSum(block, 512) == PlainSum(rest) + 8 * 32
      && SignedSum(block, 512) == PlainSum(rest) + 8 * 32 - 256 * Negatives(rest)
  {
    SumsUpTo(block, 512);
    assert block[156..512] == block[156..];
    SumsJoin(block[..148], block[156..]);
  }

  lemma {:induction false} SumsJoin(a: seq<Byte>, b: seq<Byte>)
    ensures PlainSum(a + b) == PlainSum(a) + PlainSum(b) && Negatives(a + b) == Negatives(a) + Negatives(b)
  {
    if b == [] {
      assert a + b == a;
    } else {
      assert (a + b)[..|a + b| - 1] == a + b[..|b| - 1];
      SumsJoin(a, b[..|b| - 1]);
    }
  }

  /** The stored checksum is one of the two. */
  predicate ChecksumStands(u: Utf8, block: seq<Byte>)
    requires |block| == 512
  {
    var rest := block[..148] + block[156..];
    match NumericField(u, block[148..156])
    case None => false
    case Some(sum) => sum == PlainSum(rest) + 256 || sum == PlainSum(rest) + 256 - 256 * Negatives(rest)
  }

  lemma {:induction false} PlainSumBound(bytes: seq<Byte>)
    ensures PlainSum(bytes) <= 255 * |bytes|
  {
    if bytes != [] {
      PlainSumBound(bytes[..|bytes| - 1]);
    }
  }

  // ---------------------------------------------------------------- fields

  function Spaces(n: nat): (r: seq<Byte>)
    ensures |r| == n && forall i :: 0 <= i < n ==> r[i] == 32
  {
    seq(n, _ => 32)
  }

  lemma {:induction false} UpToFirstNul(text: seq<Byte>, rest: seq<Byte>)
    requires (forall i :: 0 <= i < |text| ==> text[i] != 0) && (rest == [] || rest[0] == 0)
    ensures UpToNul(text + rest) == text
  {
    if text == [] {
      assert text + rest == rest;
    } else {
      assert (text + rest)[1..] == text[1..] + rest;
      UpToFirstNul(text[1..], rest);
    }
  }

  lemma {:induction false} SpacesTrimmed(text: seq<Byte>, n: nat)
    requires text == [] || text[|text| - 1] !in {0, 32}
    ensures TrimTrailingSpace(text + Spaces(n)) == text
  {
    if n == 0 {
      assert text + Spaces(0) == text;
    } else {
      assert (text + Spaces(n))[..|text| + n - 1] == text + Spaces(n - 1);
      SpacesTrimmed(text, n - 1);
    }
  }

  /** A text field holds a text, spaces that do not belong to it, and from the first NUL on
      whatever there is. */
  lemma TextFieldMeans(u: Utf8, text: seq<Byte>, n: nat, rest: seq<Byte>)
    requires forall i :: 0 <= i < |text| ==> text[i] != 0
    requires (text == [] || text[|text| - 1] != 32) && (rest == [] || rest[0] == 0)
    ensures FieldStr(u, text + Spaces(n) + rest) == u.lossy(text)
  {
    UpToFirstNul(text + Spaces(n), rest);
    SpacesTrimmed(text, n);
  }

  function Slashes(n: nat): (r: string)
    ensures |r| == n && forall i :: 0 <= i < n ==> r[i] == '/'
  {
    seq(n, _ => '/')
  }

  lemma {:induction false} SlashesTrimmed(s: string, n: nat)
    ensures s == "" || s[|s| - 1] != '/' ==> TrimEndSlashes(s + Slashes(n)) == s
    ensures s == "" || s[0] != '/' ==> TrimStartSlashes(Slashes(n) + s) == s
  {
    if n == 0 {
      assert s + Slashes(0) == s && Slashes(0) + s == s;
    } else {
      assert (s + Slashes(n))[..|s| + n - 1] == s + Slashes(n - 1);
      assert (Slashes(n) + s)[1..] == Slashes(n - 1) + s;
      SlashesTrimmed(s, n - 1);
    }
  }

  /** Prefix and name are joined by one slash, however many stand where they meet; if one of them
      is blank, the other stands alone. */
  lemma JoinMeans(prefix: string, m: nat, n: nat, name: string)
    requires prefix == "" || prefix[|prefix| - 1] != '/'
    requires name == "" || name[0] != '/'
    ensures prefix + Slashes(m) != "" && Slashes(n) + name != "" ==>
      JoinPath(prefix + Slashes(m), Slashes(n) + name) == prefix + "/" + name
    ensures JoinPath("", Slashes(n) + name) == Slashes(n) + name
    ensures JoinPath(prefix + Slashes(m), "") == prefix + Slashes(m)
  {
    SlashesTrimmed(prefix, m);
    SlashesTrimmed(name, n);
  }

  lemma OctalExample()
    ensures AllOctal("644") && OctalValue("644") == 420
  {
    assert "644"[..2] == "64" && "64"[..1] == "6" && "6"[..0] == "";
    assert OctalValue("") == 0 && OctalValue("6") == 6 && OctalValue("64") == 52;
  }

  lemma BigEndianMore(bytes: seq<Byte>, b: Byte)
    ensures BigEndian(bytes + [b]) == 256 * BigEndian(bytes) + b
  {
    assert (bytes + [b])[..|bytes|] == bytes;
  }

  lemma LargeFieldExample(u: Utf8)
    ensures NumericField(u, [0x80, 1, 2]) == Some(258)
  {
    BigEndianMore([], 0);
    BigEndianMore([0], 1);
    BigEndianMore([0, 1], 2);
    assert [] + [0 as Byte] == [0] && [0 as Byte] + [1] == [0, 1] && [0 as Byte, 1] + [2] == [0, 1, 2];
    assert ClearFlag([0x80, 1, 2]) == [0, 1, 2];
  }

  /** What some numeric fields say: octal digits up to a NUL, the mode of a file, or eight blanks, or
      something that is no number; a number in base 256, one that is negative. */
  lemma FieldExamples(u: Utf8)
    requires u.Lawful()
    ensures NumericField(u, [54, 52, 52, 0]) == Some(420)
    ensures NumericField(u, [32, 32, 32, 32, 32, 32, 32, 32]) == Some(0)
    ensures NumericField(u, [54, 56, 52, 0]).None?
    ensures NumericField(u, [0x80, 1, 2]) == Some(258)
    ensures NumericField(u, [0xff, 1, 2]).None?
  {
    OctalExample();
    LargeFieldExample(u);
    OctalTextIsRead(u, "644", [0]);
    assert AsciiBytes("644") + [0] == [54, 52, 52, 0];
    u.AsciiDecodes("");
    assert AsciiBytes("") == [] && TakeDigits([32, 32, 32, 32, 32, 32, 32, 32]) == [] && Trim("") == "";
    NoOctalExample(u);
  }

  lemma NoOctalExample(u: Utf8)
    requires u.Lawful()
    ensures NumericField(u, [54, 56, 52, 0]).None?
  {
    u.AsciiDecodes("684");
    assert AsciiBytes("684") == [54, 56, 52] && AsciiBytes("684") + [0] == [54, 56, 52, 0];
    TakeDigitsStops([54, 56, 52], [0]);
    assert Trim("684") == "684" && !IsOctal("684"[1]);
  }

  // ---------------------------------------------------------------- headers

  /** A block is the header of a member: name and prefix, size, type flag and link name. */
  predicate HeaderStands(u: Utf8, b: seq<Byte>, h: ParsedHeader) {
    && |b| == 512 && (exists i :: 0 <= i < 512 && b[i] != 0)
    && ChecksumStands(u, b)
    && NumericField(u, b[124..136]) == Some(h.size)
    && h.fullName == JoinPath(FieldStr(u, b[345..500]), FieldStr(u, b[0..100])) && ValidName(h.fullName)
    && (h.isRegularFile <==> b[156] in {48, 0})
    && (b[156] in {49, 50} ==> FieldStr(u, b[157..257]) != "" && ValidName(FieldStr(u, b[157..257])))
  }

  /** The reader takes a block for a header exactly when it is one. */
  lemma HeaderIsRead(u: Utf8, b: seq<Byte>, h: ParsedHeader)
    ensures Blocks(u)(b) == Header(h) <==> HeaderStands(u, b, h)
  {
    if |b| == 512 {
      ChecksumMeans(b);
      PlainSumBound(b[..148] + b[156..]);
      assert ChecksumValid(u, b) <==> ChecksumStands(u, b);
    }
  }

  /** A block of zeros is none. */
  lemma ZeroIsRead(u: Utf8, b: seq<Byte>)
    ensures Blocks(u)(b).ZeroBlock? <==> forall i :: 0 <= i < |b| ==> b[i] == 0
  {
  }

  // ---------------------------------------------------------------- what is wrong with other data

  predicate ZerosAt(data: seq<Byte>, at: nat) {
    at + 512 <= |data| && forall i :: at <= i < at + 512 ==> data[i] == 0
  }

  lemma ZerosRead(u: Utf8, data: seq<Byte>, at: nat)
    requires at + 512 <= |data|
    ensures Blocks(u)(data[at..at + 512]).ZeroBlock? <==> ZerosAt(data, at)
  {
    var b := data[at..at + 512];
    ZeroIsRead(u, b);
    assert forall i :: 0 <= i < 512 ==> b[i] == data[at + i];
    assert forall i :: at <= i < at + 512 ==> data[i] == b[i - at];
  }

  /** What follows a block of zeros. */
  lemma AfterZeros(u: Utf8, data: seq<Byte>, offset: nat, count: nat)
    requires ZerosAt(data, offset)
    ensures var f, left := T.ReadAt(Blocks(u), data, offset, count), |data| - offset - 512;
      f == if left < 512 then T.Fault(Truncated(offset + 512, 512, left))
           else if ZerosAt(data, offset + 512) then T.Finish(offset + 1024)
           else T.Fault(InvalidHeader(offset))
  {
    ZerosRead(u, data, offset);
    if offset + 1024 <= |data| {
      ZerosRead(u, data, offset + 512);
    }
  }

  lemma ReadHeaderAt(p: BlockReader, data: seq<Byte>, offset: nat, count: nat, h: ParsedHeader)
    requires offset + 512 <= |data| <= USIZE_MAX && p(data[offset..offset + 512]) == Header(h)
    ensures var f, left := T.ReadAt(p, data, offset, count), |data| - offset - 512;
      var whole := h.size + T.Padding(h.size);
      if count >= 1_000_000 then f == T.Fault(TooManyEntries(count + 1, 1_000_000))
      else if h.size > 268435456 then f == T.Fault(EntryTooLarge(h.size, 268435456))
      else if whole <= left then f == T.Extent(h, offset + 512 + whole)
      else f.Fault? && f.error in {Truncated(offset + 512, whole, left), InvalidHeader(offset)}
  {
  }

  /** What a header is refused for: too many before it, its size, or too few bytes behind it. */
  lemma AfterHeader(u: Utf8, data: seq<Byte>, offset: nat, count: nat, h: ParsedHeader)
    requires offset + 512 <= |data| <= USIZE_MAX && HeaderStands(u, data[offset..offset + 512], h)
    ensures var f, left := T.ReadAt(Blocks(u), data, offset, count), |data| - offset - 512;
      var whole := h.size + T.Padding(h.size);
      if count >= 1_000_000 then f == T.Fault(TooManyEntries(count + 1, 1_000_000))
      else if h.size > 268435456 then f == T.Fault(EntryTooLarge(h.size, 268435456))
      else if whole <= left then f == T.Extent(h, offset + 512 + whole)
      else f.Fault? && f.error in {Truncated(offset + 512, whole, left), InvalidHeader(offset)}
  {
    HeaderIsRead(u, data[offset..offset + 512], h);
    ReadHeaderAt(Blocks(u), data, offset, count, h);
  }

  ghost predicate IsHeader(u: Utf8, b: seq<Byte>) {
    exists h :: HeaderStands(u, b, h)
  }

  /** Fewer bytes than a header takes, and a block that is neither zeros nor a header. */
  lemma NoHeader(u: Utf8, data: seq<Byte>, offset: nat, count: nat)
    requires offset < |data|
    ensures var f := T.ReadAt(Blocks(u), data, offset, count);
      && (|data| - offset < 512 ==> f == T.Fault(Truncated(offset, 512, |data| - offset)))
      && (offset + 512 <= |data| && !ZerosAt(data, offset) && !IsHeader(u, data[offset..offset + 512]) ==>
            f.Fault? && (f.error == InvalidHeader(offset) || f.error.PathTraversal?))
  {
    if offset + 512 <= |data| {
      var b := data[offset..offset + 512];
      ZerosRead(u, data, offset);
      if Blocks(u)(b).Header? {
        HeaderIsRead(u, b, Blocks(u)(b).header);
      }
    }
  }

  // ---------------------------------------------------------------- archives

  /** A header, the payload whose length it declares, and what fills up the last block. */
  ghost predicate MemberStands(u: Utf8, m: T.Member) {
    && |m.payload| <= 268435456
    && |m.pad| < 512 && (|m.payload| + |m.pad|) % 512 == 0
    && exists h :: HeaderStands(u, m.header, h) && h.size == |m.payload|
  }

  /** Type flags '0' and NUL are files; directories, links, devices and extensions are not. */
  function FileOf(u: Utf8, m: T.Member): seq<ArchiveEntry>
    requires |m.header| == 512
  {
    var name := JoinPath(FieldStr(u, m.header[345..500]), FieldStr(u, m.header[0..100]));
    if m.header[156] in {48, 0} then [ArchiveEntry(name, |m.payload|, m.payload)] else []
  }

  function FilesOf(u: Utf8, ms: seq<T.Member>): seq<ArchiveEntry>
    requires WholeHeaders(ms)
  {
    if ms == [] then [] else FileOf(u, ms[0]) + FilesOf(u, ms[1..])
  }

  predicate WholeHeaders(ms: seq<T.Member>) {
    forall i :: 0 <= i < |ms| ==> |ms[i].header| == 512
  }

  function Concatenated(ms: seq<T.Member>): seq<Byte> {
    if ms == [] then [] else ms[0].header + ms[0].payload + ms[0].pad + Concatenated(ms[1..])
  }

  /** The members one after the other, then nothing, or two blocks of zeros and whatever follows. */
  ghost predicate IsTar(u: Utf8, data: seq<Byte>, ms: seq<T.Member>) {
    && |ms| <= 1_000_000 && WholeHeaders(ms)
    && (forall i :: 0 <= i < |ms| ==> MemberStands(u, ms[i]))
    && Concatenated(ms) <= data
    && var tail := data[|Concatenated(ms)|..];
       tail == [] || (|tail| >= 1024 && forall i :: 0 <= i < 1024 ==> tail[i] == 0)
  }

  lemma MemberIsMember(u: Utf8, m: T.Member)
    ensures MemberStands(u, m) <==> T.MemberOk(Blocks(u), m)
    ensures MemberStands(u, m) ==> |m.header| == 512 && T.FileOf(Blocks(u), m) == FileOf(u, m)
  {
    var size := |m.payload|;
    assert |m.pad| < 512 && (size + |m.pad|) % 512 == 0 <==> |m.pad| == T.Padding(size);
    if Blocks(u)(m.header).Header? {
      HeaderIsRead(u, m.header, Blocks(u)(m.header).header);
    }
    if h :| HeaderStands(u, m.header, h) && h.size == |m.payload| {
      HeaderIsRead(u, m.header, h);
    }
  }

  lemma {:induction false} FilesAreFiles(u: Utf8, ms: seq<T.Member>)
    requires forall i :: 0 <= i < |ms| ==> MemberStands(u, ms[i])
    ensures WholeHeaders(ms)
    ensures T.Files(Blocks(u), ms) == FilesOf(u, ms) && T.Layout(ms) == Concatenated(ms)
  {
    if ms != [] {
      MemberIsMember(u, ms[0]);
      FilesAreFiles(u, ms[1..]);
    }
  }

  lemma TailEnds(u: Utf8, tail: seq<Byte>)
    ensures T.EndOk(Blocks(u), tail) <==>
      tail == [] || (|tail| >= 1024 && forall i :: 0 <= i < 1024 ==> tail[i] == 0)
  {
    if |tail| >= 1024 {
      ZeroIsRead(u, tail[..512]);
      ZeroIsRead(u, tail[512..1024]);
      assert forall i :: 0 <= i < 512 ==> tail[..512][i] == tail[i] && tail[512..1024][i] == tail[512 + i];
    }
  }

  lemma TarIsArchive(u: Utf8, data: seq<Byte>, ms: seq<T.Member>)
    ensures IsTar(u, data, ms) <==> T.IsArchive(Blocks(u), data, ms)
  {
    forall i | 0 <= i < |ms| ensures MemberStands(u, ms[i]) <==> T.MemberOk(Blocks(u), ms[i]) {
      MemberIsMember(u, ms[i]);
    }
    if forall i :: 0 <= i < |ms| ==> MemberStands(u, ms[i]) {
      FilesAreFiles(u, ms);
      if Concatenated(ms) <= data {
        TailEnds(u, data[|Concatenated(ms)|..]);
      }
    }
  }

  /** The reader succeeds exactly on such data, and returns the files: the payloads of the members
      whose type flag is '0' or NUL. */
  lemma ReadIffTar(u: Utf8, data: seq<Byte>, es: seq<ArchiveEntry>)
    requires |data| <= USIZE_MAX
    ensures T.Read(Blocks(u), data) == Ok(es) <==>
      exists ms :: IsTar(u, data, ms) && FilesOf(u, ms) == es
  {
    T.ReadIffArchive(Blocks(u), data, es);
    forall ms
      ensures IsTar(u, data, ms) <==> T.IsArchive(Blocks(u), data, ms)
      ensures IsTar(u, data, ms) ==> T.Files(Blocks(u), ms) == FilesOf(u, ms)
    {
      TarIsArchive(u, data, ms);
      if IsTar(u, data, ms) {
        FilesAreFiles(u, ms);
      }
    }
  }
}

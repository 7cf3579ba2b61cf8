/** A ustar writer to set against the reader: what it writes, the reader of `src/archive/tar.rs`
    gives back. Layout as in POSIX.1-2017, `pax`, section "ustar Interchange Format". */
module TarWriter {
  import opened Prelude
  import opened Bytes
  import opened EntryNames
  import opened TarFields
  import opened TarHeaders
  import opened Tar

  /** One member to write. `owner`, `mtime` and `device` fill the fields the reader ignores. */
  datatype TarFile = TarFile(prefix: string, name: string, typeflag: Byte, link: string, payload: seq<Byte>,
                             owner: seq<Byte>, mtime: seq<Byte>, device: seq<Byte>)

  // ---------------------------------------------------------------- text fields

  predicate FitsField(u: Utf8, s: string, width: nat) {
    var b := u.encode(s);
    && |b| <= width
    && (forall i :: 0 <= i < |b| ==> b[i] != 0)
    && (b == [] || b[|b| - 1] != SPACE)
  }

  function TextField(u: Utf8, s: string, width: nat): (f: seq<Byte>)
    requires FitsField(u, s, width)
    ensures |f| == width
  {
    u.encode(s) + Zeros(width - |u.encode(s)|)
  }

  lemma {:induction false} UpToNulStops(text: seq<Byte>, n: nat)
    requires forall i :: 0 <= i < |text| ==> text[i] != 0
    ensures UpToNul(text + Zeros(n)) == text
  {
    if text == [] {
      assert text + Zeros(n) == Zeros(n);
    } else {
      assert (text + Zeros(n))[1..] == text[1..] + Zeros(n);
      UpToNulStops(text[1..], n);
    }
  }

  lemma TextFieldRoundTrip(u: Utf8, s: string, width: nat)
    requires u.Lawful() && FitsField(u, s, width)
    ensures FieldStr(u, TextField(u, s, width)) == s
  {
    var b := u.encode(s);
    UpToNulStops(b, width - |b|);
    assert b != [] ==> b[|b| - 1] != 0;
    assert TrimTrailingSpace(b) == b;
    assert u.lossy(u.encode(s)) == s;
  }

  // ---------------------------------------------------------------- names

  lemma {:induction false} TrimEndShortens(s: string)
    ensures |TrimEndSlashes(s)| <= |s|
    ensures TrimEndSlashes(s) == s <==> s == "" || s[|s| - 1] != '/'
  {
    if s != "" && s[|s| - 1] == '/' {
      TrimEndShortens(s[..|s| - 1]);
    }
  }

  lemma {:induction false} TrimStartShortens(s: string)
    ensures |TrimStartSlashes(s)| <= |s|
    ensures TrimStartSlashes(s) == s <==> s == "" || s[0] != '/'
  {
    if s != "" && s[0] == '/' {
      TrimStartShortens(s[1..]);
    }
  }

  /** Prefix and name are joined as they stand exactly when no slash stands where they meet. */
  lemma JoinsPlainly(prefix: string, name: string)
    requires prefix != "" && name != ""
    ensures JoinPath(prefix, name) == prefix + "/" + name <==> prefix[|prefix| - 1] != '/' && name[0] != '/'
  {
    TrimEndShortens(prefix);
    TrimStartShortens(name);
    var a, b := TrimEndSlashes(prefix), TrimStartSlashes(name);
    if a + "/" + b == prefix + "/" + name {
      assert |a + "/" + b| == |a| + 1 + |b| && |prefix + "/" + name| == |prefix| + 1 + |name|;
      assert (a + "/" + b)[..|a|] == a && (prefix + "/" + name)[..|prefix|] == prefix;
      assert (a + "/" + b)[|a| + 1..] == b && (prefix + "/" + name)[|prefix| + 1..] == name;
    }
  }

  function FullName(f: TarFile): string {
    if f.prefix == "" then f.name else if f.name == "" then f.prefix else f.prefix + "/" + f.name
  }

  predicate Writable(u: Utf8, f: TarFile) {
    && FitsField(u, f.prefix, 155) && FitsField(u, f.name, 100) && FitsField(u, f.link, 100)
    && (f.prefix != "" && f.name != "" ==> f.prefix[|f.prefix| - 1] != '/' && f.name[0] != '/')
    && ValidName(FullName(f))
    && (IsLink(f.typeflag) ==> f.link != "" && ValidName(f.link))
    && |f.payload| <= MAX_ENTRY_BYTES
    && |f.owner| == 24 && |f.mtime| == 12 && |f.device| == 80
  }

  // ---------------------------------------------------------------- headers

  const USTAR: seq<Byte> := [117, 115, 116, 97, 114]

  /** The bytes before the checksum field, and the bytes after it. */
  function Front(u: Utf8, f: TarFile): (r: seq<Byte>)
    requires Writable(u, f)
    ensures |r| == 148
  {
    TextField(u, f.name, 100) + f.owner + OctalField(|f.payload|, 11, [0]) + f.mtime
  }

  function Back(u: Utf8, f: TarFile): (r: seq<Byte>)
    requires Writable(u, f)
    ensures |r| == 356
  {
    [f.typeflag] + TextField(u, f.link, 100) + USTAR + [0, 48, 48] + f.device + TextField(u, f.prefix, 155) + Zeros(12)
  }

  function WriteHeader(u: Utf8, f: TarFile): (r: seq<Byte>)
    requires Writable(u, f)
    ensures |r| == BLOCK
  {
    var unsealed := Front(u, f) + Zeros(8) + Back(u, f);
    Sealed(unsealed, UnsignedSum(unsealed, BLOCK))
  }

  lemma FrontFields(u: Utf8, f: TarFile)
    requires Writable(u, f)
    ensures Front(u, f)[0..100] == TextField(u, f.name, 100)
    ensures Front(u, f)[124..136] == OctalField(|f.payload|, 11, [0])
  {
  }

  lemma BackFields(u: Utf8, f: TarFile)
    requires Writable(u, f)
    ensures var b := Back(u, f);
            && b[0] == f.typeflag && b[1..101] == TextField(u, f.link, 100) && b[101..106] == USTAR
            && b[189..344] == TextField(u, f.prefix, 155)
  {
  }

  /** Where the fields of a header lie in the block. */
  lemma HeaderFields(u: Utf8, f: TarFile)
    requires Writable(u, f)
    ensures var h := WriteHeader(u, f);
            && h[0..100] == TextField(u, f.name, 100)
            && h[124..136] == OctalField(|f.payload|, 11, [0])
            && h[156] == f.typeflag
            && h[157..257] == TextField(u, f.link, 100)
            && h[257..262] == USTAR
            && h[345..500] == TextField(u, f.prefix, 155)
  {
    var unsealed := Front(u, f) + Zeros(8) + Back(u, f);
    var h := WriteHeader(u, f);
    assert unsealed[..148] == Front(u, f) && unsealed[156..] == Back(u, f);
    assert h[..148] == Front(u, f) && h[156..] == Back(u, f);
    FrontFields(u, f);
    BackFields(u, f);
    assert h[0..100] == h[..148][0..100] && h[124..136] == h[..148][124..136];
    assert h[157..257] == h[156..][1..101] && h[257..262] == h[156..][101..106] && h[345..500] == h[156..][189..344];
  }

  lemma HeaderIsSealed(u: Utf8, f: TarFile)
    requires u.Lawful() && Writable(u, f)
    ensures ChecksumValid(u, WriteHeader(u, f))
  {
    SealedIsValid(u, Front(u, f) + Zeros(8) + Back(u, f));
  }

  /** A written header is accepted and read back: full name, size and kind. */
  lemma HeaderRoundTrip(u: Utf8, f: TarFile)
    requires u.Lawful() && Writable(u, f)
    ensures var h := ParsedHeader(FullName(f), |f.payload|, f.typeflag == 48 || f.typeflag == 0);
            AcceptHeader(u, WriteHeader(u, f)) == Ok(h) && Blocks(u)(WriteHeader(u, f)) == Header(h)
  {
    HeaderFields(u, f);
    HeaderIsSealed(u, f);
    TextFieldRoundTrip(u, f.name, 100);
    TextFieldRoundTrip(u, f.prefix, 155);
    TextFieldRoundTrip(u, f.link, 100);
    Pow8Six();
    OctalFieldRoundTrip(u, |f.payload|, 11, [0]);
    if f.prefix != "" && f.name != "" {
      JoinsPlainly(f.prefix, f.name);
    }
    assert WriteHeader(u, f)[257..262][0] == 117;
  }

  // ---------------------------------------------------------------- archives

  function WriteMember(u: Utf8, f: TarFile): Member
    requires Writable(u, f)
  {
    Member(WriteHeader(u, f), f.payload, Zeros(Padding(|f.payload|)))
  }

  predicate AllWritable(u: Utf8, fs: seq<TarFile>) {
    forall i :: 0 <= i < |fs| ==> Writable(u, fs[i])
  }

  function WriteMembers(u: Utf8, fs: seq<TarFile>): (ms: seq<Member>)
    requires AllWritable(u, fs)
    ensures |ms| == |fs|
  {
    if fs == [] then [] else [WriteMember(u, fs[0])] + WriteMembers(u, fs[1..])
  }

  /** The members, then two blocks of zeros. */
  function WriteTar(u: Utf8, fs: seq<TarFile>): seq<Byte>
    requires AllWritable(u, fs)
  {
    Layout(WriteMembers(u, fs)) + Zeros(2 * BLOCK)
  }

  /** A member with type flag '0' or NUL is a regular file. */
  function RegularOf(f: TarFile): seq<ArchiveEntry> {
    if f.typeflag == 48 || f.typeflag == 0 then [ArchiveEntry(FullName(f), |f.payload|, f.payload)] else []
  }

  /** What an archive of `fs` should hold: its regular files. */
  function Regulars(fs: seq<TarFile>): seq<ArchiveEntry> {
    if fs == [] then [] else RegularOf(fs[0]) + Regulars(fs[1..])
  }

  lemma {:induction false} RegularsAppend(a: seq<TarFile>, f: TarFile)
    ensures Regulars(a + [f]) == Regulars(a) + RegularOf(f)
  {
    if a == [] {
      assert [] + [f] == [f] && [f][1..] == [];
      assert Regulars([f]) == RegularOf(f) + Regulars([]);
    } else {
      assert (a + [f])[1..] == a[1..] + [f];
      RegularsAppend(a[1..], f);
      assert RegularOf(a[0]) + (Regulars(a[1..]) + RegularOf(f)) == RegularOf(a[0]) + Regulars(a[1..]) + RegularOf(f);
    }
  }

  lemma {:induction false} WrittenMembers(u: Utf8, fs: seq<TarFile>)
    requires u.Lawful() && AllWritable(u, fs)
    ensures MembersOk(Blocks(u), WriteMembers(u, fs))
    ensures Files(Blocks(u), WriteMembers(u, fs)) == Regulars(fs)
  {
    if fs != [] {
      assert Writable(u, fs[0]) && AllWritable(u, fs[1..]);
      WrittenMembers(u, fs[1..]);
      WrittenMember(u, fs[0]);
      var ms := WriteMembers(u, fs);
      assert ms[1..] == WriteMembers(u, fs[1..]);
      MembersCons(Blocks(u), ms);
    }
  }

  lemma WrittenMember(u: Utf8, f: TarFile)
    requires u.Lawful() && Writable(u, f)
    ensures MemberOk(Blocks(u), WriteMember(u, f))
    ensures FileOf(Blocks(u), WriteMember(u, f)) == RegularOf(f)
  {
    HeaderRoundTrip(u, f);
  }

  lemma ZerosEndArchives(u: Utf8)
    ensures EndOk(Blocks(u), Zeros(2 * BLOCK))
  {
    var z := Zeros(2 * BLOCK);
    assert AllZero(z[..BLOCK]) && AllZero(z[BLOCK..2 * BLOCK]);
  }

  /** Reading a written archive gives back exactly its regular files, in order. */
  lemma TarRoundTrip(u: Utf8, fs: seq<TarFile>)
    requires u.Lawful() && AllWritable(u, fs) && |fs| <= MAX_ENTRIES && |WriteTar(u, fs)| <= USIZE_MAX
    ensures Read(Blocks(u), WriteTar(u, fs)) == Ok(Regulars(fs))
  {
    var ms, data := WriteMembers(u, fs), WriteTar(u, fs);
    WrittenMembers(u, fs);
    ZerosEndArchives(u);
    assert data[|Layout(ms)|..] == Zeros(2 * BLOCK);
    ArchiveReads(Blocks(u), data, ms);
  }
}

/** Packing with the tar and zip writers, and extracting with the repository's readers. */
module Packing {
  import opened Prelude
  import opened Bytes
  import opened EntryNames
  import opened TarFields
  import opened TarWriter
  import opened Format
  import opened Layers
  import opened ExtractTree
  import opened LeafPaths
  import opened Extract
  import opened ExtractFacts
  import opened NestedArchives
  import T = Tar
  import Z = Zip
  import ZF = ZipFields
  import ZW = ZipWriter
  import Decompress

  // ---------------------------------------------------------------- writing

  predicate AllTar(hs: seq<Head>) {
    forall i :: 0 <= i < |hs| ==> hs[i].TarHead?
  }

  predicate AllZip(hs: seq<Head>) {
    forall i :: 0 <= i < |hs| ==> hs[i].ZipHead?
  }

  function Tars(hs: seq<Head>): (fs: seq<TarFile>)
    requires AllTar(hs)
    ensures |fs| == |hs| && forall i :: 0 <= i < |fs| ==> fs[i] == hs[i].tar
  {
    seq(|hs|, i requires 0 <= i < |hs| => hs[i].tar)
  }

  function Zips(hs: seq<Head>): (fs: seq<ZW.ZipFile>)
    requires AllZip(hs)
    ensures |fs| == |hs| && forall i :: 0 <= i < |fs| ==> fs[i] == hs[i].zip
  {
    seq(|hs|, i requires 0 <= i < |hs| => hs[i].zip)
  }

  /** The bytes of an archive, if it can be written at all. */
  function Written(u: Utf8, k: Kind, hs: seq<Head>): seq<Byte> {
    match k
    case TarKind => if AllTar(hs) && AllWritable(u, Tars(hs)) then WriteTar(u, Tars(hs)) else []
    case ZipKind(t) => if AllZip(hs) then ZW.WriteZip(ZW.Records(u), Zips(hs), t) else []
  }

  /** The first byte of a tar archive starts no other format. */
  predicate StartsPlainly(u: Utf8, f: TarFile) {
    u.encode(f.name) == [] || u.encode(f.name)[0] !in {0x1f, 0x28, 0x04, 0x50, 0xff}
  }

  predicate TarOk(u: Utf8, fs: seq<TarFile>) {
    && AllWritable(u, fs) && 0 < |fs| <= MAX_ENTRIES && |WriteTar(u, fs)| <= USIZE_MAX
    && StartsPlainly(u, fs[0])
  }

  predicate AllStored(fs: seq<ZW.ZipFile>) {
    forall i :: 0 <= i < |fs| ==> fs[i].code == 0
  }

  predicate ZipOk(u: Utf8, fs: seq<ZW.ZipFile>, t: ZW.Trailer) {
    && ZW.ArchiveOk(u, fs, t) && AllStored(fs)
    && ZW.NoLaterRecord(ZW.EndRecord(t, |fs|, |ZW.Locals(ZW.Records(u), fs)|))
  }

  predicate WrittenOk(u: Utf8, k: Kind, hs: seq<Head>) {
    match k
    case TarKind => AllTar(hs) && TarOk(u, Tars(hs))
    case ZipKind(t) => AllZip(hs) && ZipOk(u, Zips(hs), t)
  }

  function Packers(u: Utf8): Packer {
    Packer((k, hs) => Written(u, k, hs), (k, hs) => WrittenOk(u, k, hs))
  }

  // ---------------------------------------------------------------- written tar archives

  lemma HeaderComesFirst(u: Utf8, fs: seq<TarFile>)
    requires AllWritable(u, fs) && fs != []
    ensures |WriteTar(u, fs)| >= BLOCK && WriteTar(u, fs)[..BLOCK] == WriteHeader(u, fs[0])
  {
    var ms := WriteMembers(u, fs);
    assert ms[0] == WriteMember(u, fs[0]);
    assert T.Layout(ms) == T.MemberBytes(ms[0]) + T.Layout(ms[1..]);
  }

  lemma TarIsRecognised(u: Utf8, fs: seq<TarFile>)
    requires AllWritable(u, fs) && fs != [] && StartsPlainly(u, fs[0])
    ensures DetectFormat(WriteTar(u, fs)) == Tar
  {
    var data, h := WriteTar(u, fs), WriteHeader(u, fs[0]);
    HeaderComesFirst(u, fs);
    HeaderFields(u, fs[0]);
    assert data[257..262] == data[..BLOCK][257..262];
    assert data[0] == data[..BLOCK][0] == h[0..100][0];
    TarIsDetected(data);
  }

  lemma {:induction false} RegularsAreEntries(hs: seq<Head>)
    requires AllTar(hs)
    ensures Regulars(Tars(hs)) == Entries(hs)
  {
    if hs != [] {
      var init, last := hs[..|hs| - 1], hs[|hs| - 1];
      RegularsAreEntries(init);
      assert Tars(hs) == Tars(init) + [last.tar];
      RegularsAppend(Tars(init), last.tar);
    }
  }

  lemma TarLayerOpens(f: Readers, data: seq<Byte>, es: seq<ArchiveEntry>)
    requires f.detect(data) == Tar && f.tar(data) == Ok(es)
    ensures OpenLayer(f, data) == Ok(Layer(es, T.PayloadBytes(es)))
  {
  }

  lemma TarBytesOpen(u: Utf8, c: Decompress.Codecs, fs: seq<TarFile>)
    requires u.Lawful() && TarOk(u, fs)
    ensures Recognised(LayerOpener(RepositoryReaders(u, c)), WriteTar(u, fs), Regulars(fs))
  {
    TarIsRecognised(u, fs);
    TarRoundTrip(u, fs);
    TarLayerOpens(RepositoryReaders(u, c), WriteTar(u, fs), Regulars(fs));
  }

  lemma TarOpens(u: Utf8, c: Decompress.Codecs, hs: seq<Head>)
    requires u.Lawful() && AllTar(hs) && TarOk(u, Tars(hs))
    ensures OpensWritten(LayerOpener(RepositoryReaders(u, c)), Packers(u), TarKind, hs)
  {
    TarBytesOpen(u, c, Tars(hs));
    RegularsAreEntries(hs);
  }

  // ---------------------------------------------------------------- written zip archives

  lemma {:induction false} FirstLocal(w: ZW.Writer, fs: seq<ZW.ZipFile>)
    requires fs != []
    ensures w.local(fs[0]) <= ZW.Locals(w, fs)
  {
    if |fs| > 1 {
      FirstLocal(w, fs[..|fs| - 1]);
    } else {
      assert fs[..0] == [];
    }
  }

  lemma LocalStarts(u: Utf8, f: ZW.ZipFile)
    ensures ZIP_LOCAL_MAGIC <= ZW.LocalBytes(u, f)
  {
    var magic := ZF.Le32(Z.LOCAL_SIGNATURE);
    assert magic == ZIP_LOCAL_MAGIC;
    assert ZW.LocalHeader(u, f)[..4] == magic;
    assert ZW.LocalBytes(u, f)[..4] == ZW.LocalHeader(u, f)[..4];
  }

  lemma EndStarts(t: ZW.Trailer)
    ensures ZIP_EMPTY_MAGIC <= ZW.EndRecord(t, 0, 0)
  {
    var magic := ZF.Le32(ZF.EOCD_SIGNATURE);
    assert magic == ZIP_EMPTY_MAGIC;
    assert ZW.EndRecord(t, 0, 0)[..4] == magic;
  }

  /** A written zip archive starts with a signature that no other format starts with. */
  lemma ZipStarts(u: Utf8, fs: seq<ZW.ZipFile>, t: ZW.Trailer)
    ensures (if fs == [] then ZIP_EMPTY_MAGIC else ZIP_LOCAL_MAGIC) <= ZW.WriteZip(ZW.Records(u), fs, t)
  {
    var w := ZW.Records(u);
    if fs == [] {
      EndStarts(t);
      assert ZW.WriteZip(w, fs, t) == ZW.EndRecord(t, 0, 0);
    } else {
      FirstLocal(w, fs);
      LocalStarts(u, fs[0]);
      assert w.local(fs[0]) == ZW.LocalBytes(u, fs[0]);
      StartsOn(ZIP_LOCAL_MAGIC, w.local(fs[0]), ZW.Locals(w, fs), ZW.WriteZip(w, fs, t));
    }
  }

  lemma StartsOn(a: seq<Byte>, b: seq<Byte>, c: seq<Byte>, d: seq<Byte>)
    requires a <= b <= c <= d
    ensures a <= d
  {
  }

  lemma MagicIsZip(data: seq<Byte>)
    requires ZIP_EMPTY_MAGIC <= data || ZIP_LOCAL_MAGIC <= data
    ensures DetectFormat(data) == Zip
  {
    assert data[0..4] == data[..4];
  }

  lemma ZipIsRecognised(u: Utf8, fs: seq<ZW.ZipFile>, t: ZW.Trailer)
    ensures DetectFormat(ZW.WriteZip(ZW.Records(u), fs, t)) == Zip
  {
    ZipStarts(u, fs, t);
    MagicIsZip(ZW.WriteZip(ZW.Records(u), fs, t));
  }

  /** Stored files are taken over as they are. */
  lemma {:induction false} StoredAreEntries(f: Readers, u: Utf8, hs: seq<Head>)
    requires AllZip(hs) && ZW.AllWritable(u, Zips(hs)) && AllStored(Zips(hs))
    ensures ConvertedAll(f, ZW.ExpectedEntries(Zips(hs))) == Ok(Entries(hs))
  {
    if hs != [] {
      var init, last := hs[..|hs| - 1], hs[|hs| - 1].zip;
      assert Zips(hs)[..|hs| - 1] == Zips(init) && Zips(hs)[|hs| - 1] == last;
      assert ZW.Writable(u, last) && last.code == 0;
      StoredAreEntries(f, u, init);
      var before := ZW.ExpectedEntries(Zips(init));
      if Z.IsDirectory(last.name) {
        assert Entries(init) + [] == Entries(init);
      } else {
        var e := Z.ZipEntry(last.name, last.size, Z.Stored, last.payload);
        assert (before + [e])[..|before|] == before;
      }
    }
  }

  lemma ZipLayerOpens(f: Readers, data: seq<Byte>, zs: seq<Z.ZipEntry>, es: seq<ArchiveEntry>)
    requires f.detect(data) == Zip && f.zip(data) == Ok(zs) && ConvertedAll(f, zs) == Ok(es)
    ensures OpenLayer(f, data) == Ok(Layer(es, T.PayloadBytes(es)))
  {
  }

  lemma ZipBytesOpen(u: Utf8, c: Decompress.Codecs, t: ZW.Trailer, fs: seq<ZW.ZipFile>, es: seq<ArchiveEntry>)
    requires u.Lawful() && ZipOk(u, fs, t)
    requires ConvertedAll(RepositoryReaders(u, c), ZW.ExpectedEntries(fs)) == Ok(es)
    ensures Recognised(LayerOpener(RepositoryReaders(u, c)), ZW.WriteZip(ZW.Records(u), fs, t), es)
  {
    var f, data := RepositoryReaders(u, c), ZW.WriteZip(ZW.Records(u), fs, t);
    ZipIsRecognised(u, fs, t);
    ZW.ZipRoundTrip(u, fs, t);
    ZipLayerOpens(f, data, ZW.ExpectedEntries(fs), es);
  }

  lemma ZipOpens(u: Utf8, c: Decompress.Codecs, t: ZW.Trailer, hs: seq<Head>)
    requires u.Lawful() && AllZip(hs) && ZipOk(u, Zips(hs), t)
    ensures OpensWritten(LayerOpener(RepositoryReaders(u, c)), Packers(u), ZipKind(t), hs)
  {
    StoredAreEntries(RepositoryReaders(u, c), u, hs);
    ZipBytesOpen(u, c, t, Zips(hs), Entries(hs));
  }

  // ---------------------------------------------------------------- round trip

  lemma ReadersOpenPacks(u: Utf8, c: Decompress.Codecs)
    requires u.Lawful()
    ensures OpensPacks(LayerOpener(RepositoryReaders(u, c)), Packers(u), DetectFormat)
  {
    var o, p := LayerOpener(RepositoryReaders(u, c)), Packers(u);
    forall k, hs | p.ok(k, hs) ensures OpensWritten(o, p, k, hs) {
      match k
      case TarKind => TarOpens(u, c, hs);
      case ZipKind(t) => ZipOpens(u, c, t, hs);
    }
  }

  /** Packing archives inside archives and unpacking them gives the listing of the pack: every
      file under its full path, in order, archives below the depth limit left closed. */
  lemma NestedRoundTrip(u: Utf8, c: Decompress.Codecs, k: Kind, ms: seq<Packed>, maxDepth: nat)
    requires u.Lawful() && PackOk(Packers(u), DetectFormat, k, ms)
    ensures var depth := if maxDepth < 10 then maxDepth else 10;
            var t := Unpack(LayerOpener(RepositoryReaders(u, c)), Pack(Packers(u), k, ms), depth);
            && t.Ok? && Flatten(t.value.nodes, "") == Listing(Packers(u), ms, [], depth)
            && (TreeFits(Account(0, 0, 0), t.value) <==> PackFits(Packers(u), ms, depth))
  {
    var depth := DepthLimit(maxDepth);
    ReadersOpenPacks(u, c);
    PackUnpacks(LayerOpener(RepositoryReaders(u, c)), Packers(u), DetectFormat, k, ms, depth);
    ListingIsFlattening(Packers(u), ms, [], depth);
    TreeFitsIff(Packers(u), DetectFormat, ms, depth);
  }

  /** Extracting a pack succeeds exactly when its sizes are within the limits, and then gives its
      listing. */
  method ExtractPack(u: Utf8, c: Decompress.Codecs, k: Kind, ms: seq<Packed>, maxDepth: nat)
    returns (r: Result<seq<ArchiveEntry>, ArchiveError>)
    requires u.Lawful() && Decompress.Chunked(c) && PackOk(Packers(u), DetectFormat, k, ms)
    ensures var depth := if maxDepth < 10 then maxDepth else 10;
            && (r.Ok? <==> PackFits(Packers(u), ms, depth))
            && (r.Ok? ==> r.value == Listing(Packers(u), ms, [], depth))
  {
    RepositoryIsSound(u, c);
    NestedRoundTrip(u, c, k, ms, maxDepth);
    r := AutoExtractRecursive(RepositoryReaders(u, c), Pack(Packers(u), k, ms), maxDepth);
  }

  // ---------------------------------------------------------------- an archive without a name

  /** A tar member with nothing in its header but a name. */
  function Plain(name: string, payload: seq<Byte>): TarFile {
    TarFile("", name, 48, "", payload, Zeros(24), Zeros(12), Zeros(80))
  }

  /** A tar archive with an empty name that holds a file called `a`. */
  function Unnamed(): seq<Packed> {
    [Archive(TarHead(Plain("", [])), TarKind, [File(TarHead(Plain("a", [65])))])]
  }

  predicate PlainChar(c: char) {
    'a' <= c <= 'z' || c == '.'
  }

  /** Letters and dots. */
  predicate PlainName(name: string) {
    |name| <= 100 && name != ".." && forall i :: 0 <= i < |name| ==> PlainChar(name[i])
  }

  lemma {:induction false} NoSeparators(name: string)
    requires forall i :: 0 <= i < |name| ==> PlainChar(name[i])
    ensures Components(name) == [name]
  {
    if name != "" {
      NoSeparators(name[1..]);
      assert PlainChar(name[0]) && name == [name[0]] + name[1..] && [name[1..]][1..] == [];
    }
  }

  lemma NoPercentAt(name: string, p: string, i: nat, j: nat)
    requires PlainName(name) && OccursAt(Lower(name), p, i) && j < |p|
    ensures p[j] != '%'
  {
    assert Lower(name)[i + j] == Lower(name)[i..i + |p|][j] && PlainChar(name[i + j]);
  }

  lemma NoPercent(name: string, p: string)
    requires PlainName(name) && p in ENCODED_DOTS
    ensures !Contains(Lower(name), p)
  {
    forall i: nat | OccursAt(Lower(name), p, i) ensures p[0] != '%' && p[1] != '%' {
      NoPercentAt(name, p, i, 0);
      NoPercentAt(name, p, i, 1);
    }
  }

  lemma PlainNameIsValid(name: string)
    requires PlainName(name)
    ensures ValidName(name)
  {
    NoSeparators(name);
    if name != "" {
      assert PlainChar(name[0]) && PlainChar(name[|name| - 1]);
    }
    assert TrimStart(name) == name && TrimEnd(name) == name;
    forall p | p in ENCODED_DOTS ensures !Contains(Lower(name), p) {
      NoPercent(name, p);
    }
    forall c | c in name ensures !IsLookalikeDot(c) {
      var i :| 0 <= i < |name| && name[i] == c;
      assert PlainChar(name[i]);
    }
  }

  lemma PlainIsWritable(u: Utf8, name: string, payload: seq<Byte>)
    requires u.Lawful() && PlainName(name) && |payload| <= MAX_ENTRY_BYTES
    ensures Writable(u, Plain(name, payload)) && StartsPlainly(u, Plain(name, payload))
  {
    PlainNameIsValid(name);
    assert forall i :: 0 <= i < |name| ==> PlainChar(name[i]);
    assert Ascii(name) && Ascii("");
    var b := AsciiBytes(name);
    assert u.encode(name) == b && u.encode("") == AsciiBytes("");
    assert forall i :: 0 <= i < |b| ==> PlainChar(name[i]) && b[i] == name[i] as int;
  }

  /** Members with nothing in their headers but a name, and little in them. */
  predicate AllPlain(fs: seq<TarFile>, max: nat) {
    forall i :: 0 <= i < |fs| ==>
      PlainName(fs[i].name) && |fs[i].payload| <= max && fs[i] == Plain(fs[i].name, fs[i].payload)
  }

  lemma MemberSize(u: Utf8, f: TarFile)
    requires AllWritable(u, [f])
    ensures Writable(u, f) && |T.MemberBytes(WriteMember(u, f))| <= |f.payload| + 2 * BLOCK
  {
    assert [f][0] == f;
  }

  lemma LayoutOf(u: Utf8, f: TarFile, fs: seq<TarFile>)
    requires AllWritable(u, [f]) && AllWritable(u, fs)
    ensures AllWritable(u, [f] + fs)
    ensures |T.Layout(WriteMembers(u, [f] + fs))| <= |f.payload| + 2 * BLOCK + |T.Layout(WriteMembers(u, fs))|
  {
    MemberSize(u, f);
    assert ([f] + fs)[1..] == fs;
    var ms := WriteMembers(u, [f] + fs);
    assert ms == [WriteMember(u, f)] + WriteMembers(u, fs) && ms[1..] == WriteMembers(u, fs);
  }

  /** Up to two members written. */
  lemma PlainMembers(u: Utf8, fs: seq<TarFile>, max: nat)
    requires u.Lawful() && AllPlain(fs, max) && max <= MAX_ENTRY_BYTES && 0 < |fs| <= 2
    ensures AllWritable(u, fs) && |T.Layout(WriteMembers(u, fs))| <= 2 * max + 4 * BLOCK
  {
    PlainIsWritable(u, fs[0].name, fs[0].payload);
    var none: seq<TarFile> := [];
    assert WriteMembers(u, none) == [] && T.Layout([]) == [];
    if |fs| == 1 {
      assert [fs[0]] + none == fs;
      LayoutOf(u, fs[0], none);
    } else {
      PlainIsWritable(u, fs[1].name, fs[1].payload);
      assert [fs[1]] + none == [fs[1]] && [fs[0]] + [fs[1]] == fs;
      LayoutOf(u, fs[1], none);
      LayoutOf(u, fs[0], [fs[1]]);
    }
  }

  lemma PlainTarOk(u: Utf8, fs: seq<TarFile>, max: nat)
    requires u.Lawful() && AllPlain(fs, max) && max <= MAX_ENTRY_BYTES && 0 < |fs| <= 2
    ensures TarOk(u, fs) && |WriteTar(u, fs)| <= 2 * max + 6 * BLOCK
  {
    PlainMembers(u, fs, max);
    PlainIsWritable(u, fs[0].name, fs[0].payload);
  }

  function Heads(fs: seq<TarFile>): (hs: seq<Head>)
    ensures |hs| == |fs| && AllTar(hs)
  {
    seq(|fs|, i requires 0 <= i < |fs| => TarHead(fs[i]))
  }

  /** Plain members as members of a pack. */
  function Members(fs: seq<TarFile>): (ms: seq<Packed>)
    ensures |ms| == |fs|
  {
    seq(|fs|, i requires 0 <= i < |fs| => File(TarHead(fs[i])))
  }

  lemma {:induction false} MembersRender(p: Packer, fs: seq<TarFile>)
    ensures Render(p, Members(fs)) == Heads(fs)
  {
    if fs != [] {
      var init := fs[..|fs| - 1];
      MembersRender(p, init);
      assert Members(fs)[..|fs| - 1] == Members(init);
      assert Heads(fs) == Heads(init) + [TarHead(fs[|fs| - 1])];
    }
  }

  /** No member looks like an archive to the detector. */
  predicate NoArchives(detect: Detector, fs: seq<TarFile>) {
    forall i :: 0 <= i < |fs| ==> fs[i].typeflag == 48 && detect(fs[i].payload) == Unknown
  }

  lemma FilesPackOk(p: Packer, detect: Detector, fs: seq<TarFile>)
    requires p.ok(TarKind, Heads(fs)) && NoArchives(detect, fs)
    ensures PackOk(p, detect, TarKind, Members(fs))
    ensures Pack(p, TarKind, Members(fs)) == p.write(TarKind, Heads(fs))
  {
    MembersRender(p, fs);
    forall i | 0 <= i < |fs| ensures MemberOk(p, detect, Members(fs)[i]) {
    }
  }

  /** An archive of plain members inside another. */
  function Enclosed(name: string, fs: seq<TarFile>): seq<Packed> {
    [Archive(TarHead(Plain(name, [])), TarKind, Members(fs))]
  }

  lemma EnclosedOk(p: Packer, detect: Detector, name: string, fs: seq<TarFile>)
    requires p.ok(TarKind, Heads(fs)) && NoArchives(detect, fs)
    requires p.ok(TarKind, Heads([Plain(name, p.write(TarKind, Heads(fs)))]))
    ensures PackOk(p, detect, TarKind, Enclosed(name, fs))
  {
    var ms, outer := Enclosed(name, fs), [Plain(name, p.write(TarKind, Heads(fs)))];
    FilesPackOk(p, detect, fs);
    assert ms[..0] == [] && Render(p, ms[..0]) == [];
    assert RenderOne(p, ms[0]) == TarHead(outer[0]);
    assert Render(p, ms) == Heads(outer);
  }

  lemma WrittenPlain(u: Utf8, fs: seq<TarFile>, max: nat)
    requires u.Lawful() && AllPlain(fs, max) && max <= MAX_ENTRY_BYTES && 0 < |fs| <= 2
    ensures Packers(u).ok(TarKind, Heads(fs)) && |Packers(u).write(TarKind, Heads(fs))| <= 2 * max + 6 * BLOCK
  {
    PlainTarOk(u, fs, max);
    assert Tars(Heads(fs)) == fs;
  }

  lemma EnclosedPackOk(u: Utf8, name: string, fs: seq<TarFile>)
    requires u.Lawful() && PlainName(name) && AllPlain(fs, 1) && NoArchives(DetectFormat, fs) && 0 < |fs| <= 2
    ensures PackOk(Packers(u), DetectFormat, TarKind, Enclosed(name, fs))
  {
    WrittenPlain(u, fs, 1);
    WrittenPlain(u, [Plain(name, Packers(u).write(TarKind, Heads(fs)))], 8 * BLOCK);
    EnclosedOk(Packers(u), DetectFormat, name, fs);
  }

  lemma UnnamedPackOk(u: Utf8)
    requires u.Lawful()
    ensures PackOk(Packers(u), DetectFormat, TarKind, Unnamed())
  {
    var fs := [Plain("a", [65])];
    assert Members(fs) == [File(TarHead(fs[0]))];
    EnclosedPackOk(u, "", fs);
  }

  /** A nested archive whose name is empty is accepted, and its files are not put under its path. */
  lemma UnnamedArchiveExample(u: Utf8, c: Decompress.Codecs, maxDepth: nat)
    requires u.Lawful() && maxDepth > 0
    ensures var t := Unpack(LayerOpener(RepositoryReaders(u, c)), Pack(Packers(u), TarKind, Unnamed()),
                            DepthLimit(maxDepth));
            && t.Ok? && |t.value.nodes| == 1 && t.value.nodes[0].Nested? && t.value.nodes[0].entry.name == ""
            && Flatten(t.value.nodes, "") == [ArchiveEntry("a", 1, [65])]
            && !Under(Flatten(t.value.nodes, ""), "")
  {
    var p, ms, depth := Packers(u), Unnamed(), DepthLimit(maxDepth);
    var o := LayerOpener(RepositoryReaders(u, c));
    UnnamedPackOk(u);
    ReadersOpenPacks(u, c);
    PackUnpacks(o, p, DetectFormat, TarKind, ms, depth);
    ListingIsFlattening(p, ms, [], depth);
    UnnamedListing(p, depth);
    var t := Unpack(o, Pack(p, TarKind, ms), depth).value;
    assert ms[..0] == [] && t.nodes == NodeOf(p, ms[0], depth);
    assert ("" + "/")[0] == '/' && Flatten(t.nodes, "")[0].name == "a";
  }

  lemma UnnamedListing(p: Packer, depth: nat)
    requires depth > 0
    ensures Listing(p, Unnamed(), [], depth) == [ArchiveEntry("a", 1, [65])]
  {
    var inner := Unnamed()[0].members;
    assert inner[..0] == [] && Unnamed()[..0] == [];
    assert [] + [""] == [""] && [""] + ["a"] == ["", "a"] && ["", "a"][1..] == ["a"];
    assert Listing(p, inner, [""], depth - 1) == [] + ListingOne(p, inner[0], [""], depth - 1);
    assert Listing(p, Unnamed(), [], depth) == [] + ListingOne(p, Unnamed()[0], [], depth);
  }

  // ---------------------------------------------------------------- a nested archive with two files

  /** A tar archive called `in.tar` that holds the files `a` and `b`, inside another. */
  function InTar(): seq<Packed> {
    [Archive(TarHead(Plain("in.tar", [])), TarKind,
             [File(TarHead(Plain("a", [65]))), File(TarHead(Plain("b", [66])))])]
  }

  lemma InTarOk(u: Utf8)
    requires u.Lawful()
    ensures PackOk(Packers(u), DetectFormat, TarKind, InTar())
  {
    var fs := [Plain("a", [65]), Plain("b", [66])];
    assert Members(fs) == [File(TarHead(fs[0])), File(TarHead(fs[1]))];
    EnclosedPackOk(u, "in.tar", fs);
  }

  lemma InTarPaths(name: string)
    ensures FullPath(["in.tar", name]) == "in.tar/" + name
  {
    assert ["in.tar", name][1..] == [name];
    assert Slashed(["in.tar", name]) == "in.tar" + "/" + name;
  }

  lemma InTarListing(p: Packer)
    ensures Listing(p, InTar(), [], 1) == [ArchiveEntry("in.tar/a", 1, [65]), ArchiveEntry("in.tar/b", 1, [66])]
  {
    var inner := InTar()[0].members;
    var above: seq<string> := [] + ["in.tar"];
    InTarPaths("a");
    InTarPaths("b");
    assert "in.tar/" + "a" == "in.tar/a" && "in.tar/" + "b" == "in.tar/b";
    assert above + ["a"] == ["in.tar", "a"] && above + ["b"] == ["in.tar", "b"];
    assert inner[..1] == [inner[0]] && inner[..1][..0] == [] && InTar()[..0] == [];
    assert Listing(p, inner[..1], above, 0) == [] + ListingOne(p, inner[0], above, 0);
    assert Listing(p, inner, above, 0) == Listing(p, inner[..1], above, 0) + ListingOne(p, inner[1], above, 0);
    assert ListingOne(p, inner[0], above, 0) == [ArchiveEntry("in.tar/a", 1, [65])];
    assert ListingOne(p, inner[1], above, 0) == [ArchiveEntry("in.tar/b", 1, [66])];
    assert NameOf(InTar()[0].head) == "in.tar";
    assert ListingOne(p, InTar()[0], [], 1) == Listing(p, inner, above, 0);
    assert Listing(p, InTar(), [], 1) == [] + ListingOne(p, InTar()[0], [], 1);
  }

  /** Extracted one level deep it gives the two files under the name of the archive they lie in. */
  lemma InTarExample(u: Utf8, c: Decompress.Codecs)
    requires u.Lawful()
    ensures var t := Unpack(LayerOpener(RepositoryReaders(u, c)), Pack(Packers(u), TarKind, InTar()), DepthLimit(1));
            && t.Ok?
            && Flatten(t.value.nodes, "") == [ArchiveEntry("in.tar/a", 1, [65]), ArchiveEntry("in.tar/b", 1, [66])]
  {
    InTarOk(u);
    NestedRoundTrip(u, c, TarKind, InTar(), 1);
    InTarListing(Packers(u));
  }
}

/**
 What comes out of one archive, told from its bytes: which reader they go to, what a compressed
 stream gives, and what becomes of the stored and deflated files of a zip archive.
 */
module LayerContents {
  import opened Prelude
  import opened Bytes
  import opened Format
  import opened Layers
  import opened ExtractTree
  import opened ZipWriter
  import T = Tar
  import TarHeaders
  import Z = Zip
  import Decompress
  import Packing

  /** The contents of a file: method 0 keeps them as they are; method 8 is inflated, if that comes
      to exactly the size the file declares; no other method is known. */
  function Contents(c: Decompress.Codecs, f: ZipFile): Option<seq<Byte>> {
    match f.code
    case 0 => Some(f.payload)
    case 8 =>
      var out := Decompress.Concat(c.inflate(f.payload).chunks);
      if Decompress.ComesOut(|f.payload|, c.inflate(f.payload), out) && |out| == f.size then Some(out) else None
    case _ => None
  }

  predicate IsFolder(f: ZipFile) {
    f.name != "" && f.name[|f.name| - 1] == '/'
  }

  predicate AllComeOut(c: Decompress.Codecs, fs: seq<ZipFile>) {
    forall i :: 0 <= i < |fs| ==> IsFolder(fs[i]) || Contents(c, fs[i]).Some?
  }

  /** The files with their contents, in order; directories are left out. */
  function FilesOut(c: Decompress.Codecs, fs: seq<ZipFile>): seq<ArchiveEntry>
    requires AllComeOut(c, fs)
  {
    if fs == [] then []
    else
      var f := fs[|fs| - 1];
      FilesOut(c, fs[..|fs| - 1])
      + if IsFolder(f) then [] else [ArchiveEntry(f.name, f.size, Contents(c, f).value)]
  }

  /** How the repository converts one entry. */
  type Inflater = (seq<Byte>, nat) -> Result<seq<Byte>, ArchiveError>

  ghost predicate Inflates(c: Decompress.Codecs, inflate: Inflater) {
    forall data, size: nat, out {:trigger Decompress.ComesOut(|data|, c.inflate(data), out), inflate(data, size)} ::
      inflate(data, size) == Ok(out) <==> Decompress.ComesOut(|data|, c.inflate(data), out) && |out| == size
  }

  lemma ReadersInflate(u: Utf8, c: Decompress.Codecs)
    requires Decompress.Chunked(c)
    ensures Inflates(c, RepositoryReaders(u, c).inflate)
  {
    forall data, size: nat, out
      ensures RepositoryReaders(u, c).inflate(data, size) == Ok(out) <==>
        Decompress.ComesOut(|data|, c.inflate(data), out) && |out| == size
    {
      Decompress.InflatesExactly(c, data, size);
    }
  }

  lemma ConvertedContents(c: Decompress.Codecs, r: Readers, f: ZipFile)
    requires Inflates(c, r.inflate) && !IsFolder(f)
    ensures Expected(f).Some?
    ensures match Contents(c, f)
            case None => Converted(r, Expected(f).value).Err?
            case Some(out) => Converted(r, Expected(f).value) == Ok(ArchiveEntry(f.name, f.size, out))
  {
    if f.code == 8 {
      var out := Decompress.Concat(c.inflate(f.payload).chunks);
      assert r.inflate(f.payload, f.size) == Ok(out) <==>
        Decompress.ComesOut(|f.payload|, c.inflate(f.payload), out) && |out| == f.size;
      if r.inflate(f.payload, f.size).Ok? {
        var other := r.inflate(f.payload, f.size).value;
        assert Decompress.ComesOut(|f.payload|, c.inflate(f.payload), other);
      }
    }
  }

  /** All entries convert exactly when all files come out. */
  lemma {:induction false} ConvertedFiles(c: Decompress.Codecs, r: Readers, fs: seq<ZipFile>)
    requires Inflates(c, r.inflate)
    ensures ConvertedAll(r, ExpectedEntries(fs)).Ok? <==> AllComeOut(c, fs)
    ensures AllComeOut(c, fs) ==> ConvertedAll(r, ExpectedEntries(fs)) == Ok(FilesOut(c, fs))
  {
    if fs != [] {
      var init, last := fs[..|fs| - 1], fs[|fs| - 1];
      ConvertedFiles(c, r, init);
      assert AllComeOut(c, fs) <==> AllComeOut(c, init) && (IsFolder(last) || Contents(c, last).Some?);
      if !IsFolder(last) {
        ConvertedContents(c, r, last);
        var before := ExpectedEntries(init);
        assert (before + [Expected(last).value])[..|before|] == before;
      } else {
        assert AllComeOut(c, fs) ==> FilesOut(c, init) + [] == FilesOut(c, init);
      }
    }
  }

  lemma LayerOfZip(r: Readers, data: seq<Byte>, zs: seq<Z.ZipEntry>)
    requires r.detect(data) == Zip && r.zip(data) == Ok(zs)
    ensures OpenLayer(r, data).Ok? <==> ConvertedAll(r, zs).Ok?
    ensures ConvertedAll(r, zs).Ok? ==>
      OpenLayer(r, data) == Ok(Layer(ConvertedAll(r, zs).value, T.PayloadBytes(ConvertedAll(r, zs).value)))
  {
  }

  /** A written zip archive opens exactly when every file in it is stored, or deflated to exactly
      its declared size within the limits. It then holds the files with their contents, and is
      charged for those. */
  lemma ZipOpensIff(u: Utf8, c: Decompress.Codecs, fs: seq<ZipFile>, t: Trailer)
    requires u.Lawful() && Decompress.Chunked(c) && ArchiveOk(u, fs, t)
    requires NoLaterRecord(EndRecord(t, |fs|, |Locals(Records(u), fs)|))
    ensures var layer := OpenLayer(RepositoryReaders(u, c), WriteZip(Records(u), fs, t));
            && (layer.Ok? <==> AllComeOut(c, fs))
            && (layer.Ok? ==> layer == Ok(Layer(FilesOut(c, fs), T.PayloadBytes(FilesOut(c, fs)))))
  {
    Packing.ZipIsRecognised(u, fs, t);
    ZipRoundTrip(u, fs, t);
    ReadersInflate(u, c);
    ConvertedFiles(c, RepositoryReaders(u, c), fs);
    LayerOfZip(RepositoryReaders(u, c), WriteZip(Records(u), fs, t), ExpectedEntries(fs));
  }

  // ---------------------------------------------------------------- layers of any kind

  function TarFiles(u: Utf8, data: seq<Byte>): Result<seq<ArchiveEntry>, ArchiveError> {
    T.Read(TarHeaders.Blocks(u), data)
  }

  /** A stream that comes out as a tar archive, charged for all of the stream. */
  ghost predicate StreamOfTar(u: Utf8, inputLen: nat, s: Decompress.Stream, es: seq<ArchiveEntry>, charge: nat) {
    exists out :: Decompress.ComesOut(inputLen, s, out) && TarFiles(u, out) == Ok(es) && charge == |out|
  }

  /** What a layer is, by its first bytes; a tar archive by the magic in its first header. */
  ghost predicate LayerIs(u: Utf8, c: Decompress.Codecs, data: seq<Byte>, es: seq<ArchiveEntry>, charge: nat) {
    if [0x1f, 0x8b] <= data then
      StreamOfTar(u, |data|, c.gzip(data), es, charge)
    else if [0x28, 0xb5, 0x2f, 0xfd] <= data then
      c.zstd(data).Some? && StreamOfTar(u, |data|, c.zstd(data).value, es, charge)
    else if [0x50, 0x4b, 3, 4] <= data || [0x50, 0x4b, 5, 6] <= data then
      && Z.ReadZip(Z.Names(u), data).Ok?
      && ConvertedAll(RepositoryReaders(u, c), Z.ReadZip(Z.Names(u), data).value) == Ok(es)
      && charge == T.PayloadBytes(es)
    else
      && !([4, 0x22, 0x4d, 0x18] <= data) && !([0xff, 6, 0, 0, 0x73, 0x4e, 0x61, 0x50, 0x70, 0x59] <= data)
      && Holds(data, 257, [117, 115, 116, 97, 114])
      && TarFiles(u, data) == Ok(es) && charge == T.PayloadBytes(es)
  }

  lemma StreamOpens(u: Utf8, r: Readers, stream: Result<seq<Byte>, ArchiveError>, inputLen: nat, s: Decompress.Stream,
                    es: seq<ArchiveEntry>, charge: nat)
    requires forall out :: stream == Ok(out) <==> Decompress.ComesOut(inputLen, s, out)
    requires forall data :: r.tar(data) == TarFiles(u, data)
    ensures StreamLayer(r, stream) == Ok(Layer(es, charge)) <==> StreamOfTar(u, inputLen, s, es, charge)
  {
    if stream.Ok? {
      assert Decompress.ComesOut(inputLen, s, stream.value);
    }
  }

  /** An archive opens exactly as the layer it is. */
  lemma OpensIff(u: Utf8, c: Decompress.Codecs, data: seq<Byte>, es: seq<ArchiveEntry>, charge: nat)
    requires Decompress.Chunked(c)
    ensures OpenLayer(RepositoryReaders(u, c), data) == Ok(Layer(es, charge)) <==> LayerIs(u, c, data, es, charge)
  {
    var r := RepositoryReaders(u, c);
    FormatIs(data);
    match DetectFormat(data) {
      case Gzip =>
        forall out ensures r.gunzip(data) == Ok(out) <==> Decompress.ComesOut(|data|, c.gzip(data), out) {
          Decompress.GunzipsExactly(c, data, out);
        }
        StreamOpens(u, r, r.gunzip(data), |data|, c.gzip(data), es, charge);
      case Zstd =>
        if c.zstd(data).Some? {
          var s := c.zstd(data).value;
          forall out ensures r.unzstd(data) == Ok(out) <==> Decompress.ComesOut(|data|, s, out) {
            Decompress.UnzstdsExactly(c, data, out);
          }
          StreamOpens(u, r, r.unzstd(data), |data|, s, es, charge);
        }
      case _ =>
    }
  }

  /** The first bytes of some format, or the magic in a tar header. */
  predicate LooksLikeArchive(data: seq<Byte>) {
    || [0x50, 0x4b, 3, 4] <= data || [0x50, 0x4b, 5, 6] <= data || [0x1f, 0x8b] <= data
    || [0x28, 0xb5, 0x2f, 0xfd] <= data || [4, 0x22, 0x4d, 0x18] <= data
    || [0xff, 6, 0, 0, 0x73, 0x4e, 0x61, 0x50, 0x70, 0x59] <= data
    || Holds(data, 257, [117, 115, 116, 97, 114])
  }

  /** An entry is put out as it is exactly when there is no depth left or it looks like no archive;
      otherwise it is opened, also when nobody can read its format. */
  lemma EntryIsOpenedIff(u: Utf8, c: Decompress.Codecs, e: ArchiveEntry, depth: nat)
    ensures UnpackNode(LayerOpener(RepositoryReaders(u, c)), e, depth) == Ok(Leaf(e)) <==>
      depth == 0 || !LooksLikeArchive(e.data)
    ensures depth > 0 && [4, 0x22, 0x4d, 0x18] <= e.data ==>
      UnpackNode(LayerOpener(RepositoryReaders(u, c)), e, depth).Err?
    ensures depth > 0 && [0xff, 6, 0, 0, 0x73, 0x4e, 0x61, 0x50, 0x70, 0x59] <= e.data ==>
      UnpackNode(LayerOpener(RepositoryReaders(u, c)), e, depth).Err?
  {
    FormatIs(e.data);
  }
}

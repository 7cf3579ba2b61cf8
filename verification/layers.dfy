/** One archive layer (`auto_extract_with_budget` in `src/archive/extract.rs`): what it holds
    and how many decompressed bytes it is charged for. */
module Layers {
  import opened Prelude
  import opened Bytes
  import opened EntryNames
  import opened Format
  import T = Tar
  import TarHeaders
  import Z = Zip
  import Decompress

  /** The readers a layer is opened with. */
  datatype Readers = Readers(detect: seq<Byte> -> DecompressFormat,
                             tar: seq<Byte> -> Result<seq<ArchiveEntry>, ArchiveError>,
                             zip: seq<Byte> -> Result<seq<Z.ZipEntry>, ArchiveError>,
                             gunzip: seq<Byte> -> Result<seq<Byte>, ArchiveError>,
                             unzstd: seq<Byte> -> Result<seq<Byte>, ArchiveError>,
                             inflate: (seq<Byte>, nat) -> Result<seq<Byte>, ArchiveError>)

  function RepositoryReaders(u: Utf8, c: Decompress.Codecs): Readers {
    Readers(DetectFormat,
            data => T.Read(TarHeaders.Blocks(u), data),
            data => Z.ReadZip(Z.Names(u), data),
            data => Decompress.Gunzipped(c, data),
            data => Decompress.Unzstd(c, data),
            (data, expected: nat) => Decompress.Inflated(c, data, expected))
  }

  /** `zip_entry_into_archive_entry`, without the budget. */
  function Converted(f: Readers, e: Z.ZipEntry): Result<ArchiveEntry, ArchiveError> {
    match e.compression
    case Stored => Ok(ArchiveEntry(e.name, e.size, e.data))
    case Deflated =>
      (match f.inflate(e.data, e.size)
       case Err(err) => Err(err)
       case Ok(data) => Ok(ArchiveEntry(e.name, e.size, data)))
    case Other(_) => Err(InvalidHeader(0))
  }

  function ConvertedAll(f: Readers, es: seq<Z.ZipEntry>): Result<seq<ArchiveEntry>, ArchiveError> {
    if es == [] then Ok([])
    else
      match ConvertedAll(f, es[..|es| - 1])
      case Err(err) => Err(err)
      case Ok(before) =>
        match Converted(f, es[|es| - 1])
        case Err(err) => Err(err)
        case Ok(e) => Ok(before + [e])
  }

  datatype Layer = Layer(entries: seq<ArchiveEntry>, charge: nat)

  /** A tar layer is charged for its payloads, a compressed one for everything in the stream. */
  function TarLayer(f: Readers, data: seq<Byte>): Result<Layer, ArchiveError> {
    match f.tar(data)
    case Err(e) => Err(e)
    case Ok(es) => Ok(Layer(es, T.PayloadBytes(es)))
  }

  function StreamLayer(f: Readers, stream: Result<seq<Byte>, ArchiveError>): Result<Layer, ArchiveError> {
    match stream
    case Err(e) => Err(e)
    case Ok(data) => (match f.tar(data) case Err(e) => Err(e) case Ok(es) => Ok(Layer(es, |data|)))
  }

  function ZipLayer(f: Readers, data: seq<Byte>): Result<Layer, ArchiveError> {
    match f.zip(data)
    case Err(e) => Err(e)
    case Ok(zs) =>
      match ConvertedAll(f, zs)
      case Err(e) => Err(e)
      case Ok(es) => Ok(Layer(es, T.PayloadBytes(es)))
  }

  function OpenLayer(f: Readers, data: seq<Byte>): Result<Layer, ArchiveError> {
    match f.detect(data)
    case Tar => TarLayer(f, data)
    case Gzip => StreamLayer(f, f.gunzip(data))
    case Zstd => StreamLayer(f, f.unzstd(data))
    case Zip => ZipLayer(f, data)
    case _ => Err(InvalidHeader(0))
  }

  // ---------------------------------------------------------------- what the readers owe

  predicate WholeEntries(es: seq<ArchiveEntry>) {
    forall i :: 0 <= i < |es| ==> T.EntryOk(es[i])
  }

  predicate ZipEntryOk(e: Z.ZipEntry) {
    ValidName(e.name) && (e.compression == Z.Stored ==> e.size == |e.data| <= MAX_ENTRY_BYTES)
  }

  predicate ZipEntriesOk(es: seq<Z.ZipEntry>) {
    forall i :: 0 <= i < |es| ==> ZipEntryOk(es[i])
  }

  /** Tar entries are whole and no longer than their archive; zip entries are named safely, and
      stored ones are whole; inflated ones have the size they declare. */
  ghost predicate Sound(f: Readers) {
    && (forall data :: f.tar(data).Ok? ==>
          WholeEntries(f.tar(data).value) && T.PayloadBytes(f.tar(data).value) <= |data|)
    && (forall data :: f.zip(data).Ok? ==> ZipEntriesOk(f.zip(data).value))
    && (forall data, expected: nat :: f.inflate(data, expected).Ok? ==>
          |f.inflate(data, expected).value| == expected <= MAX_ENTRY_BYTES)
  }

  lemma TarIsSound(u: Utf8, data: seq<Byte>)
    ensures var r := T.Read(TarHeaders.Blocks(u), data);
            r.Ok? ==> WholeEntries(r.value) && T.PayloadBytes(r.value) <= |data|
  {
    var p := TarHeaders.Blocks(u);
    if T.Read(p, data).Ok? {
      TarHeaders.BlocksAreCareful(u);
      T.ReadFits(p, data);
    }
  }

  lemma ZipIsSound(u: Utf8, data: seq<Byte>)
    ensures var r := Z.ReadZip(Z.Names(u), data);
            r.Ok? ==> ZipEntriesOk(r.value)
  {
    var names := Z.Names(u);
    if Z.ReadZip(names, data).Ok? {
      Z.NamesAreCareful(u);
      Z.ReadZipFits(names, data);
      var es := Z.ReadZip(names, data).value;
      assert forall i :: 0 <= i < |es| ==> Z.EntryOk(data, es[i]);
    }
  }

  lemma InflateIsSound(c: Decompress.Codecs, data: seq<Byte>, expected: nat)
    requires Decompress.Chunked(c)
    ensures var r := Decompress.Inflated(c, data, expected);
            r.Ok? ==> |r.value| == expected <= MAX_ENTRY_BYTES
  {
    Decompress.InflatesExactly(c, data, expected);
  }

  /** The repository's readers are sound. */
  lemma RepositoryIsSound(u: Utf8, c: Decompress.Codecs)
    requires Decompress.Chunked(c)
    ensures Sound(RepositoryReaders(u, c))
  {
    var f := RepositoryReaders(u, c);
    forall data
      ensures f.tar(data).Ok? ==> WholeEntries(f.tar(data).value) && T.PayloadBytes(f.tar(data).value) <= |data|
    {
      TarIsSound(u, data);
    }
    forall data ensures f.zip(data).Ok? ==> ZipEntriesOk(f.zip(data).value) {
      ZipIsSound(u, data);
    }
    forall data, expected: nat
      ensures f.inflate(data, expected).Ok? ==> |f.inflate(data, expected).value| == expected <= MAX_ENTRY_BYTES
    {
      InflateIsSound(c, data, expected);
    }
  }

  // ---------------------------------------------------------------- what layers look like

  lemma {:induction false} ConvertedWhole(f: Readers, es: seq<Z.ZipEntry>)
    requires Sound(f) && ZipEntriesOk(es) && ConvertedAll(f, es).Ok?
    ensures WholeEntries(ConvertedAll(f, es).value)
  {
    if es != [] {
      var last := es[|es| - 1];
      assert ZipEntryOk(last);
      ConvertedWhole(f, es[..|es| - 1]);
      assert T.EntryOk(Converted(f, last).value);
    }
  }

  /** Every layer holds whole, safely named entries, and is charged for at least their bytes. */
  lemma LayerCovers(f: Readers, data: seq<Byte>)
    requires Sound(f) && OpenLayer(f, data).Ok?
    ensures WholeEntries(OpenLayer(f, data).value.entries)
    ensures T.PayloadBytes(OpenLayer(f, data).value.entries) <= OpenLayer(f, data).value.charge
  {
    if f.detect(data) == Zip {
      ConvertedWhole(f, f.zip(data).value);
    }
  }
}

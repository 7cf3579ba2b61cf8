/** The bounded decompression loops of `src/archive/decompress.rs` and of `decompress_zip_deflate`
    in `src/archive/extract.rs`. A decoder is the chunks it delivers and how it ends. */
module Decompress {
  import opened Prelude
  import opened Bytes

  const CHUNK: nat := 65536
  const MAX_DECOMPRESS_BYTES: nat := MAX_ENTRY_BYTES
  const MAX_RATIO: nat := 250

  /** What successive reads of a decoder give: chunks, then the end or an error. */
  datatype Stream = Stream(chunks: seq<seq<Byte>>, clean: bool)

  predicate ChunksOk(chunks: seq<seq<Byte>>) {
    forall i :: 0 <= i < |chunks| ==> 0 < |chunks[i]| <= CHUNK
  }

  function Concat(chunks: seq<seq<Byte>>): seq<Byte> {
    if chunks == [] then [] else Concat(chunks[..|chunks| - 1]) + chunks[|chunks| - 1]
  }

  /** `data.len().saturating_mul(250)`. */
  function RatioLimit(inputLen: nat): nat {
    if inputLen * MAX_RATIO > USIZE_MAX then USIZE_MAX else inputLen * MAX_RATIO
  }

  /** The one number the output may reach. An empty input has no ratio to keep. */
  function Cap(inputLen: nat): (cap: nat)
    ensures cap <= MAX_DECOMPRESS_BYTES
  {
    var limit := RatioLimit(inputLen);
    if 0 < limit < MAX_DECOMPRESS_BYTES then limit else MAX_DECOMPRESS_BYTES
  }

  /** Within the cap means at most 256 MiB, and at most 250 times the input unless that is empty. */
  lemma CapMeans(inputLen: nat, size: nat)
    ensures size <= Cap(inputLen) <==> size <= 268435456 && (inputLen == 0 || size <= 250 * inputLen)
  {
  }

  /** What the loop reports when the output has grown to `size`. */
  function CapFault(inputLen: nat, size: nat): Option<ArchiveError> {
    if size > MAX_DECOMPRESS_BYTES then Some(EntryTooLarge(size, MAX_DECOMPRESS_BYTES))
    else if RatioLimit(inputLen) > 0 && size > RatioLimit(inputLen) then Some(EntryTooLarge(size, RatioLimit(inputLen)))
    else None
  }

  lemma CapFaultIsCap(inputLen: nat, size: nat)
    ensures CapFault(inputLen, size).Some? <==> size > Cap(inputLen)
  {
  }

  /** The loop after `n` chunks: the output so far, or the error it stopped with. */
  function Drained(inputLen: nat, chunks: seq<seq<Byte>>, n: nat): Result<seq<Byte>, ArchiveError>
    requires n <= |chunks|
  {
    if n == 0 then Ok([])
    else
      match Drained(inputLen, chunks, n - 1)
      case Err(e) => Err(e)
      case Ok(out) =>
        match CapFault(inputLen, |out + chunks[n - 1]|)
        case Some(e) => Err(e)
        case None => Ok(out + chunks[n - 1])
  }

  function Decompressed(inputLen: nat, s: Stream): Result<seq<Byte>, ArchiveError> {
    match Drained(inputLen, s.chunks, |s.chunks|)
    case Err(e) => Err(e)
    case Ok(out) => if s.clean then Ok(out) else Err(InvalidHeader(0))
  }

  lemma {:induction false} DrainedStays(inputLen: nat, chunks: seq<seq<Byte>>, m: nat, n: nat)
    requires m <= n <= |chunks| && Drained(inputLen, chunks, m).Err?
    ensures Drained(inputLen, chunks, n) == Drained(inputLen, chunks, m)
  {
    if m < n {
      DrainedStays(inputLen, chunks, m, n - 1);
    }
  }

  /** The loop of `decompress_gzip`, over an input of `inputLen` bytes. The buffer is within the
      cap whenever another chunk is read. */
  method Drain(inputLen: nat, s: Stream) returns (r: Result<seq<Byte>, ArchiveError>)
    requires ChunksOk(s.chunks)
    ensures r == Decompressed(inputLen, s)
  {
    var out: seq<Byte> := [];
    var i := 0;
    while i < |s.chunks|
      invariant i <= |s.chunks| && |out| <= Cap(inputLen)
      invariant Drained(inputLen, s.chunks, i) == Ok(out)
    {
      out := out + s.chunks[i];
      i := i + 1;
      if |out| > MAX_DECOMPRESS_BYTES {
        DrainedStays(inputLen, s.chunks, i, |s.chunks|);
        return Err(EntryTooLarge(|out|, MAX_DECOMPRESS_BYTES));
      }
      var ratioLimit := RatioLimit(inputLen);
      if ratioLimit > 0 && |out| > ratioLimit {
        DrainedStays(inputLen, s.chunks, i, |s.chunks|);
        return Err(EntryTooLarge(|out|, ratioLimit));
      }
    }
    if !s.clean {
      return Err(InvalidHeader(0));
    }
    return Ok(out);
  }

  // ---------------------------------------------------------------- what the loops promise

  lemma {:induction false} ConcatTake(chunks: seq<seq<Byte>>, n: nat)
    requires n < |chunks|
    ensures Concat(chunks[..n + 1]) == Concat(chunks[..n]) + chunks[n]
  {
    assert chunks[..n + 1][..n] == chunks[..n];
  }

  lemma {:induction false} ConcatGrows(chunks: seq<seq<Byte>>, n: nat)
    requires n <= |chunks|
    ensures |Concat(chunks[..n])| <= |Concat(chunks)|
    decreases |chunks| - n
  {
    if n < |chunks| {
      ConcatTake(chunks, n);
      ConcatGrows(chunks, n + 1);
    } else {
      assert chunks[..n] == chunks;
    }
  }

  /** After `n` chunks the loop goes on exactly while the output is within the cap. When it stops,
      the output is past the cap by less than a chunk. */
  lemma {:induction false} DrainedWithinCap(inputLen: nat, chunks: seq<seq<Byte>>, n: nat)
    requires ChunksOk(chunks) && n <= |chunks|
    ensures var d := Drained(inputLen, chunks, n);
            && (d.Ok? <==> |Concat(chunks[..n])| <= Cap(inputLen))
            && (d.Ok? ==> d.value == Concat(chunks[..n]))
            && (d.Err? ==>
                  d.error.EntryTooLarge? && Cap(inputLen) <= d.error.max < d.error.size <= Cap(inputLen) + CHUNK)
  {
    if n > 0 {
      DrainedWithinCap(inputLen, chunks, n - 1);
      ConcatTake(chunks, n - 1);
    }
  }

  /** A decompression succeeds exactly on a stream that ends cleanly within the cap, and gives
      all of it. It reports a stream past the cap as too large, any other failure as corrupt. */
  lemma DecompressesWithinCap(inputLen: nat, s: Stream)
    requires ChunksOk(s.chunks)
    ensures var r := Decompressed(inputLen, s);
            && (r.Ok? <==> s.clean && |Concat(s.chunks)| <= Cap(inputLen))
            && (r.Ok? ==> r.value == Concat(s.chunks))
            && (r.Err? && r.error.EntryTooLarge? <==> |Concat(s.chunks)| > Cap(inputLen))
            && (r.Err? && r.error.EntryTooLarge? ==> r.error.size <= Cap(inputLen) + CHUNK)
            && (r.Err? && !r.error.EntryTooLarge? ==> r.error == InvalidHeader(0))
  {
    DrainedWithinCap(inputLen, s.chunks, |s.chunks|);
    assert s.chunks[..|s.chunks|] == s.chunks;
  }

  /** How the decoder cuts its output into chunks makes no difference to the outcome. */
  lemma ChunkingIsIrrelevant(inputLen: nat, a: Stream, b: Stream)
    requires ChunksOk(a.chunks) && ChunksOk(b.chunks)
    requires Concat(a.chunks) == Concat(b.chunks) && a.clean == b.clean
    ensures var x, y := Decompressed(inputLen, a), Decompressed(inputLen, b);
            && (x.Ok? || y.Ok? ==> x == y)
            && (x.Err? ==> y.Err? && (x.error.EntryTooLarge? <==> y.error.EntryTooLarge?))
  {
    DecompressesWithinCap(inputLen, a);
    DecompressesWithinCap(inputLen, b);
  }

  /** The first `k` chunks are the fewest that are longer than the cap. */
  predicate FirstOver(inputLen: nat, chunks: seq<seq<Byte>>, k: nat) {
    && 0 < k <= |chunks|
    && |Concat(chunks[..k])| > Cap(inputLen)
    && |Concat(chunks[..k - 1])| <= Cap(inputLen)
  }

  lemma {:induction false} FirstOverExists(inputLen: nat, chunks: seq<seq<Byte>>, n: nat) returns (k: nat)
    requires n <= |chunks| && |Concat(chunks[..n])| > Cap(inputLen)
    ensures FirstOver(inputLen, chunks, k)
  {
    if |Concat(chunks[..n - 1])| <= Cap(inputLen) {
      k := n;
    } else {
      k := FirstOverExists(inputLen, chunks, n - 1);
    }
  }

  /** The size reported for a stream past the cap is the length of the fewest chunks past it. */
  lemma ReportsFirstOver(inputLen: nat, s: Stream, k: nat)
    requires ChunksOk(s.chunks) && FirstOver(inputLen, s.chunks, k)
    ensures var size := |Concat(s.chunks[..k])|;
            && CapFault(inputLen, size).Some?
            && Decompressed(inputLen, s) == Err(CapFault(inputLen, size).value)
            && CapFault(inputLen, size).value.size == size
  {
    CapFaultIsCap(inputLen, |Concat(s.chunks[..k])|);
    DrainedWithinCap(inputLen, s.chunks, k - 1);
    ConcatTake(s.chunks, k - 1);
    DrainedStays(inputLen, s.chunks, k, |s.chunks|);
  }

  /** Whenever the output is past the cap there is such a prefix, and its length is reported. */
  lemma ReportedSize(inputLen: nat, s: Stream)
    requires ChunksOk(s.chunks) && |Concat(s.chunks)| > Cap(inputLen)
    ensures var r := Decompressed(inputLen, s);
            && r.Err? && r.error.EntryTooLarge?
            && exists k: nat :: FirstOver(inputLen, s.chunks, k) && r.error.size == |Concat(s.chunks[..k])|
  {
    assert s.chunks[..|s.chunks|] == s.chunks;
    var k := FirstOverExists(inputLen, s.chunks, |s.chunks|);
    ReportsFirstOver(inputLen, s, k);
  }

  /** Two cuttings of an output past the cap are reported alike exactly when the fewest chunks
      past the cap have the same length in both. */
  lemma SameReportIff(inputLen: nat, a: Stream, b: Stream, j: nat, k: nat)
    requires ChunksOk(a.chunks) && ChunksOk(b.chunks)
    requires FirstOver(inputLen, a.chunks, j) && FirstOver(inputLen, b.chunks, k)
    ensures Decompressed(inputLen, a) == Decompressed(inputLen, b)
            <==> |Concat(a.chunks[..j])| == |Concat(b.chunks[..k])|
  {
    ReportsFirstOver(inputLen, a, j);
    ReportsFirstOver(inputLen, b, k);
  }

  /** Only the size named in the error depends on the cutting: the same 300 bytes out of one
      are reported as 300 when they come at once, and as 251 when they come in two chunks. */
  lemma ReportedSizeExample()
    ensures var a, b := Stream([Zeros(300)], true), Stream([Zeros(251), Zeros(49)], true);
            && Concat(a.chunks) == Concat(b.chunks)
            && Decompressed(1, a) == Err(EntryTooLarge(300, 250))
            && Decompressed(1, b) == Err(EntryTooLarge(251, 250))
  {
    var a, b := [Zeros(300)], [Zeros(251), Zeros(49)];
    assert a[..1] == a && a[..0] == [] && b[..2] == b && b[..1] == [Zeros(251)] && b[..0] == [];
    ConcatTake(a, 0);
    ConcatTake(b, 0);
    ConcatTake(b, 1);
    assert Concat(a) == [] + Zeros(300) == Concat(b);
    assert Drained(1, a, 0) == Ok([]) && [] + Zeros(300) == Zeros(300);
    assert Drained(1, b, 0) == Ok([]) && [] + Zeros(251) == Zeros(251);
    assert Drained(1, b, 1) == Err(EntryTooLarge(251, 250));
  }

  // ---------------------------------------------------------------- the three decoders

  /** The decoders, as functions of their input. A zstd decoder may refuse to start. */
  datatype Codecs = Codecs(gzip: seq<Byte> -> Stream, zstd: seq<Byte> -> Option<Stream>, inflate: seq<Byte> -> Stream)

  /** What a reader with a 64 KiB buffer relies on. */
  ghost predicate Chunked(c: Codecs) {
    && (forall data :: ChunksOk(c.gzip(data).chunks))
    && (forall data :: c.zstd(data).Some? ==> ChunksOk(c.zstd(data).value.chunks))
    && (forall data :: ChunksOk(c.inflate(data).chunks))
  }

  function Gunzipped(c: Codecs, data: seq<Byte>): Result<seq<Byte>, ArchiveError> {
    Decompressed(|data|, c.gzip(data))
  }

  function Unzstd(c: Codecs, data: seq<Byte>): Result<seq<Byte>, ArchiveError> {
    match c.zstd(data)
    case None => Err(InvalidHeader(0))
    case Some(s) => Decompressed(|data|, s)
  }

  function Inflated(c: Codecs, data: seq<Byte>, expected: nat): Result<seq<Byte>, ArchiveError> {
    match Decompressed(|data|, c.inflate(data))
    case Err(e) => Err(e)
    case Ok(out) => if |out| == expected then Ok(out) else Err(InvalidHeader(0))
  }

  method DecompressGzip(c: Codecs, data: seq<Byte>) returns (r: Result<seq<Byte>, ArchiveError>)
    requires Chunked(c)
    ensures r == Gunzipped(c, data)
  {
    r := Drain(|data|, c.gzip(data));
  }

  method DecompressZstd(c: Codecs, data: seq<Byte>) returns (r: Result<seq<Byte>, ArchiveError>)
    requires Chunked(c)
    ensures r == Unzstd(c, data)
  {
    var decoder := c.zstd(data);
    if decoder.None? {
      return Err(InvalidHeader(0));
    }
    r := Drain(|data|, decoder.value);
  }

  /** `decompress_zip_deflate`. */
  method DecompressZipDeflate(c: Codecs, data: seq<Byte>, expected: nat) returns (r: Result<seq<Byte>, ArchiveError>)
    requires Chunked(c)
    ensures r == Inflated(c, data, expected)
  {
    r := Drain(|data|, c.inflate(data));
    if r.Ok? && |r.value| != expected {
      return Err(InvalidHeader(0));
    }
  }

  /** All of a stream that ends cleanly, with at most 256 MiB and at most 250 times its input. */
  predicate ComesOut(inputLen: nat, s: Stream, out: seq<Byte>) {
    && s.clean && out == Concat(s.chunks)
    && |out| <= 268435456 && (inputLen == 0 || |out| <= 250 * inputLen)
  }

  /** A gzip stream is decompressed exactly when it ends cleanly within the limits, and to all of it. */
  lemma GunzipsExactly(c: Codecs, data: seq<Byte>, out: seq<Byte>)
    requires Chunked(c)
    ensures Gunzipped(c, data) == Ok(out) <==> ComesOut(|data|, c.gzip(data), out)
  {
    DecompressesWithinCap(|data|, c.gzip(data));
    CapMeans(|data|, |Concat(c.gzip(data).chunks)|);
  }

  /** So is a zstd stream whose decoder starts. */
  lemma UnzstdsExactly(c: Codecs, data: seq<Byte>, out: seq<Byte>)
    requires Chunked(c)
    ensures Unzstd(c, data) == Ok(out) <==> c.zstd(data).Some? && ComesOut(|data|, c.zstd(data).value, out)
  {
    if c.zstd(data).Some? {
      DecompressesWithinCap(|data|, c.zstd(data).value);
      CapMeans(|data|, |Concat(c.zstd(data).value.chunks)|);
    }
  }

  /** A deflated entry is accepted exactly when it ends cleanly, within the cap, at its declared size. */
  lemma InflatesExactly(c: Codecs, data: seq<Byte>, expected: nat)
    requires Chunked(c)
    ensures var s, r := c.inflate(data), Inflated(c, data, expected);
            && (r.Ok? <==> s.clean && |Concat(s.chunks)| == expected <= Cap(|data|))
            && (r.Ok? ==> r.value == Concat(s.chunks))
    ensures forall out :: Inflated(c, data, expected) == Ok(out) <==>
      ComesOut(|data|, c.inflate(data), out) && |out| == expected
  {
    DecompressesWithinCap(|data|, c.inflate(data));
    CapMeans(|data|, |Concat(c.inflate(data).chunks)|);
  }
}

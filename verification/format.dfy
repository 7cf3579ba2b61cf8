/** `detect_format` (`src/probe/format.rs`). */
module Format {
  import opened Bytes

  datatype DecompressFormat = Unknown | Gzip | Zstd | Lz4 | Snappy | Zip | Tar

  const GZIP_MAGIC: seq<Byte> := [0x1f, 0x8b]
  const ZSTD_MAGIC: seq<Byte> := [0x28, 0xb5, 0x2f, 0xfd]
  const LZ4_FRAME_MAGIC: seq<Byte> := [0x04, 0x22, 0x4d, 0x18]
  const ZIP_LOCAL_MAGIC: seq<Byte> := [0x50, 0x4b, 0x03, 0x04]
  const ZIP_EMPTY_MAGIC: seq<Byte> := [0x50, 0x4b, 0x05, 0x06]
  const SNAPPY_FRAMED_MAGIC: seq<Byte> := [0xff, 0x06, 0x00, 0x00, 0x73, 0x4e, 0x61, 0x50, 0x70, 0x59]
  const TAR_USTAR_MAGIC: seq<Byte> := [0x75, 0x73, 0x74, 0x61, 0x72]
  const TAR_USTAR_OFFSET: nat := 257

  function DetectFormat(data: seq<Byte>): DecompressFormat {
    if Holds(data, 0, ZIP_LOCAL_MAGIC) || Holds(data, 0, ZIP_EMPTY_MAGIC) then Zip
    else if Holds(data, 0, ZSTD_MAGIC) then Zstd
    else if Holds(data, 0, LZ4_FRAME_MAGIC) then Lz4
    else if Holds(data, 0, GZIP_MAGIC) then Gzip
    else if Holds(data, 0, SNAPPY_FRAMED_MAGIC) then Snappy
    else if Holds(data, TAR_USTAR_OFFSET, TAR_USTAR_MAGIC) then Tar
    else Unknown
  }

  lemma StartsWith(data: seq<Byte>, magic: seq<Byte>)
    requires magic != []
    ensures Holds(data, 0, magic) <==> magic <= data
    ensures magic <= data ==> data[0] == magic[0]
  {
    if |magic| <= |data| {
      assert data[0..|magic|] == data[..|magic|];
    }
  }

  /** Which data is taken for which format. Only a tar archive can be taken for something else. */
  lemma FormatIs(data: seq<Byte>)
    ensures DetectFormat(data) == Zip <==> [0x50, 0x4b, 3, 4] <= data || [0x50, 0x4b, 5, 6] <= data
    ensures DetectFormat(data) == Gzip <==> [0x1f, 0x8b] <= data
    ensures DetectFormat(data) == Zstd <==> [0x28, 0xb5, 0x2f, 0xfd] <= data
    ensures DetectFormat(data) == Lz4 <==> [4, 0x22, 0x4d, 0x18] <= data
    ensures DetectFormat(data) == Snappy <==> [0xff, 6, 0, 0, 0x73, 0x4e, 0x61, 0x50, 0x70, 0x59] <= data
    ensures DetectFormat(data) == Tar ==> Holds(data, 257, [117, 115, 116, 97, 114])
    ensures DetectFormat(data) == Unknown ==> !Holds(data, 257, [117, 115, 116, 97, 114])
  {
    StartsWith(data, ZIP_LOCAL_MAGIC);
    StartsWith(data, ZIP_EMPTY_MAGIC);
    StartsWith(data, ZSTD_MAGIC);
    StartsWith(data, LZ4_FRAME_MAGIC);
    StartsWith(data, GZIP_MAGIC);
    StartsWith(data, SNAPPY_FRAMED_MAGIC);
  }

  /** The compressed formats are told by their first byte alone, so a tar archive is recognised
      whenever its first byte starts none of them. */
  lemma TarIsDetected(data: seq<Byte>)
    requires Holds(data, TAR_USTAR_OFFSET, TAR_USTAR_MAGIC)
    requires data[0] !in {0x1f, 0x28, 0x04, 0x50, 0xff}
    ensures DetectFormat(data) == Tar
  {
    forall magic | magic != [] && Holds(data, 0, magic) ensures data[0] == magic[0] {
      assert data[0..|magic|][0] == magic[0];
    }
  }
}

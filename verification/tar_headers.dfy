/** Headers of the ustar reader (`src/archive/tar.rs`). */
module TarHeaders {
  import opened Prelude
  import opened Bytes
  import opened EntryNames
  import opened TarFields

  // ---------------------------------------------------------------- text fields

  function UpToNul(bytes: seq<Byte>): seq<Byte> {
    if bytes == [] || bytes[0] == 0 then [] else [bytes[0]] + UpToNul(bytes[1..])
  }

  function TrimTrailingSpace(s: seq<Byte>): seq<Byte> {
    if s != [] && (s[|s| - 1] == SPACE || s[|s| - 1] == 0) then TrimTrailingSpace(s[..|s| - 1]) else s
  }

  function FieldStr(u: Utf8, bytes: seq<Byte>): string {
    u.lossy(TrimTrailingSpace(UpToNul(bytes)))
  }

  function TrimEndSlashes(s: string): string {
    if s != "" && s[|s| - 1] == '/' then TrimEndSlashes(s[..|s| - 1]) else s
  }

  function TrimStartSlashes(s: string): string {
    if s != "" && s[0] == '/' then TrimStartSlashes(s[1..]) else s
  }

  function JoinPath(prefix: string, name: string): string {
    if prefix == "" then name
    else if name == "" then prefix
    else TrimEndSlashes(prefix) + "/" + TrimStartSlashes(name)
  }

  // ---------------------------------------------------------------- headers

  datatype ParsedHeader = ParsedHeader(fullName: string, size: nat, isRegularFile: bool)

  predicate IsLink(typeflag: Byte) {
    typeflag == 49 || typeflag == 50
  }

  predicate IsRegular(typeflag: Byte) {
    typeflag == 48 || typeflag == 0
  }

  function LinkFault(link: string): Option<HeaderFault> {
    if link == "" then Some(Malformed)
    else if !ValidName(link) then Some(Escaping(link))
    else None
  }

  /** `parse_header`. */
  function ParseHeader(u: Utf8, block: seq<Byte>): Result<ParsedHeader, HeaderFault> {
    if |block| != BLOCK || !ChecksumValid(u, block) then Err(Malformed)
    else
      match NumericField(u, block[124..136])
      case None => Err(Malformed)
      case Some(size) =>
        if IsLink(block[156]) && LinkFault(FieldStr(u, block[157..257])).Some? then
          Err(LinkFault(FieldStr(u, block[157..257])).value)
        else
          Ok(ParsedHeader(JoinPath(FieldStr(u, block[345..500]), FieldStr(u, block[0..100])), size,
                          IsRegular(block[156])))
  }

  /** A header and the check of the name in it. */
  function AcceptHeader(u: Utf8, block: seq<Byte>): Result<ParsedHeader, HeaderFault> {
    match ParseHeader(u, block)
    case Err(e) => Err(e)
    case Ok(h) => if ValidName(h.fullName) then Ok(h) else Err(Escaping(h.fullName))
  }

  function AtOffset(r: Result<ParsedHeader, HeaderFault>, offset: nat): Result<ParsedHeader, ArchiveError> {
    match r case Ok(h) => Ok(h) case Err(e) => Err(Located(e, offset))
  }

  method ParseHeaderBlock(u: Utf8, block: seq<Byte>, offset: nat) returns (r: Result<ParsedHeader, ArchiveError>)
    ensures r == AtOffset(ParseHeader(u, block), offset)
    ensures r.Ok? ==> |block| == 512 && (r.value.isRegularFile <==> block[156] in {48, 0})
  {
    if |block| != BLOCK {
      return Err(InvalidHeader(offset));
    }
    var valid := CheckChecksum(u, block);
    if !valid {
      return Err(InvalidHeader(offset));
    }
    var name := FieldStr(u, block[0..100]);
    var prefix := FieldStr(u, block[345..500]);
    var size := ParseOctalField(u, block[124..136], offset);
    if size.Err? {
      return Err(size.error);
    }
    var link := FieldStr(u, block[157..257]);
    if IsLink(block[156]) {
      if link == "" {
        return Err(InvalidHeader(offset));
      }
      var checked := ValidatePathTraversal(link);
      if checked.Err? {
        return Err(checked.error);
      }
    }
    return Ok(ParsedHeader(JoinPath(prefix, name), size.value, IsRegular(block[156])));
  }

  /** A header as the iterator accepts it. */
  method ReadHeader(u: Utf8, block: seq<Byte>, offset: nat) returns (r: Result<ParsedHeader, ArchiveError>)
    ensures r == AtOffset(AcceptHeader(u, block), offset)
  {
    r := ParseHeaderBlock(u, block, offset);
    if r.Ok? {
      var checked := ValidatePathTraversal(r.value.fullName);
      if checked.Err? {
        return Err(checked.error);
      }
    }
  }

  // ---------------------------------------------------------------- blocks

  predicate AllZero(block: seq<Byte>) {
    forall i :: 0 <= i < |block| ==> block[i] == 0
  }

  /** What a 512-byte block is when a header is expected. */
  datatype BlockKind = ZeroBlock | Header(header: ParsedHeader) | Bad(fault: HeaderFault)

  type BlockReader = seq<Byte> -> BlockKind

  function KindOf(u: Utf8, block: seq<Byte>): BlockKind {
    if AllZero(block) then ZeroBlock
    else match AcceptHeader(u, block) case Ok(h) => Header(h) case Err(e) => Bad(e)
  }

  /** The block reader of the iterator. */
  function Blocks(u: Utf8): BlockReader {
    block => KindOf(u, block)
  }

  /** The block reader rejects names that climb. */
  ghost predicate Careful(p: BlockReader) {
    forall block :: p(block).Header? ==> ValidName(p(block).header.fullName)
  }

  lemma BlocksAreCareful(u: Utf8)
    ensures Careful(Blocks(u))
  {
  }
}

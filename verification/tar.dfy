/** The ustar reader (`src/archive/tar.rs`): the entries of an archive, and the archives that
    can be read. Blocks are read by a given function. */
module Tar {
  import opened Prelude
  import opened Bytes
  import opened EntryNames
  import opened TarFields
  import opened TarHeaders

  /** `padding_checked`: what rounds a size up to whole blocks. */
  function Padding(size: nat): (pad: nat)
    ensures pad < BLOCK && (size + pad) % BLOCK == 0
  {
    if size % BLOCK == 0 then 0 else BLOCK - size % BLOCK
  }

  // ---------------------------------------------------------------- iteration

  type Item = Result<ArchiveEntry, ArchiveError>

  /** What one turn of the reader's loop finds at an offset. */
  datatype Found = Finish(next: nat) | Fault(error: ArchiveError) | Extent(header: ParsedHeader, end: nat)

  function TwoZeroBlocks(p: BlockReader, data: seq<Byte>, offset: nat): Found
    requires offset + BLOCK <= |data|
  {
    var second := offset + BLOCK;
    if |data| - second < BLOCK then Fault(Truncated(second, BLOCK, |data| - second))
    else if p(data[second..second + BLOCK]).ZeroBlock? then Finish(second + BLOCK)
    else Fault(InvalidHeader(offset))
  }

  function ExtentOf(data: seq<Byte>, offset: nat, header: ParsedHeader): Found
    requires offset + BLOCK <= |data|
  {
    var end := offset + BLOCK + header.size + Padding(header.size);
    if header.size > MAX_ENTRY_BYTES then Fault(EntryTooLarge(header.size, MAX_ENTRY_BYTES))
    else if end > USIZE_MAX then Fault(InvalidHeader(offset))
    else if end > |data| then
      Fault(Truncated(offset + BLOCK, header.size + Padding(header.size), |data| - (offset + BLOCK)))
    else Extent(header, end)
  }

  function ReadAt(p: BlockReader, data: seq<Byte>, offset: nat, count: nat): (f: Found)
    ensures f.Extent? ==> offset + BLOCK <= f.end <= |data|
    ensures f.Extent? ==> f.end == offset + BLOCK + f.header.size + Padding(f.header.size)
  {
    if offset >= |data| then Finish(offset)
    else if |data| - offset < BLOCK then Fault(Truncated(offset, BLOCK, |data| - offset))
    else
      match p(data[offset..offset + BLOCK])
      case ZeroBlock => TwoZeroBlocks(p, data, offset)
      case Bad(fault) => Fault(Located(fault, offset))
      case Header(header) =>
        if count + 1 > MAX_ENTRIES then Fault(TooManyEntries(count + 1, MAX_ENTRIES))
        else ExtentOf(data, offset, header)
  }

  function EntryAt(data: seq<Byte>, offset: nat, header: ParsedHeader): ArchiveEntry
    requires offset + BLOCK + header.size <= |data|
  {
    ArchiveEntry(header.fullName, header.size, data[offset + BLOCK..offset + BLOCK + header.size])
  }

  type Finder = (nat, nat) -> Found

  function Find(p: BlockReader, data: seq<Byte>): Finder {
    (offset: nat, count: nat) => ReadAt(p, data, offset, count)
  }

  predicate Moves(data: seq<Byte>, offset: nat, h: ParsedHeader, end: nat) {
    offset + BLOCK + h.size <= end <= |data|
  }

  /** Everything an iterator at `offset`, with `count` headers behind it, still yields. The
      extents found by `ReadAt` always move on. */
  function Items(find: Finder, data: seq<Byte>, offset: nat, count: nat): seq<Item>
    decreases |data| - offset
  {
    match find(offset, count)
    case Finish(_) => []
    case Fault(e) => [Err(e)]
    case Extent(h, end) =>
      if !Moves(data, offset, h, end) then []
      else if h.isRegularFile then [Item.Ok(EntryAt(data, offset, h))] + Items(find, data, end, count + 1)
      else Items(find, data, end, count + 1)
  }

  // ---------------------------------------------------------------- archives as tilings

  /** A header block, its payload and the padding after it. */
  datatype Member = Member(header: seq<Byte>, payload: seq<Byte>, pad: seq<Byte>)

  function MemberBytes(m: Member): seq<Byte> {
    m.header + m.payload + m.pad
  }

  function Layout(ms: seq<Member>): seq<Byte> {
    if ms == [] then [] else MemberBytes(ms[0]) + Layout(ms[1..])
  }

  /** A member with a header the reader accepts and exactly the extent that header declares. */
  predicate MemberOk(p: BlockReader, m: Member) {
    && |m.header| == BLOCK
    && |m.payload| <= MAX_ENTRY_BYTES
    && |m.pad| == Padding(|m.payload|)
    && p(m.header).Header?
    && p(m.header).header.size == |m.payload|
  }

  predicate MembersOk(p: BlockReader, ms: seq<Member>) {
    forall i :: 0 <= i < |ms| ==> MemberOk(p, ms[i])
  }

  /** Where an archive may end: at the end of the data, or at two zero blocks. */
  predicate EndOk(p: BlockReader, tail: seq<Byte>) {
    tail == [] || (|tail| >= 2 * BLOCK && p(tail[..BLOCK]).ZeroBlock? && p(tail[BLOCK..2 * BLOCK]).ZeroBlock?)
  }

  /** `data` is the members one after the other, then an end marker or nothing. */
  predicate IsArchive(p: BlockReader, data: seq<Byte>, ms: seq<Member>) {
    MembersOk(p, ms) && |ms| <= MAX_ENTRIES && Layout(ms) <= data && EndOk(p, data[|Layout(ms)|..])
  }

  function FileOf(p: BlockReader, m: Member): seq<ArchiveEntry> {
    match p(m.header)
    case Header(h) => if h.isRegularFile then [ArchiveEntry(h.fullName, |m.payload|, m.payload)] else []
    case _ => []
  }

  /** The regular files among the members, in order. */
  function Files(p: BlockReader, ms: seq<Member>): seq<ArchiveEntry> {
    if ms == [] then [] else FileOf(p, ms[0]) + Files(p, ms[1..])
  }

  lemma {:induction false} LayoutAppend(a: seq<Member>, b: seq<Member>)
    ensures Layout(a + b) == Layout(a) + Layout(b)
  {
    if a == [] {
      assert a + b == b;
    } else {
      assert (a + b)[1..] == a[1..] + b;
      LayoutAppend(a[1..], b);
    }
  }

  lemma BlocksAdd(a: nat, b: nat)
    requires a % BLOCK == 0 && b % BLOCK == 0
    ensures (a + b) % BLOCK == 0
  {
  }

  lemma {:induction false} LayoutIsBlocks(p: BlockReader, ms: seq<Member>)
    requires MembersOk(p, ms)
    ensures |Layout(ms)| % BLOCK == 0
  {
    if ms != [] {
      MembersCons(p, ms);
      LayoutIsBlocks(p, ms[1..]);
      var extent := |ms[0].payload| + Padding(|ms[0].payload|);
      BlocksAdd(BLOCK, extent);
      BlocksAdd(BLOCK + extent, |Layout(ms[1..])|);
    }
  }

  /** The member an extent is read from. */
  function MemberAt(data: seq<Byte>, offset: nat, size: nat): Member
    requires offset + BLOCK + size + Padding(size) <= |data|
  {
    Member(data[offset..offset + BLOCK], data[offset + BLOCK..offset + BLOCK + size],
           data[offset + BLOCK + size..offset + BLOCK + size + Padding(size)])
  }

  lemma ExtentIsMember(p: BlockReader, data: seq<Byte>, offset: nat, count: nat)
    requires ReadAt(p, data, offset, count).Extent?
    ensures var f := ReadAt(p, data, offset, count);
            var m := MemberAt(data, offset, f.header.size);
            && MemberOk(p, m) && count < MAX_ENTRIES
            && MemberBytes(m) == data[offset..f.end]
            && FileOf(p, m) == if f.header.isRegularFile then [EntryAt(data, offset, f.header)] else []
  {
  }

  /** The bytes of `data` from `offset` on start with the member. */
  predicate StandsAt(data: seq<Byte>, offset: nat, m: Member) {
    Holds(data, offset, MemberBytes(m))
  }

  lemma MemberParts(data: seq<Byte>, offset: nat, m: Member)
    requires StandsAt(data, offset, m) && |m.header| == BLOCK && |m.pad| == Padding(|m.payload|)
    ensures MemberAt(data, offset, |m.payload|) == m
  {
    var b, n := MemberBytes(m), BLOCK + |m.payload|;
    assert b[0..BLOCK] == m.header && b[BLOCK..n] == m.payload && b[n..|b|] == m.pad;
    HeldPart(data, offset, b, 0, BLOCK);
    HeldPart(data, offset, b, BLOCK, n);
    HeldPart(data, offset, b, n, |b|);
  }

  lemma MemberIsExtent(p: BlockReader, data: seq<Byte>, offset: nat, count: nat, m: Member)
    requires MemberOk(p, m) && count < MAX_ENTRIES && |data| <= USIZE_MAX && StandsAt(data, offset, m)
    ensures ReadAt(p, data, offset, count) == Extent(p(m.header).header, offset + |MemberBytes(m)|)
    ensures MemberAt(data, offset, |m.payload|) == m
  {
    MemberParts(data, offset, m);
  }

  lemma EndIsFinish(p: BlockReader, data: seq<Byte>, offset: nat, count: nat)
    requires offset <= |data|
    ensures EndOk(p, data[offset..]) <==> ReadAt(p, data, offset, count).Finish?
  {
    var tail := data[offset..];
    if |tail| >= 2 * BLOCK {
      assert tail[..BLOCK] == data[offset..offset + BLOCK];
      assert tail[BLOCK..2 * BLOCK] == data[offset + BLOCK..offset + 2 * BLOCK];
    }
  }

  function Values(items: seq<Item>): Result<seq<ArchiveEntry>, ArchiveError> {
    if items == [] then Ok([])
    else match items[0] case Err(e) => Err(e) case Ok(v) => Before(v, Values(items[1..]))
  }

  /** What collecting the iterator gives: the entries, or the first error. */
  function Read(p: BlockReader, data: seq<Byte>): Result<seq<ArchiveEntry>, ArchiveError> {
    Values(Items(Find(p, data), data, 0, 0))
  }

  lemma ValuesAfter(first: ArchiveEntry, rest: seq<Item>)
    ensures Values([Item.Ok(first)] + rest) == Before(first, Values(rest))
  {
    assert ([Item.Ok(first)] + rest)[1..] == rest;
  }

  function Prefixed(first: seq<ArchiveEntry>, rest: Result<seq<ArchiveEntry>, ArchiveError>)
    : Result<seq<ArchiveEntry>, ArchiveError>
  {
    match rest case Ok(s) => Ok(first + s) case Err(e) => Err(e)
  }

  lemma ItemsOfExtent(find: Finder, data: seq<Byte>, offset: nat, count: nat, h: ParsedHeader, end: nat)
    requires find(offset, count) == Extent(h, end) && Moves(data, offset, h, end)
    ensures Values(Items(find, data, offset, count))
         == Prefixed(if h.isRegularFile then [EntryAt(data, offset, h)] else [],
                     Values(Items(find, data, end, count + 1)))
  {
    var rest := Items(find, data, end, count + 1);
    if h.isRegularFile {
      ValuesAfter(EntryAt(data, offset, h), rest);
    } else {
      assert forall s: seq<ArchiveEntry> :: [] + s == s;
    }
  }

  /** The data from `offset` on is tiled by `ms` up to an end marker. */
  predicate Tiled(p: BlockReader, data: seq<Byte>, offset: nat, ms: seq<Member>)
    decreases ms
  {
    if ms == [] then
      offset <= |data| && EndOk(p, data[offset..])
    else
      MemberOk(p, ms[0]) && StandsAt(data, offset, ms[0]) && Tiled(p, data, offset + |MemberBytes(ms[0])|, ms[1..])
  }

  /** What a finder reports is a member that stands there, or an end marker. */
  predicate Truthful(p: BlockReader, data: seq<Byte>, offset: nat, count: nat, f: Found) {
    match f
    case Finish(_) => EndOk(p, data[if offset <= |data| then offset else |data|..])
    case Fault(_) => true
    case Extent(h, end) =>
      && count < MAX_ENTRIES && end == offset + BLOCK + h.size + Padding(h.size) <= |data|
      && var m := MemberAt(data, offset, h.size);
         && MemberOk(p, m) && StandsAt(data, offset, m) && p(m.header) == Header(h)
  }

  ghost predicate FindsOnlyTiles(find: Finder, p: BlockReader, data: seq<Byte>) {
    forall offset: nat, count: nat {:trigger Truthful(p, data, offset, count, find(offset, count))} ::
      Truthful(p, data, offset, count, find(offset, count))
  }

  lemma ReaderFinds(p: BlockReader, data: seq<Byte>)
    ensures FindsOnlyTiles(Find(p, data), p, data)
  {
    forall offset: nat, count: nat ensures Truthful(p, data, offset, count, ReadAt(p, data, offset, count)) {
      ReaderIsTruthful(p, data, offset, count);
    }
  }

  lemma ReaderIsTruthful(p: BlockReader, data: seq<Byte>, offset: nat, count: nat)
    ensures Truthful(p, data, offset, count, ReadAt(p, data, offset, count))
  {
    var f := ReadAt(p, data, offset, count);
    if f.Extent? {
      ExtentIsMember(p, data, offset, count);
    } else if offset <= |data| {
      EndIsFinish(p, data, offset, count);
    }
  }

  /** The finder reports the member that stands at `offset`. */
  predicate FoundAt(find: Finder, p: BlockReader, data: seq<Byte>, offset: nat, count: nat, m: Member) {
    && p(m.header).Header?
    && var h, end := p(m.header).header, offset + |MemberBytes(m)|;
       && find(offset, count) == Extent(h, end) && Moves(data, offset, h, end)
       && EntryAt(data, offset, h) == ArchiveEntry(h.fullName, |m.payload|, m.payload)
  }

  /** The finder reports the members one after the other, then the end. */
  predicate AllFound(find: Finder, p: BlockReader, data: seq<Byte>, offset: nat, count: nat, ms: seq<Member>)
    decreases ms
  {
    if ms == [] then
      find(offset, count).Finish?
    else
      && FoundAt(find, p, data, offset, count, ms[0])
      && AllFound(find, p, data, offset + |MemberBytes(ms[0])|, count + 1, ms[1..])
  }

  /** The finder reports every member and every end marker that stands in the data. */
  ghost predicate FindsTiles(find: Finder, p: BlockReader, data: seq<Byte>) {
    && (forall offset: nat, count: nat, m {:trigger FoundAt(find, p, data, offset, count, m)} ::
          MemberOk(p, m) && StandsAt(data, offset, m) && count < MAX_ENTRIES ==>
            FoundAt(find, p, data, offset, count, m))
    && (forall offset: nat, count: nat {:trigger find(offset, count)} ::
          offset <= |data| && EndOk(p, data[offset..]) ==> find(offset, count).Finish?)
  }

  lemma ReaderFindsTiles(p: BlockReader, data: seq<Byte>)
    requires |data| <= USIZE_MAX
    ensures FindsTiles(Find(p, data), p, data)
  {
    forall offset: nat, count: nat, m | MemberOk(p, m) && StandsAt(data, offset, m) && count < MAX_ENTRIES
      ensures FoundAt(Find(p, data), p, data, offset, count, m)
    {
      MemberIsExtent(p, data, offset, count, m);
    }
    forall offset: nat, count: nat | offset <= |data| && EndOk(p, data[offset..])
      ensures Find(p, data)(offset, count).Finish?
    {
      EndIsFinish(p, data, offset, count);
    }
  }

  lemma {:induction false} TilesFound(find: Finder, p: BlockReader, data: seq<Byte>, offset: nat, count: nat,
                                      ms: seq<Member>)
    requires FindsTiles(find, p, data)
    requires Tiled(p, data, offset, ms) && count + |ms| <= MAX_ENTRIES
    ensures AllFound(find, p, data, offset, count, ms)
    decreases ms
  {
    if ms != [] {
      assert FoundAt(find, p, data, offset, count, ms[0]);
      TilesFound(find, p, data, offset + |MemberBytes(ms[0])|, count + 1, ms[1..]);
    }
  }

  /** Members found one after the other are read back as their regular files. */
  lemma {:induction false} FoundRead(find: Finder, p: BlockReader, data: seq<Byte>, offset: nat, count: nat,
                                     ms: seq<Member>)
    requires AllFound(find, p, data, offset, count, ms)
    ensures Values(Items(find, data, offset, count)) == Ok(Files(p, ms))
    decreases ms
  {
    if ms != [] {
      var h, end := p(ms[0].header).header, offset + |MemberBytes(ms[0])|;
      ItemsOfExtent(find, data, offset, count, h, end);
      FoundRead(find, p, data, end, count + 1, ms[1..]);
    }
  }

  lemma FirstTile(find: Finder, p: BlockReader, data: seq<Byte>, offset: nat, count: nat) returns (m: Member)
    requires Truthful(p, data, offset, count, find(offset, count)) && find(offset, count).Extent?
    requires Values(Items(find, data, offset, count)).Ok?
    ensures MemberOk(p, m) && StandsAt(data, offset, m) && FoundAt(find, p, data, offset, count, m)
    ensures |MemberBytes(m)| >= BLOCK && count < MAX_ENTRIES
    ensures Values(Items(find, data, offset + |MemberBytes(m)|, count + 1)).Ok?
  {
    var h, end := find(offset, count).header, find(offset, count).end;
    ItemsOfExtent(find, data, offset, count, h, end);
    m := MemberAt(data, offset, h.size);
  }

  /** A successful read has walked over members that tile the rest of the data. */
  lemma {:induction false} ReadTiles(find: Finder, p: BlockReader, data: seq<Byte>, offset: nat, count: nat)
    returns (ms: seq<Member>)
    requires FindsOnlyTiles(find, p, data)
    requires offset <= |data| && count <= MAX_ENTRIES && Values(Items(find, data, offset, count)).Ok?
    ensures Tiled(p, data, offset, ms) && count + |ms| <= MAX_ENTRIES
    ensures AllFound(find, p, data, offset, count, ms)
    decreases |data| - offset
  {
    assert Truthful(p, data, offset, count, find(offset, count));
    if find(offset, count).Extent? {
      var m := FirstTile(find, p, data, offset, count);
      var rest := ReadTiles(find, p, data, offset + |MemberBytes(m)|, count + 1);
      ms := [m] + rest;
      assert ms[1..] == rest;
    } else {
      ms := [];
    }
  }

  lemma {:induction false} LayoutIsTiled(p: BlockReader, data: seq<Byte>, offset: nat, ms: seq<Member>)
    requires offset <= |data|
    ensures Tiled(p, data, offset, ms) <==>
      MembersOk(p, ms) && Layout(ms) <= data[offset..] && EndOk(p, data[offset + |Layout(ms)|..])
    decreases ms
  {
    if ms != [] {
      var b, end := MemberBytes(ms[0]), offset + |MemberBytes(ms[0])|;
      MembersCons(p, ms);
      LayoutCons(data, offset, ms);
      if end <= |data| {
        LayoutIsTiled(p, data, end, ms[1..]);
      }
    }
  }

  lemma MembersCons(p: BlockReader, ms: seq<Member>)
    requires ms != []
    ensures MembersOk(p, ms) <==> MemberOk(p, ms[0]) && MembersOk(p, ms[1..])
  {
    assert ms == [ms[0]] + ms[1..];
  }

  lemma LayoutCons(data: seq<Byte>, offset: nat, ms: seq<Member>)
    requires offset <= |data| && ms != []
    ensures var end := offset + |MemberBytes(ms[0])|;
            && |Layout(ms)| == |MemberBytes(ms[0])| + |Layout(ms[1..])|
            && (Layout(ms) <= data[offset..] <==> StandsAt(data, offset, ms[0]) && Layout(ms[1..]) <= data[end..])
  {
    var b, rest, tail := MemberBytes(ms[0]), Layout(ms[1..]), data[offset..];
    if |b| <= |tail| {
      assert tail[..|b|] == data[offset..offset + |b|] && tail[|b|..] == data[offset + |b|..];
      assert tail == tail[..|b|] + tail[|b|..];
      if b + rest <= tail {
        assert tail[..|b|] == (b + rest)[..|b|] && rest == (b + rest)[|b|..];
      }
    }
  }

  lemma ArchiveIsTiled(p: BlockReader, data: seq<Byte>, ms: seq<Member>)
    ensures IsArchive(p, data, ms) <==> Tiled(p, data, 0, ms) && |ms| <= MAX_ENTRIES
  {
    LayoutIsTiled(p, data, 0, ms);
    assert data[0..] == data;
  }

  /** An archive is read back as its regular files. */
  lemma ArchiveReads(p: BlockReader, data: seq<Byte>, ms: seq<Member>)
    requires |data| <= USIZE_MAX && IsArchive(p, data, ms)
    ensures Read(p, data) == Ok(Files(p, ms))
  {
    ArchiveIsTiled(p, data, ms);
    ReaderFindsTiles(p, data);
    TilesFound(Find(p, data), p, data, 0, 0, ms);
    FoundRead(Find(p, data), p, data, 0, 0, ms);
  }

  /** The reader succeeds exactly on archives: data tiled from its first byte to an end marker
      by members whose headers declare just those extents. It returns their regular files. */
  lemma ReadIffArchive(p: BlockReader, data: seq<Byte>, es: seq<ArchiveEntry>)
    requires |data| <= USIZE_MAX
    ensures Read(p, data) == Ok(es) <==> exists ms :: IsArchive(p, data, ms) && Files(p, ms) == es
  {
    if Read(p, data) == Ok(es) {
      ReaderFinds(p, data);
      var ms := ReadTiles(Find(p, data), p, data, 0, 0);
      FoundRead(Find(p, data), p, data, 0, 0, ms);
      ArchiveIsTiled(p, data, ms);
    }
    forall ms | IsArchive(p, data, ms) ensures Read(p, data) == Ok(Files(p, ms)) {
      ArchiveReads(p, data, ms);
    }
  }

  // ---------------------------------------------------------------- what entries look like

  function PayloadBytes(es: seq<ArchiveEntry>): nat {
    if es == [] then 0 else |es[0].data| + PayloadBytes(es[1..])
  }

  predicate EntryOk(e: ArchiveEntry) {
    |e.data| == e.size <= MAX_ENTRY_BYTES && ValidName(e.name)
  }

  lemma PayloadAppend(a: seq<ArchiveEntry>, b: seq<ArchiveEntry>)
    ensures PayloadBytes(a + b) == PayloadBytes(a) + PayloadBytes(b)
  {
    if a == [] {
      assert a + b == b;
    } else {
      assert (a + b)[1..] == a[1..] + b;
      PayloadAppend(a[1..], b);
    }
  }

  lemma {:induction false} FilesFit(p: BlockReader, ms: seq<Member>)
    requires Careful(p) && MembersOk(p, ms)
    ensures forall e :: e in Files(p, ms) ==> EntryOk(e)
    ensures PayloadBytes(Files(p, ms)) <= |Layout(ms)| && |Files(p, ms)| <= |ms|
  {
    if ms != [] {
      assert MemberOk(p, ms[0]) && MembersOk(p, ms[1..]);
      FilesFit(p, ms[1..]);
      PayloadAppend(FileOf(p, ms[0]), Files(p, ms[1..]));
    }
  }

  /** Entries are whole, named safely, and together no longer than the data they came from. */
  lemma ReadFits(p: BlockReader, data: seq<Byte>)
    requires Careful(p) && Read(p, data).Ok?
    ensures forall e :: e in Read(p, data).value ==> EntryOk(e)
    ensures PayloadBytes(Read(p, data).value) <= |data| && |Read(p, data).value| <= MAX_ENTRIES
  {
    ReaderFinds(p, data);
    var ms := ReadTiles(Find(p, data), p, data, 0, 0);
    FoundRead(Find(p, data), p, data, 0, 0, ms);
    ArchiveIsTiled(p, data, ms);
    FilesFit(p, ms);
  }
}

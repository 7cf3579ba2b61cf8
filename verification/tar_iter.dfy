/** `TarEntriesIter` (`src/archive/tar.rs`): the iterator that reads a tar archive. */
module TarIterator {
  import opened Prelude
  import opened Bytes
  import opened TarFields
  import opened TarHeaders
  import opened Tar

  lemma LayoutGrows(data: seq<Byte>, ms: seq<Member>, m: Member, at: nat, end: nat)
    requires at <= end <= |data| && Layout(ms) == data[..at] && MemberBytes(m) == data[at..end]
    ensures Layout(ms + [m]) == data[..end]
  {
    LayoutAppend(ms, [m]);
    assert Layout([m]) == MemberBytes(m) + [];
    assert data[..end] == data[..at] + data[at..end];
  }

  class TarEntriesIter {
    const blocks: BlockReader
    const data: seq<Byte>
    var offset: nat
    var finished: bool
    var entryCount: nat
    /** The members walked over so far. */
    ghost var walked: seq<Member>

    /** The members walked over tile the data up to `offset`; once finished, up to an end marker
        or to wherever the reader gave up. Every header counted but the last is one of them. */
    ghost predicate Valid()
      reads this
    {
      && offset <= |data|
      && MembersOk(blocks, walked)
      && Layout(walked) <= data
      && |Layout(walked)| <= offset <= |Layout(walked)| + 2 * BLOCK
      && |walked| <= entryCount <= |walked| + 1
      && |walked| <= MAX_ENTRIES
      && (!finished ==> offset == |Layout(walked)| && entryCount == |walked|)
    }

    /** Everything the iterator still yields. */
    ghost function Remaining(): seq<Item>
      reads this
    {
      if finished then [] else Items(Find(blocks, data), data, offset, entryCount)
    }

    /** `TarReader::entries`. */
    constructor (blocks: BlockReader, data: seq<Byte>)
      ensures Valid() && this.blocks == blocks && this.data == data && walked == []
      ensures Remaining() == Items(Find(blocks, data), data, 0, 0)
    {
      this.blocks, this.data := blocks, data;
      offset, finished, entryCount := 0, false, 0;
      walked := [];
    }

    /** What the reader makes of a block of zeros. */
    method EndMarker() returns (r: Option<Item>)
      requires Valid() && !finished && offset + BLOCK <= |data|
      modifies this`offset, this`finished
      ensures Valid() && finished
      ensures match TwoZeroBlocks(blocks, data, old(offset))
              case Finish(next) => r == None && offset == next
              case Fault(e) => r == Some(Item.Err(e)) && offset == old(offset)
              case Extent(_, _) => false
    {
      finished := true;
      var second := offset + BLOCK;
      if |data| - second < BLOCK {
        return Some(Item.Err(Truncated(second, BLOCK, |data| - second)));
      }
      if blocks(data[second..second + BLOCK]).ZeroBlock? {
        offset := second + BLOCK;
        return None;
      }
      return Some(Item.Err(InvalidHeader(offset)));
    }

    /** Counts a header and moves past what it declares. */
    method Advance(header: ParsedHeader) returns (r: Option<ArchiveError>)
      requires Valid() && !finished && offset + BLOCK <= |data|
      requires blocks(data[offset..offset + BLOCK]) == Header(header)
      modifies this
      ensures Valid()
      ensures match ReadAt(blocks, data, old(offset), old(entryCount))
              case Finish(_) => false
              case Fault(e) => r == Some(e) && finished && offset == old(offset) && walked == old(walked)
              case Extent(h, end) =>
                && h == header && r == None && !finished && offset == end && entryCount == old(entryCount) + 1
                && walked == old(walked) + [MemberAt(data, old(offset), header.size)]
    {
      ghost var f := ReadAt(blocks, data, offset, entryCount);
      var start := offset + BLOCK;
      entryCount := entryCount + 1;
      if entryCount > MAX_ENTRIES {
        finished := true;
        return Some(TooManyEntries(entryCount, MAX_ENTRIES));
      }
      if header.size > MAX_ENTRY_BYTES {
        finished := true;
        return Some(EntryTooLarge(header.size, MAX_ENTRY_BYTES));
      }
      var pad := Padding(header.size);
      var end := start + header.size + pad;
      if end > USIZE_MAX {
        finished := true;
        return Some(InvalidHeader(offset));
      }
      if end > |data| {
        finished := true;
        return Some(Truncated(start, header.size + pad, |data| - start));
      }
      WalkOver(offset, entryCount - 1, end, header);
      walked := walked + [MemberAt(data, offset, header.size)];
      offset := end;
      return None;
    }

    lemma WalkOver(at: nat, count: nat, end: nat, header: ParsedHeader)
      requires offset == at && Layout(walked) <= data && |Layout(walked)| == at && MembersOk(blocks, walked)
      requires ReadAt(blocks, data, at, count) == Extent(header, end)
      ensures var longer := walked + [MemberAt(data, at, header.size)];
              Layout(longer) <= data && |Layout(longer)| == end && MembersOk(blocks, longer)
    {
      ExtentIsMember(blocks, data, at, count);
      LayoutGrows(data, walked, MemberAt(data, at, header.size), at, end);
    }

    /** One turn of the loop in `next`: stops with the answer, or goes on behind a member that
        is not a regular file. */
    method Turn() returns (stop: bool, r: Option<Item>)
      requires Valid() && !finished
      modifies this
      ensures Valid() && old(walked) <= walked
      ensures match ReadAt(blocks, data, old(offset), old(entryCount))
              case Finish(next) => stop && r == None && finished && offset == next && walked == old(walked)
              case Fault(e) => stop && r == Some(Item.Err(e)) && finished && offset == old(offset)
              case Extent(h, end) =>
                && !finished && offset == end && entryCount == old(entryCount) + 1
                && stop == h.isRegularFile && r == if stop then Some(Item.Ok(EntryAt(data, old(offset), h))) else None
    {
      if offset >= |data| {
        finished := true;
        return true, None;
      }
      if |data| - offset < BLOCK {
        finished := true;
        return true, Some(Item.Err(Truncated(offset, BLOCK, |data| - offset)));
      }
      var kind := blocks(data[offset..offset + BLOCK]);
      if kind.ZeroBlock? {
        r := EndMarker();
        return true, r;
      }
      if kind.Bad? {
        finished := true;
        return true, Some(Item.Err(Located(kind.fault, offset)));
      }
      var at := offset;
      var fault := Advance(kind.header);
      if fault.Some? {
        return true, Some(Item.Err(fault.value));
      }
      if kind.header.isRegularFile {
        return true, Some(Item.Ok(EntryAt(data, at, kind.header)));
      }
      return false, None;
    }

    /** The same turn in terms of what is still to come. */
    method YieldOrGoOn() returns (stop: bool, r: Option<Item>)
      requires Valid() && !finished
      modifies this
      ensures Valid() && old(walked) <= walked && (stop || !finished)
      ensures old(Remaining()) == (if r == None then [] else [r.value]) + Remaining()
      ensures stop && (r == None || r.value.Err?) ==> finished
      ensures offset >= old(offset) && (!stop || (r.Some? && r.value.Ok?) ==> offset >= old(offset) + BLOCK)
      ensures !stop ==> r == None
      ensures stop && r == None ==> EndOk(blocks, data[|Layout(walked)|..])
    {
      EndIsFinish(blocks, data, offset, entryCount);
      stop, r := Turn();
      assert !stop ==> old(Remaining()) == [] + Remaining();
    }

    /** `next`: the first of the remaining items, or nothing for ever when there are none. */
    method Next() returns (r: Option<Item>)
      requires Valid()
      modifies this
      ensures Valid()
      ensures old(Remaining()) == [] ==> r == None && Remaining() == [] && finished
      ensures old(Remaining()) != [] ==> r == Some(old(Remaining())[0]) && Remaining() == old(Remaining())[1..]
      ensures r.Some? && r.value.Err? ==> finished
      ensures offset >= old(offset) && old(walked) <= walked
      ensures r.Some? && r.value.Ok? ==> offset >= old(offset) + BLOCK
      ensures r == None && !old(finished) ==> EndOk(blocks, data[|Layout(walked)|..])
    {
      if finished {
        return None;
      }
      var stop := false;
      r := None;
      while !stop
        invariant Valid() && (!stop ==> !finished)
        invariant !stop ==> Remaining() == old(Remaining())
        invariant stop ==> old(Remaining()) == (if r == None then [] else [r.value]) + Remaining()
        invariant stop && (r == None || r.value.Err?) ==> finished
        invariant offset >= old(offset) && old(walked) <= walked
        invariant stop && r.Some? && r.value.Ok? ==> offset >= old(offset) + BLOCK
        invariant stop && r == None ==> EndOk(blocks, data[|Layout(walked)|..])
        decreases |data| - offset, !stop
      {
        stop, r := YieldOrGoOn();
      }
    }
  }

  /** `TarReader::entries(data).collect()`. */
  method Entries(blocks: BlockReader, data: seq<Byte>) returns (r: Result<seq<ArchiveEntry>, ArchiveError>)
    ensures r == Read(blocks, data)
  {
    var iter := new TarEntriesIter(blocks, data);
    var entries: seq<ArchiveEntry> := [];
    ghost var left := iter.Remaining();
    while true
      invariant iter.Valid() && left == iter.Remaining()
      invariant Read(blocks, data) == Onto(entries, Values(left))
      decreases |left|
    {
      var item := iter.Next();
      ghost var before := left;
      left := iter.Remaining();
      if item.None? {
        return Ok(entries);
      }
      assert before == [item.value] + left;
      if item.value.Err? {
        return Err(item.value.error);
      }
      OntoStep(entries, item.value.value, Values(left));
      entries := entries + [item.value.value];
    }
  }

  function Onto(entries: seq<ArchiveEntry>, rest: Result<seq<ArchiveEntry>, ArchiveError>)
    : (r: Result<seq<ArchiveEntry>, ArchiveError>)
    ensures rest == Ok([]) ==> r == Ok(entries)
    ensures entries == [] ==> r == rest
  {
    assert entries + [] == entries;
    match rest
    case Ok(s) => assert [] + s == s; Ok(entries + s)
    case Err(e) => Err(e)
  }

  lemma OntoStep(entries: seq<ArchiveEntry>, e: ArchiveEntry, rest: Result<seq<ArchiveEntry>, ArchiveError>)
    ensures Onto(entries, Before(e, rest)) == Onto(entries + [e], rest)
  {
    if rest.Ok? {
      assert entries + ([e] + rest.value) == (entries + [e]) + rest.value;
    }
  }
}

/** Archives packed inside archives, tar and zip in any mixture, and the tree that recursive
    extraction makes of them. */
module NestedArchives {
  import opened Prelude
  import opened Bytes
  import opened TarWriter
  import opened Format
  import opened Layers
  import opened ExtractTree
  import opened LeafPaths
  import opened Extract
  import opened ExtractFacts
  import T = Tar
  import ZW = ZipWriter

  /** A member as it is written: into a tar archive or into a zip archive. */
  datatype Head = TarHead(tar: TarFile) | ZipHead(zip: ZW.ZipFile)

  /** What kind of archive to write. */
  datatype Kind = TarKind | ZipKind(trailer: ZW.Trailer)

  /** What to pack: plain files, directories and links, and archives packed on the spot. */
  datatype Packed = File(head: Head) | Other(head: Head) | Archive(head: Head, kind: Kind, members: seq<Packed>)

  function NameOf(h: Head): string {
    match h case TarHead(f) => FullName(f) case ZipHead(f) => f.name
  }

  function PayloadOf(h: Head): seq<Byte> {
    match h case TarHead(f) => f.payload case ZipHead(f) => f.payload
  }

  /** The member with other contents. */
  function WithPayload(h: Head, bytes: seq<Byte>): (r: Head)
    ensures PayloadOf(r) == bytes && NameOf(r) == NameOf(h) && IsFile(r) == IsFile(h)
  {
    match h
    case TarHead(f) => TarHead(f.(payload := bytes))
    case ZipHead(f) => ZipHead(f.(payload := bytes, size := |bytes|))
  }

  /** Whether readers take the member for a file. */
  predicate IsFile(h: Head) {
    match h
    case TarHead(f) => f.typeflag == 48 || f.typeflag == 0
    case ZipHead(f) => f.name == "" || f.name[|f.name| - 1] != '/'
  }

  function EntryOf(h: Head): ArchiveEntry {
    ArchiveEntry(NameOf(h), |PayloadOf(h)|, PayloadOf(h))
  }

  /** What an archive of these members should hold: its files, in order. */
  function Entries(hs: seq<Head>): seq<ArchiveEntry> {
    if hs == [] then []
    else Entries(hs[..|hs| - 1]) + if IsFile(hs[|hs| - 1]) then [EntryOf(hs[|hs| - 1])] else []
  }

  // ---------------------------------------------------------------- packing

  /** How an archive is written, and which ones can be. */
  datatype Packer = Packer(write: (Kind, seq<Head>) -> seq<Byte>, ok: (Kind, seq<Head>) -> bool)

  function Pack(p: Packer, k: Kind, ms: seq<Packed>): seq<Byte>
    decreases ms, 1
  {
    p.write(k, Render(p, ms))
  }

  function Render(p: Packer, ms: seq<Packed>): (hs: seq<Head>)
    ensures |hs| == |ms|
    decreases ms, 0
  {
    if ms == [] then [] else Render(p, ms[..|ms| - 1]) + [RenderOne(p, ms[|ms| - 1])]
  }

  function RenderOne(p: Packer, m: Packed): (h: Head)
    ensures NameOf(h) == NameOf(m.head) && IsFile(h) == IsFile(m.head)
    decreases m, 0
  {
    match m
    case File(h) => h
    case Other(h) => h
    case Archive(h, k, members) => WithPayload(h, Pack(p, k, members))
  }

  type Detector = seq<Byte> -> DecompressFormat

  /** A pack that can be written, and whose plain files no detector takes for archives. */
  predicate PackOk(p: Packer, detect: Detector, k: Kind, ms: seq<Packed>)
    decreases ms, 1
  {
    p.ok(k, Render(p, ms)) && forall i :: 0 <= i < |ms| ==> MemberOk(p, detect, ms[i])
  }

  predicate MemberOk(p: Packer, detect: Detector, m: Packed)
    decreases m, 0
  {
    match m
    case File(h) => IsFile(h) && detect(PayloadOf(h)) == Unknown
    case Other(h) => !IsFile(h)
    case Archive(h, k, members) => IsFile(h) && PackOk(p, detect, k, members)
  }

  // ---------------------------------------------------------------- listing

  /** The files of a pack under their full paths, archives opened while there is depth left.
      `above` are the names of the archives that enclose it. */
  function Listing(p: Packer, ms: seq<Packed>, above: seq<string>, depth: nat): seq<ArchiveEntry>
    decreases ms, 0
  {
    if ms == [] then []
    else Listing(p, ms[..|ms| - 1], above, depth) + ListingOne(p, ms[|ms| - 1], above, depth)
  }

  function ListingOne(p: Packer, m: Packed, above: seq<string>, depth: nat): seq<ArchiveEntry>
    decreases m, 0
  {
    var names := above + [NameOf(m.head)];
    var path := FullPath(names);
    match m
    case File(h) => [ArchiveEntry(path, |PayloadOf(h)|, PayloadOf(h))]
    case Other(_) => []
    case Archive(_, k, members) =>
      if depth > 0 then Listing(p, members, names, depth - 1)
      else [ArchiveEntry(path, |Pack(p, k, members)|, Pack(p, k, members))]
  }

  // ---------------------------------------------------------------- the tree of a pack

  function NodesOf(p: Packer, ms: seq<Packed>, depth: nat): seq<Node>
    decreases ms, 0
  {
    if ms == [] then [] else NodesOf(p, ms[..|ms| - 1], depth) + NodeOf(p, ms[|ms| - 1], depth)
  }

  function NodeOf(p: Packer, m: Packed, depth: nat): (ns: seq<Node>)
    ensures |ns| <= 1
    decreases m, 0
  {
    match m
    case File(h) => [Leaf(EntryOf(h))]
    case Other(_) => []
    case Archive(_, _, members) =>
      if depth > 0 then [Nested(EntryOf(RenderOne(p, m)), TreeOf(p, members, depth - 1))]
      else [Leaf(EntryOf(RenderOne(p, m)))]
  }

  function TreeOf(p: Packer, ms: seq<Packed>, depth: nat): Tree
    decreases ms, 1
  {
    Tree(NodesOf(p, ms, depth), T.PayloadBytes(Entries(Render(p, ms))))
  }

  // ---------------------------------------------------------------- unpacking packs

  /** The opener knows the data for an archive of these entries, and charges their payloads. */
  predicate Recognised(o: Opener, data: seq<Byte>, es: seq<ArchiveEntry>) {
    o.open(data) == Ok(Layer(es, T.PayloadBytes(es))) && o.looksLikeArchive(data)
  }

  /** The opener reads back a written archive. */
  predicate OpensWritten(o: Opener, p: Packer, k: Kind, hs: seq<Head>) {
    Recognised(o, p.write(k, hs), Entries(hs))
  }

  ghost predicate OpensPacks(o: Opener, p: Packer, detect: Detector) {
    && (forall k, hs {:trigger OpensWritten(o, p, k, hs)} :: p.ok(k, hs) ==> OpensWritten(o, p, k, hs))
    && (forall data :: o.looksLikeArchive(data) == (detect(data) != Unknown))
  }

  predicate MembersOk(p: Packer, detect: Detector, ms: seq<Packed>) {
    forall i :: 0 <= i < |ms| ==> MemberOk(p, detect, ms[i])
  }

  /** A pack unpacks to its own tree. */
  lemma {:induction false} PackUnpacks(o: Opener, p: Packer, detect: Detector, k: Kind, ms: seq<Packed>, depth: nat)
    requires OpensPacks(o, p, detect) && PackOk(p, detect, k, ms)
    ensures Unpack(o, Pack(p, k, ms), depth) == Ok(TreeOf(p, ms, depth)) && o.looksLikeArchive(Pack(p, k, ms))
    decreases ms, 1
  {
    assert OpensWritten(o, p, k, Render(p, ms));
    MembersUnpack(o, p, detect, ms, depth);
  }

  lemma UnpackAppend(o: Opener, es: seq<ArchiveEntry>, e: ArchiveEntry, depth: nat)
    requires UnpackNodes(o, es, depth).Ok? && UnpackNode(o, e, depth).Ok?
    ensures UnpackNodes(o, es + [e], depth) == Ok(UnpackNodes(o, es, depth).value + [UnpackNode(o, e, depth).value])
  {
    assert (es + [e])[..|es|] == es;
  }

  lemma EntriesAppend(hs: seq<Head>, h: Head)
    ensures Entries(hs + [h]) == Entries(hs) + if IsFile(h) then [EntryOf(h)] else []
  {
    assert (hs + [h])[..|hs|] == hs;
  }

  lemma {:induction false} MembersUnpack(o: Opener, p: Packer, detect: Detector, ms: seq<Packed>, depth: nat)
    requires OpensPacks(o, p, detect) && MembersOk(p, detect, ms)
    ensures UnpackNodes(o, Entries(Render(p, ms)), depth) == Ok(NodesOf(p, ms, depth))
    decreases ms, 0
  {
    if ms != [] {
      var init, last := ms[..|ms| - 1], ms[|ms| - 1];
      var es, h := Entries(Render(p, init)), RenderOne(p, last);
      MembersUnpack(o, p, detect, init, depth);
      MemberUnpacks(o, p, detect, last, depth);
      EntriesAppend(Render(p, init), h);
      if last.Other? {
        assert es + [] == es && NodesOf(p, init, depth) + [] == NodesOf(p, init, depth);
      } else {
        UnpackAppend(o, es, EntryOf(h), depth);
      }
    }
  }

  lemma {:induction false} MemberUnpacks(o: Opener, p: Packer, detect: Detector, m: Packed, depth: nat)
    requires OpensPacks(o, p, detect) && MemberOk(p, detect, m)
    ensures IsFile(m.head) == !m.Other?
    ensures !m.Other? ==> UnpacksTo(o, EntryOf(RenderOne(p, m)), depth, NodeOf(p, m, depth))
    decreases m, 1
  {
    if m.File? {
      assert o.looksLikeArchive(PayloadOf(m.head)) == (detect(PayloadOf(m.head)) != Unknown);
      LeafUnpacks(o, EntryOf(m.head), depth);
    } else if m.Archive? {
      ArchiveUnpacks(o, p, detect, m, depth);
    }
  }

  lemma {:induction false} ArchiveUnpacks(o: Opener, p: Packer, detect: Detector, m: Packed, depth: nat)
    requires OpensPacks(o, p, detect) && m.Archive? && PackOk(p, detect, m.kind, m.members)
    ensures UnpacksTo(o, EntryOf(RenderOne(p, m)), depth, NodeOf(p, m, depth))
    decreases m, 0
  {
    var e := EntryOf(RenderOne(p, m));
    if depth == 0 {
      LeafUnpacks(o, e, depth);
    } else {
      PackUnpacks(o, p, detect, m.kind, m.members, depth - 1);
      NestedUnpacks(o, e, depth, TreeOf(p, m.members, depth - 1));
    }
  }

  predicate UnpacksTo(o: Opener, e: ArchiveEntry, depth: nat, ns: seq<Node>) {
    UnpackNode(o, e, depth).Ok? && [UnpackNode(o, e, depth).value] == ns
  }

  lemma LeafUnpacks(o: Opener, e: ArchiveEntry, depth: nat)
    requires depth == 0 || !o.looksLikeArchive(e.data)
    ensures UnpacksTo(o, e, depth, [Leaf(e)])
  {
  }

  lemma NestedUnpacks(o: Opener, e: ArchiveEntry, depth: nat, t: Tree)
    requires depth > 0 && o.looksLikeArchive(e.data) && Unpack(o, e.data, depth - 1) == Ok(t)
    ensures UnpacksTo(o, e, depth, [Nested(e, t)])
  {
  }

  // ---------------------------------------------------------------- the flattened tree

  /** The flattening of a pack's tree is its listing. */
  lemma {:induction false} ListingIsFlattening(p: Packer, ms: seq<Packed>, above: seq<string>, depth: nat)
    ensures Flatten(NodesOf(p, ms, depth), FullPath(above)) == Listing(p, ms, above, depth)
    decreases ms, 0
  {
    if ms != [] {
      var init, last := ms[..|ms| - 1], ms[|ms| - 1];
      ListingIsFlattening(p, init, above, depth);
      ListingOneIsFlattening(p, last, above, depth);
      var ns, n := NodesOf(p, init, depth), NodeOf(p, last, depth);
      if n != [] {
        assert n == [n[0]];
        MeasuresStep(Account(0, 0, 0), ns, n[0], FullPath(above));
      } else {
        assert ns + n == ns;
      }
    }
  }

  /** The listing of one member is the flattening of its nodes. */
  predicate ListedFlat(p: Packer, m: Packed, above: seq<string>, depth: nat) {
    var n := NodeOf(p, m, depth);
    ListingOne(p, m, above, depth) == if n == [] then [] else FlattenNode(n[0], FullPath(above))
  }

  lemma {:induction false} ListingOneIsFlattening(p: Packer, m: Packed, above: seq<string>, depth: nat)
    ensures ListedFlat(p, m, above, depth)
    decreases m, 0
  {
    if m.Archive? && depth > 0 {
      ListingIsFlattening(p, m.members, above + [NameOf(m.head)], depth - 1);
      OpenedIsFlat(p, m, above, depth);
    } else if m.Archive? {
      ClosedIsFlat(p, m, above);
    } else {
      MemberIsFlat(p, m, above, depth);
    }
  }

  lemma OpenedIsFlat(p: Packer, m: Packed, above: seq<string>, depth: nat)
    requires m.Archive? && depth > 0
    requires var names := above + [NameOf(m.head)];
      Flatten(NodesOf(p, m.members, depth - 1), FullPath(names)) == Listing(p, m.members, names, depth - 1)
    ensures ListedFlat(p, m, above, depth)
  {
    FullPathMore(above, NameOf(m.head));
    NestedFlattens(EntryOf(RenderOne(p, m)), TreeOf(p, m.members, depth - 1), FullPath(above));
  }

  lemma ClosedIsFlat(p: Packer, m: Packed, above: seq<string>)
    requires m.Archive?
    ensures ListedFlat(p, m, above, 0)
  {
    FullPathMore(above, NameOf(m.head));
    LeafFlattens(EntryOf(RenderOne(p, m)), FullPath(above));
  }

  lemma MemberIsFlat(p: Packer, m: Packed, above: seq<string>, depth: nat)
    requires !m.Archive?
    ensures ListedFlat(p, m, above, depth)
  {
    FullPathMore(above, NameOf(m.head));
    LeafFlattens(EntryOf(m.head), FullPath(above));
  }

  lemma LeafFlattens(e: ArchiveEntry, prefix: string)
    ensures FlattenNode(Leaf(e), prefix) == [ArchiveEntry(JoinName(prefix, e.name), e.size, e.data)]
  {
  }

  lemma NestedFlattens(e: ArchiveEntry, t: Tree, prefix: string)
    ensures FlattenNode(Nested(e, t), prefix) == Flatten(t.nodes, JoinName(prefix, e.name))
  {
  }

  // ---------------------------------------------------------------- what extraction costs

  /** The bytes of all files met, opened archives included. */
  function PackBytes(p: Packer, ms: seq<Packed>, depth: nat): nat
    decreases ms, 0
  {
    if ms == [] then 0 else PackBytes(p, ms[..|ms| - 1], depth) + MemberBytes(p, ms[|ms| - 1], depth)
  }

  function MemberBytes(p: Packer, m: Packed, depth: nat): nat
    decreases m, 0
  {
    match m
    case File(h) => |PayloadOf(h)|
    case Other(_) => 0
    case Archive(_, k, members) => |Pack(p, k, members)| + if depth > 0 then PackBytes(p, members, depth - 1) else 0
  }

  /** The last file met is put out: it is no archive that is opened and found empty. */
  predicate EndsInFile(ms: seq<Packed>, depth: nat)
    decreases ms, 0
  {
    ms != [] && if ms[|ms| - 1].Other? then EndsInFile(ms[..|ms| - 1], depth) else MemberEndsInFile(ms[|ms| - 1], depth)
  }

  predicate MemberEndsInFile(m: Packed, depth: nat)
    decreases m, 0
  {
    m.Archive? && depth > 0 ==> EndsInFile(m.members, depth - 1)
  }

  /** The sizes of a pack that extraction admits. */
  predicate PackFits(p: Packer, ms: seq<Packed>, depth: nat) {
    && PackBytes(p, ms, depth) <= 536_870_912
    && CountFits(|Listing(p, ms, [], depth)|, EndsInFile(ms, depth))
  }

  /** The bytes of the tree are those of the pack. */
  lemma {:induction false} BytesOfNodes(p: Packer, ms: seq<Packed>, depth: nat)
    ensures TotalBytes(NodesOf(p, ms, depth)) == PackBytes(p, ms, depth)
    decreases ms, 0
  {
    if ms != [] {
      var init, last := ms[..|ms| - 1], ms[|ms| - 1];
      BytesOfNodes(p, init, depth);
      BytesOfNode(p, last, depth);
      NodesAppend(NodesOf(p, init, depth), NodeOf(p, last, depth));
    }
  }

  lemma NodesAppend(ns: seq<Node>, last: seq<Node>)
    requires |last| <= 1
    ensures TotalBytes(ns + last) == TotalBytes(ns) + if last == [] then 0 else NodeBytes(last[0])
    ensures TotalCharge(ns + last) == TotalCharge(ns) + if last == [] then 0 else NodeCharge(last[0])
  {
    if last == [] {
      assert ns + last == ns;
    } else {
      assert (ns + last)[..|ns|] == ns;
    }
  }

  lemma {:induction false} BytesOfNode(p: Packer, m: Packed, depth: nat)
    ensures var n := NodeOf(p, m, depth);
            MemberBytes(p, m, depth) == if n == [] then 0 else NodeBytes(n[0])
    decreases m, 0
  {
    if m.Archive? && depth > 0 {
      BytesOfNodes(p, m.members, depth - 1);
    }
  }

  /** An archive is charged for what it holds, so all charges together are all bytes together. */
  lemma {:induction false} ChargesAreBytes(p: Packer, detect: Detector, ms: seq<Packed>, depth: nat)
    requires MembersOk(p, detect, ms)
    ensures T.PayloadBytes(Entries(Render(p, ms))) + TotalCharge(NodesOf(p, ms, depth))
      == TotalBytes(NodesOf(p, ms, depth))
    decreases ms, 0
  {
    if ms != [] {
      var init, last := ms[..|ms| - 1], ms[|ms| - 1];
      ChargesAreBytes(p, detect, init, depth);
      ChargeIsBytes(p, detect, last, depth);
      NodesAppend(NodesOf(p, init, depth), NodeOf(p, last, depth));
      var es := Entries(Render(p, init));
      EntriesAppend(Render(p, init), RenderOne(p, last));
      if IsFile(last.head) {
        PayloadLast(es, EntryOf(RenderOne(p, last)));
      } else {
        assert es + [] == es;
      }
    }
  }

  lemma {:induction false} ChargeIsBytes(p: Packer, detect: Detector, m: Packed, depth: nat)
    requires MemberOk(p, detect, m)
    ensures var n := NodeOf(p, m, depth);
            && (n == [] <==> !IsFile(m.head))
            && (n != [] ==>
                  n[0].entry == EntryOf(RenderOne(p, m)) && |n[0].entry.data| + NodeCharge(n[0]) == NodeBytes(n[0]))
    decreases m, 0
  {
    if m.Archive? && depth > 0 {
      ChargesAreBytes(p, detect, m.members, depth - 1);
    }
  }

  lemma {:induction false} EndsAlike(p: Packer, ms: seq<Packed>, depth: nat)
    ensures EndsInLeaf(NodesOf(p, ms, depth)) == EndsInFile(ms, depth)
    decreases ms, 0
  {
    if ms != [] {
      var init, last := ms[..|ms| - 1], ms[|ms| - 1];
      if last.Other? {
        EndsAlike(p, init, depth);
        assert NodesOf(p, ms, depth) == NodesOf(p, init, depth);
      } else {
        MemberEndsAlike(p, last, depth);
        var n := NodeOf(p, last, depth);
        assert NodesOf(p, ms, depth) == NodesOf(p, init, depth) + [n[0]];
      }
    }
  }

  lemma {:induction false} MemberEndsAlike(p: Packer, m: Packed, depth: nat)
    requires !m.Other?
    ensures |NodeOf(p, m, depth)| == 1 && NodeEndsInLeaf(NodeOf(p, m, depth)[0]) == MemberEndsInFile(m, depth)
    decreases m, 0
  {
    if m.Archive? && depth > 0 {
      EndsAlike(p, m.members, depth - 1);
    }
  }

  /** Three limits on a tree whose charges are its bytes come to two. */
  lemma LimitsMerge(ns: seq<Node>, charge: nat)
    requires charge + TotalCharge(ns) == TotalBytes(ns)
    ensures TreeFits(Account(0, 0, 0), Tree(ns, charge)) <==>
      CountFits(LeafCount(ns), EndsInLeaf(ns)) && TotalBytes(ns) <= MAX_RECURSIVE_OUTPUT_BYTES
  {
    RoomIff(ns, 0);
  }

  /** A pack's tree keeps the three limits exactly when the sizes of the pack do. */
  lemma TreeFitsIff(p: Packer, detect: Detector, ms: seq<Packed>, depth: nat)
    requires MembersOk(p, detect, ms)
    ensures TreeFits(Account(0, 0, 0), TreeOf(p, ms, depth)) <==> PackFits(p, ms, depth)
  {
    var ns := NodesOf(p, ms, depth);
    BytesOfNodes(p, ms, depth);
    ChargesAreBytes(p, detect, ms, depth);
    EndsAlike(p, ms, depth);
    ListingIsFlattening(p, ms, [], depth);
    LimitsMerge(ns, T.PayloadBytes(Entries(Render(p, ms))));
  }
}

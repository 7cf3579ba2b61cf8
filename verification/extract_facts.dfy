/** What a successful recursive extraction guarantees about its output. */
module ExtractFacts {
  import opened Bytes
  import opened EntryNames
  import opened Layers
  import opened ExtractTree
  import opened Extract
  import T = Tar

  // ---------------------------------------------------------------- charges cover bytes

  /** The opener charges every layer for at least the bytes of its entries. */
  ghost predicate Covers(o: Opener) {
    forall data {:trigger o.open(data)} :: o.open(data).Ok? ==>
      T.PayloadBytes(o.open(data).value.entries) <= o.open(data).value.charge
  }

  /** On every level, the bytes counted are covered by the bytes charged. */
  lemma {:induction false} TreeIsCovered(o: Opener, data: seq<Byte>, depth: nat)
    requires Covers(o) && Unpack(o, data, depth).Ok?
    ensures var t := Unpack(o, data, depth).value;
            TotalBytes(t.nodes) <= t.charge + TotalCharge(t.nodes)
    decreases depth, 2, 0
  {
    NodesAreCovered(o, o.open(data).value.entries, depth);
  }

  lemma {:induction false} NodesAreCovered(o: Opener, es: seq<ArchiveEntry>, depth: nat)
    requires Covers(o) && UnpackNodes(o, es, depth).Ok?
    ensures var ns := UnpackNodes(o, es, depth).value;
            TotalBytes(ns) <= T.PayloadBytes(es) + TotalCharge(ns)
    decreases depth, 1, |es|
  {
    if es != [] {
      var init, last := es[..|es| - 1], es[|es| - 1];
      var ns, n := UnpackNodes(o, init, depth).value, UnpackNode(o, last, depth).value;
      NodesAreCovered(o, init, depth);
      NodeIsCovered(o, last, depth);
      PayloadLast(init, last);
      assert es == init + [last];
      MeasuresStep(Account(0, 0, 0), ns, n, "");
    }
  }

  lemma PayloadLast(es: seq<ArchiveEntry>, e: ArchiveEntry)
    ensures T.PayloadBytes(es + [e]) == T.PayloadBytes(es) + |e.data|
  {
    T.PayloadAppend(es, [e]);
  }

  lemma {:induction false} NodeIsCovered(o: Opener, e: ArchiveEntry, depth: nat)
    requires Covers(o) && UnpackNode(o, e, depth).Ok?
    ensures var n := UnpackNode(o, e, depth).value;
            NodeBytes(n) <= |e.data| + NodeCharge(n)
    decreases depth, 0, 0
  {
    if UnpackNode(o, e, depth).value.Nested? {
      TreeIsCovered(o, e.data, depth - 1);
    }
  }

  lemma ReadersCover(f: Readers)
    requires Sound(f)
    ensures Covers(LayerOpener(f))
  {
    forall data | OpenLayer(f, data).Ok?
      ensures T.PayloadBytes(OpenLayer(f, data).value.entries) <= OpenLayer(f, data).value.charge
    {
      LayerCovers(f, data);
    }
  }

  // ---------------------------------------------------------------- limits

  lemma {:induction false} RoomBounds(ns: seq<Node>, out: nat)
    requires Room(ns, out) && out <= MAX_RECURSIVE_ENTRIES
    ensures out + LeafCount(ns) <= MAX_RECURSIVE_ENTRIES
  {
    if ns != [] {
      RoomBounds(ns[..|ns| - 1], out);
      NodeRoomBounds(ns[|ns| - 1], out + LeafCount(ns[..|ns| - 1]));
    }
  }

  lemma {:induction false} NodeRoomBounds(n: Node, out: nat)
    requires NodeRoom(n, out) && out <= MAX_RECURSIVE_ENTRIES
    ensures out + NodeCount(n) <= MAX_RECURSIVE_ENTRIES
  {
    if n.Nested? {
      RoomBounds(n.tree.nodes, out);
    }
  }

  /** The last entry met is a leaf. */
  predicate EndsInLeaf(ns: seq<Node>) {
    ns != [] && NodeEndsInLeaf(ns[|ns| - 1])
  }

  predicate NodeEndsInLeaf(n: Node) {
    n.Leaf? || EndsInLeaf(n.tree.nodes)
  }

  /** The output may reach the maximum only with the very last entry. */
  predicate CountFits(count: nat, endsInLeaf: bool) {
    if endsInLeaf then count <= 100_000 else count < 100_000
  }

  /** The check before each entry amounts to one comparison of the final count. */
  lemma {:induction false} RoomIff(ns: seq<Node>, out: nat)
    ensures Room(ns, out) <==> ns == [] || CountFits(out + LeafCount(ns), EndsInLeaf(ns))
    ensures EndsInLeaf(ns) ==> LeafCount(ns) > 0
  {
    if ns != [] {
      RoomIff(ns[..|ns| - 1], out);
      NodeRoomIff(ns[|ns| - 1], out + LeafCount(ns[..|ns| - 1]));
    }
  }

  lemma {:induction false} NodeRoomIff(n: Node, out: nat)
    ensures NodeRoom(n, out) <==> out < MAX_RECURSIVE_ENTRIES && CountFits(out + NodeCount(n), NodeEndsInLeaf(n))
    ensures NodeEndsInLeaf(n) ==> NodeCount(n) > 0
  {
    if n.Nested? {
      RoomIff(n.tree.nodes, out);
    }
  }

  lemma {:induction false} FlattenedBytes(ns: seq<Node>, prefix: string)
    ensures T.PayloadBytes(Flatten(ns, prefix)) <= TotalBytes(ns)
    decreases ns
  {
    if ns != [] {
      var init, n := ns[..|ns| - 1], ns[|ns| - 1];
      FlattenedBytes(init, prefix);
      FlattenedNodeBytes(n, prefix);
      T.PayloadAppend(Flatten(init, prefix), FlattenNode(n, prefix));
    }
  }

  lemma {:induction false} FlattenedNodeBytes(n: Node, prefix: string)
    ensures T.PayloadBytes(FlattenNode(n, prefix)) <= NodeBytes(n)
    decreases n
  {
    if n.Nested? {
      FlattenedBytes(n.tree.nodes, JoinName(prefix, n.entry.name));
    }
  }

  // ---------------------------------------------------------------- entries

  lemma WholeEntriesAppend(a: seq<ArchiveEntry>, b: seq<ArchiveEntry>)
    requires WholeEntries(a) && WholeEntries(b)
    ensures WholeEntries(a + b)
  {
  }

  lemma LeafOk(e: ArchiveEntry, prefix: string)
    requires T.EntryOk(e) && PrefixOk(prefix)
    ensures WholeEntries(FlattenNode(Leaf(e), prefix)) && ValidName(JoinName(prefix, e.name))
  {
    JoinedNameOk(prefix, e.name);
  }

  predicate PrefixOk(prefix: string) {
    prefix == "" || ValidName(prefix)
  }

  lemma JoinedNameOk(prefix: string, name: string)
    requires PrefixOk(prefix) && ValidName(name)
    ensures ValidName(JoinName(prefix, name))
  {
    if prefix != "" {
      JoinedNameIsValid(prefix, name);
    }
  }

  /** Layers hold whole entries under safe names. */
  ghost predicate OpensWhole(o: Opener) {
    forall data {:trigger o.open(data)} :: o.open(data).Ok? ==> WholeEntries(o.open(data).value.entries)
  }

  lemma {:induction false} TreeLeavesAreWhole(o: Opener, data: seq<Byte>, depth: nat, prefix: string)
    requires OpensWhole(o) && PrefixOk(prefix) && Unpack(o, data, depth).Ok?
    ensures WholeEntries(Flatten(Unpack(o, data, depth).value.nodes, prefix))
    decreases depth, 2, 0
  {
    LeavesAreWhole(o, o.open(data).value.entries, depth, prefix);
  }

  /** Every leaf is whole and keeps a safe name under a safe prefix. */
  lemma {:induction false} LeavesAreWhole(o: Opener, es: seq<ArchiveEntry>, depth: nat, prefix: string)
    requires OpensWhole(o) && PrefixOk(prefix) && WholeEntries(es) && UnpackNodes(o, es, depth).Ok?
    ensures WholeEntries(Flatten(UnpackNodes(o, es, depth).value, prefix))
    decreases depth, 1, |es|
  {
    if es != [] {
      var init, last := es[..|es| - 1], es[|es| - 1];
      assert T.EntryOk(last) && WholeEntries(init);
      var ns, n := UnpackNodes(o, init, depth).value, UnpackNode(o, last, depth).value;
      LeavesAreWhole(o, init, depth, prefix);
      NodeLeavesAreWhole(o, last, depth, prefix);
      WholeEntriesAppend(Flatten(ns, prefix), FlattenNode(n, prefix));
      MeasuresStep(Account(0, 0, 0), ns, n, prefix);
    }
  }

  lemma {:induction false} NodeLeavesAreWhole(o: Opener, e: ArchiveEntry, depth: nat, prefix: string)
    requires OpensWhole(o) && PrefixOk(prefix) && T.EntryOk(e) && UnpackNode(o, e, depth).Ok?
    ensures WholeEntries(FlattenNode(UnpackNode(o, e, depth).value, prefix))
    decreases depth, 0, 0
  {
    LeafOk(e, prefix);
    if UnpackNode(o, e, depth).value.Nested? {
      TreeLeavesAreWhole(o, e.data, depth - 1, JoinName(prefix, e.name));
    }
  }

  lemma ReadersOpenWhole(f: Readers)
    requires Sound(f)
    ensures OpensWhole(LayerOpener(f))
  {
    forall data | OpenLayer(f, data).Ok? ensures WholeEntries(OpenLayer(f, data).value.entries) {
      LayerCovers(f, data);
    }
  }

  // ---------------------------------------------------------------- names

  predicate Under(es: seq<ArchiveEntry>, path: string) {
    forall i :: 0 <= i < |es| ==> path + "/" <= es[i].name
  }

  lemma UnderIsTransitive(es: seq<ArchiveEntry>, path: string, name: string)
    requires path != "" && Under(es, JoinName(path, name))
    ensures Under(es, path)
  {
    forall i | 0 <= i < |es| ensures path + "/" <= es[i].name {
      var full := path + "/" + name + "/";
      assert full <= es[i].name && path + "/" <= full;
    }
  }

  /** What comes out of an archive lies under the archive's own path. */
  lemma {:induction false} FlattenedUnderParent(ns: seq<Node>, path: string)
    requires path != ""
    ensures Under(Flatten(ns, path), path)
    decreases ns
  {
    if ns != [] {
      FlattenedUnderParent(ns[..|ns| - 1], path);
      NodeUnderParent(ns[|ns| - 1], path);
    }
  }

  lemma {:induction false} NodeUnderParent(n: Node, path: string)
    requires path != ""
    ensures Under(FlattenNode(n, path), path)
    decreases n
  {
    if n.Nested? {
      FlattenedUnderParent(n.tree.nodes, JoinName(path, n.entry.name));
      UnderIsTransitive(FlattenNode(n, path), path, n.entry.name);
    }
  }

  /** A nested archive's files are put under its path when that path is not empty; the files of
      an archive with an empty path keep their own names. */
  lemma NestedUnderPath(e: ArchiveEntry, t: Tree, prefix: string)
    ensures JoinName(prefix, e.name) != "" ==> Under(FlattenNode(Nested(e, t), prefix), JoinName(prefix, e.name))
    ensures JoinName(prefix, e.name) == "" ==> FlattenNode(Nested(e, t), prefix) == Flatten(t.nodes, "")
  {
    if JoinName(prefix, e.name) != "" {
      FlattenedUnderParent(t.nodes, JoinName(prefix, e.name));
    }
  }

  /** The leaves of a nested archive with safe names lie under its path exactly when the path is
      not empty, or there are none. */
  lemma NestedUnderIff(e: ArchiveEntry, t: Tree, prefix: string)
    requires WholeEntries(FlattenNode(Nested(e, t), prefix))
    ensures Under(FlattenNode(Nested(e, t), prefix), JoinName(prefix, e.name)) <==>
      JoinName(prefix, e.name) != "" || LeafCount(t.nodes) == 0
  {
    var es := FlattenNode(Nested(e, t), prefix);
    NestedUnderPath(e, t, prefix);
    if JoinName(prefix, e.name) == "" && es != [] {
      assert T.EntryOk(es[0]) && Relative(es[0].name);
      assert ("" + "/")[0] == '/' && IsSeparator('/');
    }
  }

  // ---------------------------------------------------------------- depth

  /** How many archives lie around the deepest leaf of these nodes. */
  function Height(ns: seq<Node>): nat {
    if ns == [] then 0 else Max(Height(ns[..|ns| - 1]), NodeHeight(ns[|ns| - 1]))
  }

  function NodeHeight(n: Node): nat {
    match n case Leaf(_) => 0 case Nested(_, t) => 1 + Height(t.nodes)
  }

  function Max(a: nat, b: nat): nat {
    if a > b then a else b
  }

  lemma {:induction false} TreeWithinDepth(o: Opener, data: seq<Byte>, depth: nat)
    requires Unpack(o, data, depth).Ok?
    ensures Height(Unpack(o, data, depth).value.nodes) <= depth
    decreases depth, 2, 0
  {
    NodesWithinDepth(o, o.open(data).value.entries, depth);
  }

  lemma {:induction false} NodesWithinDepth(o: Opener, es: seq<ArchiveEntry>, depth: nat)
    requires UnpackNodes(o, es, depth).Ok?
    ensures Height(UnpackNodes(o, es, depth).value) <= depth
    decreases depth, 1, |es|
  {
    if es != [] {
      var init, last := es[..|es| - 1], es[|es| - 1];
      var ns, n := UnpackNodes(o, init, depth).value, UnpackNode(o, last, depth).value;
      NodesWithinDepth(o, init, depth);
      assert (ns + [n])[..|ns|] == ns;
      if n.Nested? {
        TreeWithinDepth(o, last.data, depth - 1);
      }
    }
  }

  // ---------------------------------------------------------------- all together

  /** What a caller may rely on after a successful extraction: at most 100,000 whole files of
      together at most 512 MiB, under names that never climb, from archives nested at most ten
      deep. The bytes counted on all levels are covered by at most 1 GiB of charged output. */
  lemma ExtractionIsBounded(f: Readers, data: seq<Byte>, maxDepth: nat)
    requires Sound(f) && Unpack(LayerOpener(f), data, DepthLimit(maxDepth)).Ok?
    requires TreeFits(Account(0, 0, 0), Unpack(LayerOpener(f), data, DepthLimit(maxDepth)).value)
    ensures var t := Unpack(LayerOpener(f), data, DepthLimit(maxDepth)).value;
            var out := Flatten(t.nodes, "");
            && |out| <= 100_000 && WholeEntries(out)
            && T.PayloadBytes(out) <= TotalBytes(t.nodes) <= 536_870_912
            && TotalBytes(t.nodes) <= t.charge + TotalCharge(t.nodes) <= 1_073_741_824
            && Height(t.nodes) <= 10
  {
    var o, depth := LayerOpener(f), DepthLimit(maxDepth);
    var t := Unpack(o, data, depth).value;
    RoomBounds(t.nodes, 0);
    ReadersOpenWhole(f);
    TreeLeavesAreWhole(o, data, depth, "");
    FlattenedBytes(t.nodes, "");
    ReadersCover(f);
    TreeIsCovered(o, data, depth);
    TreeWithinDepth(o, data, depth);
  }
}

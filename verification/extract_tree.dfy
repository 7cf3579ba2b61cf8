/** What recursive extraction should give (`src/archive/extract.rs`): the tree of nested archives,
    its flattening, and what it costs. */
module ExtractTree {
  import opened Prelude
  import opened Bytes
  import opened Format
  import opened Layers

  const MAX_RECURSIVE_OUTPUT_BYTES: nat := 512 * 1024 * 1024
  const MAX_RECURSIVE_ENTRIES: nat := 100_000
  const MAX_RECURSIVE_DEPTH: nat := 10
  const TOTAL_BUDGET: nat := 1024 * 1024 * 1024

  /** An archive: its entries, each opened if it is an archive itself, and its own charge. */
  datatype Tree = Tree(nodes: seq<Node>, charge: nat)
  datatype Node = Leaf(entry: ArchiveEntry) | Nested(entry: ArchiveEntry, tree: Tree)

  /** How bytes are recognised as an archive, and how an archive is opened. */
  datatype Opener = Opener(looksLikeArchive: seq<Byte> -> bool, open: seq<Byte> -> Result<Layer, ArchiveError>)

  function LayerOpener(f: Readers): Opener {
    Opener(data => f.detect(data) != Unknown, data => OpenLayer(f, data))
  }

  // ---------------------------------------------------------------- unpacking

  function Unpack(o: Opener, data: seq<Byte>, depth: nat): Result<Tree, ArchiveError>
    decreases depth, 2, 0
  {
    match o.open(data)
    case Err(e) => Err(e)
    case Ok(layer) =>
      match UnpackNodes(o, layer.entries, depth)
      case Err(e) => Err(e)
      case Ok(nodes) => Ok(Tree(nodes, layer.charge))
  }

  function UnpackNodes(o: Opener, es: seq<ArchiveEntry>, depth: nat): (r: Result<seq<Node>, ArchiveError>)
    ensures r.Ok? ==> |r.value| == |es|
    decreases depth, 1, |es|
  {
    if es == [] then Ok([])
    else
      match UnpackNodes(o, es[..|es| - 1], depth)
      case Err(e) => Err(e)
      case Ok(before) =>
        match UnpackNode(o, es[|es| - 1], depth)
        case Err(e) => Err(e)
        case Ok(node) => Ok(before + [node])
  }

  /** An entry is opened when there is depth left and its bytes look like any known format. */
  function UnpackNode(o: Opener, e: ArchiveEntry, depth: nat): (r: Result<Node, ArchiveError>)
    ensures r.Ok? ==> r.value.entry == e
    decreases depth, 0, 0
  {
    if depth > 0 && o.looksLikeArchive(e.data) then
      match Unpack(o, e.data, depth - 1)
      case Err(err) => Err(err)
      case Ok(tree) => Ok(Nested(e, tree))
    else
      Ok(Leaf(e))
  }

  // ---------------------------------------------------------------- flattening

  function JoinName(prefix: string, name: string): string {
    if prefix == "" then name else prefix + "/" + name
  }

  function LeafCount(ns: seq<Node>): nat {
    if ns == [] then 0 else LeafCount(ns[..|ns| - 1]) + NodeCount(ns[|ns| - 1])
  }

  function NodeCount(n: Node): nat {
    match n case Leaf(_) => 1 case Nested(_, t) => LeafCount(t.nodes)
  }

  /** The leaves in pre-order, under `/`-joined names. */
  function Flatten(ns: seq<Node>, prefix: string): (r: seq<ArchiveEntry>)
    ensures |r| == LeafCount(ns)
  {
    if ns == [] then [] else Flatten(ns[..|ns| - 1], prefix) + FlattenNode(ns[|ns| - 1], prefix)
  }

  function FlattenNode(n: Node, prefix: string): (r: seq<ArchiveEntry>)
    ensures |r| == NodeCount(n)
  {
    match n
    case Leaf(e) => [ArchiveEntry(JoinName(prefix, e.name), e.size, e.data)]
    case Nested(e, t) => Flatten(t.nodes, JoinName(prefix, e.name))
  }

  // ---------------------------------------------------------------- costs

  /** The bytes of all entries on all levels. */
  function TotalBytes(ns: seq<Node>): nat {
    if ns == [] then 0 else TotalBytes(ns[..|ns| - 1]) + NodeBytes(ns[|ns| - 1])
  }

  function NodeBytes(n: Node): nat {
    |n.entry.data| + match n case Leaf(_) => 0 case Nested(_, t) => TotalBytes(t.nodes)
  }

  /** The charges of the archives nested in the nodes. */
  function TotalCharge(ns: seq<Node>): nat {
    if ns == [] then 0 else TotalCharge(ns[..|ns| - 1]) + NodeCharge(ns[|ns| - 1])
  }

  function NodeCharge(n: Node): nat {
    match n case Leaf(_) => 0 case Nested(_, t) => t.charge + TotalCharge(t.nodes)
  }

  /** Every entry, container or leaf, is met while fewer than the maximum of leaves are out. */
  predicate Room(ns: seq<Node>, out: nat) {
    ns == [] || (Room(ns[..|ns| - 1], out) && NodeRoom(ns[|ns| - 1], out + LeafCount(ns[..|ns| - 1])))
  }

  predicate NodeRoom(n: Node, out: nat) {
    out < MAX_RECURSIVE_ENTRIES && (n.Nested? ==> Room(n.tree.nodes, out))
  }

  /** What an extractor has put out, counted and been charged before it comes to some nodes. */
  datatype Account = Account(out: nat, bytes: nat, charged: nat)

  function After(a: Account, ns: seq<Node>): Account {
    Account(a.out + LeafCount(ns), a.bytes + TotalBytes(ns), a.charged + TotalCharge(ns))
  }

  function AfterNode(a: Account, n: Node): Account {
    Account(a.out + NodeCount(n), a.bytes + NodeBytes(n), a.charged + NodeCharge(n))
  }

  function AfterTree(a: Account, t: Tree): Account {
    After(a.(charged := a.charged + t.charge), t.nodes)
  }

  /** The three limits hold for these nodes on top of what came before. */
  predicate Fits(a: Account, ns: seq<Node>) {
    && Room(ns, a.out)
    && a.bytes + TotalBytes(ns) <= MAX_RECURSIVE_OUTPUT_BYTES
    && a.charged + TotalCharge(ns) <= TOTAL_BUDGET
  }

  predicate NodeFits(a: Account, n: Node) {
    && NodeRoom(n, a.out)
    && a.bytes + NodeBytes(n) <= MAX_RECURSIVE_OUTPUT_BYTES
    && a.charged + NodeCharge(n) <= TOTAL_BUDGET
  }

  predicate TreeFits(a: Account, t: Tree) {
    a.charged + t.charge <= TOTAL_BUDGET && Fits(a.(charged := a.charged + t.charge), t.nodes)
  }

  lemma FitsLast(a: Account, ns: seq<Node>)
    requires ns != []
    ensures Fits(a, ns) <==> Fits(a, ns[..|ns| - 1]) && NodeFits(After(a, ns[..|ns| - 1]), ns[|ns| - 1])
  {
  }

  /** What does not fit never fits again. */
  lemma {:induction false} FitsPrefix(a: Account, ns: seq<Node>, k: nat)
    requires k <= |ns| && Fits(a, ns)
    ensures Fits(a, ns[..k])
    decreases ns
  {
    if k < |ns| {
      FitsLast(a, ns);
      FitsPrefix(a, ns[..|ns| - 1], k);
      assert ns[..|ns| - 1][..k] == ns[..k];
    } else {
      assert ns[..k] == ns;
    }
  }

  lemma {:induction false} UnpackPrefix(o: Opener, es: seq<ArchiveEntry>, depth: nat, k: nat)
    requires k <= |es| && UnpackNodes(o, es, depth).Ok?
    ensures UnpackNodes(o, es[..k], depth) == Ok(UnpackNodes(o, es, depth).value[..k])
    decreases es
  {
    var ns := UnpackNodes(o, es, depth).value;
    if k < |es| {
      var init := es[..|es| - 1];
      UnpackPrefix(o, init, depth, k);
      assert init[..k] == es[..k];
      assert UnpackNodes(o, init, depth).value == ns[..|ns| - 1];
      assert ns[..|ns| - 1][..k] == ns[..k];
    } else {
      assert es[..k] == es && ns[..k] == ns;
    }
  }
}

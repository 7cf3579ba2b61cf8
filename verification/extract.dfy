/** The recursive extractor (`src/archive/extract.rs`): one list of results and two counters
    updated in place through the whole recursion. */
module Extract {
  import opened Prelude
  import opened Bytes
  import opened Format
  import opened Layers
  import opened ExtractTree
  import opened LeafPaths
  import T = Tar
  import Z = Zip

  lemma PayloadNext(es: seq<ArchiveEntry>, i: nat)
    requires i < |es|
    ensures T.PayloadBytes(es[..i + 1]) == T.PayloadBytes(es[..i]) + |es[i].data|
    ensures T.PayloadBytes(es[..i + 1]) <= T.PayloadBytes(es)
    ensures T.PayloadBytes(es[i..]) == |es[i].data| + T.PayloadBytes(es[i + 1..])
  {
    assert es[..i + 1] == es[..i] + [es[i]] && es == es[..i + 1] + es[i + 1..];
    T.PayloadAppend(es[..i], [es[i]]);
    T.PayloadAppend(es[..i + 1], es[i + 1..]);
    assert es[i..][1..] == es[i + 1..];
  }

  lemma {:induction false} ConvertedPrefix(f: Readers, es: seq<Z.ZipEntry>, k: nat)
    requires k <= |es| && ConvertedAll(f, es).Ok?
    ensures ConvertedAll(f, es[..k]).Ok? && ConvertedAll(f, es[..k]).value <= ConvertedAll(f, es).value
    decreases es
  {
    if k < |es| {
      ConvertedPrefix(f, es[..|es| - 1], k);
      assert es[..|es| - 1][..k] == es[..k];
    } else {
      assert es[..k] == es;
    }
  }

  lemma PrefixBytes(a: seq<ArchiveEntry>, b: seq<ArchiveEntry>)
    requires a <= b
    ensures T.PayloadBytes(a) <= T.PayloadBytes(b)
  {
    assert b == a + b[|a|..];
    T.PayloadAppend(a, b[|a|..]);
  }

  /** `o` opens `data` as the readers do, and never for less than it holds. */
  predicate Opens(o: Opener, f: Readers, data: seq<Byte>) {
    && o.looksLikeArchive(data) == (f.detect(data) != Unknown)
    && o.open(data) == OpenLayer(f, data)
    && (o.open(data).Ok? ==> T.PayloadBytes(o.open(data).value.entries) <= o.open(data).value.charge)
  }

  ghost predicate OpensAll(o: Opener, f: Readers) {
    forall data {:trigger Opens(o, f, data)} :: Opens(o, f, data)
  }

  lemma LayersOpen(f: Readers)
    requires Sound(f)
    ensures OpensAll(LayerOpener(f), f)
  {
    forall data ensures Opens(LayerOpener(f), f, data) {
      if OpenLayer(f, data).Ok? {
        LayerCovers(f, data);
      }
    }
  }

  class Extractor {
    const f: Readers
    var out: seq<ArchiveEntry>
    var totalBytes: nat
    var totalDecompressed: nat

    ghost function Tally(): Account
      reads this
    {
      Account(|out|, totalBytes, totalDecompressed)
    }

    constructor (f: Readers)
      ensures this.f == f && out == [] && Tally() == Account(0, 0, 0)
    {
      this.f := f;
      out, totalBytes, totalDecompressed := [], 0, 0;
    }

    /** `DecompressBudget::add`. */
    method Add(bytes: nat) returns (r: Result<(), ArchiveError>)
      modifies this`totalDecompressed
      ensures r.Ok? <==> old(totalDecompressed) + bytes <= 1_073_741_824
      ensures r.Ok? ==> totalDecompressed == old(totalDecompressed) + bytes
      ensures r.Err? ==> r.error == InvalidHeader(0)
    {
      if totalDecompressed + bytes > USIZE_MAX {
        return Err(InvalidHeader(0));
      }
      totalDecompressed := totalDecompressed + bytes;
      if totalDecompressed > TOTAL_BUDGET {
        return Err(InvalidHeader(0));
      }
      return Ok(());
    }

    /** `zip_entry_into_archive_entry`. */
    method ConvertZipEntry(e: Z.ZipEntry) returns (r: Result<ArchiveEntry, ArchiveError>)
      modifies this`totalDecompressed
      ensures r.Ok? <==> Converted(f, e).Ok? && old(totalDecompressed) + |Converted(f, e).value.data| <= TOTAL_BUDGET
      ensures r.Ok? ==> r == Converted(f, e) && totalDecompressed == old(totalDecompressed) + |r.value.data|
    {
      var data: seq<Byte>;
      match e.compression {
        case Stored =>
          data := e.data;
        case Deflated =>
          var inflated := f.inflate(e.data, e.size);
          if inflated.Err? {
            return Err(inflated.error);
          }
          data := inflated.value;
        case Other(_) =>
          return Err(InvalidHeader(0));
      }
      var added := Add(|data|);
      if added.Err? {
        return Err(added.error);
      }
      return Ok(ArchiveEntry(e.name, e.size, data));
    }

    /** Every entry of a zip archive, converted and charged one by one. */
    method ConvertZip(zs: seq<Z.ZipEntry>) returns (r: Result<seq<ArchiveEntry>, ArchiveError>)
      requires totalDecompressed <= TOTAL_BUDGET
      modifies this`totalDecompressed
      ensures r.Ok? <==>
        ConvertedAll(f, zs).Ok? && old(totalDecompressed) + T.PayloadBytes(ConvertedAll(f, zs).value) <= TOTAL_BUDGET
      ensures r.Ok? ==>
        r == ConvertedAll(f, zs) && totalDecompressed == old(totalDecompressed) + T.PayloadBytes(r.value)
    {
      var es: seq<ArchiveEntry> := [];
      for i := 0 to |zs|
        invariant ConvertedAll(f, zs[..i]) == Ok(es)
        invariant totalDecompressed == old(totalDecompressed) + T.PayloadBytes(es) <= TOTAL_BUDGET
      {
        assert zs[..i + 1][..i] == zs[..i];
        var e := ConvertZipEntry(zs[i]);
        ghost var now := ConvertedAll(f, zs[..i + 1]);
        if now.Ok? {
          T.PayloadAppend(es, [Converted(f, zs[i]).value]);
        }
        if e.Err? {
          if ConvertedAll(f, zs).Ok? {
            ConvertedPrefix(f, zs, i + 1);
            PrefixBytes(now.value, ConvertedAll(f, zs).value);
          }
          return Err(e.error);
        }
        es := es + [e.value];
      }
      assert zs[..|zs|] == zs;
      return Ok(es);
    }

    /** Charges a tar archive for its payloads. */
    method ChargeTar(es: seq<ArchiveEntry>) returns (r: Result<(), ArchiveError>)
      requires totalDecompressed <= TOTAL_BUDGET
      modifies this`totalDecompressed
      ensures r.Ok? <==> old(totalDecompressed) + T.PayloadBytes(es) <= TOTAL_BUDGET
      ensures r.Ok? ==> totalDecompressed == old(totalDecompressed) + T.PayloadBytes(es)
    {
      for i := 0 to |es|
        invariant totalDecompressed == old(totalDecompressed) + T.PayloadBytes(es[..i]) <= TOTAL_BUDGET
      {
        PayloadNext(es, i);
        var added := Add(|es[i].data|);
        if added.Err? {
          return added;
        }
      }
      assert es[..|es|] == es;
      return Ok(());
    }

    /** The tar archive inside a compressed stream, charged for the whole stream. */
    method OpenStream(stream: Result<seq<Byte>, ArchiveError>) returns (r: Result<seq<ArchiveEntry>, ArchiveError>)
      modifies this`totalDecompressed
      ensures r.Ok? <==>
        StreamLayer(f, stream).Ok? && old(totalDecompressed) + StreamLayer(f, stream).value.charge <= TOTAL_BUDGET
      ensures r.Ok? ==> r.value == StreamLayer(f, stream).value.entries
      ensures r.Ok? ==> totalDecompressed == old(totalDecompressed) + StreamLayer(f, stream).value.charge
    {
      if stream.Err? {
        return Err(stream.error);
      }
      var added := Add(|stream.value|);
      if added.Err? {
        return Err(added.error);
      }
      return f.tar(stream.value);
    }

    /** `auto_extract_with_budget`: succeeds exactly when the layer opens and its charge still fits. */
    method AutoExtract(data: seq<Byte>) returns (r: Result<seq<ArchiveEntry>, ArchiveError>)
      requires totalDecompressed <= TOTAL_BUDGET
      modifies this`totalDecompressed
      ensures r.Ok? <==>
        OpenLayer(f, data).Ok? && old(totalDecompressed) + OpenLayer(f, data).value.charge <= TOTAL_BUDGET
      ensures r.Ok? ==> r.value == OpenLayer(f, data).value.entries
      ensures r.Ok? ==> totalDecompressed == old(totalDecompressed) + OpenLayer(f, data).value.charge
    {
      match f.detect(data) {
        case Tar =>
          var es := f.tar(data);
          if es.Err? {
            return es;
          }
          var charged := ChargeTar(es.value);
          if charged.Err? {
            return Err(charged.error);
          }
          return es;
        case Gzip =>
          r := OpenStream(f.gunzip(data));
        case Zstd =>
          r := OpenStream(f.unzstd(data));
        case Zip =>
          var zs := f.zip(data);
          if zs.Err? {
            return Err(zs.error);
          }
          r := ConvertZip(zs.value);
        case _ =>
          return Err(InvalidHeader(0));
      }
    }

    /** One turn of the loop over a layer: checks the limits, then opens the entry or puts it out.
        `pending` bytes of entries are still waiting in the frames of the recursion; together with
        what has been counted they never exceed what has been charged. */
    method TakeEntry(e: ArchiveEntry, depth: nat, prefix: string, ghost pending: nat, ghost o: Opener)
      returns (r: Result<(), ArchiveError>)
      requires OpensAll(o, f) && totalDecompressed <= TOTAL_BUDGET && totalBytes <= MAX_RECURSIVE_OUTPUT_BYTES
      requires totalBytes + |e.data| + pending <= totalDecompressed
      modifies this
      ensures r.Ok? <==> UnpackNode(o, e, depth).Ok? && NodeFits(old(Tally()), UnpackNode(o, e, depth).value)
      ensures r.Ok? ==> var n := UnpackNode(o, e, depth).value;
                        && out == old(out) + FlattenNode(n, prefix)
                        && Tally() == AfterNode(old(Tally()), n)
                        && totalBytes + pending <= totalDecompressed
      decreases depth, 0
    {
      if |out| >= MAX_RECURSIVE_ENTRIES {
        return Err(InvalidHeader(0));
      }
      assert totalBytes + |e.data| <= USIZE_MAX; // so the checked addition never fails
      totalBytes := totalBytes + |e.data|;
      if totalBytes > MAX_RECURSIVE_OUTPUT_BYTES {
        return Err(InvalidHeader(0));
      }
      var name := JoinName(prefix, e.name);
      assert Opens(o, f, e.data);
      NodeOpens(o, e, depth, old(Tally()));
      if depth > 0 && f.detect(e.data) != Unknown {
        r := ExtractInto(e.data, depth - 1, name, pending, o);
      } else {
        out := out + [ArchiveEntry(name, e.size, e.data)];
        return Ok(());
      }
    }

    /** The loop over the entries of a layer. */
    method TakeEntries(es: seq<ArchiveEntry>, depth: nat, prefix: string, ghost pending: nat, ghost o: Opener)
      returns (r: Result<(), ArchiveError>)
      requires OpensAll(o, f) && totalDecompressed <= TOTAL_BUDGET && totalBytes <= MAX_RECURSIVE_OUTPUT_BYTES
      requires totalBytes + T.PayloadBytes(es) + pending <= totalDecompressed
      modifies this
      ensures r.Ok? <==> UnpackNodes(o, es, depth).Ok? && Fits(old(Tally()), UnpackNodes(o, es, depth).value)
      ensures r.Ok? ==> var ns := UnpackNodes(o, es, depth).value;
                        && out == old(out) + Flatten(ns, prefix)
                        && Tally() == After(old(Tally()), ns)
                        && totalBytes + pending <= totalDecompressed
      decreases depth, 1
    {
      ghost var a, start := Tally(), out;
      assert es[0..] == es && es[..|es|] == es;
      for i := 0 to |es|
        invariant Taken(o, es[..i], depth, prefix, a, start, out, Tally())
        invariant totalBytes + T.PayloadBytes(es[i..]) + pending <= totalDecompressed
        invariant totalDecompressed <= TOTAL_BUDGET && totalBytes <= MAX_RECURSIVE_OUTPUT_BYTES
      {
        PayloadNext(es, i);
        TakenStep(o, es, depth, prefix, a, start, out, Tally(), i);
        var taken := TakeEntry(es[i], depth, prefix, T.PayloadBytes(es[i + 1..]) + pending, o);
        if taken.Err? {
          return taken;
        }
      }
      return Ok(());
    }

    /** `extract_recursive_into`: succeeds exactly when the whole tree unpacks and fits on top of
        what is already there, and then appends its flattening. */
    method ExtractInto(data: seq<Byte>, depth: nat, prefix: string, ghost pending: nat, ghost o: Opener)
      returns (r: Result<(), ArchiveError>)
      requires OpensAll(o, f) && totalDecompressed <= TOTAL_BUDGET && totalBytes <= MAX_RECURSIVE_OUTPUT_BYTES
      requires totalBytes + pending <= totalDecompressed
      modifies this
      ensures r.Ok? <==> Unpack(o, data, depth).Ok? && TreeFits(old(Tally()), Unpack(o, data, depth).value)
      ensures r.Ok? ==> var t := Unpack(o, data, depth).value;
                        && out == old(out) + Flatten(t.nodes, prefix)
                        && Tally() == AfterTree(old(Tally()), t)
                        && totalBytes + pending <= totalDecompressed
      decreases depth, 2
    {
      assert Opens(o, f, data);
      UnpackOpens(o, data, depth, Tally());
      var layer := AutoExtract(data);
      if layer.Err? {
        return Err(layer.error);
      }
      r := TakeEntries(layer.value, depth, prefix, pending, o);
    }
  }

  /** An opened entry fits exactly when its archive fits on top of the entry's own bytes. */
  lemma NodeOpens(o: Opener, e: ArchiveEntry, depth: nat, a: Account)
    requires a.charged <= TOTAL_BUDGET && a.out < MAX_RECURSIVE_ENTRIES
      && a.bytes + |e.data| <= MAX_RECURSIVE_OUTPUT_BYTES
    ensures var n := UnpackNode(o, e, depth);
            if depth > 0 && o.looksLikeArchive(e.data) then
              var t, b := Unpack(o, e.data, depth - 1), a.(bytes := a.bytes + |e.data|);
              && (n.Ok? <==> t.Ok?)
              && (t.Ok? ==> n.value == Nested(e, t.value) && AfterNode(a, n.value) == AfterTree(b, t.value))
              && (t.Ok? ==> (NodeFits(a, n.value) <==> TreeFits(b, t.value)))
            else
              && n == Ok(Leaf(e)) && NodeFits(a, n.value)
              && AfterNode(a, n.value) == Account(a.out + 1, a.bytes + |e.data|, a.charged)
  {
  }

  /** A tree fits exactly when its own charge does and its nodes fit on top of that. */
  lemma UnpackOpens(o: Opener, data: seq<Byte>, depth: nat, a: Account)
    ensures var layer, t := o.open(data), Unpack(o, data, depth);
            if layer.Err? then t.Err?
            else
              var es, b := layer.value.entries, a.(charged := a.charged + layer.value.charge);
              && (t.Ok? <==> UnpackNodes(o, es, depth).Ok?)
              && (t.Ok? ==> t.value == Tree(UnpackNodes(o, es, depth).value, layer.value.charge))
              && (t.Ok? ==>
                    TreeFits(a, t.value)
                    == (b.charged <= TOTAL_BUDGET && Fits(b, UnpackNodes(o, es, depth).value)))
              && (t.Ok? ==> AfterTree(a, t.value) == After(b, t.value.nodes))
  {
  }

  lemma MeasuresStep(a: Account, ns: seq<Node>, n: Node, prefix: string)
    ensures After(a, ns + [n]) == AfterNode(After(a, ns), n)
    ensures Flatten(ns + [n], prefix) == Flatten(ns, prefix) + FlattenNode(n, prefix)
  {
    assert (ns + [n])[..|ns|] == ns;
  }

  /** Some entries have been unpacked, within the limits, and put out and counted. */
  predicate Taken(o: Opener, es: seq<ArchiveEntry>, depth: nat, prefix: string, a: Account, start: seq<ArchiveEntry>,
                  out: seq<ArchiveEntry>, tally: Account)
  {
    && Unpacks(o, es, depth, a)
    && var ns := UnpackNodes(o, es, depth).value;
       out == start + Flatten(ns, prefix) && tally == After(a, ns)
  }

  predicate Unpacks(o: Opener, es: seq<ArchiveEntry>, depth: nat, a: Account) {
    UnpackNodes(o, es, depth).Ok? && Fits(a, UnpackNodes(o, es, depth).value)
  }

  lemma UnpacksPrefix(o: Opener, es: seq<ArchiveEntry>, depth: nat, a: Account, k: nat)
    requires k <= |es| && Unpacks(o, es, depth, a)
    ensures Unpacks(o, es[..k], depth, a)
  {
    UnpackPrefix(o, es, depth, k);
    FitsPrefix(a, UnpackNodes(o, es, depth).value, k);
  }

  /** One more entry unpacks and fits along with the others exactly when it does on top of them. */
  lemma UnpacksLast(o: Opener, es: seq<ArchiveEntry>, depth: nat, a: Account, ns: seq<Node>)
    requires es != [] && UnpackNodes(o, es[..|es| - 1], depth) == Ok(ns) && Fits(a, ns)
    ensures var n := UnpackNode(o, es[|es| - 1], depth);
            && (Unpacks(o, es, depth, a) <==> n.Ok? && NodeFits(After(a, ns), n.value))
            && (n.Ok? ==> UnpackNodes(o, es, depth) == Ok(ns + [n.value]))
  {
    var n := UnpackNode(o, es[|es| - 1], depth);
    if n.Ok? {
      assert (ns + [n.value])[..|ns|] == ns;
      FitsLast(a, ns + [n.value]);
    }
  }

  lemma TakenMore(o: Opener, es: seq<ArchiveEntry>, depth: nat, prefix: string, a: Account, start: seq<ArchiveEntry>,
                  ns: seq<Node>, n: Node)
    requires es != [] && UnpackNodes(o, es, depth) == Ok(ns + [n]) && Unpacks(o, es, depth, a)
    ensures Taken(o, es, depth, prefix, a, start, start + Flatten(ns, prefix) + FlattenNode(n, prefix),
                  AfterNode(After(a, ns), n))
  {
    MeasuresStep(a, ns, n, prefix);
    assert start + (Flatten(ns, prefix) + FlattenNode(n, prefix))
      == start + Flatten(ns, prefix) + FlattenNode(n, prefix);
  }

  /** One more entry: it is taken too exactly when it unpacks and fits, and when it does not,
      neither does the whole layer. */
  lemma TakenStep(o: Opener, es: seq<ArchiveEntry>, depth: nat, prefix: string, a: Account, start: seq<ArchiveEntry>,
                  out: seq<ArchiveEntry>, tally: Account, i: nat)
    requires i < |es| && Taken(o, es[..i], depth, prefix, a, start, out, tally)
    ensures var n := UnpackNode(o, es[i], depth);
            if n.Ok? && NodeFits(tally, n.value) then
              Taken(o, es[..i + 1], depth, prefix, a, start, out + FlattenNode(n.value, prefix),
                    AfterNode(tally, n.value))
            else
              !Unpacks(o, es, depth, a)
  {
    var more := es[..i + 1];
    assert more[..|more| - 1] == es[..i] && more[|more| - 1] == es[i];
    var ns, n := UnpackNodes(o, es[..i], depth).value, UnpackNode(o, es[i], depth);
    UnpacksLast(o, more, depth, a, ns);
    if n.Ok? && NodeFits(tally, n.value) {
      TakenMore(o, more, depth, prefix, a, start, ns, n.value);
    } else if Unpacks(o, es, depth, a) {
      UnpacksPrefix(o, es, depth, a, i + 1);
    }
  }

  /** `auto_extract_recursive`: succeeds exactly when the archive unpacks to depth
      `min(maxDepth, 10)` within the three limits, and returns its flattening. */
  method AutoExtractRecursive(f: Readers, data: seq<Byte>, maxDepth: nat)
    returns (r: Result<seq<ArchiveEntry>, ArchiveError>)
    requires Sound(f)
    ensures var t := Unpack(LayerOpener(f), data, if maxDepth < 10 then maxDepth else 10);
            && (r.Ok? <==> t.Ok? && TreeFits(Account(0, 0, 0), t.value))
            && (r.Ok? ==> r.value == Flatten(t.value.nodes, ""))
            && (r.Ok? ==> AllNamed(r.value, PlacedIn(t.value.nodes, [])))
  {
    LayersOpen(f);
    var extractor := new Extractor(f);
    var done := extractor.ExtractInto(data, DepthLimit(maxDepth), "", 0, LayerOpener(f));
    if done.Err? {
      return Err(done.error);
    }
    OutputIsNamed(Unpack(LayerOpener(f), data, DepthLimit(maxDepth)).value.nodes);
    return Ok(extractor.out);
  }

  function DepthLimit(maxDepth: nat): nat {
    if maxDepth < MAX_RECURSIVE_DEPTH then maxDepth else MAX_RECURSIVE_DEPTH
  }
}

/**
 The names of extracted files, told from the tree of archives: the names of the archives a file
 lies in and its own name, with single slashes between them.
 */
module LeafPaths {
  import opened Bytes
  import opened ExtractTree

  /** A file on some level, with the names met on the way to it, the outermost first. */
  datatype Placed = Placed(names: seq<string>, size: nat, data: seq<Byte>)

  /** The files of a forest in the order in which they are met. `above` are the names of the
      archives that enclose it. */
  function PlacedIn(ns: seq<Node>, above: seq<string>): seq<Placed> {
    if ns == [] then [] else PlacedIn(ns[..|ns| - 1], above) + PlacedAt(ns[|ns| - 1], above)
  }

  function PlacedAt(n: Node, above: seq<string>): seq<Placed> {
    var names := above + [n.entry.name];
    match n
    case Leaf(e) => [Placed(names, e.size, e.data)]
    case Nested(_, t) => PlacedIn(t.nodes, names)
  }

  /** `a/b/c`. */
  function Slashed(names: seq<string>): string {
    if names == [] then ""
    else if |names| == 1 then names[0]
    else names[0] + "/" + Slashed(names[1..])
  }

  /** Archives without a name are skipped as long as nothing with a name encloses them. */
  function FromFirstNamed(names: seq<string>): seq<string> {
    if names != [] && names[0] == "" then FromFirstNamed(names[1..]) else names
  }

  function FullPath(names: seq<string>): string {
    Slashed(FromFirstNamed(names))
  }

  /** The entry is the placed file, under its full path. */
  predicate Names(e: ArchiveEntry, p: Placed) {
    e.name == FullPath(p.names) && e.size == p.size && e.data == p.data
  }

  /** The entries are the placed files one by one, each under its full path. */
  predicate AllNamed(es: seq<ArchiveEntry>, ps: seq<Placed>) {
    |es| == |ps| && forall i :: 0 <= i < |es| ==> Names(es[i], ps[i])
  }

  lemma {:induction false} SlashedMore(names: seq<string>, name: string)
    requires names != []
    ensures Slashed(names + [name]) == Slashed(names) + "/" + name
  {
    assert (names + [name])[1..] == names[1..] + [name];
    if |names| > 1 {
      SlashedMore(names[1..], name);
      assert names[0] + "/" + (Slashed(names[1..]) + "/" + name) == names[0] + "/" + Slashed(names[1..]) + "/" + name;
    } else {
      assert Slashed([name]) == name;
    }
  }

  lemma {:induction false} FromFirstNamedMore(names: seq<string>, name: string)
    ensures var some := FromFirstNamed(names);
      FromFirstNamed(names + [name]) == if some == [] then FromFirstNamed([name]) else some + [name]
    ensures FromFirstNamed(names) != [] ==> FromFirstNamed(names)[0] != ""
  {
    if names == [] {
      assert names + [name] == [name];
    } else {
      assert (names + [name])[1..] == names[1..] + [name];
      FromFirstNamedMore(names[1..], name);
    }
  }

  /** One name more: after a slash, unless nothing with a name comes before it. */
  lemma FullPathMore(names: seq<string>, name: string)
    ensures FullPath(names + [name]) == if FullPath(names) == "" then name else FullPath(names) + "/" + name
  {
    var some := FromFirstNamed(names);
    FromFirstNamedMore(names, name);
    if some == [] {
      assert [name][1..] == [];
    } else {
      SlashedMore(some, name);
      assert Slashed(some) != "";
    }
  }

  /** What extraction puts out for a forest are its files under their full paths. */
  lemma {:induction false} FlattenedAreNamed(ns: seq<Node>, above: seq<string>)
    ensures AllNamed(Flatten(ns, FullPath(above)), PlacedIn(ns, above))
    decreases ns, 0
  {
    if ns != [] {
      FlattenedAreNamed(ns[..|ns| - 1], above);
      FlattenedNodeIsNamed(ns[|ns| - 1], above);
    }
  }

  lemma {:induction false} FlattenedNodeIsNamed(n: Node, above: seq<string>)
    ensures AllNamed(FlattenNode(n, FullPath(above)), PlacedAt(n, above))
    decreases n, 0
  {
    FullPathMore(above, n.entry.name);
    if n.Nested? {
      FlattenedAreNamed(n.tree.nodes, above + [n.entry.name]);
    }
  }

  /** The whole output of an extraction. */
  lemma OutputIsNamed(ns: seq<Node>)
    ensures AllNamed(Flatten(ns, ""), PlacedIn(ns, []))
  {
    FlattenedAreNamed(ns, []);
  }
}

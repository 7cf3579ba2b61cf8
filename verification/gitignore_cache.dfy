/**
 The ignore-chain cache of `src/worker.rs` (`get_cached_gitignore`,
 `gitignore_for_path_local`).

 One key holds either a bare node, left behind while a deeper chain was being built, or a
 finished chain with the exclude file at its head. The module settles exactly when a
 cached answer is the answer of a freshly built chain.
 */
module GitignoreCaching {
  import opened Prelude
  import opened Gitignore

  type Entries = map<(Path, Path), Node>

  // ---------------------------------------------------------------- one lookup

  /** The loop over the directories of a chain: reuse cached nodes, build the others. */
  function Build(rules: Rules, c: Entries, root: Path, dirs: seq<Path>, parent: Option<Node>)
    : (Entries, Result<Option<Node>, Source>)
    decreases dirs
  {
    if dirs == [] then
      (c, Ok(parent))
    else if (root, dirs[0]) in c then
      Build(rules, c, root, dirs[1..], Some(c[(root, dirs[0])]))
    else if !rules.readable(DirRules(dirs[0])) then
      (c, Err(DirRules(dirs[0])))
    else
      var node := Node(DirRules(dirs[0]), parent);
      Build(rules, c[(root, dirs[0]) := node], root, dirs[1..], Some(node))
  }

  function DirsOf(rules: Rules, root: Path, terminal: Path): seq<Path> {
    Prefixes(Spine(root, terminal), |rules.EffectiveRoot(root)|)
  }

  /** The tail of a lookup: put the exclude file at the head and store the chain. */
  function Finish(rules: Rules, c: Entries, root: Path, terminal: Path, parent: Option<Node>)
    : (Entries, Result<Node, Source>)
  {
    match rules.gitDir(root)
    case None =>
      var node := if parent.Some? then parent.value else Node(NoRules, None);
      (c[(root, terminal) := node], Ok(node))
    case Some(g) =>
      if !rules.readable(Exclude(g)) then
        (c, Err(Exclude(g)))
      else
        var node := Node(Exclude(g), parent);
        (c[(root, terminal) := node], Ok(node))
  }

  function Lookup(rules: Rules, c: Entries, root: Path, terminal: Path)
    : (Entries, Result<Node, Source>)
  {
    if (root, terminal) in c then
      (c, Ok(c[(root, terminal)]))
    else
      var built := Build(rules, c, root, DirsOf(rules, root, terminal), None);
      match built.1
      case Err(s) => (built.0, Err(s))
      case Ok(parent) => Finish(rules, built.0, root, terminal, parent)
  }

  /** The cache object both engines keep for the length of a walk. */
  class GitignoreCache {
    var entries: Entries

    constructor ()
      ensures entries == map[]
    {
      entries := map[];
    }

    method Get(rules: Rules, walkRoot: Path, path: Path, isDir: bool) returns (r: Result<Node, Source>)
      modifies this
      ensures (entries, r) == Lookup(rules, old(entries), walkRoot, Terminal(walkRoot, path, isDir))
    {
      var terminal := Terminal(walkRoot, path, isDir);
      var key := (walkRoot, terminal);
      if key in entries {
        return Ok(entries[key]);
      }
      var dirs := AncestorDirsInOrder(walkRoot, terminal, rules.RepoRoot(walkRoot));
      assert dirs == DirsOf(rules, walkRoot, terminal);
      var parent: Option<Node> := None;
      var i := 0;
      assert dirs[0..] == dirs;
      while i < |dirs|
        invariant 0 <= i <= |dirs|
        invariant Build(rules, entries, walkRoot, dirs[i..], parent)
               == Build(rules, old(entries), walkRoot, dirs, None)
      {
        var d := dirs[i];
        assert dirs[i..][1..] == dirs[i + 1..];
        if (walkRoot, d) in entries {
          parent := Some(entries[(walkRoot, d)]);
        } else {
          if !rules.readable(DirRules(d)) {
            return Err(DirRules(d));
          }
          var node := Node(DirRules(d), parent);
          entries := entries[(walkRoot, d) := node];
          parent := Some(node);
        }
        i := i + 1;
      }
      var git := rules.gitDir(walkRoot);
      if git.Some? {
        if !rules.readable(Exclude(git.value)) {
          return Err(Exclude(git.value));
        }
        parent := Some(Node(Exclude(git.value), parent));
      }
      var node := if parent.Some? then parent.value else Node(NoRules, None);
      entries := entries[key := node];
      return Ok(node);
    }
  }

  // ---------------------------------------------------------------- agreement with a fresh chain

  /** A lookup answers like an uncached chain: it fails on the same file or, when that
      chain can be read, decides alike whatever the rules of the files say. */
  ghost predicate Agrees(rules: Rules, root: Path, terminal: Path, answer: Result<Node, Source>) {
    match Fault(rules, root, terminal)
    case Some(s) => answer == Err(s)
    case None =>
      answer.Ok? &&
      forall judge: Source -> Verdict ::
        Decide(Chain(answer.value), judge) == Decide(FreshChain(rules, root, terminal), judge)
  }

  /** One request: the walk root and the terminal directory it asks for. */
  datatype Request = Request(root: Path, terminal: Path)

  function Replay(rules: Rules, h: seq<Request>): Entries {
    if h == [] then
      map[]
    else
      var last := h[|h| - 1];
      Lookup(rules, Replay(rules, h[..|h| - 1]), last.root, last.terminal).0
  }

  predicate Touches(q: Request, root: Path, d: Path) {
    q.root == root && d <= q.terminal
  }

  /** The terminal of the first request in `h` whose chain passes through directory `d` of `root`. */
  function FirstTouch(h: seq<Request>, root: Path, d: Path): Option<Path> {
    if h == [] then
      None
    else
      var earlier := FirstTouch(h[..|h| - 1], root, d);
      var last := h[|h| - 1];
      if earlier.Some? then earlier
      else if Touches(last, root, d) then Some(last.terminal)
      else None
  }

  lemma {:induction false} FirstTouchMeans(h: seq<Request>, root: Path, d: Path)
    ensures FirstTouch(h, root, d).None? <==> forall i :: 0 <= i < |h| ==> !Touches(h[i], root, d)
    ensures FirstTouch(h, root, d).Some? ==>
      exists i :: 0 <= i < |h| && Touches(h[i], root, d) && h[i].terminal == FirstTouch(h, root, d).value
                  && forall j :: 0 <= j < i ==> !Touches(h[j], root, d)
  {
    if h != [] {
      var n := |h| - 1;
      FirstTouchMeans(h[..n], root, d);
      assert forall j :: 0 <= j < n ==> h[..n][j] == h[j];
    }
  }

  lemma FirstTouchAppend(h: seq<Request>, q: Request, root: Path, d: Path)
    ensures FirstTouch(h + [q], root, d)
         == if FirstTouch(h, root, d).Some? then FirstTouch(h, root, d)
            else if Touches(q, root, d) then Some(q.terminal) else None
  {
    assert (h + [q])[..|h|] == h;
  }

  lemma {:induction false} FirstTouchAbove(h: seq<Request>, root: Path, d: Path, t: Path)
    requires d <= t && FirstTouch(h, root, t).Some?
    ensures FirstTouch(h, root, d).Some?
  {
    FirstTouchMeans(h, root, t);
    FirstTouchMeans(h, root, d);
  }

  /** Every directory from the effective root down to `d` has a readable ignore file. */
  predicate Readable(rules: Rules, root: Path, d: Path) {
    forall j :: |rules.EffectiveRoot(root)| <= j <= |d| ==> rules.readable(DirRules(d[..j]))
  }

  predicate ExcludeReadable(rules: Rules, root: Path) {
    rules.gitDir(root).Some? ==> rules.readable(Exclude(rules.gitDir(root).value))
  }

  lemma FaultMeans(rules: Rules, root: Path, d: Path)
    requires root <= d
    ensures Fault(rules, root, d).None? <==> Readable(rules, root, d) && ExcludeReadable(rules, root)
    ensures Readable(rules, root, d) && !ExcludeReadable(rules, root) ==>
              Fault(rules, root, d) == Some(Exclude(rules.gitDir(root).value))
  {
    var lo := |rules.EffectiveRoot(root)|;
    var files := ReadOrder(rules, root, d);
    if Readable(rules, root, d) {
      if !ExcludeReadable(rules, root) {
        FirstUnreadableAt(rules, files, |d| - lo + 1);
      }
    } else {
      var j :| lo <= j <= |d| && !rules.readable(DirRules(d[..j]));
      assert files[j - lo] == DirRules(d[..j]);
    }
  }

  /** The shallowest unreadable directory is what an uncached build fails on. */
  lemma FaultAt(rules: Rules, root: Path, d: Path, j: nat)
    requires root <= d && |rules.EffectiveRoot(root)| <= j <= |d| && !rules.readable(DirRules(d[..j]))
    requires j > |rules.EffectiveRoot(root)| ==> Readable(rules, root, d[..j - 1])
    ensures Fault(rules, root, d) == Some(DirRules(d[..j])) && !Readable(rules, root, d)
  {
    var lo := |rules.EffectiveRoot(root)|;
    var files := ReadOrder(rules, root, d);
    forall i | 0 <= i < j - lo ensures rules.readable(files[i]) {
      assert d[..lo + i] == d[..j - 1][..lo + i];
    }
    FirstUnreadableAt(rules, files, j - lo);
  }

  // ---------------------------------------------------------------- what the cache holds

  /** The chain with every exclude node taken out. */
  function Erase(chain: seq<Source>): seq<Source> {
    if chain == [] then []
    else (if chain[0].Exclude? then [] else [chain[0]]) + Erase(chain[1..])
  }

  predicate GoodChain(rules: Rules, root: Path, d: Path, chain: seq<Source>)
    requires |rules.EffectiveRoot(root)| <= |d|
  {
    Erase(chain) == Up(d, |rules.EffectiveRoot(root)|) &&
    forall s :: s in chain && s.Exclude? ==> rules.gitDir(root) == Some(s.gitDir)
  }

  /** `d` lies on the line of directories a request under `root` can pass through. */
  predicate OnLine(rules: Rules, root: Path, d: Path) {
    |rules.EffectiveRoot(root)| <= |d| && (root <= d || d <= root)
  }

  type Goodness = (Path, Path, Node) -> bool

  ghost predicate Sound(c: Entries, good: Goodness) {
    forall root, d :: (root, d) in c ==> good(root, d, c[(root, d)])
  }

  /** Whether the cached chain of `d` is a finished one after the requests `h`. */
  predicate Finished(rules: Rules, h: seq<Request>, root: Path, d: Path) {
    rules.gitDir(root).Some? && FirstTouch(h, root, d) == Some(d) && ExcludeReadable(rules, root)
  }

  /** A key below the walk root is present once a request has passed through it. */
  ghost predicate Present(rules: Rules, h: seq<Request>, c: Entries, root: Path, d: Path) {
    (root, d) in c <==> FirstTouch(h, root, d).Some? && Readable(rules, root, d)
  }

  ghost predicate HeadTracks(rules: Rules, h: seq<Request>, c: Entries, root: Path, d: Path) {
    (root, d) in c ==> (c[(root, d)].local.Exclude? <==> Finished(rules, h, root, d))
  }

  ghost predicate Tracks(rules: Rules, h: seq<Request>, c: Entries) {
    forall root, d | root <= d :: Present(rules, h, c, root, d) && HeadTracks(rules, h, c, root, d)
  }

  /** A bare node over the good chain of the directory above is good. */
  ghost predicate Extends(rules: Rules, root: Path, t: Path, lo: nat, good: Goodness) {
    forall j: nat, parent: Option<Node> | ParentOk(root, t, lo, j, parent, good) && rules.readable(DirRules(t[..j])) ::
      good(root, t[..j], Node(DirRules(t[..j]), parent))
  }

  ghost predicate ParentOk(root: Path, t: Path, lo: nat, j: nat, parent: Option<Node>, good: Goodness) {
    lo <= j <= |t| && if j == lo then parent.None? else parent.Some? && good(root, t[..j - 1], parent.value)
  }

  /** The loop stopped at the unreadable `j`-th directory, after caching those before it. */
  predicate BuildStops(rules: Rules, root: Path, t: Path, k: nat, j: nat,
                       out: (Entries, Result<Option<Node>, Source>)) {
    && k <= j <= |t| && !rules.readable(DirRules(t[..j])) && out.1 == Err(DirRules(t[..j]))
    && forall i :: k <= i < j ==> (root, t[..i]) in out.0
  }

  /** What the directory loop leaves behind, from the `k`-th directory of `t` on. */
  ghost predicate BuildOk(rules: Rules, c: Entries, root: Path, t: Path, k: nat, good: Goodness,
                          out: (Entries, Result<Option<Node>, Source>))
  {
    && Sound(out.0, good)
    && (forall key :: key in c ==> key in out.0 && out.0[key] == c[key])
    && (forall r, d :: (r, d) in out.0 && (r, d) !in c ==>
          r == root && d <= t && k <= |d| && !out.0[(r, d)].local.Exclude?)
    && (out.1.Err? ==> exists j: nat :: BuildStops(rules, root, t, k, j, out))
    && (out.1.Ok? ==> forall i :: k <= i <= |t| ==> (root, t[..i]) in out.0)
    && (out.1.Ok? && k <= |t| ==> out.1.value == Some(out.0[(root, t[..|t|])]))
  }

  /** `Build` from the `k`-th directory of `t` on. */
  function BuildFrom(rules: Rules, c: Entries, root: Path, t: Path, lo: nat, k: nat, parent: Option<Node>)
    : (Entries, Result<Option<Node>, Source>)
    requires lo <= k <= |t| + 1 && lo <= |t|
  {
    Build(rules, c, root, Prefixes(t, lo)[k - lo..], parent)
  }

  lemma BuildStep(rules: Rules, c: Entries, root: Path, t: Path, lo: nat, k: nat, parent: Option<Node>)
    requires lo <= k <= |t| + 1 && lo <= |t|
    ensures BuildFrom(rules, c, root, t, lo, k, parent) ==
      if k == |t| + 1 then
        (c, Ok(parent))
      else if (root, t[..k]) in c then
        BuildFrom(rules, c, root, t, lo, k + 1, Some(c[(root, t[..k])]))
      else if !rules.readable(DirRules(t[..k])) then
        (c, Err(DirRules(t[..k])))
      else
        var node := Node(DirRules(t[..k]), parent);
        BuildFrom(rules, c[(root, t[..k]) := node], root, t, lo, k + 1, Some(node))
  {
    var dirs := Prefixes(t, lo)[k - lo..];
    if k <= |t| {
      assert dirs[0] == t[..k] && dirs[1..] == Prefixes(t, lo)[k + 1 - lo..];
    }
  }

  lemma {:induction false} BuildMeets(rules: Rules, c: Entries, root: Path, t: Path, lo: nat, k: nat,
                                      parent: Option<Node>, good: Goodness)
    requires lo <= k <= |t| + 1 && lo <= |t|
    requires Sound(c, good) && Extends(rules, root, t, lo, good)
    requires if k == lo then parent.None? else parent.Some? && good(root, t[..k - 1], parent.value)
    ensures var out := BuildFrom(rules, c, root, t, lo, k, parent);
      BuildOk(rules, c, root, t, k, good, out) && (k == |t| + 1 ==> out == (c, Ok(parent)))
    decreases |t| + 1 - k
  {
    BuildStep(rules, c, root, t, lo, k, parent);
    if k <= |t| {
      var d := t[..k];
      if (root, d) in c {
        BuildMeets(rules, c, root, t, lo, k + 1, Some(c[(root, d)]), good);
        BuildOkSkip(rules, c, root, t, k, good, BuildFrom(rules, c, root, t, lo, k, parent));
      } else if !rules.readable(DirRules(d)) {
        assert BuildStops(rules, root, t, k, k, (c, Err(DirRules(d))));
      } else {
        var node := Node(DirRules(d), parent);
        BuildMeets(rules, c[(root, d) := node], root, t, lo, k + 1, Some(node), good);
        BuildOkAdd(rules, c, root, t, k, node, good, BuildFrom(rules, c, root, t, lo, k, parent));
      }
    }
  }

  /** A directory that was cached already adds nothing of its own. */
  lemma BuildOkSkip(rules: Rules, c: Entries, root: Path, t: Path, k: nat, good: Goodness,
                    out: (Entries, Result<Option<Node>, Source>))
    requires k <= |t| && (root, t[..k]) in c
    requires BuildOk(rules, c, root, t, k + 1, good, out)
    requires k == |t| ==> out == (c, Ok(Some(c[(root, t[..k])])))
    ensures BuildOk(rules, c, root, t, k, good, out)
  {
    if out.1.Err? {
      var j: nat :| BuildStops(rules, root, t, k + 1, j, out);
      assert BuildStops(rules, root, t, k, j, out);
    }
  }

  /** A directory whose bare node was just built. */
  lemma BuildOkAdd(rules: Rules, c: Entries, root: Path, t: Path, k: nat, node: Node, good: Goodness,
                   out: (Entries, Result<Option<Node>, Source>))
    requires k <= |t| && (root, t[..k]) !in c && !node.local.Exclude?
    requires BuildOk(rules, c[(root, t[..k]) := node], root, t, k + 1, good, out)
    requires k == |t| ==> out == (c[(root, t[..k]) := node], Ok(Some(node)))
    ensures BuildOk(rules, c, root, t, k, good, out)
  {
    var c2 := c[(root, t[..k]) := node];
    assert (root, t[..k]) in c2 && out.0[(root, t[..k])] == node;
    forall key | key in c
      ensures key in out.0 && out.0[key] == c[key]
    {
      assert key in c2 && c2[key] == c[key];
    }
    forall r, d | (r, d) in out.0 && (r, d) !in c
      ensures r == root && d <= t && k <= |d| && !out.0[(r, d)].local.Exclude?
    {
      if (r, d) in c2 {
        assert d == t[..k];
      }
    }
    if out.1.Err? {
      var j: nat :| BuildStops(rules, root, t, k + 1, j, out);
      assert BuildStops(rules, root, t, k, j, out);
    }
  }

  // ---------------------------------------------------------------- the chains are good

  function GoodCached(rules: Rules): Goodness {
    (root, d, node) => OnLine(rules, root, d) && Readable(rules, root, d) && GoodChain(rules, root, d, Chain(node))
  }

  /** Under a walk root, a bare node over a good chain is good. */
  lemma GoodExtends(rules: Rules, root: Path, t: Path)
    requires root <= t
    ensures Extends(rules, root, t, |rules.EffectiveRoot(root)|, GoodCached(rules))
  {
    var lo := |rules.EffectiveRoot(root)|;
    forall j: nat, parent: Option<Node> | ParentOk(root, t, lo, j, parent, GoodCached(rules))
      && rules.readable(DirRules(t[..j]))
      ensures GoodCached(rules)(root, t[..j], Node(DirRules(t[..j]), parent))
    {
      GoodChainStep(rules, root, t, j, parent);
      if j < |root| {
        assert t[..j] == root[..j];
      } else {
        assert root == t[..j][..|root|];
      }
    }
  }

  lemma GoodChainStep(rules: Rules, root: Path, t: Path, j: nat, parent: Option<Node>)
    requires |rules.EffectiveRoot(root)| <= j <= |t| && rules.readable(DirRules(t[..j]))
    requires j == |rules.EffectiveRoot(root)| ==> parent.None?
    requires j > |rules.EffectiveRoot(root)| ==>
      parent.Some? && Readable(rules, root, t[..j - 1]) && GoodChain(rules, root, t[..j - 1], Chain(parent.value))
    ensures Readable(rules, root, t[..j])
    ensures GoodChain(rules, root, t[..j], Chain(Node(DirRules(t[..j]), parent)))
  {
    ReadableStep(rules, root, t, j);
    var d := t[..j];
    if j > |rules.EffectiveRoot(root)| {
      assert d[..|d| - 1] == t[..j - 1];
    }
    ChainGrows(d, |rules.EffectiveRoot(root)|, parent);
  }

  lemma ChainGrows(d: Path, lo: nat, parent: Option<Node>)
    requires lo <= |d|
    requires if |d| == lo then parent.None? else parent.Some? && Erase(Chain(parent.value)) == Up(d[..|d| - 1], lo)
    ensures Erase(Chain(Node(DirRules(d), parent))) == Up(d, lo)
    ensures forall s :: s in Chain(Node(DirRules(d), parent)) && s.Exclude? ==>
              parent.Some? && s in Chain(parent.value)
  {
    var chain := Chain(Node(DirRules(d), parent));
    var rest := if parent.None? then [] else Chain(parent.value);
    assert chain[1..] == rest;
    assert Erase(chain) == [DirRules(d)] + Erase(rest);
  }

  lemma ReadableStep(rules: Rules, root: Path, t: Path, j: nat)
    requires |rules.EffectiveRoot(root)| <= j <= |t| && rules.readable(DirRules(t[..j]))
    requires j > |rules.EffectiveRoot(root)| ==> Readable(rules, root, t[..j - 1])
    ensures Readable(rules, root, t[..j])
  {
    forall i | |rules.EffectiveRoot(root)| <= i <= j ensures rules.readable(DirRules(t[..j][..i])) {
      assert t[..j][..i] == t[..i];
      if i < j {
        assert t[..i] == t[..j - 1][..i];
      }
    }
  }

  // ---------------------------------------------------------------- the cache follows the history

  ghost predicate CacheOk(rules: Rules, h: seq<Request>, c: Entries) {
    Sound(c, GoodCached(rules)) && Tracks(rules, h, c)
  }

  /** One lookup under a walk root keeps the cache in step with the request history. */
  lemma LookupKeepsCacheOk(rules: Rules, h: seq<Request>, c: Entries, root: Path, t: Path)
    requires root <= t && CacheOk(rules, h, c)
    ensures CacheOk(rules, h + [Request(root, t)], Lookup(rules, c, root, t).0)
  {
    if (root, t) in c {
      HitTracks(rules, h, c, root, t);
    } else {
      var lo := |rules.EffectiveRoot(root)|;
      GoodExtends(rules, root, t);
      BuildMeets(rules, c, root, t, lo, lo, None, GoodCached(rules));
      assert Prefixes(t, lo)[0..] == Prefixes(t, lo);
      var built := Build(rules, c, root, Prefixes(t, lo), None);
      forall r, d | r <= d
        ensures Present(rules, h + [Request(root, t)], built.0, r, d)
        ensures !(r == root && d == t) ==> HeadTracks(rules, h + [Request(root, t)], built.0, r, d)
      {
        BuildPresent(rules, h, c, root, t, built, r, d);
        if !(r == root && d == t) {
          BuildHead(rules, h, c, root, t, built, r, d);
        }
      }
      if built.1.Ok? {
        FinishKeeps(rules, h, c, root, t, built);
      } else {
        BuildFault(rules, c, root, t, built);
      }
    }
  }

  lemma HitTracks(rules: Rules, h: seq<Request>, c: Entries, root: Path, t: Path)
    requires root <= t && Tracks(rules, h, c) && (root, t) in c
    ensures Tracks(rules, h + [Request(root, t)], c)
  {
    assert Present(rules, h, c, root, t);
    forall r, d | r <= d
      ensures Present(rules, h + [Request(root, t)], c, r, d) && HeadTracks(rules, h + [Request(root, t)], c, r, d)
    {
      assert Present(rules, h, c, r, d) && HeadTracks(rules, h, c, r, d);
      FirstTouchAppend(h, Request(root, t), r, d);
      if Touches(Request(root, t), r, d) {
        FirstTouchAbove(h, root, d, t);
      }
    }
  }

  lemma BuildPresent(rules: Rules, h: seq<Request>, c: Entries, root: Path, t: Path,
                     built: (Entries, Result<Option<Node>, Source>), r: Path, d: Path)
    requires root <= t && CacheOk(rules, h, c) && r <= d
    requires BuildOk(rules, c, root, t, |rules.EffectiveRoot(root)|, GoodCached(rules), built)
    ensures Present(rules, h + [Request(root, t)], built.0, r, d)
  {
    FirstTouchAppend(h, Request(root, t), r, d);
    assert Present(rules, h, c, r, d);
    if (r, d) in built.0 {
      assert GoodCached(rules)(r, d, built.0[(r, d)]);
    }
    if Touches(Request(root, t), r, d) && Readable(rules, r, d) {
      assert d == t[..|d|] && forall i :: 0 <= i <= |d| ==> d[..i] == t[..i];
      if built.1.Err? {
        var j: nat :| BuildStops(rules, root, t, |rules.EffectiveRoot(root)|, j, built);
        assert |d| < j;
      }
    }
  }

  lemma BuildHead(rules: Rules, h: seq<Request>, c: Entries, root: Path, t: Path,
                  built: (Entries, Result<Option<Node>, Source>), r: Path, d: Path)
    requires root <= t && CacheOk(rules, h, c) && r <= d && !(r == root && d == t)
    requires BuildOk(rules, c, root, t, |rules.EffectiveRoot(root)|, GoodCached(rules), built)
    ensures HeadTracks(rules, h + [Request(root, t)], built.0, r, d)
  {
    FirstTouchAppend(h, Request(root, t), r, d);
    assert Present(rules, h, c, r, d) && HeadTracks(rules, h, c, r, d);
    if (r, d) in built.0 {
      assert GoodCached(rules)(r, d, built.0[(r, d)]);
      if (r, d) in c {
        assert built.0[(r, d)] == c[(r, d)];
      }
    }
  }

  lemma ExcludeHead(rules: Rules, root: Path, t: Path, bare: Node)
    requires rules.gitDir(root).Some? && GoodCached(rules)(root, t, bare)
    ensures GoodCached(rules)(root, t, Node(Exclude(rules.gitDir(root).value), Some(bare)))
  {
    var chain := Chain(Node(Exclude(rules.gitDir(root).value), Some(bare)));
    assert chain[1..] == Chain(bare);
  }

  lemma FinishKeeps(rules: Rules, h: seq<Request>, c: Entries, root: Path, t: Path,
                    built: (Entries, Result<Option<Node>, Source>))
    requires root <= t && CacheOk(rules, h, c) && (root, t) !in c
    requires BuildOk(rules, c, root, t, |rules.EffectiveRoot(root)|, GoodCached(rules), built) && built.1.Ok?
    requires forall r, d | r <= d ::
      && Present(rules, h + [Request(root, t)], built.0, r, d)
      && (!(r == root && d == t) ==> HeadTracks(rules, h + [Request(root, t)], built.0, r, d))
    ensures CacheOk(rules, h + [Request(root, t)], Finish(rules, built.0, root, t, built.1.value).0)
  {
    var h' := h + [Request(root, t)];
    assert t[..|t|] == t && (root, t) in built.0;
    var bare := built.0[(root, t)];
    assert built.1.value == Some(bare) && !bare.local.Exclude?;
    assert GoodCached(rules)(root, t, bare);
    assert Present(rules, h, c, root, t);
    FirstTouchAppend(h, Request(root, t), root, t);
    assert FirstTouch(h', root, t) == Some(t);
    if rules.gitDir(root).Some? && ExcludeReadable(rules, root) {
      ExcludeHead(rules, root, t, bare);
      HeadInsert(rules, h', built.0, root, t, Node(Exclude(rules.gitDir(root).value), Some(bare)));
    } else {
      HeadInsert(rules, h', built.0, root, t, bare);
      assert built.0[(root, t) := bare] == built.0;
    }
  }

  lemma HeadInsert(rules: Rules, h: seq<Request>, c: Entries, root: Path, t: Path, node: Node)
    requires root <= t && (root, t) in c
    requires Sound(c, GoodCached(rules)) && GoodCached(rules)(root, t, node)
    requires forall r, d | r <= d ::
      && Present(rules, h, c, r, d) && (!(r == root && d == t) ==> HeadTracks(rules, h, c, r, d))
    requires node.local.Exclude? <==> Finished(rules, h, root, t)
    ensures CacheOk(rules, h, c[(root, t) := node])
  {
    var c' := c[(root, t) := node];
    forall r, d | r <= d
      ensures Present(rules, h, c', r, d) && HeadTracks(rules, h, c', r, d)
    {
      assert Present(rules, h, c, r, d);
      assert (r, d) in c' <==> (r, d) in c;
    }
  }

  /** Every history of requests under their walk roots leaves the cache in step. */
  lemma {:induction false} ReplayIsOk(rules: Rules, h: seq<Request>)
    requires forall q :: q in h ==> q.root <= q.terminal
    ensures CacheOk(rules, h, Replay(rules, h))
  {
    if h != [] {
      var n := |h| - 1;
      ReplayIsOk(rules, h[..n]);
      assert h[n] in h;
      LookupKeepsCacheOk(rules, h[..n], Replay(rules, h[..n]), h[n].root, h[n].terminal);
      assert h[..n] + [Request(h[n].root, h[n].terminal)] == h;
    }
  }

  // ---------------------------------------------------------------- when a cached answer is right

  /** Once the exclude file has been consulted, meeting it again changes nothing. */
  lemma {:induction false} DecideErased(chain: seq<Source>, judge: Source -> Verdict, g: Path)
    requires forall s :: s in chain && s.Exclude? ==> s.gitDir == g
    requires judge(Exclude(g)) == NoMatch
    ensures Decide(chain, judge) == Decide(Erase(chain), judge)
  {
    if chain != [] {
      assert chain[0] in chain;
      DecideErased(chain[1..], judge, g);
      if chain[0].Exclude? {
        assert chain[0] == Exclude(g);
        assert Erase(chain) == Erase(chain[1..]);
      } else {
        assert Erase(chain) == [chain[0]] + Erase(chain[1..]);
        assert Erase(chain)[1..] == Erase(chain[1..]);
      }
    }
  }

  lemma {:induction false} EraseNothing(chain: seq<Source>)
    requires forall s :: s in chain ==> !s.Exclude?
    ensures Erase(chain) == chain
  {
    if chain != [] {
      assert chain[0] in chain;
      EraseNothing(chain[1..]);
    }
  }

  /** A good chain decides like the fresh one as soon as its head is right. */
  lemma GoodHeadAgrees(rules: Rules, root: Path, t: Path, node: Node, judge: Source -> Verdict)
    requires root <= t && GoodCached(rules)(root, t, node)
    requires rules.gitDir(root).Some? ==> node.local.Exclude?
    ensures Decide(Chain(node), judge) == Decide(FreshChain(rules, root, t), judge)
  {
    var chain, whole := Chain(node), FreshChain(rules, root, t);
    if rules.gitDir(root).None? {
      EraseNothing(chain);
      assert whole == Up(t, |rules.EffectiveRoot(root)|);
    } else {
      var g := rules.gitDir(root).value;
      assert chain[0] in chain;
      assert whole[1..] == Up(t, |rules.EffectiveRoot(root)|);
      assert Erase(chain) == Erase(chain[1..]);
      if judge(Exclude(g)) == NoMatch {
        DecideErased(chain[1..], judge, g);
      }
    }
  }

  /** A bare chain is exposed by rules under which only the exclude file ignores. */
  lemma BareHeadDiffers(rules: Rules, root: Path, t: Path, node: Node)
    requires rules.gitDir(root).Some? && !node.local.Exclude?
    ensures exists judge: Source -> Verdict ::
      Decide(Chain(node), judge) != Decide(FreshChain(rules, root, t), judge)
  {
    var judge: Source -> Verdict := (s: Source) => if s.Exclude? then Ignore else Whitelist;
    assert judge(Exclude(rules.gitDir(root).value)) == Ignore;
    assert Decide(FreshChain(rules, root, t), judge);
    assert !Decide(Chain(node), judge);
  }

  /** What a caller can check before a lookup: nobody passed through the terminal yet, or it was
      asked for before anything below it and the exclude file can be read. */
  predicate AskedInOrder(rules: Rules, h: seq<Request>, root: Path, t: Path) {
    || FirstTouch(h, root, t).None?
    || (FirstTouch(h, root, t) == Some(t) && ExcludeReadable(rules, root))
  }

  /** A lookup after any history of requests answers like a freshly built chain exactly
      when there is no git directory, or a directory on the way is unreadable, or the
      requests came in order. */
  lemma CachedAnswerAgreesIff(rules: Rules, h: seq<Request>, root: Path, t: Path)
    requires root <= t
    requires forall q :: q in h ==> q.root <= q.terminal
    ensures Agrees(rules, root, t, Lookup(rules, Replay(rules, h), root, t).1) <==>
            rules.gitDir(root).None? || !Readable(rules, root, t) || AskedInOrder(rules, h, root, t)
  {
    var c := Replay(rules, h);
    ReplayIsOk(rules, h);
    LookupKeepsCacheOk(rules, h, c, root, t);
    var (c', answer) := Lookup(rules, c, root, t);
    var h' := h + [Request(root, t)];
    FirstTouchAppend(h, Request(root, t), root, t);
    assert Present(rules, h, c, root, t) && HeadTracks(rules, h, c, root, t);
    assert Present(rules, h', c', root, t) && HeadTracks(rules, h', c', root, t);
    FaultMeans(rules, root, t);
    AnswerStored(rules, h, root, t);
    if answer.Ok? {
      assert c'[(root, t)] == answer.value && GoodCached(rules)(root, t, answer.value);
      if rules.gitDir(root).None? || answer.value.local.Exclude? {
        forall judge: Source -> Verdict {
          GoodHeadAgrees(rules, root, t, answer.value, judge);
        }
      } else {
        BareHeadDiffers(rules, root, t, answer.value);
      }
    }
  }

  lemma BuildFault(rules: Rules, c: Entries, root: Path, t: Path,
                   built: (Entries, Result<Option<Node>, Source>))
    requires root <= t && built.1.Err?
    requires BuildOk(rules, c, root, t, |rules.EffectiveRoot(root)|, GoodCached(rules), built)
    ensures Fault(rules, root, t) == Some(built.1.error) && !Readable(rules, root, t)
  {
    var lo := |rules.EffectiveRoot(root)|;
    var j: nat :| BuildStops(rules, root, t, lo, j, built);
    if j > lo {
      assert GoodCached(rules)(root, t[..j - 1], built.0[(root, t[..j - 1])]);
    }
    FaultAt(rules, root, t, j);
  }

  /** A successful lookup returns what it stored; a failing one met an unreadable file. */
  lemma AnswerStored(rules: Rules, h: seq<Request>, root: Path, t: Path)
    requires root <= t
    requires CacheOk(rules, h, Replay(rules, h))
    ensures var (c', answer) := Lookup(rules, Replay(rules, h), root, t);
      && (answer.Ok? ==> (root, t) in c' && c'[(root, t)] == answer.value)
      && (answer.Ok? <==> (root, t) in Replay(rules, h)
                          || (Readable(rules, root, t) && ExcludeReadable(rules, root)))
      && (answer.Err? ==> Fault(rules, root, t) == Some(answer.error))
  {
    var c := Replay(rules, h);
    if (root, t) !in c {
      var lo := |rules.EffectiveRoot(root)|;
      GoodExtends(rules, root, t);
      BuildMeets(rules, c, root, t, lo, lo, None, GoodCached(rules));
      assert Prefixes(t, lo)[0..] == Prefixes(t, lo);
      var built := Build(rules, c, root, Prefixes(t, lo), None);
      if built.1.Err? {
        BuildFault(rules, c, root, t, built);
      } else {
        assert t[..|t|] == t && GoodCached(rules)(root, t, built.0[(root, t)]);
        FaultMeans(rules, root, t);
      }
    }
  }

  /** Asking for a deeper directory first leaves a bare chain behind, which the next request
      for the shallower one is answered with: the exclude file is then not consulted. */
  lemma OutOfOrderExample()
    ensures exists rules: Rules, root: Path, t: Path ::
      root <= t && !Agrees(rules, root, root, Lookup(rules, Replay(rules, [Request(root, t)]), root, root).1)
  {
    var root: Path, t: Path := ["repo"], ["repo", "src"];
    var rules := Rules((r: Path) => Some(["repo", ".git"]), (s: Source) => true,
                       (s: Source, p: Path, d: bool) => NoMatch);
    var h := [Request(root, t)];
    FirstTouchAppend([], Request(root, t), root, root);
    assert [] + [Request(root, t)] == h;
    CachedAnswerAgreesIff(rules, h, root, root);
  }
}

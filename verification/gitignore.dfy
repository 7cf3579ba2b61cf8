/**
 Chains of ignore files, as in `src/gitignore_ctx.rs`: which directories contribute
 rules to a path, in which order, and which rule decides.

 A compiled ignore file is identified by where it was read from; what its globs say
 about a path is a parameter, because the glob matcher is a foreign library.
 */
module Gitignore {
  import opened Prelude

  type Name = string

  /** A path is its sequence of components, so that `<=` is `Path::starts_with`. */
  type Path = seq<Name>

  datatype Verdict = NoMatch | Ignore | Whitelist

  /** The file one chain node was compiled from. */
  datatype Source =
    | NoRules
    | Exclude(gitDir: Path)
    | DirRules(dir: Path)

  /** `GitignoreNode`: the rules of one file, and a link to the node consulted next. */
  datatype Node = Node(local: Source, parent: Option<Node>)

  /** What the file system and the glob matcher say. */
  datatype Rules = Rules(
    gitDir: Path -> Option<Path>,
    readable: Source -> bool,
    verdict: (Source, Path, bool) -> Verdict
  ) {
    /** The parent of the git directory governing a walk root. */
    function RepoRoot(root: Path): Option<Path> {
      match gitDir(root)
      case None => None
      case Some(g) => if g == [] then None else Some(g[..|g| - 1])
    }

    /** The shallowest directory whose ignore file matters: a repository root above
        the walk root, else the walk root itself. */
    function EffectiveRoot(root: Path): (top: Path)
      ensures top <= root
    {
      EffectiveRootOf(root, RepoRoot(root))
    }

    function Judge(path: Path, isDir: bool): Source -> Verdict {
      (s: Source) => verdict(s, path, isDir)
    }
  }

  function EffectiveRootOf(walkRoot: Path, repoRoot: Option<Path>): (top: Path)
    ensures top <= walkRoot
  {
    if repoRoot.Some? && repoRoot.value <= walkRoot && repoRoot.value != walkRoot
    then repoRoot.value
    else walkRoot
  }

  // ---------------------------------------------------------------- chains

  function Chain(n: Node): (c: seq<Source>)
    ensures c != [] && c[0] == n.local
  {
    [n.local] + if n.parent.None? then [] else Chain(n.parent.value)
  }

  /** The verdict of a list of ignore files: the first decisive one wins. */
  predicate Decide(chain: seq<Source>, judge: Source -> Verdict) {
    if chain == [] then
      false
    else
      match judge(chain[0])
      case Ignore => true
      case Whitelist => false
      case NoMatch => Decide(chain[1..], judge)
  }

  /** `GitignoreNode::matched`: walk from the deepest node towards the root. */
  method Matched(node: Node, judge: Source -> Verdict) returns (ignored: bool)
    ensures ignored <==>
            exists k :: 0 <= k < |Chain(node)| && judge(Chain(node)[k]) == Ignore
                        && forall j :: 0 <= j < k ==> judge(Chain(node)[j]) == NoMatch
  {
    DecideIsFirstDecisive(Chain(node), judge);
    var current := Some(node);
    while current.Some?
      invariant Decide(Chain(node), judge) == (current.Some? && Decide(Chain(current.value), judge))
      decreases current
    {
      var n := current.value;
      var m := judge(n.local);
      if m == Ignore {
        return true;
      }
      if m == Whitelist {
        return false;
      }
      assert Chain(n)[1..] == if n.parent.None? then [] else Chain(n.parent.value);
      current := n.parent;
    }
    return false;
  }

  lemma {:induction false} DecideIsFirstDecisive(chain: seq<Source>, judge: Source -> Verdict)
    ensures Decide(chain, judge) <==>
            exists k :: 0 <= k < |chain| && judge(chain[k]) == Ignore
                        && forall j :: 0 <= j < k ==> judge(chain[j]) == NoMatch
  {
    if chain != [] && judge(chain[0]) == NoMatch {
      var rest := chain[1..];
      DecideIsFirstDecisive(rest, judge);
      if Decide(rest, judge) {
        var k :| 0 <= k < |rest| && judge(rest[k]) == Ignore
                 && forall j :: 0 <= j < k ==> judge(rest[j]) == NoMatch;
        assert judge(chain[k + 1]) == Ignore;
        assert forall j :: 0 < j < k + 1 ==> judge(chain[j]) == judge(rest[j - 1]);
      }
      if k :| 0 <= k < |chain| && judge(chain[k]) == Ignore
              && forall j :: 0 <= j < k ==> judge(chain[j]) == NoMatch {
        assert k > 0 && judge(rest[k - 1]) == Ignore;
        assert forall j :: 0 <= j < k - 1 ==> judge(rest[j]) == judge(chain[j + 1]);
      }
    } else if chain != [] && judge(chain[0]) == Ignore {
      assert judge(chain[0]) == Ignore;
    }
  }

  // ---------------------------------------------------------------- directories of a chain

  /** `p[..lo], p[..lo+1], ..., p`. */
  function Prefixes(p: Path, lo: nat): (r: seq<Path>)
    requires lo <= |p|
  {
    seq(|p| - lo + 1, k requires 0 <= k <= |p| - lo => p[..lo + k])
  }

  lemma PrefixesGrow(p: Path, lo: nat, i: nat)
    requires lo <= i < |p|
    ensures Prefixes(p[..i + 1], lo) == Prefixes(p[..i], lo) + [p[..i + 1]]
  {
    var longer, shorter := Prefixes(p[..i + 1], lo), Prefixes(p[..i], lo) + [p[..i + 1]];
    forall k | 0 <= k < |longer|
      ensures longer[k] == shorter[k]
    {
      if k <= i - lo {
        assert p[..i + 1][..lo + k] == p[..i][..lo + k];
      } else {
        assert p[..i + 1][..lo + k] == p[..i + 1];
      }
    }
  }

  /** The prefixes of `p` from `top` on are the directories between the two. */
  lemma PrefixesAre(p: Path, top: Path)
    requires top <= p
    ensures forall d :: d in Prefixes(p, |top|) <==> top <= d && d <= p
  {
    var dirs := Prefixes(p, |top|);
    forall d | top <= d && d <= p ensures d in dirs {
      assert dirs[|d| - |top|] == d;
    }
  }

  /** The deepest directory the chain for `terminal` reaches. */
  function Spine(walkRoot: Path, terminal: Path): (p: Path)
    ensures walkRoot <= p
  {
    if walkRoot <= terminal then terminal else walkRoot
  }

  /** `ancestor_dirs_in_order`: from the effective root down to the terminal directory. */
  method AncestorDirsInOrder(walkRoot: Path, terminal: Path, repoRoot: Option<Path>) returns (dirs: seq<Path>)
    ensures dirs == Prefixes(Spine(walkRoot, terminal), |EffectiveRootOf(walkRoot, repoRoot)|)
    ensures var above := repoRoot.Some? && repoRoot.value <= walkRoot && repoRoot.value != walkRoot;
      forall d :: d in dirs <==>
        && (if above then repoRoot.value else walkRoot) <= d
        && d <= (if walkRoot <= terminal then terminal else walkRoot)
    ensures forall i :: 0 < i < |dirs| ==> |dirs[i]| == |dirs[i - 1]| + 1
  {
    PrefixesAre(Spine(walkRoot, terminal), EffectiveRootOf(walkRoot, repoRoot));
    var effective := EffectiveRootOf(walkRoot, repoRoot);
    var lo := |effective|;
    dirs := [effective];
    assert walkRoot[..lo] == effective && effective[..lo] == effective;
    if effective != walkRoot {
      var cur := effective;
      var i := lo;
      while i < |walkRoot|
        invariant lo <= i <= |walkRoot|
        invariant cur == walkRoot[..i]
        invariant dirs == Prefixes(walkRoot[..i], lo)
      {
        PrefixesGrow(walkRoot, lo, i);
        cur := cur + [walkRoot[i]];
        dirs := dirs + [cur];
        i := i + 1;
      }
    }
    assert walkRoot[..|walkRoot|] == walkRoot;
    if terminal == walkRoot {
      return;
    }
    if !(walkRoot <= terminal) {
      return;
    }
    var cur := walkRoot;
    var i := |walkRoot|;
    while i < |terminal|
      invariant |walkRoot| <= i <= |terminal|
      invariant cur == terminal[..i]
      invariant dirs == Prefixes(terminal[..i], lo)
    {
      PrefixesGrow(terminal, lo, i);
      cur := cur + [terminal[i]];
      dirs := dirs + [cur];
      i := i + 1;
    }
    assert terminal[..|terminal|] == terminal;
  }

  /** `terminal_dir_for_ignore_chain`. */
  function Terminal(walkRoot: Path, path: Path, isDir: bool): Path {
    if isDir then path else if path == [] then walkRoot else path[..|path| - 1]
  }

  // ---------------------------------------------------------------- the uncached chain

  /** The ignore files of `d` and of its ancestors of length at least `lo`, deepest first. */
  function Up(d: Path, lo: nat): (r: seq<Source>)
    requires lo <= |d|
    ensures |r| == |d| - lo + 1
    ensures forall k :: 0 <= k < |r| ==> r[k] == DirRules(d[..|d| - k])
  {
    if |d| == lo then
      assert d[..|d|] == d;
      [DirRules(d)]
    else
      var up := Up(d[..|d| - 1], lo);
      assert forall k :: 0 <= k < |up| ==> up[k] == DirRules(d[..|d| - 1 - k]) by {
        forall k | 0 <= k < |up| ensures up[k] == DirRules(d[..|d| - 1 - k]) {
          assert d[..|d| - 1][..|d| - 1 - k] == d[..|d| - 1 - k];
        }
      }
      assert d[..|d|] == d;
      [DirRules(d)] + up
  }

  /** The chain the documentation describes: the exclude file, then the terminal
      directory, then every ancestor up to the effective root. */
  function FreshChain(rules: Rules, root: Path, terminal: Path): seq<Source> {
    (match rules.gitDir(root) case None => [] case Some(g) => [Exclude(g)])
    + Up(Spine(root, terminal), |rules.EffectiveRoot(root)|)
  }

  /** The order in which an uncached build reads those files: shallowest directory first,
      the exclude file last. */
  function ReadOrder(rules: Rules, root: Path, terminal: Path): seq<Source> {
    var dirs := Prefixes(Spine(root, terminal), |rules.EffectiveRoot(root)|);
    seq(|dirs|, k requires 0 <= k < |dirs| => DirRules(dirs[k]))
    + match rules.gitDir(root) case None => [] case Some(g) => [Exclude(g)]
  }

  function FirstUnreadable(rules: Rules, files: seq<Source>): (r: Option<Source>)
    ensures r.None? ==> forall s :: s in files ==> rules.readable(s)
    ensures r.Some? ==> !rules.readable(r.value) && r.value in files
  {
    if files == [] then None
    else if !rules.readable(files[0]) then Some(files[0])
    else FirstUnreadable(rules, files[1..])
  }

  /** The file an uncached build fails on, if any. */
  function Fault(rules: Rules, root: Path, terminal: Path): Option<Source> {
    FirstUnreadable(rules, ReadOrder(rules, root, terminal))
  }

  lemma {:induction false} FirstUnreadableAt(rules: Rules, files: seq<Source>, k: nat)
    requires k < |files| && !rules.readable(files[k])
    requires forall i :: 0 <= i < k ==> rules.readable(files[i])
    ensures FirstUnreadable(rules, files) == Some(files[k])
  {
    if k > 0 {
      assert rules.readable(files[0]);
      FirstUnreadableAt(rules, files[1..], k - 1);
    }
  }

  // ---------------------------------------------------------------- which files there are

  /** `r` lies properly above the walk root and holds its git directory. */
  ghost predicate RepositoryAbove(rules: Rules, root: Path, r: Path) {
    r <= root && r != root && exists name :: rules.gitDir(root) == Some(r + [name])
  }

  /** Where chains start: at the repository above the walk root, or else at the walk root. */
  ghost predicate Topmost(rules: Rules, root: Path, r: Path) {
    RepositoryAbove(rules, root, r) || (r == root && forall q :: !RepositoryAbove(rules, root, q))
  }

  lemma AboveIsRepoRoot(rules: Rules, root: Path, q: Path)
    ensures RepositoryAbove(rules, root, q) <==> rules.RepoRoot(root) == Some(q) && q <= root && q != root
  {
    var git := rules.gitDir(root);
    if git.Some? && git.value != [] {
      var n := |git.value| - 1;
      assert git.value == git.value[..n] + [git.value[n]];
      forall name | git.value == q + [name] ensures q == git.value[..n] {
        assert (q + [name])[..n] == q;
      }
    }
  }

  lemma TopmostIsEffective(rules: Rules, root: Path, r: Path)
    ensures Topmost(rules, root, r) <==> r == rules.EffectiveRoot(root)
  {
    forall q ensures RepositoryAbove(rules, root, q) <==> rules.RepoRoot(root) == Some(q) && q <= root && q != root {
      AboveIsRepoRoot(rules, root, q);
    }
    assert RepositoryAbove(rules, root, rules.EffectiveRoot(root)) || rules.EffectiveRoot(root) == root;
  }

  lemma UpHolds(p: Path, top: Path, s: Source)
    requires top <= p
    ensures s in Up(p, |top|) <==> s.DirRules? && top <= s.dir && s.dir <= p
  {
    var up := Up(p, |top|);
    if s.DirRules? && top <= s.dir && s.dir <= p {
      assert up[|p| - |s.dir|] == DirRules(p[..|s.dir|]) && p[..|s.dir|] == s.dir;
    }
    if s in up {
      var k :| 0 <= k < |up| && up[k] == s;
      assert s.dir == p[..|p| - k] && top == p[..|top|];
    }
  }

  /** The `.gitignore` files of a chain are those of the directories between the topmost one and
      the terminal, or the walk root when the terminal lies outside it; the exclude file is the one
      of the git directory. */
  lemma ChainHolds(rules: Rules, root: Path, t: Path, r: Path, s: Source)
    requires Topmost(rules, root, r)
    ensures s in FreshChain(rules, root, t) <==>
      match s
      case DirRules(d) => r <= d && d <= (if root <= t then t else root)
      case Exclude(g) => rules.gitDir(root) == Some(g)
      case NoRules => false
  {
    TopmostIsEffective(rules, root, r);
    UpHolds(Spine(root, t), r, s);
  }

  /** They are consulted exclude file first, then from the deepest directory up. */
  lemma ChainOrder(rules: Rules, root: Path, t: Path, i: nat, j: nat)
    requires i < j < |FreshChain(rules, root, t)|
    ensures var chain := FreshChain(rules, root, t);
      chain[j].DirRules? && (chain[i].DirRules? ==> chain[j].dir < chain[i].dir)
  {
    var e := if rules.gitDir(root).Some? then 1 else 0;
    var p, chain := Spine(root, t), FreshChain(rules, root, t);
    assert chain[j] == DirRules(p[..|p| - (j - e)]);
    if i >= e {
      assert chain[i] == DirRules(p[..|p| - (i - e)]);
    }
  }

  /** The file of `d` ignores, and none below it has an opinion. */
  ghost predicate DeepestOpinion(judge: Source -> Verdict, d: Path, p: Path) {
    judge(DirRules(d)) == Ignore && forall e :: d <= e && e <= p && e != d ==> judge(DirRules(e)) == NoMatch
  }

  lemma OpinionHere(judge: Source -> Verdict, p: Path)
    ensures DeepestOpinion(judge, p, p) <==> judge(DirRules(p)) == Ignore
  {
  }

  lemma OpinionAbove(judge: Source -> Verdict, d: Path, p: Path)
    requires d <= p && d != p
    ensures DeepestOpinion(judge, d, p) <==>
      judge(DirRules(p)) == NoMatch && d <= p[..|p| - 1] && DeepestOpinion(judge, d, p[..|p| - 1])
  {
    var q := p[..|p| - 1];
    forall e: Path {:trigger DirRules(e)} | d <= e && e <= p && e != p ensures e <= q {
    }
  }

  lemma {:induction false} UpDecides(p: Path, top: Path, judge: Source -> Verdict)
    requires top <= p
    ensures Decide(Up(p, |top|), judge) <==> exists d :: top <= d && d <= p && DeepestOpinion(judge, d, p)
    decreases |p|
  {
    OpinionHere(judge, p);
    if p == top {
      assert Up(p, |top|) == [DirRules(p)] && Up(p, |top|)[1..] == [];
      forall d | top <= d && d <= p && DeepestOpinion(judge, d, p) ensures d == p {
      }
    } else {
      var q := p[..|p| - 1];
      UpDecides(q, top, judge);
      assert Up(p, |top|) == [DirRules(p)] + Up(q, |top|) && Up(p, |top|)[1..] == Up(q, |top|);
      if Decide(Up(q, |top|), judge) {
        var d :| top <= d && d <= q && DeepestOpinion(judge, d, q);
        OpinionAbove(judge, d, p);
      }
      if d :| top <= d && d <= p && DeepestOpinion(judge, d, p) {
        if d != p {
          OpinionAbove(judge, d, p);
        }
      }
    }
  }

  /** A path is ignored exactly when the exclude file ignores it, or has no opinion and the deepest
      `.gitignore` with one, from its directory up to the topmost one, ignores it. */
  lemma IgnoredIff(rules: Rules, root: Path, t: Path, r: Path, judge: Source -> Verdict)
    requires Topmost(rules, root, r)
    ensures var p := if root <= t then t else root;
      var byDirs := exists d :: r <= d && d <= p && DeepestOpinion(judge, d, p);
      Decide(FreshChain(rules, root, t), judge) <==>
        match rules.gitDir(root)
        case None => byDirs
        case Some(g) => judge(Exclude(g)) == Ignore || (judge(Exclude(g)) == NoMatch && byDirs)
  {
    TopmostIsEffective(rules, root, r);
    UpDecides(Spine(root, t), r, judge);
    if rules.gitDir(root).Some? {
      assert FreshChain(rules, root, t)[1..] == Up(Spine(root, t), |r|);
    } else {
      assert FreshChain(rules, root, t) == Up(Spine(root, t), |r|);
    }
  }

  /** Every directory of a chain down to `d` has an ignore file that can be read. */
  ghost predicate ReadableDown(rules: Rules, r: Path, d: Path) {
    forall e :: r <= e && e <= d ==> rules.readable(DirRules(e))
  }

  lemma {:induction false} FirstUnreadableIs(rules: Rules, files: seq<Source>) returns (k: nat)
    requires FirstUnreadable(rules, files).Some?
    ensures k < |files| && FirstUnreadable(rules, files) == Some(files[k])
    ensures forall i :: 0 <= i < k ==> rules.readable(files[i])
  {
    k := 0;
    if rules.readable(files[0]) {
      var rest := FirstUnreadableIs(rules, files[1..]);
      k := rest + 1;
    }
  }

  lemma ReadInTurn(rules: Rules, root: Path, t: Path, d: Path)
    requires rules.EffectiveRoot(root) <= d && d <= Spine(root, t)
    ensures var k := |d| - |rules.EffectiveRoot(root)|;
      k < |ReadOrder(rules, root, t)| && ReadOrder(rules, root, t)[k] == DirRules(d)
  {
  }

  /** If some `.gitignore` cannot be read, the build fails on one above which all can. */
  lemma ShallowestFails(rules: Rules, root: Path, t: Path, r: Path, e: Path) returns (d: Path)
    requires r == rules.EffectiveRoot(root) && r <= e && e <= Spine(root, t) && !rules.readable(DirRules(e))
    ensures r <= d && d <= Spine(root, t) && Fault(rules, root, t) == Some(DirRules(d))
    ensures forall f :: r <= f && f <= d && f != d ==> rules.readable(DirRules(f))
  {
    ReadInTurn(rules, root, t, e);
    var k := FirstUnreadableIs(rules, ReadOrder(rules, root, t));
    d := e[..|r| + k];
    ReadInTurn(rules, root, t, d);
    forall f | r <= f && f <= d && f != d ensures rules.readable(DirRules(f)) {
      ReadInTurn(rules, root, t, f);
    }
  }

  /** With all of them readable it can fail on the exclude file only. */
  lemma ExcludeFails(rules: Rules, root: Path, t: Path, r: Path)
    requires r == rules.EffectiveRoot(root) && ReadableDown(rules, r, Spine(root, t))
    ensures Fault(rules, root, t) ==
      match rules.gitDir(root)
      case None => None
      case Some(g) => if rules.readable(Exclude(g)) then None else Some(Exclude(g))
  {
    var p, files := Spine(root, t), ReadOrder(rules, root, t);
    var n := |p| - |r| + 1;
    forall k | 0 <= k < n ensures rules.readable(files[k]) {
      ReadInTurn(rules, root, t, p[..|r| + k]);
    }
    if rules.gitDir(root).Some? {
      assert files[n] == Exclude(rules.gitDir(root).value);
      if !rules.readable(files[n]) {
        FirstUnreadableAt(rules, files, n);
      }
    }
  }

  /** The shallowest `.gitignore` that cannot be read, or the exclude file when all of those can. */
  ghost predicate FirstFailing(rules: Rules, root: Path, r: Path, p: Path, s: Source) {
    && !rules.readable(s)
    && match s
       case DirRules(d) => r <= d && d <= p && forall e :: r <= e && e <= d && e != d ==> rules.readable(DirRules(e))
       case Exclude(g) => rules.gitDir(root) == Some(g) && ReadableDown(rules, r, p)
       case NoRules => false
  }

  /** There is one such file at most. */
  lemma OneFirstFailing(rules: Rules, root: Path, r: Path, p: Path, a: Source, b: Source)
    requires FirstFailing(rules, root, r, p, a) && FirstFailing(rules, root, r, p, b)
    ensures a == b
  {
    if a.DirRules? && b.DirRules? {
      var x, y := a.dir, b.dir;
      assert x == p[..|x|] && y == p[..|y|];
    }
  }

  /** An uncached build fails on that file. */
  lemma FaultIsFirst(rules: Rules, root: Path, t: Path, r: Path, s: Source)
    requires Topmost(rules, root, r)
    ensures Fault(rules, root, t) == Some(s) <==> FirstFailing(rules, root, r, if root <= t then t else root, s)
  {
    TopmostIsEffective(rules, root, r);
    var p := Spine(root, t);
    if ReadableDown(rules, r, p) {
      ExcludeFails(rules, root, t, r);
    } else {
      var e: Path :| r <= e && e <= p && !rules.readable(DirRules(e));
      var d := ShallowestFails(rules, root, t, r, e);
      FirstUnreadableReads(rules, root, t);
      assert FirstFailing(rules, root, r, p, DirRules(d));
      if FirstFailing(rules, root, r, p, s) {
        OneFirstFailing(rules, root, r, p, s, DirRules(d));
      }
    }
  }

  lemma FirstUnreadableReads(rules: Rules, root: Path, t: Path)
    ensures Fault(rules, root, t).Some? ==> !rules.readable(Fault(rules, root, t).value)
  {
  }

  // ---------------------------------------------------------------- which file wins

  /** No file of the chain has an opinion. */
  predicate Silent(chain: seq<Source>, judge: Source -> Verdict) {
    forall k :: 0 <= k < |chain| ==> judge(chain[k]) == NoMatch
  }

  /** A file at the end of a chain decides only when all before it are silent. */
  lemma {:induction false} LastResort(chain: seq<Source>, e: Source, judge: Source -> Verdict)
    ensures Decide(chain + [e], judge) == if Silent(chain, judge) then judge(e) == Ignore else Decide(chain, judge)
    ensures Silent(chain, judge) ==> !Decide(chain, judge)
  {
    if chain == [] {
      assert chain + [e] == [e] && [e][1..] == [];
    } else {
      assert (chain + [e])[1..] == chain[1..] + [e];
      LastResort(chain[1..], e, judge);
      assert chain == [chain[0]] + chain[1..];
      assert Silent(chain, judge) <==> judge(chain[0]) == NoMatch && Silent(chain[1..], judge);
    }
  }

  /** It matters where in the order a file stands exactly when it has an opinion, some other file
      has one too, and the others decide differently. */
  lemma FirstOrLast(chain: seq<Source>, e: Source, judge: Source -> Verdict)
    ensures Decide([e] + chain, judge) == Decide(chain + [e], judge) <==>
      judge(e) == NoMatch || Silent(chain, judge) || Decide(chain, judge) == (judge(e) == Ignore)
  {
    LastResort(chain, e, judge);
    assert ([e] + chain)[1..] == chain;
  }

  /** The chain under which the deepest file wins and the exclude file comes last. */
  function DeepestFirst(rules: Rules, root: Path, terminal: Path): seq<Source> {
    Up(Spine(root, terminal), |rules.EffectiveRoot(root)|)
    + match rules.gitDir(root) case None => [] case Some(g) => [Exclude(g)]
  }

  /** The deepest opinion wins in the chain as it is built, if and only if there is no git
      directory, the exclude file or all directories are silent, or the directories agree with
      the exclude file. */
  lemma DeepestWinsIff(rules: Rules, root: Path, terminal: Path, judge: Source -> Verdict)
    ensures var dirs := Up(Spine(root, terminal), |rules.EffectiveRoot(root)|);
      Decide(FreshChain(rules, root, terminal), judge) == Decide(DeepestFirst(rules, root, terminal), judge) <==>
        || rules.gitDir(root).None?
        || judge(Exclude(rules.gitDir(root).value)) == NoMatch
        || Silent(dirs, judge)
        || Decide(dirs, judge) == (judge(Exclude(rules.gitDir(root).value)) == Ignore)
  {
    var dirs := Up(Spine(root, terminal), |rules.EffectiveRoot(root)|);
    match rules.gitDir(root)
    case None => assert [] + dirs == dirs + [];
    case Some(g) => FirstOrLast(dirs, Exclude(g), judge);
  }

  /** A path that the exclude file ignores and the `.gitignore` beside it whitelists is ignored. */
  lemma ExcludeBeatsWhitelist()
    ensures exists rules: Rules, root: Path, judge: Source -> Verdict ::
      && rules.gitDir(root) == Some(root + [".git"])
      && judge(DirRules(root)) == Whitelist && judge(Exclude(root + [".git"])) == Ignore
      && Decide(FreshChain(rules, root, root), judge) && !Decide(DeepestFirst(rules, root, root), judge)
  {
    var root: Path := ["repo"];
    var rules := Rules((r: Path) => Some(r + [".git"]), (s: Source) => true, (s: Source, p: Path, d: bool) => NoMatch);
    var judge: Source -> Verdict := (s: Source) => if s.Exclude? then Ignore else Whitelist;
    assert rules.gitDir(root) == Some(root + [".git"]);
    assert judge(DirRules(root)) == Whitelist && judge(Exclude(root + [".git"])) == Ignore;
    var e, dirs := Exclude(root + [".git"]), Up(root, |rules.EffectiveRoot(root)|);
    assert FreshChain(rules, root, root)[0] == e;
    assert DeepestFirst(rules, root, root)[0] == dirs[0] == DirRules(root);
  }
}

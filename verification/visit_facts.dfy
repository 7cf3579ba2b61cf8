/**
 What becomes of a path, read off the tables of the world: its length, its metadata, its ignore
 chain, its listing and its verdict. The decisions of the engines (`Classify` and what is built
 on it) are proved to be these, one branch at a time.
 */
module VisitFacts {
  import opened Prelude
  import opened Gitignore
  import opened WalkWorld

  // ---------------------------------------------------------------- the facts of a path

  /** The directory whose ignore chain judges the path: itself, or the one it lies in. */
  function ChainDir(w: World, x: Spot): Path {
    if w.stat(x.path).Directory? then x.path
    else if x.path == [] then x.root
    else x.path[..|x.path| - 1]
  }

  /** The path is short enough and something is there. */
  predicate Present(w: World, x: Spot) {
    w.pathBytes(x.path) <= 4096 && !w.stat(x.path).Missing?
  }

  /** A file of the chain cannot be read. */
  predicate ChainFails(w: World, x: Spot, s: Source) {
    Present(w, x) && w.respectGitignore && w.fault(x.root, ChainDir(w, x)) == Some(s)
  }

  /** The chain can be read and does not ignore the path, or ignore files are not asked. */
  predicate Admitted(w: World, x: Spot) {
    Present(w, x) &&
    (w.respectGitignore ==>
       && w.fault(x.root, ChainDir(w, x)).None?
       && !w.decides(x.root, ChainDir(w, x), x.path, w.stat(x.path).Directory?))
  }

  predicate GitDirectory(w: World, x: Spot) {
    w.respectGitignore && x.path != [] && x.path[|x.path| - 1] == ".git"
  }

  /** The path is a directory the walk goes into. */
  predicate Opened(w: World, x: Spot, id: DirId) {
    Admitted(w, x) && w.stat(x.path) == Directory(Ok(id)) && !GitDirectory(w, x)
  }

  predicate Listable(w: World, x: Spot) {
    w.maxDepth.Some? ==> |x.path| - |x.root| <= w.maxDepth.value
  }

  /** The path is a file that passes the filters. */
  predicate Delivered(w: World, x: Spot, size: nat, inode: nat) {
    Admitted(w, x) && w.stat(x.path).NonDirectory? && w.verdict(x.path) == Keep(size, inode)
  }

  function RulesPath(s: Source): Path {
    match s
    case DirRules(dir) => dir + [".gitignore"]
    case Exclude(gitDir) => gitDir + ["info", "exclude"]
    case NoRules => []
  }

  // ---------------------------------------------------------------- what a path calls for

  /** The one item that is sent for a path which is not gone into. */
  ghost predicate CalledForItself(w: World, x: Spot, item: WalkItem) {
    var p, meta := x.path, w.stat(x.path);
    || (w.pathBytes(p) > 4096 && item == Error(p, Metadata, PathTooLong))
    || (w.pathBytes(p) <= 4096 && meta.Missing? && !meta.danglingLink && item == Error(p, Metadata, Io(meta.error)))
    || (exists s :: ChainFails(w, x, s) && item == Error(RulesPath(s), GitignoreRules, BadRules(s)))
    || (Admitted(w, x) && meta.Directory? && meta.id.Err? && !GitDirectory(w, x)
        && item == Error(p, Metadata, Io(meta.id.error)))
    || (exists size, inode :: Delivered(w, x, size, inode) && item == File(p, size, inode))
    || (Admitted(w, x) && meta.NonDirectory? && w.verdict(p).ProbeFailed?
        && item == Error(p, Open, Io(w.verdict(p).error)))
  }

  /** An item sent for listing a directory. */
  ghost predicate CalledForListing(w: World, x: Spot, item: WalkItem) {
    && Listable(w, x) && (exists id :: Opened(w, x, id))
    && match w.list(x.path)
       case ListFailed(e) => item == Error(x.path, ReadDir, Io(e))
       case Listed(_, errors) => exists e :: e in errors && item == Error(x.path, ReadDir, Io(e))
  }

  /** Directories are gone into when their facts say so. */
  lemma EntersMeans(w: World, x: Spot, id: DirId)
    ensures w.Classify(x) == EnterDir(id) <==> Opened(w, x, id)
  {
  }

  lemma GoneIntoMeans(w: World, x: Spot)
    ensures w.Classify(x).EnterDir? <==> exists id :: Opened(w, x, id)
  {
    if w.Classify(x).EnterDir? {
      EntersMeans(w, x, w.Classify(x).id);
    }
    forall id | Opened(w, x, id) ensures w.Classify(x).EnterDir? {
      EntersMeans(w, x, id);
    }
  }

  lemma {:induction false} ErrorsListed(w: World, p: Path, errors: seq<IoError>, e: IoError)
    ensures multiset(w.EntryErrors(p, errors))[Error(p, ReadDir, Io(e))] == multiset(errors)[e]
  {
    if errors != [] {
      ErrorsListed(w, p, errors[1..], e);
      assert errors == [errors[0]] + errors[1..];
      assert w.EntryErrors(p, errors) == [Error(p, ReadDir, Io(errors[0]))] + w.EntryErrors(p, errors[1..]);
    }
  }

  /** Files are offered when their facts say so. */
  lemma OffersMeans(w: World, x: Spot, item: WalkItem)
    ensures w.Classify(x) == OfferFile(item) <==>
      exists size, inode :: Delivered(w, x, size, inode) && item == File(x.path, size, inode)
  {
  }

  lemma ListingMeans(w: World, x: Spot, item: WalkItem)
    requires w.Classify(x).EnterDir?
    ensures item in w.ListingSends(x) <==> CalledForListing(w, x, item)
  {
    GoneIntoMeans(w, x);
    if Listable(w, x) && w.list(x.path).Listed? {
      var errors := w.list(x.path).entryErrors;
      var sends := w.EntryErrors(x.path, errors);
      assert w.ListingSends(x) == sends;
      forall e | e in errors ensures Error(x.path, ReadDir, Io(e)) in sends {
        var i :| 0 <= i < |errors| && errors[i] == e;
        assert sends[i] == Error(x.path, ReadDir, Io(e));
      }
    }
  }

  lemma DropMeans(w: World, x: Spot, item: WalkItem)
    ensures w.Classify(x).Drop? ==> (item in w.Classify(x).sends <==> CalledForItself(w, x, item))
    ensures w.Classify(x).EnterDir? ==> !CalledForItself(w, x, item)
    ensures w.Classify(x).OfferFile? ==> (item == w.Classify(x).file <==> CalledForItself(w, x, item))
  {
  }

  /** Each path calls for exactly the items its facts name. */
  lemma EmitsMeans(w: World, x: Spot, item: WalkItem)
    ensures item in w.Emits(x) <==> CalledForItself(w, x, item) || CalledForListing(w, x, item)
  {
    DropMeans(w, x, item);
    GoneIntoMeans(w, x);
    if w.Classify(x).EnterDir? {
      ListingMeans(w, x, item);
    }
  }

  lemma SentOnce(w: World, x: Spot, item: WalkItem)
    requires !w.Classify(x).EnterDir? && item in w.Emits(x)
    ensures multiset(w.Emits(x))[item] == 1
  {
    assert w.Emits(x) == [item];
  }

  /** Each item is called for once, and the error of an entry as often as the listing met it. */
  lemma EmitsCount(w: World, x: Spot, item: WalkItem)
    ensures CalledForItself(w, x, item) ==> multiset(w.Emits(x))[item] == 1
    ensures CalledForListing(w, x, item) ==>
      multiset(w.Emits(x))[item] ==
        if w.list(x.path).ListFailed? then 1 else multiset(w.list(x.path).entryErrors)[item.cause.error]
  {
    EmitsMeans(w, x, item);
    DropMeans(w, x, item);
    GoneIntoMeans(w, x);
    if CalledForItself(w, x, item) {
      SentOnce(w, x, item);
    }
    if CalledForListing(w, x, item) {
      match w.list(x.path)
      case ListFailed(_) => assert w.Emits(x) == [item];
      case Listed(_, errors) => ErrorsListed(w, x.path, errors, item.cause.error);
    }
  }

  /** The entries met below a path are those of the listing of a directory that is gone into. */
  lemma ChildrenMeans(w: World, x: Spot, n: Name)
    ensures n in w.Children(x) <==>
      && (exists id :: Opened(w, x, id)) && Listable(w, x)
      && w.list(x.path).Listed? && n in w.list(x.path).names
  {
    GoneIntoMeans(w, x);
  }

  // ---------------------------------------------------------------- which paths are walked

  /** The directory above the path after `k` components is gone into, and lists the next one. */
  ghost predicate StepsDown(w: World, x: Spot, k: nat)
    requires k < |x.path|
  {
    var above := Spot(x.root, x.path[..k]);
    && (exists id :: Opened(w, above, id)) && Listable(w, above)
    && w.list(above.path).Listed? && x.path[k] in w.list(above.path).names
  }

  /** A path is walked exactly when every directory between its root and itself is gone into and
      lists the next component. */
  lemma {:induction false} WalkedMeans(w: World, roots: seq<Path>, x: Spot)
    ensures w.Walked(roots, x) <==>
      x.root in roots && x.root <= x.path && forall k :: |x.root| <= k < |x.path| ==> StepsDown(w, x, k)
    decreases |x.path|
  {
    if x.root in roots && x.root <= x.path && x.root != x.path {
      var n := |x.path| - 1;
      WalkedMeans(w, roots, x.Parent());
      ChildrenMeans(w, x.Parent(), x.path[n]);
      assert StepsDown(w, x, n) <==> x.path[n] in w.Children(x.Parent());
      forall k | |x.root| <= k < n ensures StepsDown(w, x, k) <==> StepsDown(w, x.Parent(), k) {
        assert x.Parent().path[..k] == x.path[..k];
      }
    }
  }
}

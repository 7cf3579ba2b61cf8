/**
 Lookups of different workers may overlap. This module shows that a run of the parallel engine
 only ever begins them the way `CacheInterleaving.MayBegin` asks for.
 */
module LookupOverlap {
  import opened Prelude
  import opened Gitignore
  import opened GitignoreCaching
  import opened WalkWorld
  import opened ParallelWalk
  import opened ParallelItems
  import opened ParallelBooks
  import opened LookupOrder

  lemma {:induction false} WalkedAbove(w: World, roots: seq<Path>, y: Spot, k: nat)
    requires w.Walked(roots, y) && |y.root| <= k < |y.path|
    ensures w.Classify(Spot(y.root, y.path[..k])).EnterDir?
    decreases |y.path|
  {
    var x := y.Parent();
    assert w.Children(x) != [];
    if k < |y.path| - 1 {
      WalkedAbove(w, roots, x, k);
      assert x.path[..k] == y.path[..k];
    }
  }

  /** Every directory above the path of `x` was looked up with success. */
  ghost predicate LookedUpAbove(w: World, s: State, x: Spot) {
    forall k :: |x.root| <= k < |x.path| ==>
      Request(x.root, x.path[..k]) in s.requests && w.fault(x.root, x.path[..k]).None?
  }

  /** Nobody looked up the path of `x` or anything below it. */
  ghost predicate Untouched(s: State, x: Spot) {
    forall q :: q in s.requests ==> !Touches(q, x.root, x.path)
  }

  /** Worker `i` alone holds its popped path. */
  predicate HoldsAlone(s: State, i: nat)
    requires i < |s.workers| && s.workers[i].Popped?
  {
    forall j :: 0 <= j < |s.workers| && j != i && s.workers[j].Popped? ==>
      s.workers[j].item.Where() != s.workers[i].item.Where()
  }

  lemma PoppedAbove(w: World, roots: seq<Path>, s: State, i: nat)
    requires w.respectGitignore && Placed(w, s) && AsksOk(w, s) && i < |s.workers| && s.workers[i].Popped?
    requires ItemOk(w, roots, s.workers[i].item)
    ensures LookedUpAbove(w, s, s.workers[i].item.Where())
  {
    var x := s.workers[i].item.Where();
    HeldIsPending(w, s, i, x);
    forall k | |x.root| <= k < |x.path|
      ensures Request(x.root, x.path[..k]) in s.requests && w.fault(x.root, x.path[..k]).None?
    {
      AboveLookedUp(w, roots, s, x, k);
    }
  }

  lemma AboveLookedUp(w: World, roots: seq<Path>, s: State, x: Spot, k: nat)
    requires w.respectGitignore && Placed(w, s) && AsksOk(w, s) && Pending(w, s, x) > 0 && w.Walked(roots, x)
    requires |x.root| <= k < |x.path|
    ensures Request(x.root, x.path[..k]) in s.requests && w.fault(x.root, x.path[..k]).None?
  {
    assert x.root == x.path[..k][..|x.root|];
    AboveIsDone(w, roots, s, x, x.path[..k]);
    WalkedAbove(w, roots, x, k);
  }

  lemma PoppedAlone(w: World, s: State, i: nat)
    requires Placed(w, s) && i < |s.workers| && s.workers[i].Popped?
    ensures HoldsAlone(s, i)
  {
    var x := s.workers[i].item.Where();
    assert PlacedAt(w, s, x);
    forall j | 0 <= j < |s.workers| && j != i && s.workers[j].Popped? ensures s.workers[j].item.Where() != x {
      SumNatTwo(Held(w, x), s.workers, i, j);
    }
  }

  /** While one worker holds a popped path and is about to look up its chain: every directory
      above the path was looked up with success, nobody looked up the path or anything below it,
      and no other worker holds the same path. */
  lemma BeginsInOrder(w: World, roots: seq<Path>, n: nat, labels: seq<Label>, i: nat)
    requires w.Finite() && Distinct(roots) && w.respectGitignore && RootsAreDirs(w, roots)
    requires i < |Exec(w, Init(roots, n), labels).workers| && Exec(w, Init(roots, n), labels).workers[i].Popped?
    ensures var s := Exec(w, Init(roots, n), labels); var x := s.workers[i].item.Where();
      x.root <= x.path && LookedUpAbove(w, s, x) && Untouched(s, x) && HoldsAlone(s, i)
  {
    var s := Exec(w, Init(roots, n), labels);
    RunsKeepItems(w, roots, n, labels);
    RunsKeepPlaced(w, roots, n, labels);
    RunsKeepAsks(w, roots, n, labels);
    PoppedInOrder(w, roots, s, i);
  }

  lemma PoppedInOrder(w: World, roots: seq<Path>, s: State, i: nat)
    requires w.respectGitignore && ItemsOk(w, roots, s) && Placed(w, s) && AsksOk(w, s)
    requires i < |s.workers| && s.workers[i].Popped?
    ensures var x := s.workers[i].item.Where();
      x.root <= x.path && LookedUpAbove(w, s, x) && Untouched(s, x) && HoldsAlone(s, i)
  {
    assert WorkerOk(w, roots, s.workers[i]);
    PoppedAbove(w, roots, s, i);
    PoppedAlone(w, s, i);
    forall q | q in s.requests ensures !Touches(q, s.workers[i].item.root, s.workers[i].item.path) {
      PoppedIsUntouched(w, roots, s, i, q);
    }
  }

  /** While a worker scans the entries of a directory, the chain of that directory was looked up
      with success: the lookups for its files are hits. */
  lemma ScansAfterLookup(w: World, roots: seq<Path>, n: nat, labels: seq<Label>, i: nat)
    requires w.Finite() && Distinct(roots) && w.respectGitignore && RootsAreDirs(w, roots)
    requires i < |Exec(w, Init(roots, n), labels).workers| && Exec(w, Init(roots, n), labels).workers[i].Scanning?
    requires Exec(w, Init(roots, n), labels).workers[i].rest != []
    ensures var s := Exec(w, Init(roots, n), labels); var item := s.workers[i].item;
      Request(item.root, item.path) in s.requests && w.fault(item.root, item.path).None?
  {
    var s := Exec(w, Init(roots, n), labels);
    RunsKeepItems(w, roots, n, labels);
    RunsKeepPlaced(w, roots, n, labels);
    RunsKeepAsks(w, roots, n, labels);
    ScanInOrder(w, roots, s, i);
  }

  lemma ScanInOrder(w: World, roots: seq<Path>, s: State, i: nat)
    requires w.respectGitignore && ItemsOk(w, roots, s) && Placed(w, s) && AsksOk(w, s)
    requires i < |s.workers| && s.workers[i].Scanning? && s.workers[i].rest != []
    ensures var item := s.workers[i].item;
      Request(item.root, item.path) in s.requests && w.fault(item.root, item.path).None?
  {
    assert WorkerOk(w, roots, s.workers[i]);
    ScanAsks(w, roots, s, i);
  }
}

/**
 The directory graph of a world whose symlinks may form cycles: nodes are directory ids,
 edges are directory entries. The reachable set is the least set that contains the roots
 and is closed under edges.
 */
module DirGraph {
  import opened Prelude
  import opened Gitignore
  import opened WalkWorld

  predicate SameDir(w: World, p: Path, q: Path) {
    w.stat(p).Directory? && w.stat(p).id.Ok? && w.stat(p) == w.stat(q)
  }

  ghost predicate SameEntries(w: World, p: Path, q: Path) {
    w.list(p) == w.list(q) && forall n :: w.stat(p + [n]) == w.stat(q + [n])
  }

  /** What a directory contains does not depend on the path it was reached by. */
  ghost predicate GraphLike(w: World) {
    forall p, q :: SameDir(w, p, q) ==> SameEntries(w, p, q)
  }

  predicate Enters(w: World, p: Path, n: Name, u: DirId, v: DirId) {
    && w.stat(p) == Directory(Ok(u))
    && w.list(p).Listed? && n in w.list(p).names
    && w.stat(p + [n]) == Directory(Ok(v))
  }

  ghost predicate Edge(w: World, u: DirId, v: DirId) {
    exists p, n :: Enters(w, p, n, u, v)
  }

  ghost predicate HoldsRoots(w: World, roots: seq<Path>, t: set<DirId>) {
    forall r :: r in roots && w.stat(r).Directory? && w.stat(r).id.Ok? ==> w.stat(r).id.value in t
  }

  ghost predicate Closed(w: World, t: set<DirId>) {
    forall u, v :: u in t && Edge(w, u, v) ==> v in t
  }

  ghost predicate IsReachableSet(w: World, roots: seq<Path>, s: set<DirId>) {
    && HoldsRoots(w, roots, s) && Closed(w, s)
    && forall t: set<DirId> :: HoldsRoots(w, roots, t) && Closed(w, t) ==> s <= t
  }

  /** No depth limit and no ignore files. */
  predicate Unrestricted(w: World) {
    w.maxDepth.None? && !w.respectGitignore
  }

  /** A visit that ends in an error sends it: none is swallowed. */
  ghost predicate Reported(w: World, done: set<Spot>, sent: seq<Event>) {
    forall x, item :: x in done && w.Classify(x).Drop? && item in w.Classify(x).sends ==> Event(x, item) in sent
  }

  /** Everything listing the directory of `x` calls for was sent, each item as often. */
  ghost predicate ListingSent(w: World, sent: seq<Event>, x: Spot) {
    forall item :: multiset(w.ListingSends(x))[item] <= multiset(sent)[Event(x, item)]
  }

  lemma ListingStaysSent(w: World, sent: seq<Event>, more: seq<Event>, x: Spot)
    requires ListingSent(w, sent, x) && sent <= more
    ensures ListingSent(w, more, x)
  {
    assert more == sent + more[|sent|..];
  }

  predicate TooLongReported(w: World, sent: seq<Event>) {
    exists i :: 0 <= i < |sent| && sent[i].item == w.TooLongError(sent[i].at.path)
  }

  /** The visit `x` claimed the directory `id`, and all its entries were settled. */
  ghost predicate FannedAt(w: World, done: set<Spot>, id: DirId, x: Spot) {
    x in done && w.Classify(x) == EnterDir(id) && forall n :: n in w.Children(x) ==> x.Child(n) in done
  }

  ghost predicate Fanned(w: World, done: set<Spot>, visited: set<DirId>) {
    forall id :: id in visited ==> exists x :: FannedAt(w, done, id, x)
  }

  /** Whatever the walk can reach lies in every closed set that holds the roots. */
  lemma {:induction false} WalkedInClosed(w: World, roots: seq<Path>, t: set<DirId>, x: Spot)
    requires Unrestricted(w) && HoldsRoots(w, roots, t) && Closed(w, t)
    requires w.Walked(roots, x) && w.stat(x.path).Directory? && w.stat(x.path).id.Ok?
    ensures w.stat(x.path).id.value in t
    decreases |x.path|
  {
    if !x.IsRoot() {
      var y, n := x.Parent(), x.path[|x.path| - 1];
      WalkedInClosed(w, roots, t, y);
      assert x.path == y.path + [n];
      assert Enters(w, y.path, n, w.stat(y.path).id.value, w.stat(x.path).id.value);
    }
  }

  lemma TooLongIsReported(w: World, done: set<Spot>, sent: seq<Event>, x: Spot)
    requires Reported(w, done, sent) && x in done && w.TooLong(x.path)
    ensures TooLongReported(w, sent)
  {
    var item := w.TooLongError(x.path);
    assert w.Classify(x) == Drop([item]) && item in w.Classify(x).sends;
    var i :| 0 <= i < |sent| && sent[i] == Event(x, item);
  }

  lemma VisitedIsClosed(w: World, done: set<Spot>, visited: set<DirId>, u: DirId, v: DirId)
    requires Unrestricted(w) && GraphLike(w)
    requires forall x :: x in done ==> !w.TooLong(x.path)
    requires forall x :: x in done && w.Classify(x).EnterDir? ==> w.Classify(x).id in visited
    requires Fanned(w, done, visited) && u in visited && Edge(w, u, v)
    ensures v in visited
  {
    var x :| FannedAt(w, done, u, x);
    var p, n :| Enters(w, p, n, u, v);
    assert SameDir(w, x.path, p) && SameEntries(w, x.path, p);
    assert n in w.Children(x);
    assert w.stat(x.path + [n]) == w.stat(p + [n]);
    assert w.Classify(x.Child(n)) == EnterDir(v);
  }

  /** A finished walk of a graph has visited exactly the reachable directories. */
  lemma VisitedIsReachable(w: World, roots: seq<Path>, done: set<Spot>, visited: set<DirId>, sent: seq<Event>)
    requires Unrestricted(w) && GraphLike(w)
    requires Reported(w, done, sent) && !TooLongReported(w, sent)
    requires forall r :: r in roots ==> Spot(r, r) in done
    requires forall x :: x in done ==> w.Walked(roots, x)
    requires forall x :: x in done && w.Classify(x).EnterDir? ==> w.Classify(x).id in visited
    requires Fanned(w, done, visited)
    ensures IsReachableSet(w, roots, visited)
  {
    forall x | x in done ensures !w.TooLong(x.path) {
      if w.TooLong(x.path) {
        TooLongIsReported(w, done, sent, x);
      }
    }
    forall r | r in roots && w.stat(r).Directory? && w.stat(r).id.Ok? ensures w.stat(r).id.value in visited {
      assert w.Classify(Spot(r, r)) == EnterDir(w.stat(r).id.value);
    }
    forall u, v | u in visited && Edge(w, u, v) ensures v in visited {
      VisitedIsClosed(w, done, visited, u, v);
    }
    forall t: set<DirId> | HoldsRoots(w, roots, t) && Closed(w, t) ensures visited <= t {
      VisitedIsLeast(w, roots, done, visited, t);
    }
  }

  lemma VisitedIsLeast(w: World, roots: seq<Path>, done: set<Spot>, visited: set<DirId>, t: set<DirId>)
    requires Unrestricted(w) && HoldsRoots(w, roots, t) && Closed(w, t)
    requires forall x :: x in done ==> w.Walked(roots, x)
    requires Fanned(w, done, visited)
    ensures visited <= t
  {
    forall id | id in visited ensures id in t {
      var x :| FannedAt(w, done, id, x);
      WalkedInClosed(w, roots, t, x);
    }
  }

  lemma ReachableSetIsUnique(w: World, roots: seq<Path>, s: set<DirId>, t: set<DirId>)
    requires IsReachableSet(w, roots, s) && IsReachableSet(w, roots, t)
    ensures s == t
  {
  }
}

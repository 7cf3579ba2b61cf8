/**
 The two engines against each other. This is the differential test of the repository
 (`tests/concurrent/differential_walk.rs`) as a theorem over every tree, every worker count
 and every schedule.
 */
module WalkEquivalence {
  import opened Prelude
  import opened Gitignore
  import opened WalkWorld
  import opened ParallelWalk
  import opened ParallelComplete
  import opened DirGraph
  import opened SerialRuns
  import SerialWalk
  import SerialLoop
  import ParallelReach
  import ParallelSends
  import SimplePaths

  /** What the receiver sees: the items without the visits that sent them. */
  function Items(sent: seq<Event>): (r: seq<WalkItem>)
    ensures |r| == |sent|
  {
    seq(|sent|, i requires 0 <= i < |sent| => sent[i].item)
  }

  function Without<T>(s: seq<T>, k: nat): seq<T>
    requires k < |s|
  {
    s[..k] + s[k + 1..]
  }

  lemma WithoutOne<T>(s: seq<T>, k: nat)
    requires k < |s|
    ensures multiset(s) == multiset(Without(s, k)) + multiset{s[k]}
  {
    assert s == s[..k] + [s[k]] + s[k + 1..];
  }

  lemma CancelOne<T>(a: multiset<T>, b: multiset<T>, x: T)
    requires a + multiset{x} == b + multiset{x}
    ensures a == b
  {
    forall e ensures a[e] == b[e] {
      assert (a + multiset{x})[e] == (b + multiset{x})[e];
    }
  }

  lemma ItemsWithout(s: seq<Event>, k: nat)
    requires k < |s|
    ensures Items(Without(s, k)) == Without(Items(s), k)
  {
  }

  lemma {:induction false} SameEventsSameItems(a: seq<Event>, b: seq<Event>)
    requires multiset(a) == multiset(b)
    ensures multiset(Items(a)) == multiset(Items(b))
    decreases |a|
  {
    if a == [] {
      assert |multiset(b)| == 0;
    } else {
      assert a[0] in multiset(b);
      var k :| 0 <= k < |b| && b[k] == a[0];
      WithoutOne(a, 0);
      WithoutOne(b, k);
      CancelOne(multiset(Without(a, 0)), multiset(Without(b, k)), a[0]);
      SameEventsSameItems(Without(a, 0), Without(b, k));
      ItemsWithout(a, 0);
      ItemsWithout(b, k);
      WithoutOne(Items(a), 0);
      WithoutOne(Items(b), k);
    }
  }

  /** Two channels that are complete for the same walk hold the same bag of items. */
  lemma CompleteIsUnique(w: World, roots: seq<Path>, a: seq<Event>, b: seq<Event>)
    requires w.Complete(roots, a) && w.Complete(roots, b)
    ensures multiset(a) == multiset(b) && multiset(Items(a)) == multiset(Items(b))
  {
    assert forall e :: multiset(a)[e] == multiset(b)[e];
    SameEventsSameItems(a, b);
  }

  /** Run the serial engine and compare: on a tree, any finished run of the parallel engine
      delivered the same files and the same errors, each as often. */
  method CompareOnTree(w: World, roots: seq<Path>, ghost n: nat, ghost labels: seq<Label>)
    returns (tx: SerialWalk.Channel)
    requires w.Finite() && w.TreeLike(roots) && n > 0
    requires var s := Exec(w, Init(roots, n), labels); AllLeft(s) && s.open
    ensures multiset(Items(tx.sent)) == multiset(Items(Exec(w, Init(roots, n), labels).sent))
    ensures w.Complete(roots, tx.sent)
  {
    tx := new SerialWalk.Channel(None);
    ghost var serial := SerialLoop.WalkSingleThread(w, roots, tx);
    ParallelIsComplete(w, roots, n, labels);
    CompleteIsUnique(w, roots, tx.sent, Exec(w, Init(roots, n), labels).sent);
  }

  lemma {:induction false} DistinctCount(a: seq<DirId>, id: DirId)
    requires Distinct(a)
    ensures multiset(a)[id] == if id in a then 1 else 0
  {
    if a != [] {
      var n := |a| - 1;
      DistinctCount(a[..n], id);
      assert a == a[..n] + [a[n]];
    }
  }

  lemma SameIdsSameBag(a: seq<DirId>, b: seq<DirId>)
    requires Distinct(a) && Distinct(b) && ParallelReach.IdsOf(a) == ParallelReach.IdsOf(b)
    ensures multiset(a) == multiset(b)
  {
    forall id ensures multiset(a)[id] == multiset(b)[id] {
      DistinctCount(a, id);
      DistinctCount(b, id);
      assert id in a <==> id in ParallelReach.IdsOf(a);
      assert id in b <==> id in ParallelReach.IdsOf(b);
    }
  }

  /** On a graph with symlink cycles, every run of the serial engine that has emptied its queue and
      every finished run of the parallel engine expanded the same directories, each once. */
  lemma SameDirectories(w: World, roots: seq<Path>, s: SerialWalk.Serial, n: nat, labels: seq<Label>)
    requires w.Finite() && Distinct(roots) && n > 0 && Unrestricted(w) && GraphLike(w)
    requires IsSerialRun(w, roots, None, s) && s.queue == [] && !TooLongReported(w, s.sent)
    requires var t := Exec(w, Init(roots, n), labels); AllLeft(t) && t.open && !TooLongReported(w, t.sent)
    ensures multiset(s.expanded) == multiset(Exec(w, Init(roots, n), labels).expanded)
  {
    var t := Exec(w, Init(roots, n), labels);
    SerialIsReachable(w, roots, s);
    ParallelReach.ExpandedIsReachable(w, roots, n, labels);
    ReachableSetIsUnique(w, roots, ParallelReach.IdsOf(s.expanded), ParallelReach.IdsOf(t.expanded));
    SameIdsSameBag(s.expanded, t.expanded);
  }

  /** The same with conditions on the file system alone. */
  lemma SameDirectoriesOnShortPaths(w: World, roots: seq<Path>, s: SerialWalk.Serial, n: nat, labels: seq<Label>)
    requires w.Finite() && Distinct(roots) && n > 0 && Unrestricted(w) && GraphLike(w)
    requires SimplePaths.ShortOnSimplePaths(w, roots)
    requires IsSerialRun(w, roots, None, s) && s.queue == []
    requires var t := Exec(w, Init(roots, n), labels); AllLeft(t) && t.open
    ensures multiset(s.expanded) == multiset(Exec(w, Init(roots, n), labels).expanded)
  {
    SimplePaths.NeverTooLong(w, roots, n, labels);
    SimplePaths.NeverTooLongS(w, roots, None, s);
    SameDirectories(w, roots, s, n, labels);
  }

  /** Run the serial engine and compare: on a graph, `s` is the state it ended in. */
  method CompareOnGraph(w: World, roots: seq<Path>, ghost n: nat, ghost labels: seq<Label>)
    returns (tx: SerialWalk.Channel, ghost s: SerialWalk.Serial)
    requires w.Finite() && Distinct(roots) && n > 0 && Unrestricted(w) && GraphLike(w)
    requires var t := Exec(w, Init(roots, n), labels); AllLeft(t) && t.open && !TooLongReported(w, t.sent)
    ensures IsSerialRun(w, roots, None, s) && s.queue == [] && s.sent == tx.sent
    ensures forall p :: ParallelReach.SentAs(tx.sent, p) <= 1
    ensures ParallelSends.AllJustified(w, roots, tx.sent)
    ensures Distinct(s.expanded)
    ensures !TooLongReported(w, tx.sent) ==> multiset(s.expanded) == multiset(Exec(w, Init(roots, n), labels).expanded)
  {
    tx := new SerialWalk.Channel(None);
    s := SerialLoop.WalkSingleThread(w, roots, tx);
    if !TooLongReported(w, tx.sent) {
      SameDirectories(w, roots, s, n, labels);
    }
  }
}

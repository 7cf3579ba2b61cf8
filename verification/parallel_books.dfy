/**
 Where every walked path is during a parallel run: still held in the queue or by a worker,
 or settled. No path is held twice, none is held after it was settled, and a path is only
 ever held once its parent was settled. All of this holds for every file system with
 distinct roots, symlink cycles and overlapping roots included.
 */
module ParallelBooks {
  import opened Prelude
  import opened Gitignore
  import opened WalkWorld
  import opened ParallelWalk
  import opened ParallelProtocol
  import opened ParallelItems
  import opened Bags

  function One(b: bool): nat {
    if b then 1 else 0
  }

  /** How often `y` is among the children of `x` called `names`. */
  function Kids(x: Spot, names: seq<Name>, y: Spot): nat {
    if names == [] then 0 else One(x.Child(names[0]) == y) + Kids(x, names[1..], y)
  }

  /** How often `y` is among the items. */
  function Spots(items: seq<Item>, y: Spot): nat {
    if items == [] then 0 else Spots(items[..|items| - 1], y) + One(items[|items| - 1].Where() == y)
  }

  /** How often worker `k` answers for the unsettled path `y`. */
  function HeldOf(w: World, k: Worker, y: Spot): nat {
    match k
    case Popped(item) => One(item.Where() == y)
    case TestDir(item, _) => One(item.Where() == y)
    case TestRoot(item, _) => One(item.Where() == y)
    case Expand(item) => Kids(item.Where(), w.Children(item.Where()), y)
    case Reporting(item, names, _) => Kids(item.Where(), names, y)
    case Scanning(item, rest, dirs) => Kids(item.Where(), rest, y) + Spots(dirs, y)
    case TestChild(item, rest, dirs, _) => Kids(item.Where(), rest, y) + Spots(dirs, y)
    case SendChild(item, rest, dirs, _) => Kids(item.Where(), rest, y) + Spots(dirs, y)
    case _ => 0
  }

  function Held(w: World, y: Spot): Worker -> nat {
    (k: Worker) => HeldOf(w, k, y)
  }

  /** How often the run still has to settle `y`. */
  function Pending(w: World, s: State, y: Spot): nat {
    Spots(s.shared.queue, y) + SumNat(Held(w, y), s.workers)
  }

  // ---------------------------------------------------------------- counting facts

  lemma {:induction false} KidsMember(x: Spot, names: seq<Name>, y: Spot)
    ensures Kids(x, names, y) > 0 <==> exists n :: n in names && y == x.Child(n)
  {
    if names != [] {
      KidsMember(x, names[1..], y);
      assert names == [names[0]] + names[1..];
    }
  }

  lemma ChildInjective(x: Spot, m: Name, n: Name)
    requires x.Child(m) == x.Child(n)
    ensures m == n
  {
    assert x.Child(m).path[|x.path|] == m;
  }

  lemma {:induction false} KidsDistinct(x: Spot, names: seq<Name>, y: Spot)
    requires Distinct(names)
    ensures Kids(x, names, y) <= 1
  {
    if names != [] {
      KidsDistinct(x, names[1..], y);
      if y == x.Child(names[0]) {
        KidsMember(x, names[1..], y);
        forall n | n in names[1..] ensures y != x.Child(n) {
          assert n != names[0];
          if y == x.Child(n) {
            ChildInjective(x, names[0], n);
          }
        }
      }
    }
  }

  lemma {:induction false} SpotsAppend(a: seq<Item>, b: seq<Item>, y: Spot)
    ensures Spots(a + b, y) == Spots(a, y) + Spots(b, y)
  {
    if b == [] {
      assert a + b == a;
    } else {
      assert (a + b)[..|a + b| - 1] == a + b[..|b| - 1];
      SpotsAppend(a, b[..|b| - 1], y);
    }
  }

  lemma {:induction false} SpotsMember(items: seq<Item>, y: Spot)
    ensures Spots(items, y) > 0 <==> exists d :: d in items && d.Where() == y
  {
    if items != [] {
      var n := |items| - 1;
      SpotsMember(items[..n], y);
      assert items == items[..n] + [items[n]];
    }
  }

  // ---------------------------------------------------------------- one step

  /** The paths a step adds: the entries of a directory it has just claimed. */
  function Gained(w: World, k: Worker, e: Effect, y: Spot): nat {
    if k.TestDir? && e.dir.Some? then Kids(k.item.Where(), w.Children(k.item.Where()), y) else 0
  }

  function Taken(s: Shared, e: Effect, y: Spot): nat {
    if e.pop && s.queue != [] then One(s.queue[|s.queue| - 1].Where() == y) else 0
  }

  /** A step settles what it settles, gains what it gains, and moves the rest around; it lets
      go of paths only when the worker gives up. */
  predicate Balanced(w: World, s: Shared, k: Worker, e: Effect, y: Spot) {
    var after := HeldOf(w, e.next, y) + Spots(e.push, y) + One(y in e.settled);
    var before := HeldOf(w, k, y) + Taken(s, e, y) + Gained(w, k, e, y);
    after <= before && (e.next != Finishing(true) ==> after == before)
  }

  lemma ScanChildBalanced(w: World, s: Shared, item: Item, rest: seq<Name>, dirs: seq<Item>, found: Scanned, y: Spot)
    requires rest != []
    ensures Balanced(w, s, Scanning(item, rest, dirs), ScanChild(item, rest, dirs, found), y)
  {
    if found.Push? {
      var d := Item(item.Where().Child(rest[0]).path, item.depth + 1, item.root, Some(found.meta));
      SpotsAppend(dirs, [d], y);
      assert Spots([d], y) == One(d.Where() == y);
    }
  }

  lemma ScanBalanced(w: World, s: Shared, item: Item, rest: seq<Name>, dirs: seq<Item>, y: Spot)
    ensures Balanced(w, s, Scanning(item, rest, dirs), ScanNext(w, item, rest, dirs), y)
  {
    if rest != [] {
      ScanChildBalanced(w, s, item, rest, dirs, w.Scan(item.root, item.Where().Child(rest[0]).path), y);
    }
  }

  lemma VisitBalanced(w: World, s: Shared, item: Item, y: Spot)
    ensures Balanced(w, s, Popped(item), Visit(w, item), y)
  {
  }

  lemma ListBalanced(w: World, roots: seq<Path>, s: Shared, item: Item, y: Spot)
    requires Entered(w, roots, item)
    ensures Balanced(w, s, Expand(item), ListDir(w, item), y)
  {
  }

  lemma ClaimBalanced(w: World, s: Shared, item: Item, outcome: Outcome, y: Spot)
    ensures outcome.EnterDir? ==> Balanced(w, s, TestDir(item, outcome.id), ClaimDir(s, item, outcome.id), y)
    ensures outcome.OfferFile? ==> Balanced(w, s, TestRoot(item, outcome.file), ClaimRoot(s, item, outcome.file), y)
  {
  }

  lemma ClaimChildBalanced(w: World, s: Shared, item: Item, rest: seq<Name>, dirs: seq<Item>, file: WalkItem, y: Spot)
    requires rest != []
    ensures Balanced(w, s, TestChild(item, rest, dirs, file), ClaimChild(s, item, rest, dirs, file), y)
  {
  }

  lemma ReportBalanced(w: World, s: Shared, item: Item, names: seq<Name>, errors: seq<IoError>, y: Spot)
    ensures Balanced(w, s, Reporting(item, names, errors), Report(w, item, names, errors), y)
  {
    assert Spots([], y) == 0;
  }

  lemma StepBalanced(w: World, roots: seq<Path>, s: Shared, open: bool, k: Worker, y: Spot)
    requires Runnable(k) && (k.Expand? ==> Entered(w, roots, k.item))
    ensures Balanced(w, s, k, EffectOf(w, s, open, k), y)
  {
    assert Spots([], y) == 0;
    match k {
      case Popped(item) => VisitBalanced(w, s, item, y);
      case TestDir(item, id) => ClaimBalanced(w, s, item, EnterDir(id), y);
      case TestRoot(item, file) => ClaimBalanced(w, s, item, OfferFile(file), y);
      case Expand(item) => ListBalanced(w, roots, s, item, y);
      case Reporting(item, names, errors) => ReportBalanced(w, s, item, names, errors, y);
      case Scanning(item, rest, dirs) => ScanBalanced(w, s, item, rest, dirs, y);
      case TestChild(item, rest, dirs, file) =>
        if rest != [] {
          ClaimChildBalanced(w, s, item, rest, dirs, file, y);
        }
      case _ =>
    }
  }

  /** What is pending follows the balance of the step. */
  lemma PendingAfter(w: World, s: State, i: nat, e: Effect, y: Spot)
    requires i < |s.workers| && (e.pop ==> s.shared.queue != [])
    ensures Pending(w, Apply(s, i, e), y) + HeldOf(w, s.workers[i], y) + Taken(s.shared, e, y)
         == Pending(w, s, y) + HeldOf(w, e.next, y) + Spots(e.push, y)
  {
    SumAfter(Held(w, y), s, i, e);
    var q := if e.pop then s.shared.queue[..|s.shared.queue| - 1] else s.shared.queue;
    SpotsAppend(q, e.push, y);
  }

  lemma HeldIsPending(w: World, s: State, i: nat, y: Spot)
    requires i < |s.workers|
    ensures HeldOf(w, s.workers[i], y) <= Pending(w, s, y)
  {
    SumNatPart(Held(w, y), s.workers, i);
  }

  // ---------------------------------------------------------------- every path in one place

  /** A path is pending or settled, but not both and not twice; and only after its parent. */
  predicate PlacedAt(w: World, s: State, y: Spot) {
    && Pending(w, s, y) + One(y in s.done) <= 1
    && (Pending(w, s, y) > 0 || y in s.done ==> y.IsRoot() || (y.path != [] && y.Parent() in s.done))
  }

  ghost predicate Placed(w: World, s: State) {
    forall y :: PlacedAt(w, s, y)
  }

  lemma ChildIsNoRoot(x: Spot, n: Name)
    requires x.Below()
    ensures !x.Child(n).IsRoot() && x.Child(n).path != [] && x.Child(n).Parent() == x
  {
    assert x.Child(n).path[..|x.path|] == x.path;
  }

  /** A directory about to be claimed has no children anywhere yet. */
  lemma ChildrenAreNew(w: World, roots: seq<Path>, s: State, i: nat, n: Name)
    requires Placed(w, s) && i < |s.workers| && s.workers[i].TestDir? && ItemOk(w, roots, s.workers[i].item)
    ensures var y := s.workers[i].item.Where().Child(n); Pending(w, s, y) == 0 && y !in s.done
  {
    var x := s.workers[i].item.Where();
    assert PlacedAt(w, s, x) && PlacedAt(w, s, x.Child(n));
    HeldIsPending(w, s, i, x);
    ChildIsNoRoot(x, n);
  }

  lemma ApplyKeepsPlaced(w: World, roots: seq<Path>, s: State, i: nat, e: Effect, y: Spot)
    requires w.Finite() && Placed(w, s)
    requires i < |s.workers| && WorkerOk(w, roots, s.workers[i]) && (e.pop ==> s.shared.queue != [])
    requires Balanced(w, s.shared, s.workers[i], e, y)
    requires s.workers[i].TestDir? && e.dir.Some? ==> s.workers[i].item.Where() in e.settled
    ensures PlacedAt(w, Apply(s, i, e), y)
  {
    var k := s.workers[i];
    PendingAfter(w, s, i, e, y);
    assert PlacedAt(w, s, y);
    if Gained(w, k, e, y) > 0 {
      var x := k.item.Where();
      var names := w.Children(x);
      KidsMember(x, names, y);
      var n :| n in names && y == x.Child(n);
      ChildrenAreNew(w, roots, s, i, n);
      KidsDistinct(x, names, y);
      ChildIsNoRoot(x, n);
    }
  }

  lemma StepKeepsPlaced(w: World, roots: seq<Path>, s: State, l: Label)
    requires w.Finite() && ItemsOk(w, roots, s) && Placed(w, s)
    ensures Placed(w, Step(w, s, l))
  {
    if Enabled(s, l) {
      match l {
        case Run(i) =>
          var e := EffectOf(w, s.shared, s.open, s.workers[i]);
          StepShape(w, s.shared, s.open, s.workers[i]);
          forall y ensures PlacedAt(w, Apply(s, i, e), y) {
            StepBalanced(w, roots, s.shared, s.open, s.workers[i], y);
            ApplyKeepsPlaced(w, roots, s, i, e, y);
          }
        case Wake(i) =>
          forall y ensures PlacedAt(w, Step(w, s, l), y) {
            SumNatUpdate(Held(w, y), s.workers, i, Ready);
            assert PlacedAt(w, s, y);
          }
        case CloseChannel =>
          forall y ensures PlacedAt(w, Step(w, s, l), y) {
            assert PlacedAt(w, s, y);
          }
      }
    }
  }

  lemma {:induction false} RootSpots(roots: seq<Path>, y: Spot)
    requires Distinct(roots)
    ensures Spots(RootItems(roots), y) == One(y.IsRoot() && y.root in roots)
  {
    if roots != [] {
      var n := |roots| - 1;
      RootSpots(roots[..n], y);
      assert RootItems(roots)[..n] == RootItems(roots[..n]);
      assert roots == roots[..n] + [roots[n]];
      assert roots[n] !in roots[..n];
    }
  }

  lemma InitPlaced(w: World, roots: seq<Path>, n: nat)
    requires Distinct(roots)
    ensures Placed(w, Init(roots, n))
    ensures forall y :: Pending(w, Init(roots, n), y) == One(y.IsRoot() && y.root in roots)
  {
    forall y
      ensures PlacedAt(w, Init(roots, n), y)
      ensures Pending(w, Init(roots, n), y) == One(y.IsRoot() && y.root in roots)
    {
      SumNatZero(Held(w, y), Init(roots, n).workers);
      RootSpots(roots, y);
    }
  }

  lemma {:induction false} RunsKeepPlaced(w: World, roots: seq<Path>, n: nat, labels: seq<Label>)
    requires w.Finite() && Distinct(roots)
    ensures Placed(w, Exec(w, Init(roots, n), labels))
  {
    if labels == [] {
      InitPlaced(w, roots, n);
    } else {
      var before := labels[..|labels| - 1];
      RunsKeepPlaced(w, roots, n, before);
      RunsKeepItems(w, roots, n, before);
      StepKeepsPlaced(w, roots, Exec(w, Init(roots, n), before), labels[|labels| - 1]);
    }
  }
}

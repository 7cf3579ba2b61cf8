/**
 The order in which the serial engine sends files: level by level below the roots, and the files of
 one directory in the order of its listing.
 */
module SerialOrder {
  import opened Prelude
  import opened Gitignore
  import opened WalkWorld
  import opened ParallelWalk
  import opened ParallelBooks
  import opened SerialWalk
  import opened SerialBooks
  import opened SerialRuns

  // ---------------------------------------------------------------- the order

  predicate Siblings(x: Spot, y: Spot) {
    !x.IsRoot() && !y.IsRoot() && x.path != [] && y.path != [] && x.Parent() == y.Parent()
  }

  /** The listing of the directory they lie in has the name of `x` before that of `y`. */
  predicate ListedBefore(w: World, x: Spot, y: Spot)
    requires Siblings(x, y)
  {
    var listing := w.list(x.Parent().path);
    listing.Listed? &&
    exists i, j :: 0 <= i < j < |listing.names|
      && listing.names[i] == x.path[|x.path| - 1] && listing.names[j] == y.path[|y.path| - 1]
  }

  predicate GivenBefore(roots: seq<Path>, x: Spot, y: Spot) {
    exists i, j :: 0 <= i < j < |roots| && roots[i] == x.root && roots[j] == y.root
  }

  /** `x` is less deep than `y`, or as deep; roots and files of one directory are in their order. */
  predicate Before(w: World, roots: seq<Path>, x: Spot, y: Spot) {
    && x.Below() && y.Below() && x.Depth() <= y.Depth()
    && (x.Depth() == y.Depth() && Siblings(x, y) ==> ListedBefore(w, x, y))
    && (x.IsRoot() && y.IsRoot() ==> GivenBefore(roots, x, y))
  }

  // ---------------------------------------------------------------- children

  lemma {:induction false} KeptAt(w: World, x: Spot, depth: nat, names: seq<Name>, k: nat) returns (i: nat)
    requires k < |Kept(w, x, depth, names)|
    ensures i < |names| && Kept(w, x, depth, names)[k].Where() == x.Child(names[i])
    decreases names
  {
    var first := if w.TooLong(x.Child(names[0]).path) then 0 else 1;
    if k < first {
      i := 0;
    } else {
      var rest := KeptAt(w, x, depth, names[1..], k - first);
      i := rest + 1;
    }
  }

  /** Children are queued in the order of the listing. */
  lemma {:induction false} KeptInOrder(w: World, x: Spot, depth: nat, names: seq<Name>, a: nat, b: nat)
    returns (i: nat, j: nat)
    requires a < b < |Kept(w, x, depth, names)|
    ensures i < j < |names|
    ensures Kept(w, x, depth, names)[a].Where() == x.Child(names[i])
    ensures Kept(w, x, depth, names)[b].Where() == x.Child(names[j])
    decreases names
  {
    var first := if w.TooLong(x.Child(names[0]).path) then 0 else 1;
    if a < first {
      i := 0;
      var rest := KeptAt(w, x, depth, names[1..], b - first);
      j := rest + 1;
    } else {
      var m, n := KeptInOrder(w, x, depth, names[1..], a - first, b - first);
      i, j := m + 1, n + 1;
    }
  }

  lemma ChildrenBefore(w: World, roots: seq<Path>, x: Spot, depth: nat, names: seq<Name>, a: nat, b: nat)
    requires x.Below() && w.list(x.path).Listed? && w.list(x.path).names == names
    requires a < b < |Kept(w, x, depth, names)|
    ensures var kept := Kept(w, x, depth, names); Before(w, roots, kept[a].Where(), kept[b].Where())
  {
    var i, j := KeptInOrder(w, x, depth, names, a, b);
    var y, z := x.Child(names[i]), x.Child(names[j]);
    assert y.path[..|y.path| - 1] == x.path && z.path[..|z.path| - 1] == x.path;
    assert ListedBefore(w, y, z) by {
      var listing := w.list(y.Parent().path);
      assert listing.names[i] == y.path[|y.path| - 1] && listing.names[j] == z.path[|z.path| - 1];
    }
  }

  // ---------------------------------------------------------------- what every turn keeps

  type ItemOrder = (Item, Item) -> bool

  function Earlier(w: World, roots: seq<Path>): ItemOrder {
    (x: Item, y: Item) => Before(w, roots, x.Where(), y.Where())
  }

  predicate Sorted(order: ItemOrder, items: seq<Item>) {
    forall a, b :: 0 <= a < b < |items| ==> order(items[a], items[b])
  }

  /** Two levels stand in the queue at most. */
  predicate TwoLevels(queue: seq<Item>) {
    forall a :: 0 <= a < |queue| ==> NearTo(queue[0].Where(), queue[a].Where())
  }

  predicate QueueInOrder(w: World, roots: seq<Path>, queue: seq<Item>) {
    Sorted(Earlier(w, roots), queue) && TwoLevels(queue)
  }

  predicate FilesBefore(w: World, roots: seq<Path>, sent: seq<Event>, y: Spot) {
    forall i :: 0 <= i < |sent| && sent[i].item.File? ==> Before(w, roots, sent[i].at, y)
  }

  predicate SentInOrder(w: World, roots: seq<Path>, sent: seq<Event>) {
    forall i, j :: 0 <= i < j < |sent| && sent[i].item.File? && sent[j].item.File? ==>
      Before(w, roots, sent[i].at, sent[j].at)
  }

  predicate OrderOk(w: World, roots: seq<Path>, s: Serial) {
    && QueueInOrder(w, roots, s.queue) && SentInOrder(w, roots, s.sent)
    && forall b :: 0 <= b < |s.queue| ==> FilesBefore(w, roots, s.sent, s.queue[b].Where())
  }

  /** A child of the directory of the turn comes after everything that was queued before. */
  lemma ChildComesLast(w: World, roots: seq<Path>, s: Serial, a: nat, c: Spot)
    requires QueueOk(w, roots, s) && QueueInOrder(w, roots, s.queue) && 0 < a < |s.queue|
    requires c.path != [] && !c.IsRoot() && c.Parent() == s.queue[0].Where()
    ensures Before(w, roots, s.queue[a].Where(), c)
  {
    var x, y := s.queue[0].Where(), s.queue[a].Where();
    SpotsMember(s.queue, x);
    SpotsMember(s.queue, y);
    assert PlacedAtS(s, x) && PlacedAtS(s, y) && NearTo(x, y);
    assert c.root == x.root && x.path == c.path[..|c.path| - 1];
  }

  /** Everything in `queue` but its first item comes before everything in `kept`. */
  predicate Follow(order: ItemOrder, queue: seq<Item>, kept: seq<Item>) {
    forall a, b :: 0 < a < |queue| && 0 <= b < |kept| ==> order(queue[a], kept[b])
  }

  lemma AppendSorted(order: ItemOrder, queue: seq<Item>, kept: seq<Item>)
    requires queue != [] && Sorted(order, queue) && Sorted(order, kept) && Follow(order, queue, kept)
    ensures Sorted(order, queue[1..] + kept)
  {
    var all, n := queue[1..] + kept, |queue| - 1;
    forall a, b | 0 <= a < b < |all| ensures order(all[a], all[b]) {
      assert all[a] == if a < n then queue[a + 1] else kept[a - n];
      assert all[b] == if b < n then queue[b + 1] else kept[b - n];
    }
  }

  predicate ChildrenOf(x: Spot, kept: seq<Item>) {
    forall b :: 0 <= b < |kept| ==> ChildOf(x, kept[b].Where())
  }

  lemma AppendLevels(w: World, roots: seq<Path>, queue: seq<Item>, kept: seq<Item>)
    requires queue != [] && QueueInOrder(w, roots, queue) && ChildrenOf(queue[0].Where(), kept)
    ensures TwoLevels(queue[1..] + kept)
  {
    var all, n, x := queue[1..] + kept, |queue| - 1, queue[0].Where();
    forall a | 0 <= a < |all| ensures NearTo(x, all[a].Where()) && (a < n || all[a].Where().Depth() == x.Depth() + 1) {
      if a < n {
        assert all[a] == queue[a + 1] && NearTo(x, queue[a + 1].Where());
      } else {
        assert all[a] == kept[a - n] && ChildOf(x, kept[a - n].Where());
      }
    }
    forall a | 0 <= a < |all| ensures NearTo(all[0].Where(), all[a].Where()) {
      if 0 < a < n {
        assert Earlier(w, roots)(queue[1], queue[a + 1]);
      }
    }
  }

  lemma ChildrenFollow(w: World, roots: seq<Path>, s: Serial)
    requires s.queue != [] && QueueOk(w, roots, s) && QueueInOrder(w, roots, s.queue)
    ensures var x := s.queue[0].Where();
      var kept := Kept(w, x, s.queue[0].depth, Fan(w, s, x));
      && ChildrenOf(x, kept) && Sorted(Earlier(w, roots), kept) && Follow(Earlier(w, roots), s.queue, kept)
  {
    var x, names := s.queue[0].Where(), Fan(w, s, s.queue[0].Where());
    var kept := Kept(w, x, s.queue[0].depth, names);
    assert NearTo(x, s.queue[0].Where());
    forall b | 0 <= b < |kept| ensures ChildOf(x, kept[b].Where()) {
      var i := KeptAt(w, x, s.queue[0].depth, names, b);
      assert x.Child(names[i]).path[..|x.path|] == x.path;
    }
    forall a, b | 0 <= a < b < |kept| ensures Before(w, roots, kept[a].Where(), kept[b].Where()) {
      ChildrenBefore(w, roots, x, s.queue[0].depth, names, a, b);
    }
    forall a, b | 0 < a < |s.queue| && 0 <= b < |kept|
      ensures Before(w, roots, s.queue[a].Where(), kept[b].Where())
    {
      assert ChildOf(x, kept[b].Where());
      ChildComesLast(w, roots, s, a, kept[b].Where());
    }
  }

  lemma QueueAfterTurn(w: World, roots: seq<Path>, s: Serial)
    requires s.queue != [] && QueueOk(w, roots, s) && QueueInOrder(w, roots, s.queue)
    ensures QueueInOrder(w, roots, Turn(w, s).0.queue)
  {
    var kept := Kept(w, s.queue[0].Where(), s.queue[0].depth, Fan(w, s, s.queue[0].Where()));
    assert s.queue[0] in s.queue;
    TurnShape(w, roots, s);
    ChildrenFollow(w, roots, s);
    AppendSorted(Earlier(w, roots), s.queue, kept);
    AppendLevels(w, roots, s.queue, kept);
  }

  predicate ChildOf(x: Spot, c: Spot) {
    c.path != [] && !c.IsRoot() && c.Below() && x.Below() && c.Parent() == x && c.Depth() == x.Depth() + 1
  }

  predicate NearTo(x: Spot, y: Spot) {
    x.Below() && y.Below() && x.Depth() <= y.Depth() <= x.Depth() + 1
  }

  /** A turn sends one file at most, that of the path it visits. */
  lemma TurnFile(w: World, s: Serial, i: nat)
    requires s.queue != [] && i < |TurnEvents(w, s)| && TurnEvents(w, s)[i].item.File?
    ensures w.Classify(s.queue[0].Where()).OfferFile? && i == 0 && |TurnEvents(w, s)| == 1
    ensures TurnEvents(w, s)[i].at == s.queue[0].Where()
  {
    var x := s.queue[0].Where();
    match w.Classify(x)
    case Drop(sends) => assert forall k :: 0 <= k < |sends| ==> sends[k].Error?;
    case EnterDir(_) => EnterSendsNoFile(w, s.queue[0]);
    case OfferFile(_) =>
  }

  lemma EnterSendsNoFile(w: World, item: Item)
    ensures forall k :: 0 <= k < |EnterEvents(w, item)| ==> EnterEvents(w, item)[k].item.Error?
  {
    var x := item.Where();
    if w.DepthAllows(item.depth) && w.list(item.path).Listed? {
      RefusedAreErrors(w, x, w.list(item.path).names);
    }
  }

  lemma {:induction false} RefusedAreErrors(w: World, x: Spot, names: seq<Name>)
    ensures forall k :: 0 <= k < |Refused(w, x, names)| ==> Refused(w, x, names)[k].item.Error?
  {
    if names != [] {
      RefusedAreErrors(w, x, names[1..]);
    }
  }

  /** The channel after a turn: what was there, and the beginning of what the turn sends. */
  lemma SentAfterTurn(w: World, s: Serial, i: nat)
    requires s.queue != [] && i < |Turn(w, s).0.sent| && Turn(w, s).0.sent[i].item.File?
    ensures i < |s.sent| ==> Turn(w, s).0.sent[i] == s.sent[i]
    ensures i >= |s.sent| ==>
      i == |s.sent| && w.Classify(s.queue[0].Where()).OfferFile? && Turn(w, s).0.sent[i].at == s.queue[0].Where()
  {
    TurnDelivers(w, s);
    if i >= |s.sent| {
      assert Turn(w, s).0.sent[i] == TurnEvents(w, s)[i - |s.sent|];
      TurnFile(w, s, i - |s.sent|);
    }
  }

  lemma TurnKeepsOrder(w: World, roots: seq<Path>, s: Serial)
    requires s.queue != [] && QueueOk(w, roots, s) && OrderOk(w, roots, s)
    ensures OrderOk(w, roots, Turn(w, s).0)
  {
    var x, s' := s.queue[0].Where(), Turn(w, s).0;
    QueueAfterTurn(w, roots, s);
    forall i, j | 0 <= i < j < |s'.sent| && s'.sent[i].item.File? && s'.sent[j].item.File?
      ensures Before(w, roots, s'.sent[i].at, s'.sent[j].at)
    {
      SentAfterTurn(w, s, i);
      SentAfterTurn(w, s, j);
      assert FilesBefore(w, roots, s.sent, s.queue[0].Where());
    }
    forall b | 0 <= b < |s'.queue| ensures FilesBefore(w, roots, s'.sent, s'.queue[b].Where()) {
      QueuedAfterFiles(w, roots, s, b);
    }
  }

  lemma QueuedAfterFiles(w: World, roots: seq<Path>, s: Serial, b: nat)
    requires s.queue != [] && QueueOk(w, roots, s) && OrderOk(w, roots, s) && b < |Turn(w, s).0.queue|
    ensures FilesBefore(w, roots, Turn(w, s).0.sent, Turn(w, s).0.queue[b].Where())
  {
    var x, s' := s.queue[0].Where(), Turn(w, s).0;
    var names, n := Fan(w, s, x), |s.queue| - 1;
    assert s.queue[0] in s.queue;
    TurnShape(w, roots, s);
    var y := s'.queue[b].Where();
    if b < n {
      assert y == s.queue[b + 1].Where();
    } else {
      var i := KeptAt(w, x, s.queue[0].depth, names, b - n);
      assert y == x.Child(names[i]) && y.path[..|x.path|] == x.path;
    }
    forall i | 0 <= i < |s'.sent| && s'.sent[i].item.File? ensures Before(w, roots, s'.sent[i].at, y) {
      SentAfterTurn(w, s, i);
      if i < |s.sent| {
        assert FilesBefore(w, roots, s.sent, x);
        if b < n {
          assert FilesBefore(w, roots, s.sent, s.queue[b + 1].Where());
        }
      } else {
        assert b < n && Earlier(w, roots)(s.queue[0], s.queue[b + 1]);
      }
    }
  }

  // ---------------------------------------------------------------- every run

  /** A root as it is queued at first. */
  predicate QueuedRoot(roots: seq<Path>, item: Item) {
    item == Item(item.root, 0, item.root, None) && item.root in roots
  }

  lemma RootComesLast(w: World, all: seq<Path>, init: seq<Path>, item: Item, r: Path)
    requires init + [r] <= all && QueuedRoot(init, item)
    ensures Before(w, all, item.Where(), Spot(r, r)) && NearTo(item.Where(), Spot(r, r))
  {
    var i :| 0 <= i < |init| && init[i] == item.root;
    assert all[i] == (init + [r])[i] == item.root && all[|init|] == (init + [r])[|init|] == r;
    assert GivenBefore(all, item.Where(), Spot(r, r));
  }

  lemma {:induction false} StartInOrder(w: World, roots: seq<Path>, room: Option<nat>, all: seq<Path>)
    requires roots <= all
    ensures QueueInOrder(w, all, Start(w, roots, room).queue)
  {
    if roots != [] {
      var init, r := roots[..|roots| - 1], roots[|roots| - 1];
      StartInOrder(w, init, room, all);
      StartItems(w, init, room);
      var queue := Start(w, init, room).queue;
      assert init + [r] == roots;
      forall a | 0 <= a < |queue|
        ensures Before(w, all, queue[a].Where(), Spot(r, r)) && NearTo(queue[a].Where(), Spot(r, r))
      {
        assert queue[a] in queue;
        RootComesLast(w, all, init, queue[a], r);
      }
    }
  }

  ghost predicate OrderKept(w: World, roots: seq<Path>, l: Loop) {
    QueueOk(w, roots, l.s) && OrderOk(w, roots, l.s)
  }

  lemma StepKeepsOrder(w: World, roots: seq<Path>, l: Loop)
    requires w.Finite() && OrderKept(w, roots, l)
    ensures OrderKept(w, roots, LoopStep(w, l))
  {
    if !l.Over() {
      TurnKeepsQueue(w, roots, l.s);
      TurnKeepsOrder(w, roots, l.s);
    }
  }

  lemma TurnsKeepOrder(w: World, roots: seq<Path>, room: Option<nat>, k: nat)
    requires w.Finite() && Distinct(roots)
    ensures OrderKept(w, roots, AfterTurns(w, roots, room, k))
  {
    var inv := (l: Loop) => OrderKept(w, roots, l);
    var s := Start(w, roots, room);
    StartIsOk(w, roots, room);
    StartInOrder(w, roots, room, roots);
    StartItems(w, roots, room);
    assert forall i :: 0 <= i < |s.sent| ==> s.sent[i] in s.sent;
    forall l | inv(l) ensures inv(Steps(w)(l)) {
      StepKeepsOrder(w, roots, l);
    }
    Always(Steps(w), inv, Loop(s, true), k);
  }

  /** In every serial run no file is sent after a deeper one, files of one directory are sent in the
      order of its listing, and roots that are files in the order they were given. */
  lemma SerialInOrder(w: World, roots: seq<Path>, room: Option<nat>, s: Serial, i: nat, j: nat)
    requires w.Finite() && Distinct(roots) && IsSerialRun(w, roots, room, s)
    requires i < j < |s.sent| && s.sent[i].item.File? && s.sent[j].item.File?
    ensures Before(w, roots, s.sent[i].at, s.sent[j].at)
  {
    var k: nat :| s == AfterTurns(w, roots, room, k).s;
    TurnsKeepOrder(w, roots, room, k);
  }
}

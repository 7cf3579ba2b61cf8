/** What every turn of the serial loop keeps, and what it means when the queue runs empty. */
module SerialBooks {
  import opened Prelude
  import opened Gitignore
  import opened WalkWorld
  import opened ParallelWalk
  import opened ParallelItems
  import opened ParallelBooks
  import opened ParallelComplete
  import opened SerialWalk
  import opened DirGraph
  import ParallelReach

  // ---------------------------------------------------------------- invariants

  predicate PlacedAtS(s: Serial, y: Spot) {
    && Spots(s.queue, y) + One(y in s.done) <= 1
    && (Spots(s.queue, y) > 0 || y in s.done ==> y.IsRoot() || (y.path != [] && y.Parent() in s.done))
  }

  /** Queue and settled paths, in every world with distinct roots. */
  ghost predicate QueueOk(w: World, roots: seq<Path>, s: Serial) {
    && (forall item :: item in s.queue ==> ItemOk(w, roots, item))
    && (forall x :: x in s.done ==> w.Walked(roots, x))
    && (forall y :: PlacedAtS(s, y))
  }

  /** The visited sets are the settled directories and files; each directory is claimed once. */
  ghost predicate SetsOk(w: World, s: Serial) {
    && (forall id :: id in s.visitedDirs ==> id in w.ids && exists x :: x in s.done && w.Classify(x) == EnterDir(id))
    && (forall x :: x in s.done && w.Classify(x).EnterDir? ==> w.Classify(x).id in s.visitedDirs)
    && (forall p :: p in s.visitedFiles ==> exists x :: x in s.done && x.path == p)
    && Distinct(s.expanded) && (forall id :: id in s.expanded <==> id in s.visitedDirs)
  }

  predicate KnownS(s: Serial, y: Spot) {
    Spots(s.queue, y) > 0 || y in s.done
  }

  ghost predicate ClosedS(w: World, roots: seq<Path>, s: Serial) {
    && (forall r :: r in roots ==> KnownS(s, Spot(r, r)))
    && (forall x, n :: x in s.done && n in w.Children(x) ==> KnownS(s, x.Child(n)))
  }

  predicate DueAtS(w: World, s: Serial, ev: Event) {
    multiset(s.sent)[ev] == if ev.at in s.done then Times(ev.at, w.Emits(ev.at), ev) else 0
  }

  // ---------------------------------------------------------------- one turn

  /** The directory of the turn is new. */
  predicate IsNew(w: World, s: Serial, x: Spot) {
    match w.Classify(x)
    case EnterDir(id) => id !in s.visitedDirs
    case OfferFile(_) => x.path !in s.visitedFiles
    case Drop(_) => true
  }

  /** The entries the turn on `x` looks at. */
  function Fan(w: World, s: Serial, x: Spot): seq<Name> {
    if w.Classify(x).EnterDir? && IsNew(w, s, x) then w.Children(x) else []
  }

  function Settled(w: World, s: Serial, x: Spot): set<Spot> {
    {x} + RefusedSpots(w, x, Fan(w, s, x))
  }

  lemma TurnShape(w: World, roots: seq<Path>, s: Serial)
    requires s.queue != [] && ItemOk(w, roots, s.queue[0])
    ensures var x := s.queue[0].Where(); var s' := Turn(w, s).0;
      && s'.queue == s.queue[1..] + Kept(w, x, s.queue[0].depth, Fan(w, s, x))
      && s'.done == s.done + Settled(w, s, x)
      && s'.visitedFiles == (if w.Classify(x).OfferFile? then s.visitedFiles + {x.path} else s.visitedFiles)
      && (if w.Classify(x).EnterDir? && IsNew(w, s, x)
          then s'.visitedDirs == s.visitedDirs + {w.Classify(x).id} && s'.expanded == s.expanded + [w.Classify(x).id]
          else s'.visitedDirs == s.visitedDirs && s'.expanded == s.expanded)
  {
    var x := s.queue[0].Where();
    assert RefusedSpots(w, x, []) == {};
  }

  lemma TurnBalance(w: World, roots: seq<Path>, s: Serial, y: Spot)
    requires s.queue != [] && ItemOk(w, roots, s.queue[0])
    ensures var x := s.queue[0].Where();
      Spots(Turn(w, s).0.queue, y) + One(y == x) + (if w.TooLong(y.path) then Kids(x, Fan(w, s, x), y) else 0)
        == Spots(s.queue, y) + Kids(x, Fan(w, s, x), y)
    ensures var x := s.queue[0].Where();
      y in Settled(w, s, x) <==> y == x || (w.TooLong(y.path) && Kids(x, Fan(w, s, x), y) > 0)
  {
    var item := s.queue[0];
    var x := item.Where();
    TurnShape(w, roots, s);
    assert s.queue == [item] + s.queue[1..];
    SpotsAppend([item], s.queue[1..], y);
    assert [item][..0] == [];
    assert Spots([item], y) == One(x == y);
    SpotsAppend(s.queue[1..], Kept(w, x, item.depth, Fan(w, s, x)), y);
    KeptCount(w, x, item.depth, Fan(w, s, x), y);
    RefusedMember(w, x, Fan(w, s, x), y);
  }

  lemma TurnKeepsQueue(w: World, roots: seq<Path>, s: Serial)
    requires w.Finite() && s.queue != [] && QueueOk(w, roots, s)
    ensures QueueOk(w, roots, Turn(w, s).0)
  {
    var item := s.queue[0];
    var x := item.Where();
    var s' := Turn(w, s).0;
    var names := Fan(w, s, x);
    TurnShape(w, roots, s);
    if names != [] {
      KeptItemsOk(w, roots, item, names);
    }
    forall y | y in s'.done ensures w.Walked(roots, y) {
      TurnBalance(w, roots, s, y);
      if y !in s.done && y != x {
        KidsMember(x, names, y);
        var n :| n in names && y == x.Child(n);
        w.WalkedChild(roots, x, n);
      }
    }
    forall y ensures PlacedAtS(s', y) {
      TurnKeepsPlaced(w, roots, s, y);
    }
  }

  lemma TurnKeepsPlaced(w: World, roots: seq<Path>, s: Serial, y: Spot)
    requires w.Finite() && s.queue != [] && QueueOk(w, roots, s)
    ensures PlacedAtS(Turn(w, s).0, y)
  {
    var x := s.queue[0].Where();
    var names := Fan(w, s, x);
    TurnShape(w, roots, s);
    TurnBalance(w, roots, s, y);
    TurnBalance(w, roots, s, x);
    assert PlacedAtS(s, y) && PlacedAtS(s, x);
    SpotsMember(s.queue, x);
    if Kids(x, names, y) > 0 {
      KidsMember(x, names, y);
      KidsDistinct(x, names, y);
      var n :| n in names && y == x.Child(n);
      ChildIsNoRoot(x, n);
    }
  }

  lemma TurnKeepsSets(w: World, roots: seq<Path>, s: Serial)
    requires w.Finite() && s.queue != [] && QueueOk(w, roots, s) && SetsOk(w, s)
    ensures SetsOk(w, Turn(w, s).0)
  {
    var s' := Turn(w, s).0;
    forall id | id in s'.visitedDirs
      ensures id in w.ids && exists z :: z in s'.done && w.Classify(z) == EnterDir(id)
    {
      TurnKeepsDir(w, roots, s, id);
    }
    forall z | z in s'.done && w.Classify(z).EnterDir? ensures w.Classify(z).id in s'.visitedDirs {
      TurnKeepsEntered(w, roots, s, z);
    }
    forall p | p in s'.visitedFiles ensures exists z :: z in s'.done && z.path == p {
      TurnKeepsFile(w, roots, s, p);
    }
    TurnExpands(w, roots, s);
  }

  lemma TurnExpands(w: World, roots: seq<Path>, s: Serial)
    requires s.queue != [] && ItemOk(w, roots, s.queue[0]) && SetsOk(w, s)
    ensures var s' := Turn(w, s).0; Distinct(s'.expanded) && forall id :: id in s'.expanded <==> id in s'.visitedDirs
  {
    TurnShape(w, roots, s);
  }

  lemma TurnKeepsDir(w: World, roots: seq<Path>, s: Serial, id: DirId)
    requires w.Finite() && s.queue != [] && ItemOk(w, roots, s.queue[0]) && SetsOk(w, s)
    requires id in Turn(w, s).0.visitedDirs
    ensures id in w.ids && exists z :: z in Turn(w, s).0.done && w.Classify(z) == EnterDir(id)
  {
    TurnShape(w, roots, s);
    if id in s.visitedDirs {
      var z :| z in s.done && w.Classify(z) == EnterDir(id);
      assert z in Turn(w, s).0.done;
    } else {
      assert s.queue[0].Where() in Turn(w, s).0.done;
    }
  }

  lemma TurnKeepsEntered(w: World, roots: seq<Path>, s: Serial, z: Spot)
    requires w.Finite() && s.queue != [] && QueueOk(w, roots, s) && SetsOk(w, s)
    requires z in Turn(w, s).0.done && w.Classify(z).EnterDir?
    ensures w.Classify(z).id in Turn(w, s).0.visitedDirs
  {
    TurnShape(w, roots, s);
    TurnBalance(w, roots, s, z);
  }

  lemma TurnKeepsFile(w: World, roots: seq<Path>, s: Serial, p: Path)
    requires s.queue != [] && ItemOk(w, roots, s.queue[0]) && SetsOk(w, s)
    requires p in Turn(w, s).0.visitedFiles
    ensures exists z :: z in Turn(w, s).0.done && z.path == p
  {
    TurnShape(w, roots, s);
    if p in s.visitedFiles {
      var z :| z in s.done && z.path == p;
      assert z in Turn(w, s).0.done;
    } else {
      assert s.queue[0].Where() in Turn(w, s).0.done;
    }
  }

  lemma TurnKeepsKnown(w: World, roots: seq<Path>, s: Serial, y: Spot)
    requires s.queue != [] && ItemOk(w, roots, s.queue[0])
    requires KnownS(s, y) || Kids(s.queue[0].Where(), Fan(w, s, s.queue[0].Where()), y) > 0
    ensures KnownS(Turn(w, s).0, y)
  {
    TurnShape(w, roots, s);
    TurnBalance(w, roots, s, y);
  }

  // ---------------------------------------------------------------- on a tree

  lemma TreeIsNew(w: World, roots: seq<Path>, s: Serial)
    requires w.TreeLike(roots) && s.queue != [] && QueueOk(w, roots, s) && SetsOk(w, s)
    ensures IsNew(w, s, s.queue[0].Where())
  {
    var x := s.queue[0].Where();
    SpotsMember(s.queue, x);
    assert PlacedAtS(s, x);
    forall z | z in s.done
      ensures z.path != x.path && (w.Classify(z).EnterDir? ==> w.Classify(z) != w.Classify(x))
    {
      assert z != x && w.Walked(roots, z);
      assert z.path == x.path ==> z.root <= x.root || x.root <= z.root;
    }
  }

  lemma TurnKeepsClosed(w: World, roots: seq<Path>, s: Serial)
    requires s.queue != [] && ItemOk(w, roots, s.queue[0]) && IsNew(w, s, s.queue[0].Where())
    requires ClosedS(w, roots, s)
    ensures ClosedS(w, roots, Turn(w, s).0)
  {
    var x := s.queue[0].Where();
    var s' := Turn(w, s).0;
    TurnShape(w, roots, s);
    forall r | r in roots ensures KnownS(s', Spot(r, r)) {
      TurnKeepsKnown(w, roots, s, Spot(r, r));
    }
    forall z, n | z in s'.done && n in w.Children(z) ensures KnownS(s', z.Child(n)) {
      if z !in s.done {
        TurnBalance(w, roots, s, z);
        KidsMember(x, w.Children(x), x.Child(n));
      }
      TurnKeepsKnown(w, roots, s, z.Child(n));
    }
  }

  /** With the receiver there, the channel grows by what the settled visits send. */
  lemma TurnKeepsDue(w: World, roots: seq<Path>, s: Serial, ev: Event)
    requires w.Finite() && s.queue != [] && QueueOk(w, roots, s) && IsNew(w, s, s.queue[0].Where())
    requires s.room.None? && DueAtS(w, s, ev)
    ensures DueAtS(w, Turn(w, s).0, ev) && Turn(w, s).0.room.None?
  {
    var x := s.queue[0].Where();
    TurnShape(w, roots, s);
    TurnSends(w, roots, s, ev);
    TurnIncurs(w, roots, s, ev);
    if ev.at in Settled(w, s, x) {
      SettledIsNew(w, roots, s, ev.at);
    }
  }

  lemma SettledIsNew(w: World, roots: seq<Path>, s: Serial, y: Spot)
    requires w.Finite() && s.queue != [] && QueueOk(w, roots, s)
    requires y in Settled(w, s, s.queue[0].Where())
    ensures y !in s.done
  {
    var x := s.queue[0].Where();
    SpotsMember(s.queue, x);
    assert PlacedAtS(s, x) && PlacedAtS(s, y);
    TurnBalance(w, roots, s, y);
    if y != x {
      KidsMember(x, Fan(w, s, x), y);
      var n :| n in Fan(w, s, x) && y == x.Child(n);
      ChildIsNoRoot(x, n);
    }
  }

  /** The sends of a turn are those of the visits it settles. */
  lemma TurnIncurs(w: World, roots: seq<Path>, s: Serial, ev: Event)
    requires w.Finite() && s.queue != [] && QueueOk(w, roots, s)
    ensures var x := s.queue[0].Where();
      Times(x, w.Emits(x), ev)
        + (if w.TooLong(ev.at.path) && ev.item == w.TooLongError(ev.at.path) then Kids(x, Fan(w, s, x), ev.at) else 0)
      == if ev.at in Settled(w, s, x) then Times(ev.at, w.Emits(ev.at), ev) else 0
  {
    var x := s.queue[0].Where();
    var names := Fan(w, s, x);
    TurnBalance(w, roots, s, ev.at);
    if Kids(x, names, ev.at) > 0 {
      KidsMember(x, names, ev.at);
      KidsDistinct(x, names, ev.at);
      assert ev.at != x;
    }
    if w.TooLong(ev.at.path) {
      assert w.Emits(ev.at) == [w.TooLongError(ev.at.path)];
      assert multiset(w.Emits(ev.at))[ev.item] == One(ev.item == w.TooLongError(ev.at.path));
    }
  }

  lemma TurnSends(w: World, roots: seq<Path>, s: Serial, ev: Event)
    requires s.queue != [] && ItemOk(w, roots, s.queue[0]) && IsNew(w, s, s.queue[0].Where()) && s.room.None?
    ensures Turn(w, s).0.room.None?
    ensures var x := s.queue[0].Where();
      multiset(Turn(w, s).0.sent)[ev] == multiset(s.sent)[ev] + Times(x, w.Emits(x), ev)
        + (if w.TooLong(ev.at.path) && ev.item == w.TooLongError(ev.at.path) then Kids(x, Fan(w, s, x), ev.at) else 0)
  {
    var item := s.queue[0];
    var x := item.Where();
    match w.Classify(x) {
      case Drop(sends) => AtTimes(x, sends, ev);
      case OfferFile(file) => assert multiset([file])[ev.item] == One(ev.item == file);
      case EnterDir(id) =>
        EnterSends(w, s.(queue := s.queue[1..], requests := s.requests + Asks(w, item)), item, id, ev);
    }
  }

  lemma EnterSends(w: World, s: Serial, item: Item, id: DirId, ev: Event)
    requires s.room.None? && item.depth == |item.path| - |item.root|
    ensures EnterNew(w, s, item, id).room.None?
    ensures var x := item.Where();
      var names := if w.DepthAllows(item.depth) && w.list(item.path).Listed? then w.list(item.path).names else [];
      multiset(EnterNew(w, s, item, id).sent)[ev] == multiset(s.sent)[ev] + Times(x, w.ListingSends(x), ev)
        + (if w.TooLong(ev.at.path) && ev.item == w.TooLongError(ev.at.path) then Kids(x, names, ev.at) else 0)
  {
    var x := item.Where();
    if w.DepthAllows(item.depth) && w.list(item.path).Listed? {
      var own := At(x, w.EntryErrors(item.path, w.list(item.path).entryErrors));
      var refused := Refused(w, x, w.list(item.path).names);
      AtTimes(x, w.EntryErrors(item.path, w.list(item.path).entryErrors), ev);
      RefusedCount(w, x, w.list(item.path).names, ev);
      assert EnterNew(w, s, item, id).sent == s.sent + (own + refused);
    }
  }

  // ---------------------------------------------------------------- on any directory graph

  /** The visit `x` claimed the directory `id`, all its entries are accounted for, and what its
      listing calls for was sent. */
  ghost predicate AccountedByS(w: World, s: Serial, id: DirId, x: Spot) {
    && x in s.done && w.Classify(x) == EnterDir(id)
    && (forall n :: n in w.Children(x) ==> KnownS(s, x.Child(n)))
    && ListingSent(w, s.sent, x)
  }

  ghost predicate GraphS(w: World, roots: seq<Path>, s: Serial) {
    && (forall r :: r in roots ==> KnownS(s, Spot(r, r)))
    && (forall id :: id in s.visitedDirs ==> exists x :: AccountedByS(w, s, id, x))
    && Reported(w, s.done, s.sent)
  }

  lemma TurnKeepsGraph(w: World, roots: seq<Path>, s: Serial)
    requires s.queue != [] && ItemOk(w, roots, s.queue[0]) && s.room.None?
    requires GraphS(w, roots, s)
    ensures GraphS(w, roots, Turn(w, s).0)
  {
    var x := s.queue[0].Where();
    var s' := Turn(w, s).0;
    TurnShape(w, roots, s);
    forall r | r in roots ensures KnownS(s', Spot(r, r)) {
      TurnKeepsKnown(w, roots, s, Spot(r, r));
    }
    forall id | id in s'.visitedDirs ensures exists z :: AccountedByS(w, s', id, z) {
      var z := x;
      if id in s.visitedDirs {
        z :| AccountedByS(w, s, id, z);
      }
      forall n | n in w.Children(z) ensures KnownS(s', z.Child(n)) {
        KidsMember(x, w.Children(x), x.Child(n));
        TurnKeepsKnown(w, roots, s, z.Child(n));
      }
      TurnSendsListing(w, roots, s, z);
      assert AccountedByS(w, s', id, z);
    }
    TurnKeepsReported(w, roots, s);
  }

  lemma TurnOnlySends(w: World, s: Serial)
    requires s.queue != [] && s.room.None?
    ensures s.sent <= Turn(w, s).0.sent
  {
  }

  /** The listing of a new directory is sent, and that of an earlier one stays sent. */
  lemma TurnSendsListing(w: World, roots: seq<Path>, s: Serial, z: Spot)
    requires s.queue != [] && ItemOk(w, roots, s.queue[0]) && s.room.None? && w.Classify(z).EnterDir?
    requires ListingSent(w, s.sent, z) || (z == s.queue[0].Where() && IsNew(w, s, z))
    ensures ListingSent(w, Turn(w, s).0.sent, z)
  {
    if ListingSent(w, s.sent, z) {
      TurnOnlySends(w, s);
      ListingStaysSent(w, s.sent, Turn(w, s).0.sent, z);
    } else {
      forall item ensures multiset(w.ListingSends(z))[item] <= multiset(Turn(w, s).0.sent)[Event(z, item)] {
        TurnSends(w, roots, s, Event(z, item));
      }
    }
  }

  lemma TurnKeepsReported(w: World, roots: seq<Path>, s: Serial)
    requires s.queue != [] && ItemOk(w, roots, s.queue[0]) && s.room.None?
    requires Reported(w, s.done, s.sent)
    ensures Reported(w, Turn(w, s).0.done, Turn(w, s).0.sent)
  {
    var item := s.queue[0];
    var x := item.Where();
    var s' := Turn(w, s).0;
    TurnShape(w, roots, s);
    TurnSendsMore(w, s);
    forall z, sent | z in s'.done && w.Classify(z).Drop? && sent in w.Classify(z).sends
      ensures Event(z, sent) in s'.sent
    {
      if z == x {
        var j :| 0 <= j < |w.Classify(x).sends| && w.Classify(x).sends[j] == sent;
        assert At(x, w.Classify(x).sends)[j] == Event(x, sent);
      } else if z !in s.done {
        TurnBalance(w, roots, s, z);
        RefusedCount(w, x, Fan(w, s, x), Event(z, sent));
        assert Event(z, sent) in multiset(Refused(w, x, Fan(w, s, x)));
        assert Event(z, sent) in Refused(w, x, Fan(w, s, x));
      }
    }
  }

  lemma TurnSendsMore(w: World, s: Serial)
    requires s.queue != [] && s.room.None? && s.queue[0].depth == |s.queue[0].path| - |s.queue[0].root|
    ensures var x := s.queue[0].Where();
      && (forall ev :: ev in s.sent ==> ev in Turn(w, s).0.sent)
      && (w.Classify(x).Drop? ==> Turn(w, s).0.sent == s.sent + At(x, w.Classify(x).sends))
      && (forall ev :: ev in Refused(w, x, Fan(w, s, x)) ==> ev in Turn(w, s).0.sent)
  {
  }

  // ---------------------------------------------------------------- every path once

  /** A path is sent as a file at most once, and only after it was claimed. */
  predicate OnceS(s: Serial, p: Path) {
    ParallelReach.SentAs(s.sent, p) <= One(p in s.visitedFiles)
  }

  lemma {:induction false} SentAsPrefix(a: seq<Event>, n: nat, p: Path)
    requires n <= |a|
    ensures ParallelReach.SentAs(a[..n], p) <= ParallelReach.SentAs(a, p)
  {
    assert a == a[..n] + a[n..];
    ParallelReach.SentAsAppend(a[..n], a[n..], p);
  }

  lemma DeliverOnce(sent: seq<Event>, room: Option<nat>, events: seq<Event>, p: Path)
    ensures ParallelReach.SentAs(Deliver(sent, room, events).0, p)
         <= ParallelReach.SentAs(sent, p) + ParallelReach.SentAs(events, p)
  {
    ParallelReach.SentAsAppend(sent, events, p);
    if room.Some? && room.value <= |events| {
      ParallelReach.SentAsAppend(sent, events[..room.value], p);
      SentAsPrefix(events, room.value, p);
    }
  }

  lemma {:induction false} ErrorsAreNoFiles(events: seq<Event>, p: Path)
    requires forall ev :: ev in events ==> ev.item.Error?
    ensures ParallelReach.SentAs(events, p) == 0
  {
    if events != [] {
      assert events[|events| - 1] in events;
      ErrorsAreNoFiles(events[..|events| - 1], p);
    }
  }

  lemma {:induction false} RefusedAreErrors(w: World, x: Spot, names: seq<Name>)
    ensures forall ev :: ev in Refused(w, x, names) ==> ev.item.Error?
  {
    if names != [] {
      RefusedAreErrors(w, x, names[1..]);
    }
  }

  lemma TurnKeepsOnce(w: World, s: Serial, p: Path)
    requires s.queue != [] && OnceS(s, p)
    ensures OnceS(Turn(w, s).0, p)
  {
    var item := s.queue[0];
    var x := item.Where();
    match w.Classify(x) {
      case Drop(sends) =>
        ErrorsAreNoFiles(At(x, sends), p);
        DeliverOnce(s.sent, s.room, At(x, sends), p);
      case EnterDir(id) => EnterOnce(w, s.(queue := s.queue[1..], requests := s.requests + Asks(w, item)), item, id, p);
      case OfferFile(file) =>
        DeliverOnce(s.sent, s.room, [Event(x, file)], p);
        ParallelReach.SentAsOne(Event(x, file), p);
    }
  }

  lemma EnterOnce(w: World, s: Serial, item: Item, id: DirId, p: Path)
    requires OnceS(s, p)
    ensures OnceS(EnterNew(w, s, item, id), p)
  {
    var x := item.Where();
    if w.DepthAllows(item.depth) {
      var events :=
        if w.list(item.path).ListFailed? then [Event(x, Error(item.path, ReadDir, Io(w.list(item.path).error)))]
        else At(x, w.EntryErrors(item.path, w.list(item.path).entryErrors)) + Refused(w, x, w.list(item.path).names);
      if w.list(item.path).Listed? {
        RefusedAreErrors(w, x, w.list(item.path).names);
      }
      ErrorsAreNoFiles(events, p);
      DeliverOnce(s.sent, s.room, events, p);
    }
  }

  // ---------------------------------------------------------------- the whole loop

  /** All a turn keeps; the middle part needs a receiver that stays, the last one a tree. */
  ghost predicate LoopOk(w: World, roots: seq<Path>, s: Serial) {
    && QueueOk(w, roots, s) && SetsOk(w, s)
    && (forall p :: OnceS(s, p))
    && (s.room.None? ==> GraphS(w, roots, s))
    && (s.room.None? && w.TreeLike(roots) ==> ClosedS(w, roots, s) && forall ev :: DueAtS(w, s, ev))
  }

  lemma RoomStays(w: World, s: Serial)
    requires s.queue != []
    ensures Turn(w, s).0.room.None? <==> s.room.None?
    ensures s.room.None? ==> Turn(w, s).1
  {
  }

  lemma TurnKeepsLoop(w: World, roots: seq<Path>, s: Serial)
    requires w.Finite() && s.queue != [] && LoopOk(w, roots, s)
    ensures LoopOk(w, roots, Turn(w, s).0)
  {
    RoomStays(w, s);
    TurnKeepsQueue(w, roots, s);
    TurnKeepsSets(w, roots, s);
    forall p ensures OnceS(Turn(w, s).0, p) {
      TurnKeepsOnce(w, s, p);
    }
    if s.room.None? {
      TurnKeepsGraph(w, roots, s);
      if w.TreeLike(roots) {
        TreeIsNew(w, roots, s);
        TurnKeepsClosed(w, roots, s);
        forall ev ensures DueAtS(w, Turn(w, s).0, ev) {
          TurnKeepsDue(w, roots, s, ev);
        }
      }
    }
  }

  /** After the roots were enqueued. */
  ghost predicate StartedAt(w: World, roots: seq<Path>, s: Serial, y: Spot) {
    && Spots(s.queue, y) == One(y.IsRoot() && y.root in roots && !w.TooLong(y.path))
    && (y in s.done <==> y.IsRoot() && y.root in roots && w.TooLong(y.path))
  }

  ghost predicate SentAtStart(w: World, roots: seq<Path>, s: Serial, ev: Event) {
    multiset(s.sent)[ev]
      == One(ev.at.IsRoot() && ev.at.root in roots && w.TooLong(ev.at.path) && ev.item == w.TooLongError(ev.at.path))
  }

  lemma QueuedOne(queue: seq<Item>, r: Path, y: Spot)
    ensures Spots(queue + [Item(r, 0, r, None)], y) == Spots(queue, y) + One(Spot(r, r) == y)
  {
    var last := [Item(r, 0, r, None)];
    SpotsAppend(queue, last, y);
    assert last[..0] == [];
  }

  /** One more root: it is queued, or settled and reported. */
  lemma StartOneMeets(w: World, init: seq<Path>, r: Path, s: Serial, y: Spot)
    requires r !in init && StartedAt(w, init, s, y)
    ensures StartedAt(w, init + [r], StartOne(w, s, r), y)
  {
    QueuedOne(s.queue, r, y);
  }

  lemma StartOneSends(w: World, init: seq<Path>, r: Path, s: Serial, ev: Event)
    requires r !in init && s.room.None? && SentAtStart(w, init, s, ev)
    ensures SentAtStart(w, init + [r], StartOne(w, s, r), ev)
  {
  }

  lemma {:induction false} StartMeets(w: World, roots: seq<Path>, room: Option<nat>, y: Spot)
    requires Distinct(roots)
    ensures StartedAt(w, roots, Start(w, roots, room), y)
    ensures Start(w, roots, room).room.None? <==> room.None?
    ensures room.None? ==> forall item :: SentAtStart(w, roots, Start(w, roots, room), Event(y, item))
  {
    if roots != [] {
      var init, r := roots[..|roots| - 1], roots[|roots| - 1];
      var s := Start(w, init, room);
      StartMeets(w, init, room, y);
      assert roots == init + [r] && r !in init;
      StartOneMeets(w, init, r, s, y);
      if room.None? {
        forall item ensures SentAtStart(w, roots, Start(w, roots, room), Event(y, item)) {
          StartOneSends(w, init, r, s, Event(y, item));
        }
      }
    }
  }

  lemma {:induction false} StartItems(w: World, roots: seq<Path>, room: Option<nat>)
    ensures var s := Start(w, roots, room);
      && (forall item :: item in s.queue ==> item.root in roots && item == Item(item.root, 0, item.root, None))
      && s.visitedDirs == {} && s.visitedFiles == {} && s.expanded == [] && s.requests == []
      && forall ev :: ev in s.sent ==> ev.item.Error?
  {
    if roots != [] {
      StartItems(w, roots[..|roots| - 1], room);
      assert roots == roots[..|roots| - 1] + [roots[|roots| - 1]];
    }
  }

  /** What `Start` leaves, in terms of the state alone. */
  ghost predicate Started(w: World, roots: seq<Path>, s: Serial) {
    && (forall y :: StartedAt(w, roots, s, y))
    && (forall item :: item in s.queue ==> item.root in roots && item == Item(item.root, 0, item.root, None))
    && s.visitedDirs == {} && s.visitedFiles == {} && s.expanded == []
  }

  lemma StartedQueueOk(w: World, roots: seq<Path>, s: Serial)
    requires w.Finite() && Distinct(roots) && Started(w, roots, s)
    ensures QueueOk(w, roots, s)
  {
    forall y ensures PlacedAtS(s, y) {
      assert StartedAt(w, roots, s, y);
    }
    forall x | x in s.done ensures w.Walked(roots, x) {
      assert StartedAt(w, roots, s, x);
    }
  }

  lemma StartedSetsOk(w: World, roots: seq<Path>, s: Serial)
    requires Started(w, roots, s)
    ensures SetsOk(w, s)
  {
    forall x | x in s.done ensures w.Classify(x) == Drop([w.TooLongError(x.path)]) {
      assert StartedAt(w, roots, s, x);
    }
  }

  lemma StartedClosed(w: World, roots: seq<Path>, s: Serial)
    requires Started(w, roots, s)
    ensures ClosedS(w, roots, s)
  {
    forall r | r in roots ensures KnownS(s, Spot(r, r)) {
      assert StartedAt(w, roots, s, Spot(r, r));
    }
    forall x | x in s.done ensures w.Children(x) == [] {
      assert StartedAt(w, roots, s, x);
    }
  }

  lemma StartIsStarted(w: World, roots: seq<Path>, room: Option<nat>)
    requires Distinct(roots)
    ensures Started(w, roots, Start(w, roots, room))
    ensures forall p :: OnceS(Start(w, roots, room), p)
    ensures Start(w, roots, room).room.None? <==> room.None?
  {
    var s := Start(w, roots, room);
    StartItems(w, roots, room);
    forall y ensures StartedAt(w, roots, s, y) {
      StartMeets(w, roots, room, y);
    }
    forall p ensures OnceS(s, p) {
      ErrorsAreNoFiles(s.sent, p);
    }
    StartMeets(w, roots, room, Spot([], []));
  }

  lemma StartIsOk(w: World, roots: seq<Path>, room: Option<nat>)
    requires w.Finite() && Distinct(roots)
    ensures LoopOk(w, roots, Start(w, roots, room))
  {
    var s := Start(w, roots, room);
    StartIsStarted(w, roots, room);
    StartedQueueOk(w, roots, s);
    StartedSetsOk(w, roots, s);
    StartedClosed(w, roots, s);
    if room.None? {
      forall ev ensures DueAtS(w, s, ev) {
        StartDue(w, roots, room, ev);
      }
      StartReported(w, roots, room);
    }
  }

  lemma StartDue(w: World, roots: seq<Path>, room: Option<nat>, ev: Event)
    requires Distinct(roots) && room.None?
    ensures DueAtS(w, Start(w, roots, room), ev)
  {
    StartMeets(w, roots, room, ev.at);
    assert ev == Event(ev.at, ev.item);
    assert SentAtStart(w, roots, Start(w, roots, room), ev);
    if w.TooLong(ev.at.path) {
      assert w.Emits(ev.at) == [w.TooLongError(ev.at.path)];
      assert multiset(w.Emits(ev.at))[ev.item] == One(ev.item == w.TooLongError(ev.at.path));
    }
  }

  lemma StartReported(w: World, roots: seq<Path>, room: Option<nat>)
    requires Distinct(roots) && room.None?
    ensures Reported(w, Start(w, roots, room).done, Start(w, roots, room).sent)
  {
    var s := Start(w, roots, room);
    forall x, item | x in s.done && w.Classify(x).Drop? && item in w.Classify(x).sends
      ensures Event(x, item) in s.sent
    {
      StartMeets(w, roots, room, x);
      assert SentAtStart(w, roots, s, Event(x, item));
      assert Event(x, item) in multiset(s.sent);
    }
  }

  // ---------------------------------------------------------------- an empty queue

  lemma DrainedIsComplete(w: World, roots: seq<Path>, s: Serial)
    requires LoopOk(w, roots, s) && s.queue == [] && s.room.None? && w.TreeLike(roots)
    ensures w.Complete(roots, s.sent)
  {
    forall r | r in roots ensures Spot(r, r) in s.done {
      assert KnownS(s, Spot(r, r));
    }
    forall x, n | x in s.done && n in w.Children(x) ensures x.Child(n) in s.done {
      assert KnownS(s, x.Child(n));
    }
    forall ev ensures multiset(s.sent)[ev] == w.Due(roots, ev) {
      assert DueAtS(w, s, ev);
      if w.Walked(roots, ev.at) {
        WalkedIsDone(w, roots, s.done, ev.at);
      }
    }
  }

  /** Every directory expanded has a claiming visit whose entries were all settled and whose
      listing errors were all sent. */
  lemma DrainedReportsListings(w: World, roots: seq<Path>, s: Serial, id: DirId)
    requires LoopOk(w, roots, s) && s.queue == [] && s.room.None? && id in s.expanded
    ensures exists x :: FannedAt(w, s.done, id, x) && ListingSent(w, s.sent, x)
  {
    var x :| AccountedByS(w, s, id, x);
    assert forall n :: n in w.Children(x) ==> KnownS(s, x.Child(n));
    assert FannedAt(w, s.done, id, x) && ListingSent(w, s.sent, x);
  }

  lemma DrainedIsReachable(w: World, roots: seq<Path>, s: Serial)
    requires LoopOk(w, roots, s) && s.queue == [] && s.room.None?
    requires Unrestricted(w) && GraphLike(w) && !TooLongReported(w, s.sent)
    ensures IsReachableSet(w, roots, ParallelReach.IdsOf(s.expanded))
  {
    forall r | r in roots ensures Spot(r, r) in s.done {
      assert KnownS(s, Spot(r, r));
    }
    forall id | id in s.visitedDirs ensures exists x :: FannedAt(w, s.done, id, x) {
      var x :| AccountedByS(w, s, id, x);
      assert forall n :: n in w.Children(x) ==> KnownS(s, x.Child(n));
      assert FannedAt(w, s.done, id, x);
    }
    VisitedIsReachable(w, roots, s.done, s.visitedDirs, s.sent);
    assert ParallelReach.IdsOf(s.expanded) == s.visitedDirs;
  }
}

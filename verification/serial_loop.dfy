/** The loop of `walk_single_thread`, held to the specification. */
module SerialLoop {
  import opened Prelude
  import opened Gitignore
  import opened WalkWorld
  import opened ParallelWalk
  import opened SerialWalk
  import opened ParallelSends
  import opened SerialBooks
  import opened SerialRuns
  import opened WalkReports
  import opened SerialOrder
  import opened DirGraph
  import ParallelItems
  import ParallelReach
  import LookupOrder

  lemma ClaimShrinks(ids: set<DirId>, visited: set<DirId>, id: DirId)
    requires id in ids && id !in visited
    ensures ids - (visited + {id}) < ids - visited
  {
    assert id in ids - visited && id !in ids - (visited + {id});
  }

  lemma TurnShapeDecreases(w: World, s: Serial, s': Serial, added: seq<Item>, claimed: Option<DirId>)
    requires s.queue != [] && s'.queue == s.queue[1..] + added
    requires match claimed
             case Some(id) => id in w.ids && id !in s.visitedDirs && s'.visitedDirs == s.visitedDirs + {id}
             case None => s'.visitedDirs == s.visitedDirs && added == []
    ensures || (s'.visitedDirs == s.visitedDirs && |s'.queue| < |s.queue|)
            || (w.ids - s'.visitedDirs < w.ids - s.visitedDirs)
  {
    if claimed.Some? {
      ClaimShrinks(w.ids, s.visitedDirs, claimed.value);
    }
  }

  lemma FrontIsOk(w: World, roots: seq<Path>, s: Serial)
    requires LoopOk(w, roots, s) && s.queue != []
    ensures ParallelItems.ItemOk(w, roots, s.queue[0])
  {
    assert s.queue[0] in s.queue;
  }

  lemma EnteredIsListed(w: World, x: Spot)
    requires w.Finite() && w.Classify(x).EnterDir?
    ensures w.Classify(x).id in w.ids
  {
  }

  /** The loop measure of a turn: a new directory is claimed, or the queue gets shorter. */
  lemma TurnDecreases(w: World, roots: seq<Path>, s: Serial)
    requires w.Finite() && s.queue != [] && ParallelItems.ItemOk(w, roots, s.queue[0])
    ensures var s' := Turn(w, s).0;
      || (s'.visitedDirs == s.visitedDirs && |s'.queue| < |s.queue|)
      || (w.ids - s'.visitedDirs < w.ids - s.visitedDirs)
  {
    var x, s' := s.queue[0].Where(), Turn(w, s).0;
    var c := w.Classify(x);
    TurnShape(w, roots, s);
    if c.EnterDir? && IsNew(w, s, x) {
      EnteredIsListed(w, x);
      TurnShapeDecreases(w, s, s', Kept(w, x, s.queue[0].depth, Fan(w, s, x)), Some(c.id));
    } else {
      TurnShapeDecreases(w, s, s', Kept(w, x, s.queue[0].depth, Fan(w, s, x)), None);
    }
  }

  /** The loop over the roots. */
  method EnqueueRoots(w: World, roots: seq<Path>, tx: Channel) returns (queue: seq<Item>)
    requires tx.sent == []
    modifies tx
    ensures var s := Start(w, roots, old(tx.room)); queue == s.queue && tx.sent == s.sent && tx.room == s.room
  {
    queue := [];
    var i := 0;
    assert roots[..0] == [];
    while i < |roots|
      invariant 0 <= i <= |roots|
      invariant var s := Start(w, roots[..i], old(tx.room)); queue == s.queue && tx.sent == s.sent && tx.room == s.room
    {
      var root := roots[i];
      assert roots[..i + 1][..i] == roots[..i];
      if w.TooLong(root) {
        var ok := tx.Send(Event(Spot(root, root), w.TooLongError(root)));
      } else {
        queue := queue + [Item(root, 0, root, None)];
      }
      i := i + 1;
    }
    assert roots[..i] == roots;
  }

  /** A directory that was not seen before: list it and queue its children. */
  method EnterDirectory(w: World, tx: Channel, queue: seq<Item>, item: Item, id: DirId, ghost s: Serial)
    returns (grown: seq<Item>)
    requires s.queue == queue && s.sent == tx.sent && s.room == tx.room
    modifies tx
    ensures var s' := EnterNew(w, s, item, id); grown == s'.queue && tx.sent == s'.sent && tx.room == s'.room
  {
    grown := queue;
    if w.DepthAllows(item.depth) {
      var x := Spot(item.root, item.path);
      var listing := w.list(item.path);
      if listing.ListFailed? {
        var ok := tx.Send(Event(x, Error(item.path, ReadDir, Io(listing.error))));
      } else {
        SendEntryErrors(w, tx, x, listing.entryErrors);
        grown := PushChildren(w, tx, queue, x, item.depth, listing.names);
        DeliverMore(s.sent, s.room, At(x, w.EntryErrors(item.path, listing.entryErrors)), Refused(w, x, listing.names));
      }
    }
  }

  method SendDrop(w: World, tx: Channel, x: Spot, item: WalkItem)
    modifies tx
    ensures (tx.sent, tx.room) == Deliver(old(tx.sent), old(tx.room), At(x, [item]))
  {
    var ok := tx.Send(Event(x, item));
    assert At(x, [item]) == [Event(x, item)];
  }

  /** Whether a visit gets as far as looking up an ignore chain. */
  predicate LooksUp(w: World, path: Path, meta: Stat) {
    !w.TooLong(path) && !meta.Missing?
  }

  /** The channel after a visit of `x` that decided on `outcome`. */
  function Decided(sent: seq<Event>, room: Option<nat>, x: Spot, outcome: Outcome): (seq<Event>, Option<nat>) {
    Deliver(sent, room, if outcome.Drop? then At(x, outcome.sends) else [])
  }

  /** A visit up to its lookup: paths too long and paths without metadata are refused. */
  method Refuse(w: World, tx: Channel, root: Path, path: Path, meta: Stat) returns (refused: Option<Outcome>)
    modifies tx
    ensures refused.None? <==> w.pathBytes(path) <= 4096 && !meta.Missing?
    ensures refused.None? ==> tx.sent == old(tx.sent) && tx.room == old(tx.room)
    ensures refused.Some? ==>
      && refused == Some(w.ClassifyWith(root, path, meta)) && refused.value.Drop?
      && refused.value.sends == (
           if w.pathBytes(path) > 4096 then [Error(path, Metadata, PathTooLong)]
           else if meta.danglingLink then []
           else [Error(path, Metadata, Io(meta.error))])
      && (tx.sent, tx.room) == Decided(old(tx.sent), old(tx.room), Spot(root, path), refused.value)
  {
    var x := Spot(root, path);
    refused := None;
    if w.TooLong(path) {
      SendDrop(w, tx, x, w.TooLongError(path));
      refused := Some(Drop([w.TooLongError(path)]));
    } else if meta.Missing? {
      if meta.danglingLink {
        DeliverNone(tx.sent, tx.room);
        assert At(x, []) == [];
        refused := Some(Drop([]));
      } else {
        SendDrop(w, tx, x, Error(path, Metadata, Io(meta.error)));
        refused := Some(Drop([Error(path, Metadata, Io(meta.error))]));
      }
    }
  }

  /** What a visit decides once the chain has answered, and what it sends before it touches the
      visited sets. */
  method Conclude(w: World, tx: Channel, root: Path, path: Path, meta: Stat, ignored: Result<bool, WalkItem>)
    returns (outcome: Outcome)
    requires LooksUp(w, path, meta) && ignored == w.Ignored(root, path, meta.Directory?)
    modifies tx
    ensures outcome == w.ClassifyWith(root, path, meta) && (outcome.Drop? ==> |outcome.sends| <= 1)
    ensures (tx.sent, tx.room) == Decided(old(tx.sent), old(tx.room), Spot(root, path), outcome)
  {
    var x := Spot(root, path);
    DeliverNone(tx.sent, tx.room);
    assert At(x, []) == [];
    outcome := Drop([]);
    if ignored.Err? {
      outcome := Drop([ignored.error]);
      SendDrop(w, tx, x, ignored.error);
      return;
    }
    if ignored.value {
      return;
    }
    if !meta.Directory? {
      outcome := w.Offer(path);
      if outcome.Drop? && outcome.sends != [] {
        SendDrop(w, tx, x, outcome.sends[0]);
        assert outcome.sends == [outcome.sends[0]];
      }
      return;
    }
    if w.respectGitignore && w.IsGitDir(path) {
      return;
    }
    if meta.id.Err? {
      outcome := Drop([Error(path, Metadata, Io(meta.id.error))]);
      SendDrop(w, tx, x, Error(path, Metadata, Io(meta.id.error)));
      return;
    }
    outcome := EnterDir(meta.id.value);
  }

  /** What a visit sends before it touches the visited sets, and what it goes on with. */
  method Examine(w: World, tx: Channel, root: Path, path: Path, meta: Stat) returns (outcome: Outcome)
    modifies tx
    ensures outcome == w.ClassifyWith(root, path, meta) && (outcome.Drop? ==> |outcome.sends| <= 1)
    ensures (tx.sent, tx.room) == Decided(old(tx.sent), old(tx.room), Spot(root, path), outcome)
  {
    var refused := Refuse(w, tx, root, path, meta);
    if refused.Some? {
      return refused.value;
    }
    outcome := Conclude(w, tx, root, path, meta, w.Ignored(root, path, meta.Directory?));
  }

  /** The variables of the loop are those of `s`. */
  ghost predicate Holding(tx: Channel, queue: seq<Item>, visitedDirs: set<DirId>, visitedFiles: set<Path>, s: Serial)
    reads tx
  {
    && s.queue == queue && s.visitedDirs == visitedDirs && s.visitedFiles == visitedFiles
    && s.sent == tx.sent && s.room == tx.room
  }

  /** What a turn does with the outcome of its visit; `goOn` is false after the break. */
  method Act(w: World, tx: Channel, queue: seq<Item>, visitedDirs: set<DirId>, visitedFiles: set<Path>,
             outcome: Outcome, ghost s: Serial)
    returns (queue': seq<Item>, visitedDirs': set<DirId>, visitedFiles': set<Path>, goOn: bool)
    requires queue != [] && s.queue == queue && s.visitedDirs == visitedDirs && s.visitedFiles == visitedFiles
    requires outcome == w.Classify(queue[0].Where())
    requires (tx.sent, tx.room) == Decided(s.sent, s.room, queue[0].Where(), outcome)
    modifies tx
    ensures Holding(tx, queue', visitedDirs', visitedFiles', Turn(w, s).0) && goOn == Turn(w, s).1
  {
    var item := queue[0];
    queue', visitedDirs', visitedFiles', goOn := queue[1..], visitedDirs, visitedFiles, true;
    ghost var popped := s.(queue := queue', requests := s.requests + Asks(w, item));
    DeliverNone(s.sent, s.room);
    match outcome {
      case Drop(_) =>
      case EnterDir(id) =>
        if id !in visitedDirs {
          visitedDirs' := visitedDirs + {id};
          queue' := EnterDirectory(w, tx, queue', item, id, popped);
        }
      case OfferFile(file) =>
        if item.path !in visitedFiles {
          visitedFiles' := visitedFiles + {item.path};
          goOn := tx.Send(Event(item.Where(), file));
        }
    }
  }

  /** One turn of the loop, with a fresh chain for every lookup. */
  method TakeTurn(w: World, tx: Channel, queue: seq<Item>, visitedDirs: set<DirId>, visitedFiles: set<Path>,
                  ghost s: Serial)
    returns (queue': seq<Item>, visitedDirs': set<DirId>, visitedFiles': set<Path>, goOn: bool)
    requires queue != [] && Holding(tx, queue, visitedDirs, visitedFiles, s)
    modifies tx
    ensures Holding(tx, queue', visitedDirs', visitedFiles', Turn(w, s).0) && goOn == Turn(w, s).1
  {
    var outcome := Examine(w, tx, queue[0].root, queue[0].path, w.stat(queue[0].path));
    queue', visitedDirs', visitedFiles', goOn := Act(w, tx, queue, visitedDirs, visitedFiles, outcome, s);
  }

  /** Walk `roots` one item at a time. The loop ends on every finite world, symlink cycles
      included, in the one state in which the serial engine ends; what the module `SerialRuns`
      proves of its runs holds of that state. In terms of the channel: only specified items are
      sent, no path twice as a file, and if the receiver stays, a tree is reported exactly as the
      specification says. */
  method WalkSingleThread(w: World, roots: seq<Path>, tx: Channel) returns (ghost s: Serial)
    requires w.Finite() && Distinct(roots) && tx.sent == []
    modifies tx
    ensures IsSerialRun(w, roots, old(tx.room), s) && IsFinishedRun(w, roots, old(tx.room), s)
    ensures tx.sent == s.sent && tx.room == s.room
    ensures forall p :: ParallelReach.SentAs(tx.sent, p) <= 1
    ensures AllJustified(w, roots, tx.sent)
    ensures w.maxDepth.Some? ==> forall i :: 0 <= i < |tx.sent| ==> tx.sent[i].at.Depth() <= w.maxDepth.value + 1
    ensures Distinct(s.expanded)
    ensures forall i :: 0 <= i < |tx.sent| ==> WellFounded(w, roots, tx.sent[i])
    ensures SentInOrder(w, roots, tx.sent)
    ensures old(tx.room).None? ==> s.queue == [] && Reported(w, s.done, tx.sent)
    ensures old(tx.room).None? ==> FullReport(w, roots, tx.sent, s.expanded)
    ensures old(tx.room).None? && w.TreeLike(roots) ==> w.Complete(roots, tx.sent)
    ensures old(tx.room).None? && Unrestricted(w) && GraphLike(w) && !TooLongReported(w, tx.sent) ==>
      IsReachableSet(w, roots, ParallelReach.IdsOf(s.expanded))
    ensures w.respectGitignore && LookupOrder.RootsAreDirs(w, roots) ==> LookupOrder.InOrder(w, s.requests)
  {
    var visitedDirs: set<DirId> := {};
    var visitedFiles: set<Path> := {};
    s := Start(w, roots, tx.room);
    ghost var room, k: nat := tx.room, 0;
    StartItems(w, roots, room);
    var queue := EnqueueRoots(w, roots, tx);
    var goOn := true;
    while queue != [] && goOn
      invariant AfterTurns(w, roots, room, k) == Loop(s, goOn)
      invariant Holding(tx, queue, visitedDirs, visitedFiles, s)
      decreases w.ids - visitedDirs, |queue|
    {
      TurnsKeepLoop(w, roots, room, k);
      FrontIsOk(w, roots, s);
      TurnDecreases(w, roots, s);
      OneMoreTurn(w, roots, room, k);
      queue, visitedDirs, visitedFiles, goOn := TakeTurn(w, tx, queue, visitedDirs, visitedFiles, s);
      s, k := Turn(w, s).0, k + 1;
    }
    LoopResult(w, roots, room, s, k);
  }

  lemma OneMoreTurn(w: World, roots: seq<Path>, room: Option<nat>, k: nat)
    requires !AfterTurns(w, roots, room, k).Over()
    ensures var s := AfterTurns(w, roots, room, k).s;
      AfterTurns(w, roots, room, k + 1) == Loop(Turn(w, s).0, Turn(w, s).1)
  {
  }

  lemma LoopResult(w: World, roots: seq<Path>, room: Option<nat>, s: Serial, k: nat)
    requires w.Finite() && Distinct(roots) && FinishedAfter(w, roots, room, s, k)
    ensures IsSerialRun(w, roots, room, s) && IsFinishedRun(w, roots, room, s)
    ensures forall p :: ParallelReach.SentAs(s.sent, p) <= 1
    ensures AllJustified(w, roots, s.sent)
    ensures w.maxDepth.Some? ==> forall i :: 0 <= i < |s.sent| ==> s.sent[i].at.Depth() <= w.maxDepth.value + 1
    ensures Distinct(s.expanded)
    ensures forall i :: 0 <= i < |s.sent| ==> WellFounded(w, roots, s.sent[i])
    ensures SentInOrder(w, roots, s.sent)
    ensures room.None? ==> s.queue == [] && Reported(w, s.done, s.sent)
    ensures room.None? ==> FullReport(w, roots, s.sent, s.expanded)
    ensures room.None? && w.TreeLike(roots) ==> w.Complete(roots, s.sent)
    ensures room.None? && Unrestricted(w) && GraphLike(w) && !TooLongReported(w, s.sent) ==>
      IsReachableSet(w, roots, ParallelReach.IdsOf(s.expanded))
    ensures w.respectGitignore && LookupOrder.RootsAreDirs(w, roots) ==> LookupOrder.InOrder(w, s.requests)
  {
    TurnsKeepLoop(w, roots, room, k);
    SerialRunIsOk(w, roots, room, s);
    forall p ensures ParallelReach.SentAs(s.sent, p) <= 1 {
      SerialOnce(w, roots, room, s, p);
    }
    SerialOnce(w, roots, room, s, []);
    forall i | 0 <= i < |s.sent|
      ensures Justified(w, roots, s.sent[i]) && (w.maxDepth.Some? ==> s.sent[i].at.Depth() <= w.maxDepth.value + 1)
    {
      SerialSendsOnly(w, roots, room, s, i);
    }
    forall i | 0 <= i < |s.sent| ensures WellFounded(w, roots, s.sent[i]) {
      SerialReportsOnly(w, roots, room, s, i);
    }
    TurnsKeepOrder(w, roots, room, k);
    if room.None? {
      SerialReportsAll(w, roots, s);
      if w.TreeLike(roots) {
        SerialIsComplete(w, roots, s);
      }
      if Unrestricted(w) && GraphLike(w) && !TooLongReported(w, s.sent) {
        SerialIsReachable(w, roots, s);
      }
    }
    if w.respectGitignore && LookupOrder.RootsAreDirs(w, roots) {
      SerialAsksInOrder(w, roots, room, s);
    }
  }
}

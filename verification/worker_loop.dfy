/**
 The body of a worker of `walk_multi_thread` on the real shared state and the real channel.
 Everything it does is a run of the state machine; the engine is run here on the schedule in
 which each worker goes on until it leaves.
 */
module WorkerLoop {
  import opened Prelude
  import opened Gitignore
  import opened WalkWorld
  import opened ParallelWalk
  import opened SharedWork
  import opened SerialWalk
  import opened ParallelProtocol
  import opened ParallelItems
  import opened Bags
  import opened DirGraph
  import opened VisitFacts
  import opened WalkReports
  import ParallelComplete
  import ParallelReach
  import ParallelTermination
  import SerialLoop

  /** The shared fields and the channel are those of the machine. */
  ghost predicate Coupled(st: WorkState, tx: Channel, s: State)
    reads st, tx
  {
    st.Fields() == s.shared && tx.sent == s.sent && (s.open <==> tx.room != Some(0))
  }

  /** Worker `i` stands at `k` in a state of the machine that the real one matches. */
  ghost predicate Here(w: World, roots: seq<Path>, st: WorkState, tx: Channel, s: State, i: nat, k: Worker)
    reads st, tx
  {
    IsRun(w, roots, |s.workers|, s) && Coupled(st, tx, s) && i < |s.workers| && s.workers[i] == k
  }

  /** Worker `i` went on from `s` to `t`: there is less to do, and who had left or was about to
      look for work still has or is. */
  ghost predicate Moved(w: World, s: State, t: State, i: nat) {
    && ParallelTermination.Potential(w, t) < ParallelTermination.Potential(w, s)
    && |t.workers| == |s.workers|
    && (forall j :: 0 <= j < |s.workers| && j != i && (s.workers[j].Left? || s.workers[j].Ready?) ==>
          t.workers[j] == s.workers[j])
  }

  // ---------------------------------------------------------------- code and steps

  /** A step of worker `i`; the channel is closed after it if the receiver has had its last item. */
  function StepThenClose(w: World, s: State, i: nat, open: bool): State {
    var t := Step(w, s, Run(i));
    if open then t else Step(w, t, CloseChannel)
  }

  lemma RunHasItems(w: World, roots: seq<Path>, n: nat, s: State)
    requires w.Finite() && IsRun(w, roots, n, s)
    ensures ItemsOk(w, roots, s) && ProtocolOk(s)
  {
    var labels :| s == Exec(w, Init(roots, n), labels);
    RunsKeepItems(w, roots, n, labels);
    RunsKeepProtocol(w, roots, n, labels);
  }

  /** Who holds an item is counted. */
  lemma HolderIsCounted(w: World, roots: seq<Path>, s: State, i: nat)
    requires w.Finite() && IsRun(w, roots, |s.workers|, s) && i < |s.workers| && Holding(s.workers[i]) == 1
    ensures s.shared.active > 0
  {
    RunHasItems(w, roots, |s.workers|, s);
    SumNatPart(Holding, s.workers, i);
  }

  lemma StepIsMove(w: World, roots: seq<Path>, n: nat, s: State, i: nat, open: bool)
    requires w.Finite() && IsRun(w, roots, n, s) && n == |s.workers| && Enabled(s, Run(i))
    ensures var t := StepThenClose(w, s, i, open);
      IsRun(w, roots, n, t) && Moved(w, s, t, i)
  {
    RunHasItems(w, roots, n, s);
    ParallelTermination.StepLowersPotential(w, roots, s, Run(i));
    var t := Step(w, s, Run(i));
    RunGoesOn(w, roots, n, s, Run(i));
    RunGoesOn(w, roots, n, t, CloseChannel);
    if t.open {
      RunHasItems(w, roots, n, t);
      ParallelTermination.StepLowersPotential(w, roots, t, CloseChannel);
    }
  }

  /** What carrying out an effect on the real fields and the real channel comes to. */
  lemma AppliedIsCoupled(st: WorkState, tx: Channel, s: State, room: Option<nat>, i: nat, e: Effect)
    requires i < |s.workers| && (e.pop ==> s.shared.queue != []) && |e.sends| <= 1 && (s.open <==> room != Some(0))
    requires st.Fields() == ApplyShared(s.shared, e) && (tx.sent, tx.room) == Deliver(s.sent, room, e.sends)
    ensures var t := Apply(s, i, e).(open := s.open && tx.room != Some(0));
      Coupled(st, tx, t) && t.workers[i] == e.next
  {
    assert s.sent + e.sends[..0] == s.sent && e.sends[..|e.sends|] == e.sends;
  }

  lemma StepThenCloseIs(w: World, s: State, i: nat, open: bool, e: Effect)
    requires Enabled(s, Run(i)) && (e.pop ==> s.shared.queue != []) && Step(w, s, Run(i)) == Apply(s, i, e)
    ensures StepThenClose(w, s, i, open) == Apply(s, i, e).(open := s.open && open)
  {
    CloseIs(w, Apply(s, i, e));
  }

  lemma CloseIs(w: World, t: State)
    ensures Step(w, t, CloseChannel) == t.(open := false)
  {
  }

  /** Code that carries out the effect of a step on the real fields and the real channel keeps
      them coupled to the machine. */
  lemma StepIsCoupled(w: World, roots: seq<Path>, st: WorkState, tx: Channel, s: State, room: Option<nat>, i: nat,
                      e: Effect)
    returns (t: State)
    requires w.Finite() && IsRun(w, roots, |s.workers|, s) && Enabled(s, Run(i)) && (s.open <==> room != Some(0))
    requires e == EffectOf(w, s.shared, s.open, s.workers[i]) && |e.sends| <= 1
    requires (e.pop ==> s.shared.queue != []) && st.Fields() == ApplyShared(s.shared, e)
    requires (tx.sent, tx.room) == Deliver(s.sent, room, e.sends)
    ensures Here(w, roots, st, tx, t, i, e.next) && Moved(w, s, t, i)
  {
    t := StepThenClose(w, s, i, tx.room != Some(0));
    StepIsMove(w, roots, |s.workers|, s, i, tx.room != Some(0));
    RunIsApply(w, s, i);
    StepThenCloseIs(w, s, i, tx.room != Some(0), e);
    AppliedIsCoupled(st, tx, s, room, i, e);
  }

  lemma NothingApplied(s: Shared, e: Effect)
    requires !e.pop && e.push == [] && e.active == 0 && e.dir.None? && e.file.None?
    ensures ApplyShared(s, e) == s
  {
    assert s.queue + [] == s.queue;
  }

  // ---------------------------------------------------------------- scanning a directory

  lemma ScanAnswers(w: World, root: Path, child: Path)
    ensures var found := w.Scan(root, child);
      && (found.Push? <==> w.pathBytes(child) <= 4096 && w.stat(child).Directory?)
      && (!found.Push? ==> forall item ::
            CalledForItself(w, Spot(root, child), item) <==> item in Sends(found) || found == Claim(item))
  {
    var found := w.Scan(root, child);
    w.ScanIsClassify(root, child);
    if !found.Push? {
      forall item
        ensures CalledForItself(w, Spot(root, child), item) <==> item in Sends(found) || found == Claim(item)
      {
        DropMeans(w, Spot(root, child), item);
      }
    }
  }

  /** Decides about one entry of a listed directory, and sends what there is to send. */
  method ScanEntry(w: World, tx: Channel, root: Path, child: Path) returns (found: Scanned)
    modifies tx
    ensures found == w.Scan(root, child) && (found.Pass? ==> |found.sends| <= 1)
    ensures (tx.sent, tx.room) == Deliver(old(tx.sent), old(tx.room), At(Spot(root, child), Sends(found)))
    ensures found.Push? <==> w.pathBytes(child) <= 4096 && w.stat(child).Directory?
    ensures !found.Push? ==>
      forall item :: CalledForItself(w, Spot(root, child), item) <==> item in Sends(found) || found == Claim(item)
  {
    var x := Spot(root, child);
    ScanAnswers(w, root, child);
    DeliverNone(tx.sent, tx.room);
    assert At(x, []) == [];
    if w.TooLong(child) {
      found := Pass([w.TooLongError(child)]);
      SerialLoop.SendDrop(w, tx, x, w.TooLongError(child));
      return;
    }
    var meta := w.stat(child);
    if meta.Missing? {
      found := Pass([]);
      if !meta.danglingLink {
        found := Pass([Error(child, Metadata, Io(meta.error))]);
        SerialLoop.SendDrop(w, tx, x, Error(child, Metadata, Io(meta.error)));
      }
      return;
    }
    if meta.Directory? {
      return Push(meta);
    }
    var ignored := w.Ignored(root, child, false);
    if ignored.Err? {
      SerialLoop.SendDrop(w, tx, x, ignored.error);
      return Abort(ignored.error);
    }
    if ignored.value {
      return Pass([]);
    }
    match w.verdict(child) {
      case Keep(size, inode) => found := Claim(File(child, size, inode));
      case Unwanted => found := Pass([]);
      case ProbeFailed(e) =>
        found := Pass([Error(child, Open, Io(e))]);
        SerialLoop.SendDrop(w, tx, x, Error(child, Open, Io(e)));
    }
  }

  function Sends(found: Scanned): seq<WalkItem> {
    match found
    case Pass(sends) => sends
    case Abort(send) => [send]
    case _ => []
  }

  /** Deciding about an entry is a step. */
  lemma ScanStep(w: World, roots: seq<Path>, st: WorkState, tx: Channel, s: State, room: Option<nat>, i: nat,
                 item: Item, rest: seq<Name>, dirs: seq<Item>)
    returns (t: State)
    requires w.Finite() && IsRun(w, roots, |s.workers|, s) && i < |s.workers|
      && s.workers[i] == Scanning(item, rest, dirs)
    requires rest != [] && (s.open <==> room != Some(0)) && st.Fields() == s.shared
    requires var child := item.Where().Child(rest[0]); var found := w.Scan(item.root, child.path);
      && (found.Pass? ==> |found.sends| <= 1)
      && (tx.sent, tx.room) == Deliver(s.sent, room, At(child, Sends(found)))
    ensures var found := w.Scan(item.root, item.Where().Child(rest[0]).path);
      Here(w, roots, st, tx, t, i, ScanChild(item, rest, dirs, found).next) && Moved(w, s, t, i)
  {
    var e := ScanNext(w, item, rest, dirs);
    NothingApplied(s.shared, e);
    t := StepIsCoupled(w, roots, st, tx, s, room, i, e);
  }

  /** Sending a claimed file is a step. */
  lemma SendChildStep(w: World, roots: seq<Path>, st: WorkState, tx: Channel, s: State, room: Option<nat>, i: nat,
                      item: Item, rest: seq<Name>, dirs: seq<Item>, file: WalkItem)
    returns (t: State)
    requires w.Finite() && IsRun(w, roots, |s.workers|, s) && i < |s.workers|
      && s.workers[i] == SendChild(item, rest, dirs, file)
    requires (s.open <==> room != Some(0)) && st.Fields() == s.shared
    requires (tx.sent, tx.room) == Deliver(s.sent, room, [Event(Spot(item.root, file.path), file)])
    ensures Here(w, roots, st, tx, t, i, if s.open then Scanning(item, rest, dirs) else Finishing(true))
      && Moved(w, s, t, i)
  {
    var e := EffectOf(w, s.shared, s.open, s.workers[i]);
    NothingApplied(s.shared, e);
    t := StepIsCoupled(w, roots, st, tx, s, room, i, e);
  }

  /** A critical section is a step. */
  lemma SectionStep(w: World, roots: seq<Path>, st: WorkState, tx: Channel, s: State, i: nat, e: Effect)
    returns (t: State)
    requires w.Finite() && IsRun(w, roots, |s.workers|, s) && Enabled(s, Run(i))
    requires e == EffectOf(w, s.shared, s.open, s.workers[i]) && e.sends == []
    requires (e.pop ==> s.shared.queue != []) && st.Fields() == ApplyShared(s.shared, e)
    requires tx.sent == s.sent && (s.open <==> tx.room != Some(0))
    ensures Here(w, roots, st, tx, t, i, e.next) && Moved(w, s, t, i)
  {
    DeliverNone(tx.sent, tx.room);
    t := StepIsCoupled(w, roots, st, tx, s, tx.room, i, e);
  }

  method SendChildFile(w: World, roots: seq<Path>, st: WorkState, tx: Channel, item: Item, ghost rest: seq<Name>,
                       ghost dirs: seq<Item>, file: WalkItem, i: nat, ghost s: State)
    returns (closed: bool, ghost t: State)
    requires w.Finite() && Here(w, roots, st, tx, s, i, SendChild(item, rest, dirs, file))
    modifies tx
    ensures Here(w, roots, st, tx, t, i, if closed then Finishing(true) else Scanning(item, rest, dirs))
    ensures Moved(w, s, t, i) && (tx.room.None? <==> old(tx.room).None?)
  {
    var ok := tx.Send(Event(Spot(item.root, file.path), file));
    t := SendChildStep(w, roots, st, tx, s, old(tx.room), i, item, rest, dirs, file);
    closed := !ok;
  }

  /** Claims a file found in a scan, and sends it if it is new. `closed` says that it could not
      be sent. */
  method TakeChild(w: World, roots: seq<Path>, st: WorkState, tx: Channel, item: Item, rest: seq<Name>, dirs: seq<Item>,
                   file: WalkItem, i: nat, ghost s: State)
    returns (closed: bool, ghost t: State)
    requires w.Finite() && rest != [] && Here(w, roots, st, tx, s, i, TestChild(item, rest, dirs, file))
    modifies st, tx
    ensures Here(w, roots, st, tx, t, i, if closed then Finishing(true) else Scanning(item, rest[1..], dirs))
    ensures Moved(w, s, t, i) && (tx.room.None? <==> old(tx.room).None?)
  {
    var unseen := st.ClaimScannedFile(item, rest, dirs, file);
    t := SectionStep(w, roots, st, tx, s, i, ClaimChild(s.shared, item, rest, dirs, file));
    closed := false;
    if unseen {
      closed, t := SendChildFile(w, roots, st, tx, item, rest[1..], dirs, file, i, t);
    }
  }

  method LookAtEntry(w: World, roots: seq<Path>, st: WorkState, tx: Channel, item: Item, rest: seq<Name>,
                     ghost dirs: seq<Item>, i: nat, ghost s: State)
    returns (found: Scanned, ghost t: State)
    requires w.Finite() && rest != [] && Here(w, roots, st, tx, s, i, Scanning(item, rest, dirs))
    modifies tx
    ensures Here(w, roots, st, tx, t, i, ScanChild(item, rest, dirs, found).next)
    ensures Moved(w, s, t, i) && (tx.room.None? <==> old(tx.room).None?)
  {
    found := ScanEntry(w, tx, item.root, item.path + [rest[0]]);
    t := ScanStep(w, roots, st, tx, s, old(tx.room), i, item, rest, dirs);
  }

  /** One turn of the loop over the entries of a listed directory. */
  method TakeEntry(w: World, roots: seq<Path>, st: WorkState, tx: Channel, item: Item, rest: seq<Name>, dirs: seq<Item>,
                   i: nat, ghost s: State)
    returns (closed: bool, dirs': seq<Item>, ghost t: State)
    requires w.Finite() && rest != [] && Here(w, roots, st, tx, s, i, Scanning(item, rest, dirs))
    modifies st, tx
    ensures Here(w, roots, st, tx, t, i, if closed then Finishing(true) else Scanning(item, rest[1..], dirs'))
    ensures Moved(w, s, t, i) && (tx.room.None? <==> old(tx.room).None?)
  {
    var child := item.path + [rest[0]];
    var found;
    found, t := LookAtEntry(w, roots, st, tx, item, rest, dirs, i, s);
    closed, dirs' := false, dirs;
    match found {
      case Push(meta) => dirs' := dirs + [Item(child, item.depth + 1, item.root, Some(meta))];
      case Pass(_) =>
      case Abort(_) => closed := true;
      case Claim(file) => closed, t := TakeChild(w, roots, st, tx, item, rest, dirs, file, i, t);
    }
  }

  /** The loop over the entries of a listed directory, and the hand-over of the directories
      found, unless the loop was broken off. */
  method ScanDirectory(w: World, roots: seq<Path>, st: WorkState, tx: Channel, item: Item, names: seq<Name>, i: nat,
                       ghost s: State)
    returns (closed: bool, ghost t: State)
    requires w.Finite() && Here(w, roots, st, tx, s, i, Scanning(item, names, []))
    modifies st, tx
    ensures Here(w, roots, st, tx, t, i, Finishing(closed))
    ensures Moved(w, s, t, i) && (tx.room.None? <==> old(tx.room).None?)
  {
    var rest: seq<Name>, dirs: seq<Item> := names, [];
    closed, t := false, s;
    while rest != [] && !closed
      invariant Here(w, roots, st, tx, t, i, if closed then Finishing(true) else Scanning(item, rest, dirs))
      invariant (t == s && !closed) || Moved(w, s, t, i)
      invariant tx.room.None? <==> old(tx.room).None?
      decreases |rest|
    {
      closed, dirs, t := TakeEntry(w, roots, st, tx, item, rest, dirs, i, t);
      rest := rest[1..];
    }
    if !closed {
      ghost var s' := t;
      var notify := st.HandOver(w, item, dirs);
      t := SectionStep(w, roots, st, tx, s', i, ScanNext(w, item, [], dirs));
    }
  }

  // ---------------------------------------------------------------- one item

  /** Sending an entry error is a step. */
  lemma ReportStep(w: World, roots: seq<Path>, st: WorkState, tx: Channel, s: State, room: Option<nat>, i: nat,
                   item: Item, names: seq<Name>, errors: seq<IoError>)
    returns (t: State)
    requires w.Finite() && IsRun(w, roots, |s.workers|, s) && i < |s.workers|
      && s.workers[i] == Reporting(item, names, errors)
    requires errors != [] && (s.open <==> room != Some(0)) && st.Fields() == s.shared
    requires (tx.sent, tx.room)
          == Deliver(s.sent, room, [Event(item.Where(), Error(item.path, ReadDir, Io(errors[0])))])
    ensures Here(w, roots, st, tx, t, i, Reporting(item, names, errors[1..])) && Moved(w, s, t, i)
  {
    var e := Report(w, item, names, errors);
    NothingApplied(s.shared, e);
    t := StepIsCoupled(w, roots, st, tx, s, room, i, e);
  }

  /** So is going on to the entries when there are no more errors. */
  lemma ReportedStep(w: World, roots: seq<Path>, st: WorkState, tx: Channel, s: State, i: nat, item: Item,
                     names: seq<Name>)
    returns (t: State)
    requires w.Finite() && Here(w, roots, st, tx, s, i, Reporting(item, names, []))
    ensures Here(w, roots, st, tx, t, i, Scanning(item, names, [])) && Moved(w, s, t, i)
  {
    var e := Report(w, item, names, []);
    NothingApplied(s.shared, e);
    t := SectionStep(w, roots, st, tx, s, i, e);
  }

  method ReportError(w: World, roots: seq<Path>, st: WorkState, tx: Channel, item: Item, names: seq<Name>,
                     error: IoError, ghost errors: seq<IoError>, i: nat, ghost s: State)
    returns (ghost t: State)
    requires w.Finite() && errors != [] && errors[0] == error
      && Here(w, roots, st, tx, s, i, Reporting(item, names, errors))
    modifies tx
    ensures Here(w, roots, st, tx, t, i, Reporting(item, names, errors[1..]))
    ensures Moved(w, s, t, i) && (tx.room.None? <==> old(tx.room).None?)
  {
    var ok := tx.Send(Event(item.Where(), Error(item.path, ReadDir, Io(error))));
    t := ReportStep(w, roots, st, tx, s, old(tx.room), i, item, names, errors);
  }

  /** Sends the entry errors of a listing. */
  method ReportErrors(w: World, roots: seq<Path>, st: WorkState, tx: Channel, item: Item, names: seq<Name>,
                      errors: seq<IoError>, i: nat, ghost s: State)
    returns (ghost t: State)
    requires w.Finite() && Here(w, roots, st, tx, s, i, Reporting(item, names, errors))
    modifies tx
    ensures Here(w, roots, st, tx, t, i, Scanning(item, names, []))
    ensures Moved(w, s, t, i) && (tx.room.None? <==> old(tx.room).None?)
  {
    var rest := errors;
    t := s;
    while rest != []
      invariant Here(w, roots, st, tx, t, i, Reporting(item, names, rest))
      invariant (t == s || Moved(w, s, t, i)) && (tx.room.None? <==> old(tx.room).None?)
      decreases |rest|
    {
      t := ReportError(w, roots, st, tx, item, names, rest[0], rest, i, t);
      rest := rest[1..];
    }
    ghost var s' := t;
    t := ReportedStep(w, roots, st, tx, s', i, item, names);
  }

  /** Listing a directory, or being too deep for it, is a step. */
  lemma ListStep(w: World, roots: seq<Path>, st: WorkState, tx: Channel, s: State, room: Option<nat>, i: nat,
                 item: Item)
    returns (t: State)
    requires w.Finite() && IsRun(w, roots, |s.workers|, s) && i < |s.workers| && s.workers[i] == Expand(item)
    requires (s.open <==> room != Some(0)) && st.Fields() == s.shared
    requires (tx.sent, tx.room) == Deliver(s.sent, room,
      if w.DepthAllows(item.depth) && w.list(item.path).ListFailed?
      then [Event(item.Where(), Error(item.path, ReadDir, Io(w.list(item.path).error)))] else [])
    ensures Here(w, roots, st, tx, t, i,
      if w.DepthAllows(item.depth) && w.list(item.path).Listed?
      then Reporting(item, w.list(item.path).names, w.list(item.path).entryErrors) else Finishing(false))
    ensures Moved(w, s, t, i)
  {
    var e := ListDir(w, item);
    NothingApplied(s.shared, e);
    t := StepIsCoupled(w, roots, st, tx, s, room, i, e);
  }

  /** Lists a directory that is this worker's and scans its entries. */
  method ExpandDirectory(w: World, roots: seq<Path>, st: WorkState, tx: Channel, item: Item, i: nat, ghost s: State)
    returns (closed: bool, ghost t: State)
    requires w.Finite() && Here(w, roots, st, tx, s, i, Expand(item))
    modifies st, tx
    ensures Here(w, roots, st, tx, t, i, Finishing(closed))
    ensures Moved(w, s, t, i) && (tx.room.None? <==> old(tx.room).None?)
  {
    closed := false;
    DeliverNone(tx.sent, tx.room);
    if !w.DepthAllows(item.depth) {
      t := ListStep(w, roots, st, tx, s, tx.room, i, item);
      return;
    }
    var listing := w.list(item.path);
    if listing.ListFailed? {
      var ok := tx.Send(Event(item.Where(), Error(item.path, ReadDir, Io(listing.error))));
      t := ListStep(w, roots, st, tx, s, old(tx.room), i, item);
      return;
    }
    t := ListStep(w, roots, st, tx, s, tx.room, i, item);
    t := ReportErrors(w, roots, st, tx, item, listing.names, listing.entryErrors, i, t);
    closed, t := ScanDirectory(w, roots, st, tx, item, listing.names, i, t);
  }

  /** Where a worker goes on after a visit. */
  function AfterVisit(item: Item, outcome: Outcome): Worker {
    match outcome
    case Drop(_) => Finishing(false)
    case EnterDir(id) => TestDir(item, id)
    case OfferFile(file) => TestRoot(item, file)
  }

  /** What a worker decides about a popped item, with its lookups and its sends. */
  method VisitItem(w: World, roots: seq<Path>, st: WorkState, tx: Channel, item: Item, i: nat, ghost s: State)
    returns (outcome: Outcome, ghost t: State)
    requires w.Finite() && Here(w, roots, st, tx, s, i, Popped(item))
    modifies tx
    ensures outcome == w.ClassifyWith(item.root, item.path, MetaOf(w, item))
    ensures Here(w, roots, st, tx, t, i, AfterVisit(item, outcome))
    ensures Moved(w, s, t, i) && (tx.room.None? <==> old(tx.room).None?)
  {
    var meta := if item.meta.Some? then item.meta.value else w.stat(item.path);
    outcome := SerialLoop.Examine(w, tx, item.root, item.path, meta);
    ghost var e := Visit(w, item);
    NothingApplied(s.shared, e);
    t := StepIsCoupled(w, roots, st, tx, s, old(tx.room), i, e);
  }

  /** Sending a popped file is a step. */
  lemma SendRootStep(w: World, roots: seq<Path>, st: WorkState, tx: Channel, s: State, room: Option<nat>, i: nat,
                     item: Item, file: WalkItem)
    returns (t: State)
    requires w.Finite() && IsRun(w, roots, |s.workers|, s) && i < |s.workers| && s.workers[i] == SendRoot(item, file)
    requires (s.open <==> room != Some(0)) && st.Fields() == s.shared
    requires (tx.sent, tx.room) == Deliver(s.sent, room, [Event(item.Where(), file)])
    ensures Here(w, roots, st, tx, t, i, Finishing(!s.open)) && Moved(w, s, t, i)
  {
    var e := EffectOf(w, s.shared, s.open, s.workers[i]);
    NothingApplied(s.shared, e);
    t := StepIsCoupled(w, roots, st, tx, s, room, i, e);
  }

  method SendRootFile(w: World, roots: seq<Path>, st: WorkState, tx: Channel, item: Item, file: WalkItem, i: nat,
                      ghost s: State)
    returns (closed: bool, ghost t: State)
    requires w.Finite() && Here(w, roots, st, tx, s, i, SendRoot(item, file))
    modifies tx
    ensures Here(w, roots, st, tx, t, i, Finishing(closed))
    ensures Moved(w, s, t, i) && (tx.room.None? <==> old(tx.room).None?)
  {
    var ok := tx.Send(Event(item.Where(), file));
    t := SendRootStep(w, roots, st, tx, s, old(tx.room), i, item, file);
    closed := !ok;
  }

  /** Claims a popped file and sends it; a file seen before ends the item at once. */
  method TakeFile(w: World, roots: seq<Path>, st: WorkState, tx: Channel, item: Item, file: WalkItem, i: nat,
                  ghost s: State)
    returns (unseen: bool, closed: bool, ghost t: State)
    requires w.Finite() && Here(w, roots, st, tx, s, i, TestRoot(item, file))
    modifies st, tx
    ensures Here(w, roots, st, tx, t, i, if unseen then Finishing(closed) else Ready)
    ensures Moved(w, s, t, i) && (tx.room.None? <==> old(tx.room).None?)
  {
    HolderIsCounted(w, roots, s, i);
    var notify;
    unseen, notify := st.ClaimPoppedFile(item, file);
    t := SectionStep(w, roots, st, tx, s, i, ClaimRoot(s.shared, item, file));
    closed := false;
    if unseen {
      closed, t := SendRootFile(w, roots, st, tx, item, file, i, t);
    }
  }

  /** Claims a popped directory and expands it; one seen before ends the item at once. */
  method TakeDirectory(w: World, roots: seq<Path>, st: WorkState, tx: Channel, item: Item, id: DirId, i: nat,
                       ghost s: State)
    returns (unseen: bool, closed: bool, ghost t: State)
    requires w.Finite() && Here(w, roots, st, tx, s, i, TestDir(item, id))
    modifies st, tx
    ensures Here(w, roots, st, tx, t, i, if unseen then Finishing(closed) else Ready)
    ensures Moved(w, s, t, i) && (tx.room.None? <==> old(tx.room).None?)
  {
    HolderIsCounted(w, roots, s, i);
    var notify;
    unseen, notify := st.ClaimDirectory(item, id);
    t := SectionStep(w, roots, st, tx, s, i, ClaimDir(s.shared, item, id));
    closed := false;
    if unseen {
      closed, t := ExpandDirectory(w, roots, st, tx, item, i, t);
    }
  }

  /** The end of a turn. */
  method FinishItem(w: World, roots: seq<Path>, st: WorkState, tx: Channel, closed: bool, i: nat, ghost s: State)
    returns (ghost t: State)
    requires w.Finite() && Here(w, roots, st, tx, s, i, Finishing(closed))
    modifies st
    ensures Here(w, roots, st, tx, t, i, if closed then Left(false) else Ready) && Moved(w, s, t, i)
  {
    HolderIsCounted(w, roots, s, i);
    var notify := st.SignalDoneLocked();
    t := SectionStep(w, roots, st, tx, s, i, SignalDone(s.shared, if closed then Left(false) else Ready));
  }

  /** Everything from the popped item to the end of the turn. `leave` says that the worker gives
      up because the receiver has gone, or an unreadable chain ended a scan. */
  method HandleItem(w: World, roots: seq<Path>, st: WorkState, tx: Channel, item: Item, i: nat, ghost s: State)
    returns (leave: bool, ghost t: State)
    requires w.Finite() && Here(w, roots, st, tx, s, i, Popped(item))
    modifies st, tx
    ensures Here(w, roots, st, tx, t, i, if leave then Left(false) else Ready)
    ensures Moved(w, s, t, i) && (tx.room.None? <==> old(tx.room).None?)
  {
    var outcome;
    outcome, t := VisitItem(w, roots, st, tx, item, i, s);
    var unseen, closed := true, false;
    match outcome {
      case Drop(_) =>
      case EnterDir(id) => unseen, closed, t := TakeDirectory(w, roots, st, tx, item, id, i, t);
      case OfferFile(file) => unseen, closed, t := TakeFile(w, roots, st, tx, item, file, i, t);
    }
    leave := unseen && closed;
    if unseen {
      t := FinishItem(w, roots, st, tx, closed, i, t);
    }
  }

  // ---------------------------------------------------------------- the loop of a worker

  function AfterLook(look: Look): Worker {
    match look
    case Work(item) => Popped(item)
    case Drained => Left(true)
    case Wait => Asleep
  }

  method TakeItem(w: World, roots: seq<Path>, st: WorkState, tx: Channel, i: nat, ghost s: State)
    returns (look: Look, ghost t: State)
    requires w.Finite() && Here(w, roots, st, tx, s, i, Ready)
    modifies st
    ensures Here(w, roots, st, tx, t, i, AfterLook(look)) && Moved(w, s, t, i)
  {
    var notify;
    look, notify := st.LookForWork();
    t := SectionStep(w, roots, st, tx, s, i, TakeWork(s.shared));
  }

  /** A worker from the moment it looks for work until it leaves or has to wait for others. */
  method Work(w: World, roots: seq<Path>, st: WorkState, tx: Channel, i: nat, ghost s: State)
    returns (ghost t: State)
    requires w.Finite() && Here(w, roots, st, tx, s, i, Ready)
    modifies st, tx
    ensures IsRun(w, roots, |s.workers|, t) && Coupled(st, tx, t) && Moved(w, s, t, i)
    ensures t.workers[i].Left? || t.workers[i].Asleep?
    ensures tx.room.None? <==> old(tx.room).None?
  {
    t := s;
    while true
      invariant Here(w, roots, st, tx, t, i, Ready) && (t == s || Moved(w, s, t, i))
      invariant tx.room.None? <==> old(tx.room).None?
      decreases ParallelTermination.Potential(w, t)
    {
      var look;
      look, t := TakeItem(w, roots, st, tx, i, t);
      if !look.Work? {
        return;
      }
      var leave;
      leave, t := HandleItem(w, roots, st, tx, look.item, i, t);
      if leave {
        return;
      }
    }
  }

  // ---------------------------------------------------------------- the whole engine

  /** The first `k` workers have left, the others have not begun. */
  predicate InTurn(s: State, k: nat) {
    && k <= |s.workers|
    && (forall j :: 0 <= j < k ==> s.workers[j].Left?)
    && (forall j :: k <= j < |s.workers| ==> s.workers[j].Ready?)
  }

  /** A worker that runs when nobody else is at work never has to wait. */
  lemma NobodyElseHolds(w: World, roots: seq<Path>, s: State, i: nat)
    requires w.Finite() && IsRun(w, roots, |s.workers|, s) && i < |s.workers|
    requires forall j :: 0 <= j < |s.workers| && j != i ==> s.workers[j].Left? || s.workers[j].Ready?
    ensures !s.workers[i].Asleep?
  {
    RunHasItems(w, roots, |s.workers|, s);
    if s.workers[i].Asleep? {
      var j := SumNatWitness(Holding, s.workers);
    }
  }

  method TakeTurn(w: World, roots: seq<Path>, st: WorkState, tx: Channel, i: nat, ghost s: State)
    returns (ghost t: State)
    requires w.Finite() && IsRun(w, roots, |s.workers|, s) && Coupled(st, tx, s) && InTurn(s, i) && i < |s.workers|
    modifies st, tx
    ensures IsRun(w, roots, |t.workers|, t) && |t.workers| == |s.workers| && Coupled(st, tx, t) && InTurn(t, i + 1)
    ensures tx.room.None? <==> old(tx.room).None?
  {
    t := Work(w, roots, st, tx, i, s);
    NobodyElseHolds(w, roots, t, i);
  }

  lemma BeginRun(w: World, roots: seq<Path>, st: WorkState, tx: Channel, n: nat) returns (s: State)
    requires st.Fields() == Init(roots, 0).shared && tx.sent == []
    ensures IsRun(w, roots, n, s) && |s.workers| == n && Coupled(st, tx, s) && InTurn(s, 0)
  {
    s := Init(roots, n);
    assert s == Exec(w, Init(roots, n), []);
    if tx.room == Some(0) {
      RunGoesOn(w, roots, n, s, CloseChannel);
      s := Step(w, s, CloseChannel);
    }
  }

  lemma FinishedResult(w: World, roots: seq<Path>, n: nat, s: State)
    requires w.Finite() && IsRun(w, roots, n, s) && AllLeft(s)
    ensures forall p :: ParallelReach.SentAs(s.sent, p) <= 1
    ensures forall i :: 0 <= i < |s.sent| ==> WellFounded(w, roots, s.sent[i])
    ensures s.open && n > 0 && Distinct(roots) ==> FullReport(w, roots, s.sent, s.expanded)
    ensures s.open && n > 0 && w.TreeLike(roots) ==> w.Complete(roots, s.sent)
    ensures s.open && n > 0 && Distinct(roots) && Unrestricted(w) && GraphLike(w) && !TooLongReported(w, s.sent) ==>
      IsReachableSet(w, roots, ParallelReach.IdsOf(s.expanded))
  {
    var labels :| s == Exec(w, Init(roots, n), labels);
    forall p ensures ParallelReach.SentAs(s.sent, p) <= 1 {
      ParallelReach.NoFileTwice(w, roots, n, labels, p);
    }
    forall i | 0 <= i < |s.sent| ensures WellFounded(w, roots, s.sent[i]) {
      ParallelReportsOnly(w, roots, n, labels, i);
    }
    if s.open && n > 0 {
      if Distinct(roots) {
        ParallelReportsAll(w, roots, n, labels);
      }
      if w.TreeLike(roots) {
        ParallelComplete.ParallelIsComplete(w, roots, n, labels);
      }
      if Distinct(roots) && Unrestricted(w) && GraphLike(w) && !TooLongReported(w, s.sent) {
        ParallelReach.ExpandedIsReachable(w, roots, n, labels);
      }
    }
  }

  /** `walk_multi_thread` on the schedule in which each worker goes on until it leaves: it ends,
      all workers have left, and what was sent is what that run of the machine sent. */
  method WalkMultiThread(w: World, roots: seq<Path>, tx: Channel, parallelism: nat) returns (ghost s: State)
    requires w.Finite() && tx.sent == []
    modifies tx
    ensures IsRun(w, roots, parallelism, s) && AllLeft(s) && tx.sent == s.sent
    ensures old(tx.room).None? ==> s.open
    ensures forall p :: ParallelReach.SentAs(tx.sent, p) <= 1
    ensures forall i :: 0 <= i < |tx.sent| ==> WellFounded(w, roots, tx.sent[i])
    ensures old(tx.room).None? && parallelism > 0 && Distinct(roots) ==> FullReport(w, roots, tx.sent, s.expanded)
    ensures old(tx.room).None? && parallelism > 0 && w.TreeLike(roots) ==> w.Complete(roots, tx.sent)
    ensures && old(tx.room).None? && parallelism > 0 && Distinct(roots)
            && Unrestricted(w) && GraphLike(w) && !TooLongReported(w, tx.sent) ==>
      IsReachableSet(w, roots, ParallelReach.IdsOf(s.expanded))
  {
    var st := new WorkState(roots);
    s := BeginRun(w, roots, st, tx, parallelism);
    for i := 0 to parallelism
      invariant IsRun(w, roots, parallelism, s) && |s.workers| == parallelism && Coupled(st, tx, s) && InTurn(s, i)
      invariant tx.room.None? <==> old(tx.room).None?
    {
      s := TakeTurn(w, roots, st, tx, i, s);
    }
    FinishedResult(w, roots, parallelism, s);
  }
}
/**
 The runs of the serial engine: the states its loop goes through, for every world, all roots
 and a receiver that stays or leaves. What is proved of them holds of the state in which
 `WalkSingleThread` ends, because that is one of them.
 */
module SerialRuns {
  import opened Prelude
  import opened Gitignore
  import opened WalkWorld
  import opened ParallelWalk
  import opened ParallelItems
  import opened ParallelSends
  import opened SerialWalk
  import opened SerialBooks
  import opened DirGraph
  import LookupOrder
  import ParallelReach

  /** The variables of the loop and its flag. The loop stops on an empty queue and after a turn
      that found the receiver gone. */
  datatype Loop = Loop(s: Serial, goOn: bool) {
    predicate Over() { s.queue == [] || !goOn }
  }

  function LoopStep(w: World, l: Loop): Loop {
    if l.Over() then l else Loop(Turn(w, l.s).0, Turn(w, l.s).1)
  }

  /** What a loop does in one step. */
  type Stepper = Loop -> Loop

  function Steps(w: World): Stepper {
    l => LoopStep(w, l)
  }

  function Iterate(step: Stepper, l: Loop, k: nat): Loop {
    if k == 0 then l else step(Iterate(step, l, k - 1))
  }

  /** The loop after at most `k` turns. */
  function AfterTurns(w: World, roots: seq<Path>, room: Option<nat>, k: nat): Loop {
    Iterate(Steps(w), Loop(Start(w, roots, room), true), k)
  }

  /** `s` is a state the loop goes through. */
  ghost predicate IsSerialRun(w: World, roots: seq<Path>, room: Option<nat>, s: Serial) {
    exists k: nat :: s == AfterTurns(w, roots, room, k).s
  }

  /** The loop is over in `s`. */
  ghost predicate IsFinishedRun(w: World, roots: seq<Path>, room: Option<nat>, s: Serial) {
    exists k: nat :: FinishedAfter(w, roots, room, s, k)
  }

  predicate FinishedAfter(w: World, roots: seq<Path>, room: Option<nat>, s: Serial, k: nat) {
    s == AfterTurns(w, roots, room, k).s && AfterTurns(w, roots, room, k).Over()
  }

  lemma {:induction false} OverStays(step: Stepper, l: Loop, k: nat, n: nat)
    requires k <= n && step(Iterate(step, l, k)) == Iterate(step, l, k)
    ensures Iterate(step, l, n) == Iterate(step, l, k)
    decreases n
  {
    if k < n {
      OverStays(step, l, k, n - 1);
    }
  }

  lemma FinishedStays(w: World, roots: seq<Path>, room: Option<nat>, s: Serial, k: nat, n: nat)
    requires FinishedAfter(w, roots, room, s, k) && k <= n
    ensures AfterTurns(w, roots, room, n).s == s
  {
    OverStays(Steps(w), Loop(Start(w, roots, room), true), k, n);
  }

  /** The serial engine is deterministic: there is one state it ends in. */
  lemma FinishedIsUnique(w: World, roots: seq<Path>, room: Option<nat>, s: Serial, t: Serial)
    requires IsFinishedRun(w, roots, room, s) && IsFinishedRun(w, roots, room, t)
    ensures s == t
  {
    var j: nat :| FinishedAfter(w, roots, room, s, j);
    var k: nat :| FinishedAfter(w, roots, room, t, k);
    if j <= k {
      FinishedStays(w, roots, room, s, j, k);
    } else {
      FinishedStays(w, roots, room, t, k, j);
    }
  }

  // ---------------------------------------------------------------- what every run keeps

  /** What holds at first and is kept by every step holds always. */
  lemma {:induction false} Always(step: Stepper, inv: Loop -> bool, l: Loop, k: nat)
    requires inv(l) && forall m :: inv(m) ==> inv(step(m))
    ensures inv(Iterate(step, l, k))
  {
    if k > 0 {
      Always(step, inv, l, k - 1);
    }
  }

  ghost predicate LoopKept(w: World, roots: seq<Path>, room: Option<nat>, l: Loop) {
    LoopOk(w, roots, l.s) && (l.s.room.None? <==> room.None?) && (room.None? ==> l.goOn)
  }

  lemma StepKeepsLoop(w: World, roots: seq<Path>, room: Option<nat>, l: Loop)
    requires w.Finite() && LoopKept(w, roots, room, l)
    ensures LoopKept(w, roots, room, LoopStep(w, l))
  {
    if !l.Over() {
      TurnKeepsLoop(w, roots, l.s);
      RoomStays(w, l.s);
    }
  }

  lemma TurnsKeepLoop(w: World, roots: seq<Path>, room: Option<nat>, k: nat)
    requires w.Finite() && Distinct(roots)
    ensures LoopKept(w, roots, room, AfterTurns(w, roots, room, k))
  {
    var inv := (l: Loop) => LoopKept(w, roots, room, l);
    StartIsOk(w, roots, room);
    StartIsStarted(w, roots, room);
    forall l | inv(l) ensures inv(Steps(w)(l)) {
      StepKeepsLoop(w, roots, room, l);
    }
    Always(Steps(w), inv, Loop(Start(w, roots, room), true), k);
  }

  lemma SerialRunIsOk(w: World, roots: seq<Path>, room: Option<nat>, s: Serial)
    requires w.Finite() && Distinct(roots) && IsSerialRun(w, roots, room, s)
    ensures LoopOk(w, roots, s) && (s.room.None? <==> room.None?)
  {
    var k: nat :| s == AfterTurns(w, roots, room, k).s;
    TurnsKeepLoop(w, roots, room, k);
  }

  ghost predicate AsksKept(w: World, roots: seq<Path>, l: Loop) {
    QueueOk(w, roots, l.s) && LookupOrder.AsksOkS(w, l.s)
  }

  lemma StepKeepsAsks(w: World, roots: seq<Path>, l: Loop)
    requires w.Finite() && w.respectGitignore && LookupOrder.RootsAreDirs(w, roots) && AsksKept(w, roots, l)
    ensures AsksKept(w, roots, LoopStep(w, l))
  {
    if !l.Over() {
      TurnKeepsQueue(w, roots, l.s);
      LookupOrder.TurnKeepsAsks(w, roots, l.s);
    }
  }

  lemma TurnsKeepAsks(w: World, roots: seq<Path>, room: Option<nat>, k: nat)
    requires w.Finite() && Distinct(roots) && w.respectGitignore && LookupOrder.RootsAreDirs(w, roots)
    ensures AsksKept(w, roots, AfterTurns(w, roots, room, k))
  {
    var inv := (l: Loop) => AsksKept(w, roots, l);
    StartIsOk(w, roots, room);
    LookupOrder.StartAsks(w, roots, room);
    forall l | inv(l) ensures inv(Steps(w)(l)) {
      StepKeepsAsks(w, roots, l);
    }
    Always(Steps(w), inv, Loop(Start(w, roots, room), true), k);
  }

  // ---------------------------------------------------------------- what a turn sends

  /** What listing a new directory sends. */
  function EnterEvents(w: World, item: Item): seq<Event> {
    var x := item.Where();
    if !w.DepthAllows(item.depth) then []
    else
      match w.list(item.path)
      case ListFailed(e) => [Event(x, Error(item.path, ReadDir, Io(e)))]
      case Listed(names, errors) => At(x, w.EntryErrors(item.path, errors)) + Refused(w, x, names)
  }

  function TurnEvents(w: World, s: Serial): seq<Event>
    requires s.queue != []
  {
    var x := s.queue[0].Where();
    match w.Classify(x)
    case Drop(sends) => At(x, sends)
    case EnterDir(id) => if id in s.visitedDirs then [] else EnterEvents(w, s.queue[0])
    case OfferFile(file) => if x.path in s.visitedFiles then [] else [Event(x, file)]
  }

  lemma TurnDelivers(w: World, s: Serial)
    requires s.queue != []
    ensures Turn(w, s).0.sent == Deliver(s.sent, s.room, TurnEvents(w, s)).0
  {
    DeliverNone(s.sent, s.room);
  }

  lemma EnterJustified(w: World, roots: seq<Path>, item: Item)
    requires Entered(w, roots, item)
    ensures AllJustified(w, roots, EnterEvents(w, item))
  {
    var x, events := item.Where(), EnterEvents(w, item);
    if w.DepthAllows(item.depth) && w.list(item.path).Listed? {
      var errors, names := w.list(item.path).entryErrors, w.list(item.path).names;
      RefusedJustified(w, roots, item, names);
      forall i | 0 <= i < |events| ensures Justified(w, roots, events[i]) {
        if i < |errors| {
          assert events[i].item == w.EntryErrors(item.path, errors)[i];
        } else {
          assert events[i] == Refused(w, x, names)[i - |errors|];
        }
      }
    }
  }

  lemma {:induction false} RefusedJustified(w: World, roots: seq<Path>, item: Item, names: seq<Name>)
    requires Entered(w, roots, item)
    requires forall n :: n in names ==> n in w.Children(item.Where())
    ensures AllJustified(w, roots, Refused(w, item.Where(), names))
  {
    if names != [] {
      RefusedJustified(w, roots, item, names[1..]);
      assert names[0] in names;
      w.WalkedChild(roots, item.Where(), names[0]);
    }
  }

  lemma TurnJustified(w: World, roots: seq<Path>, s: Serial)
    requires s.queue != [] && ItemOk(w, roots, s.queue[0])
    ensures AllJustified(w, roots, TurnEvents(w, s))
  {
    var x := s.queue[0].Where();
    match w.Classify(x)
    case Drop(sends) => assert forall i :: 0 <= i < |sends| ==> sends[i] in w.Emits(x);
    case EnterDir(_) => EnterJustified(w, roots, s.queue[0]);
    case OfferFile(_) =>
  }

  lemma DeliverJustified(w: World, roots: seq<Path>, sent: seq<Event>, room: Option<nat>, events: seq<Event>)
    requires AllJustified(w, roots, sent) && AllJustified(w, roots, events)
    ensures AllJustified(w, roots, Deliver(sent, room, events).0)
  {
  }

  lemma {:induction false} StartJustified(w: World, roots: seq<Path>, room: Option<nat>, all: seq<Path>)
    requires forall r :: r in roots ==> r in all
    ensures AllJustified(w, all, Start(w, roots, room).sent)
  {
    if roots != [] {
      var init, r := roots[..|roots| - 1], roots[|roots| - 1];
      var s := Start(w, init, room);
      StartJustified(w, init, room, all);
      assert r in roots;
      if w.TooLong(r) {
        DeliverJustified(w, all, s.sent, s.room, [Event(Spot(r, r), w.TooLongError(r))]);
      }
    }
  }

  ghost predicate SendsKept(w: World, roots: seq<Path>, l: Loop) {
    QueueOk(w, roots, l.s) && AllJustified(w, roots, l.s.sent)
  }

  lemma StepKeepsSends(w: World, roots: seq<Path>, l: Loop)
    requires w.Finite() && SendsKept(w, roots, l)
    ensures SendsKept(w, roots, LoopStep(w, l))
  {
    if !l.Over() {
      TurnKeepsQueue(w, roots, l.s);
      assert l.s.queue[0] in l.s.queue;
      TurnJustified(w, roots, l.s);
      TurnDelivers(w, l.s);
      DeliverJustified(w, roots, l.s.sent, l.s.room, TurnEvents(w, l.s));
    }
  }

  lemma TurnsKeepSends(w: World, roots: seq<Path>, room: Option<nat>, k: nat)
    requires w.Finite() && Distinct(roots)
    ensures SendsKept(w, roots, AfterTurns(w, roots, room, k))
  {
    var inv := (l: Loop) => SendsKept(w, roots, l);
    StartIsOk(w, roots, room);
    StartJustified(w, roots, room, roots);
    forall l | inv(l) ensures inv(Steps(w)(l)) {
      StepKeepsSends(w, roots, l);
    }
    Always(Steps(w), inv, Loop(Start(w, roots, room), true), k);
  }

  // ---------------------------------------------------------------- what every run promises

  /** Whatever is sent is what the specification sends for a path it walks, files at most one
      level below the depth limit. */
  lemma SerialSendsOnly(w: World, roots: seq<Path>, room: Option<nat>, s: Serial, i: nat)
    requires w.Finite() && Distinct(roots) && IsSerialRun(w, roots, room, s) && i < |s.sent|
    ensures Justified(w, roots, s.sent[i])
    ensures s.sent[i].item.File? ==> s.sent[i].item.path == s.sent[i].at.path
    ensures w.maxDepth.Some? ==> s.sent[i].at.Depth() <= w.maxDepth.value + 1
  {
    var k: nat :| s == AfterTurns(w, roots, room, k).s;
    TurnsKeepSends(w, roots, room, k);
    assert Justified(w, roots, s.sent[i]);
    if w.maxDepth.Some? {
      w.WalkedDepth(roots, s.sent[i].at);
    }
  }

  /** No path is sent twice as a file, and no directory expanded twice. */
  lemma SerialOnce(w: World, roots: seq<Path>, room: Option<nat>, s: Serial, p: Path)
    requires w.Finite() && Distinct(roots) && IsSerialRun(w, roots, room, s)
    ensures ParallelReach.SentAs(s.sent, p) <= 1 && Distinct(s.expanded)
  {
    SerialRunIsOk(w, roots, room, s);
    assert OnceS(s, p);
  }

  /** While the receiver stays, every error met by a settled visit was sent. */
  lemma SerialSwallowsNoError(w: World, roots: seq<Path>, s: Serial, x: Spot, item: WalkItem)
    requires w.Finite() && Distinct(roots) && IsSerialRun(w, roots, None, s)
    requires x in s.done && w.Classify(x).Drop? && item in w.Classify(x).sends
    ensures Event(x, item) in s.sent
  {
    SerialRunIsOk(w, roots, None, s);
  }

  /** When the queue is empty, every directory expanded has a claiming visit whose entries were all
      settled and whose listing errors were all sent. */
  lemma SerialReportsListings(w: World, roots: seq<Path>, s: Serial, id: DirId)
    requires w.Finite() && Distinct(roots) && IsSerialRun(w, roots, None, s) && s.queue == [] && id in s.expanded
    ensures exists x :: FannedAt(w, s.done, id, x) && ListingSent(w, s.sent, x)
  {
    SerialRunIsOk(w, roots, None, s);
    DrainedReportsListings(w, roots, s, id);
  }

  /** On a tree an empty queue means that everything specified was sent, and nothing else. */
  lemma SerialIsComplete(w: World, roots: seq<Path>, s: Serial)
    requires w.Finite() && w.TreeLike(roots) && IsSerialRun(w, roots, None, s) && s.queue == []
    ensures w.Complete(roots, s.sent)
  {
    SerialRunIsOk(w, roots, None, s);
    DrainedIsComplete(w, roots, s);
  }

  /** On a graph it means that exactly the reachable directories were expanded. */
  lemma SerialIsReachable(w: World, roots: seq<Path>, s: Serial)
    requires w.Finite() && Distinct(roots) && IsSerialRun(w, roots, None, s) && s.queue == []
    requires Unrestricted(w) && GraphLike(w) && !TooLongReported(w, s.sent)
    ensures Distinct(s.expanded) && IsReachableSet(w, roots, ParallelReach.IdsOf(s.expanded))
  {
    SerialRunIsOk(w, roots, None, s);
    DrainedIsReachable(w, roots, s);
  }

  /** The ignore cache is asked for a directory before anything below it. */
  lemma SerialAsksInOrder(w: World, roots: seq<Path>, room: Option<nat>, s: Serial)
    requires w.Finite() && Distinct(roots) && w.respectGitignore && LookupOrder.RootsAreDirs(w, roots)
    requires IsSerialRun(w, roots, room, s)
    ensures LookupOrder.InOrder(w, s.requests)
  {
    var k: nat :| s == AfterTurns(w, roots, room, k).s;
    TurnsKeepAsks(w, roots, room, k);
  }
}

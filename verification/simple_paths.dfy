/**
 Which paths a walk can meet at all: those whose proper prefixes are distinct directories,
 because a directory reached a second time is not entered again. So how long paths get, and
 whether an over-long one can be met, can be read off the file system before the walk.
 */
module SimplePaths {
  import opened Prelude
  import opened Gitignore
  import opened WalkWorld
  import opened ParallelWalk
  import opened ParallelProtocol
  import opened ParallelItems
  import opened ParallelBooks
  import opened ParallelComplete
  import opened ParallelReach
  import opened ParallelSends
  import opened SerialWalk
  import opened SerialBooks
  import opened SerialRuns
  import opened DirGraph
  import opened Bags

  /** What stands above the path after `j` and after `k` components is not the same directory. */
  predicate Differ(w: World, y: Spot, j: nat, k: nat)
    requires j <= |y.path| && k <= |y.path|
  {
    w.stat(y.path[..j]) != w.stat(y.path[..k])
  }

  /** No directory stands twice above the path. */
  predicate Simple(w: World, y: Spot) {
    forall j, k :: |y.root| <= j < k < |y.path| ==> Differ(w, y, j, k)
  }

  /** No path that a walk can meet is over-long. */
  ghost predicate ShortOnSimplePaths(w: World, roots: seq<Path>) {
    forall y :: w.Walked(roots, y) && Simple(w, y) ==> !w.TooLong(y.path)
  }

  // ---------------------------------------------------------------- paths met once

  /** Two paths below the same directory have the same parent: one visit entered the directory. */
  predicate SameClaim(w: World, y: Spot, z: Spot) {
    || y.IsRoot() || z.IsRoot() || y.path == [] || z.path == []
    || w.Classify(y.Parent()) != w.Classify(z.Parent())
    || y.Parent() == z.Parent()
  }

  /** A set of walked paths that is closed under parents and enters no directory twice. */
  ghost predicate MetOnce(w: World, roots: seq<Path>, met: Spot -> bool) {
    && (forall y :: met(y) ==> w.Walked(roots, y) && (y.IsRoot() || (y.path != [] && met(y.Parent()))))
    && (forall y, z :: met(y) && met(z) ==> SameClaim(w, y, z))
  }

  lemma {:induction false} PrefixIsMet(w: World, roots: seq<Path>, met: Spot -> bool, y: Spot, k: nat)
    requires MetOnce(w, roots, met) && met(y) && |y.root| <= k <= |y.path|
    ensures met(Spot(y.root, y.path[..k]))
    decreases |y.path|
  {
    if k == |y.path| {
      assert y.path[..k] == y.path;
    } else {
      PrefixIsMet(w, roots, met, y.Parent(), k);
      assert y.Parent().path[..k] == y.path[..k];
    }
  }

  /** What stands above a walked path is an entered directory. */
  lemma ParentIsEntered(w: World, roots: seq<Path>, y: Spot)
    requires w.Walked(roots, y) && !y.IsRoot()
    ensures y.path != []
    ensures w.stat(y.Parent().path).Directory? && w.stat(y.Parent().path).id.Ok?
    ensures w.Classify(y.Parent()) == EnterDir(w.stat(y.Parent().path).id.value)
  {
  }

  /** The prefix of `k + 1` components is met, and its parent is the one of `k`. */
  lemma PrefixParent(w: World, roots: seq<Path>, met: Spot -> bool, y: Spot, k: nat)
    requires MetOnce(w, roots, met) && met(y) && |y.root| <= k < |y.path|
    ensures var a := Spot(y.root, y.path[..k + 1]);
      && met(a) && !a.IsRoot() && a.path != [] && a.Parent() == Spot(y.root, y.path[..k])
      && w.stat(y.path[..k]).Directory? && w.stat(y.path[..k]).id.Ok?
      && w.Classify(a.Parent()) == EnterDir(w.stat(y.path[..k]).id.value)
  {
    var a := Spot(y.root, y.path[..k + 1]);
    PrefixIsMet(w, roots, met, y, k + 1);
    assert a.path[..k] == y.path[..k];
    ParentIsEntered(w, roots, a);
  }

  lemma MetIsSimple(w: World, roots: seq<Path>, met: Spot -> bool, y: Spot)
    requires MetOnce(w, roots, met) && met(y)
    ensures Simple(w, y)
  {
    forall j, k | |y.root| <= j < k < |y.path| ensures Differ(w, y, j, k) {
      PrefixParent(w, roots, met, y, j);
      PrefixParent(w, roots, met, y, k);
      assert SameClaim(w, Spot(y.root, y.path[..j + 1]), Spot(y.root, y.path[..k + 1]));
      assert |y.path[..j]| != |y.path[..k]|;
    }
  }

  // ---------------------------------------------------------------- how long such paths get

  lemma {:induction false} SubsetSize<T>(a: set<T>, b: set<T>)
    requires a <= b
    ensures |a| <= |b|
  {
    if a != {} {
      var x :| x in a;
      SubsetSize(a - {x}, b - {x});
    }
  }

  /** The directories that stand above the first `k` components. */
  function IdsAbove(w: World, y: Spot, k: nat): set<DirId>
    requires k <= |y.path|
  {
    if k <= |y.root| then {}
    else
      var above := IdsAbove(w, y, k - 1);
      var d := w.stat(y.path[..k - 1]);
      if d.Directory? && d.id.Ok? then above + {d.id.value} else above
  }

  ghost predicate StandsAbove(w: World, y: Spot, k: nat, id: DirId)
    requires k <= |y.path|
  {
    exists j :: |y.root| <= j < k && w.stat(y.path[..j]) == Directory(Ok(id))
  }

  lemma {:induction false} IdsAboveAre(w: World, y: Spot, k: nat, id: DirId)
    requires k <= |y.path| && id in IdsAbove(w, y, k)
    ensures StandsAbove(w, y, k, id)
  {
    if id in IdsAbove(w, y, k - 1) {
      IdsAboveAre(w, y, k - 1, id);
    }
  }

  lemma NextIsNew(w: World, y: Spot, k: nat, id: DirId)
    requires Simple(w, y) && |y.root| <= k < |y.path| && w.stat(y.path[..k]) == Directory(Ok(id))
    ensures id !in IdsAbove(w, y, k)
  {
    forall j | |y.root| <= j < k ensures w.stat(y.path[..j]) != Directory(Ok(id)) {
      assert Differ(w, y, j, k);
    }
    if id in IdsAbove(w, y, k) {
      IdsAboveAre(w, y, k, id);
    }
  }

  lemma {:induction false} IdsAboveCount(w: World, roots: seq<Path>, y: Spot, k: nat)
    requires w.Finite() && w.Walked(roots, y) && Simple(w, y) && |y.root| <= k <= |y.path|
    ensures IdsAbove(w, y, k) <= w.ids && |IdsAbove(w, y, k)| == k - |y.root|
  {
    if k > |y.root| {
      IdsAboveCount(w, roots, y, k - 1);
      PrefixIsEntered(w, roots, y, k - 1);
      NextIsNew(w, y, k - 1, w.stat(y.path[..k - 1]).id.value);
    }
  }

  lemma {:induction false} PrefixIsEntered(w: World, roots: seq<Path>, y: Spot, k: nat)
    requires w.Walked(roots, y) && |y.root| <= k < |y.path|
    ensures w.stat(y.path[..k]).Directory? && w.stat(y.path[..k]).id.Ok?
    decreases |y.path|
  {
    ParentIsEntered(w, roots, y);
    if k < |y.path| - 1 {
      PrefixIsEntered(w, roots, y.Parent(), k);
      assert y.Parent().path[..k] == y.path[..k];
    }
  }

  /** A path of a finite world that is walked and simple has no more components below its root than
      there are directories. */
  lemma SimpleIsShort(w: World, roots: seq<Path>, y: Spot)
    requires w.Finite() && w.Walked(roots, y) && Simple(w, y)
    ensures |y.path| <= |y.root| + |w.ids|
  {
    IdsAboveCount(w, roots, y, |y.path|);
    SubsetSize(IdsAbove(w, y, |y.path|), w.ids);
  }

  // ---------------------------------------------------------------- the parallel engine

  /** No directory has been entered by two visits. */
  ghost predicate ClaimsOnce(w: World, s: State) {
    forall y, z {:trigger Known(w, s, y), Known(w, s, z)} :: Known(w, s, y) && Known(w, s, z) ==> SameClaim(w, y, z)
  }

  /** A path becomes known when its directory is claimed, and not otherwise. */
  lemma KnownBefore(w: World, roots: seq<Path>, s: State, i: nat, y: Spot)
    requires ItemsOk(w, roots, s) && Enabled(s, Run(i)) && Known(w, Step(w, s, Run(i)), y)
    ensures Known(w, s, y) || Gained(w, s.workers[i], EffectOf(w, s.shared, s.open, s.workers[i]), y) > 0
  {
    var k := s.workers[i];
    var e := EffectOf(w, s.shared, s.open, k);
    assert WorkerOk(w, roots, k);
    RunIsApply(w, s, i);
    StepBalanced(w, roots, s.shared, s.open, k, y);
    PendingAfter(w, s, i, e, y);
  }

  /** The entries of a directory that is claimed share no claim with what was known. */
  lemma NewClaim(w: World, roots: seq<Path>, s: State, i: nat, y: Spot, z: Spot)
    requires ItemsOk(w, roots, s) && Placed(w, s) && DirsVisited(w, s) && Enabled(s, Run(i))
    requires Gained(w, s.workers[i], EffectOf(w, s.shared, s.open, s.workers[i]), y) > 0
    requires Known(w, s, z) || Gained(w, s.workers[i], EffectOf(w, s.shared, s.open, s.workers[i]), z) > 0
    ensures SameClaim(w, y, z) && SameClaim(w, z, y)
  {
    var k := s.workers[i];
    var x := k.item.Where();
    assert WorkerOk(w, roots, k);
    ClaimsAreSettled(w, roots, s.shared, s.open, k);
    ClaimIsNew(w, s.shared, s.open, k);
    ParentOfKid(x, w.Children(x), y);
    if Known(w, s, z) {
      assert PlacedAt(w, s, z);
    } else {
      ParentOfKid(x, w.Children(x), z);
    }
  }

  lemma ParentOfKid(x: Spot, names: seq<Name>, y: Spot)
    requires Kids(x, names, y) > 0
    ensures y.path != [] && y.Parent() == x
  {
    KidsMember(x, names, y);
    var n :| n in names && y == x.Child(n);
    assert y.path[..|y.path| - 1] == x.path;
  }

  lemma RunKeepsClaims(w: World, roots: seq<Path>, s: State, i: nat)
    requires ItemsOk(w, roots, s) && Placed(w, s) && DirsVisited(w, s) && Enabled(s, Run(i)) && ClaimsOnce(w, s)
    ensures ClaimsOnce(w, Step(w, s, Run(i)))
  {
    var s' := Step(w, s, Run(i));
    forall y, z | Known(w, s', y) && Known(w, s', z) ensures SameClaim(w, y, z) {
      KnownBefore(w, roots, s, i, y);
      KnownBefore(w, roots, s, i, z);
      if !Known(w, s, y) {
        NewClaim(w, roots, s, i, y, z);
      } else if !Known(w, s, z) {
        NewClaim(w, roots, s, i, z, y);
      }
    }
  }

  lemma WakeKnows(w: World, s: State, i: nat, y: Spot)
    requires Enabled(s, Wake(i))
    ensures Known(w, Step(w, s, Wake(i)), y) <==> Known(w, s, y)
  {
    SumNatUpdate(Held(w, y), s.workers, i, Ready);
  }

  lemma StepKeepsClaims(w: World, roots: seq<Path>, s: State, l: Label)
    requires ItemsOk(w, roots, s) && Placed(w, s) && DirsVisited(w, s) && ClaimsOnce(w, s)
    ensures ClaimsOnce(w, Step(w, s, l))
  {
    if Enabled(s, l) {
      match l {
        case Run(i) => RunKeepsClaims(w, roots, s, i);
        case Wake(i) =>
          forall y ensures Known(w, Step(w, s, l), y) <==> Known(w, s, y) {
            WakeKnows(w, s, i, y);
          }
        case CloseChannel =>
          assert forall y :: Known(w, Step(w, s, l), y) <==> Known(w, s, y);
      }
    }
  }

  lemma InitClaims(w: World, roots: seq<Path>, n: nat)
    ensures ClaimsOnce(w, Init(roots, n))
  {
    var s := Init(roots, n);
    forall y | Known(w, s, y) ensures y.IsRoot() {
      SumNatZero(Held(w, y), s.workers);
      SpotsMember(s.shared.queue, y);
    }
  }

  lemma {:induction false} RunsKeepClaims(w: World, roots: seq<Path>, n: nat, labels: seq<Label>)
    requires w.Finite() && Distinct(roots)
    ensures ClaimsOnce(w, Exec(w, Init(roots, n), labels))
  {
    if labels == [] {
      InitClaims(w, roots, n);
    } else {
      var before := labels[..|labels| - 1];
      RunsKeepClaims(w, roots, n, before);
      RunsKeepItems(w, roots, n, before);
      RunsKeepPlaced(w, roots, n, before);
      RunsKeepGraph(w, roots, n, before);
      StepKeepsClaims(w, roots, Exec(w, Init(roots, n), before), labels[|labels| - 1]);
    }
  }

  lemma HeldIsWalked(w: World, roots: seq<Path>, k: Worker, y: Spot)
    requires WorkerOk(w, roots, k) && HeldOf(w, k, y) > 0
    ensures w.Walked(roots, y)
  {
    match k {
      case Expand(item) => KidIsWalked(w, roots, item.Where(), w.Children(item.Where()), y);
      case Reporting(item, names, _) => KidIsWalked(w, roots, item.Where(), names, y);
      case Scanning(item, rest, dirs) => ScannedIsWalked(w, roots, item, rest, dirs, y);
      case TestChild(item, rest, dirs, _) => ScannedIsWalked(w, roots, item, rest, dirs, y);
      case SendChild(item, rest, dirs, _) => ScannedIsWalked(w, roots, item, rest, dirs, y);
      case _ =>
    }
  }

  lemma KidIsWalked(w: World, roots: seq<Path>, x: Spot, names: seq<Name>, y: Spot)
    requires w.Walked(roots, x) && Kids(x, names, y) > 0 && forall n :: n in names ==> n in w.Children(x)
    ensures w.Walked(roots, y)
  {
    KidsMember(x, names, y);
    var n :| n in names && y == x.Child(n);
    w.WalkedChild(roots, x, n);
  }

  lemma ScannedIsWalked(w: World, roots: seq<Path>, item: Item, rest: seq<Name>, dirs: seq<Item>, y: Spot)
    requires ScanOk(w, roots, item, rest, dirs) && Kids(item.Where(), rest, y) + Spots(dirs, y) > 0
    ensures w.Walked(roots, y)
  {
    if Kids(item.Where(), rest, y) > 0 {
      KidIsWalked(w, roots, item.Where(), rest, y);
    } else {
      SpotsMember(dirs, y);
    }
  }

  lemma KnownIsWalked(w: World, roots: seq<Path>, s: State, y: Spot)
    requires ItemsOk(w, roots, s) && Known(w, s, y)
    ensures w.Walked(roots, y)
  {
    if y !in s.done {
      if Spots(s.shared.queue, y) > 0 {
        SpotsMember(s.shared.queue, y);
      } else {
        var i := SumNatWitness(Held(w, y), s.workers);
        HeldIsWalked(w, roots, s.workers[i], y);
      }
    }
  }

  /** Every path a run still has to settle or has settled is simple. */
  lemma KnownIsSimple(w: World, roots: seq<Path>, s: State, y: Spot)
    requires ItemsOk(w, roots, s) && Placed(w, s) && ClaimsOnce(w, s) && Known(w, s, y)
    ensures w.Walked(roots, y) && Simple(w, y)
  {
    var met := (z: Spot) => Known(w, s, z);
    forall z | met(z) ensures w.Walked(roots, z) && (z.IsRoot() || (z.path != [] && met(z.Parent()))) {
      KnownIsWalked(w, roots, s, z);
      assert PlacedAt(w, s, z);
    }
    MetIsSimple(w, roots, met, y);
  }

  /** No run meets a path that passes through a directory twice, so none meets a path with more
      components below its root than there are directories. */
  lemma RunsMeetSimplePaths(w: World, roots: seq<Path>, n: nat, labels: seq<Label>, y: Spot)
    requires w.Finite() && Distinct(roots) && Known(w, Exec(w, Init(roots, n), labels), y)
    ensures w.Walked(roots, y) && Simple(w, y) && |y.path| <= |y.root| + |w.ids|
  {
    RunsKeepItems(w, roots, n, labels);
    RunsKeepPlaced(w, roots, n, labels);
    RunsKeepClaims(w, roots, n, labels);
    KnownIsSimple(w, roots, Exec(w, Init(roots, n), labels), y);
    SimpleIsShort(w, roots, y);
  }

  // ---------------------------------------------------------------- over-long paths

  /** The error for an over-long path is sent for over-long paths only. */
  lemma TooLongMeans(w: World, x: Spot)
    requires w.TooLongError(x.path) in w.Emits(x)
    ensures w.TooLong(x.path)
  {
  }

  /** The events about over-long paths are about paths of the set. */
  ghost predicate TooLongIn(w: World, events: seq<Event>, settled: set<Spot>) {
    forall i :: 0 <= i < |events| && events[i].item == w.TooLongError(events[i].at.path) ==> events[i].at in settled
  }

  /** Whatever a step sends about an over-long path settles that path. */
  lemma TooLongIsSettled(w: World, roots: seq<Path>, s: Shared, open: bool, k: Worker)
    requires Runnable(k) && WorkerOk(w, roots, k)
    ensures TooLongIn(w, EffectOf(w, s, open, k).sends, EffectOf(w, s, open, k).settled)
  {
    match k {
      case Popped(item) => VisitSettlesTooLong(w, item);
      case Scanning(item, rest, dirs) => ScanSettlesTooLong(w, item, rest, dirs);
      case _ => OthersSendOther(w, roots, s, open, k);
    }
  }

  lemma VisitSettlesTooLong(w: World, item: Item)
    ensures TooLongIn(w, Visit(w, item).sends, Visit(w, item).settled)
  {
  }

  lemma ScanSettlesTooLong(w: World, item: Item, rest: seq<Name>, dirs: seq<Item>)
    ensures TooLongIn(w, ScanNext(w, item, rest, dirs).sends, ScanNext(w, item, rest, dirs).settled)
  {
  }

  lemma OthersSendOther(w: World, roots: seq<Path>, s: Shared, open: bool, k: Worker)
    requires Runnable(k) && WorkerOk(w, roots, k) && !k.Popped? && !k.Scanning?
    ensures TooLongIn(w, EffectOf(w, s, open, k).sends, {})
  {
  }

  lemma TooLongJoins(w: World, sent: seq<Event>, done: set<Spot>, events: seq<Event>, settled: set<Spot>)
    requires TooLongIn(w, sent, done) && TooLongIn(w, events, settled)
    ensures TooLongIn(w, sent, done + settled) && TooLongIn(w, sent + events, done + settled)
  {
  }

  ghost predicate TooLongDone(w: World, s: State) {
    TooLongIn(w, s.sent, s.done)
  }

  lemma StepKeepsTooLong(w: World, roots: seq<Path>, s: State, l: Label)
    requires ItemsOk(w, roots, s) && TooLongDone(w, s)
    ensures TooLongDone(w, Step(w, s, l))
  {
    if Enabled(s, l) && l.Run? {
      var k := s.workers[l.i];
      var e := EffectOf(w, s.shared, s.open, k);
      assert WorkerOk(w, roots, k);
      RunIsApply(w, s, l.i);
      TooLongIsSettled(w, roots, s.shared, s.open, k);
      TooLongJoins(w, s.sent, s.done, e.sends, e.settled);
    }
  }

  lemma {:induction false} RunsKeepTooLong(w: World, roots: seq<Path>, n: nat, labels: seq<Label>)
    ensures TooLongDone(w, Exec(w, Init(roots, n), labels))
  {
    if labels != [] {
      var before := labels[..|labels| - 1];
      RunsKeepTooLong(w, roots, n, before);
      RunsKeepItems(w, roots, n, before);
      StepKeepsTooLong(w, roots, Exec(w, Init(roots, n), before), labels[|labels| - 1]);
    }
  }

  /** Where simple paths are short enough, no run of the parallel engine reports an over-long path. */
  lemma NeverTooLong(w: World, roots: seq<Path>, n: nat, labels: seq<Label>)
    requires w.Finite() && Distinct(roots) && ShortOnSimplePaths(w, roots)
    ensures !TooLongReported(w, Exec(w, Init(roots, n), labels).sent)
  {
    var s := Exec(w, Init(roots, n), labels);
    if i: nat :| i < |s.sent| && s.sent[i].item == w.TooLongError(s.sent[i].at.path) {
      var y := s.sent[i].at;
      RunsKeepItems(w, roots, n, labels);
      RunsKeepPlaced(w, roots, n, labels);
      RunsKeepClaims(w, roots, n, labels);
      RunsKeepTooLong(w, roots, n, labels);
      NothingElseIsSent(w, roots, n, labels, i);
      KnownIsSimple(w, roots, s, y);
      TooLongMeans(w, y);
    }
  }

  /** So on such file systems a finished run expanded exactly the reachable directories. */
  lemma ReachableOnShortPaths(w: World, roots: seq<Path>, n: nat, labels: seq<Label>)
    requires w.Finite() && Distinct(roots) && n > 0 && Unrestricted(w) && GraphLike(w) && ShortOnSimplePaths(w, roots)
    requires var s := Exec(w, Init(roots, n), labels); AllLeft(s) && s.open
    ensures var s := Exec(w, Init(roots, n), labels);
      Distinct(s.expanded) && IsReachableSet(w, roots, IdsOf(s.expanded))
  {
    NeverTooLong(w, roots, n, labels);
    ExpandedIsReachable(w, roots, n, labels);
  }

  // ---------------------------------------------------------------- the serial engine

  ghost predicate ClaimsOnceS(w: World, s: Serial) {
    forall y, z {:trigger KnownS(s, y), KnownS(s, z)} :: KnownS(s, y) && KnownS(s, z) ==> SameClaim(w, y, z)
  }

  lemma KnownBeforeS(w: World, roots: seq<Path>, s: Serial, y: Spot)
    requires s.queue != [] && ItemOk(w, roots, s.queue[0]) && KnownS(Turn(w, s).0, y)
    ensures KnownS(s, y) || Kids(s.queue[0].Where(), Fan(w, s, s.queue[0].Where()), y) > 0
  {
    TurnShape(w, roots, s);
    TurnBalance(w, roots, s, y);
    SpotsMember(s.queue, s.queue[0].Where());
  }

  lemma NewClaimS(w: World, roots: seq<Path>, s: Serial, y: Spot, z: Spot)
    requires s.queue != [] && QueueOk(w, roots, s) && SetsOk(w, s)
    requires var x := s.queue[0].Where(); Kids(x, Fan(w, s, x), y) > 0 && (KnownS(s, z) || Kids(x, Fan(w, s, x), z) > 0)
    ensures SameClaim(w, y, z) && SameClaim(w, z, y)
  {
    var x := s.queue[0].Where();
    ParentOfKid(x, Fan(w, s, x), y);
    if KnownS(s, z) {
      assert PlacedAtS(s, z);
    } else {
      ParentOfKid(x, Fan(w, s, x), z);
    }
  }

  lemma TurnKeepsClaims(w: World, roots: seq<Path>, s: Serial)
    requires s.queue != [] && QueueOk(w, roots, s) && SetsOk(w, s) && ClaimsOnceS(w, s)
    ensures ClaimsOnceS(w, Turn(w, s).0)
  {
    var s' := Turn(w, s).0;
    assert s.queue[0] in s.queue;
    forall y, z | KnownS(s', y) && KnownS(s', z) ensures SameClaim(w, y, z) {
      KnownBeforeS(w, roots, s, y);
      KnownBeforeS(w, roots, s, z);
      if !KnownS(s, y) {
        NewClaimS(w, roots, s, y, z);
      } else if !KnownS(s, z) {
        NewClaimS(w, roots, s, z, y);
      }
    }
  }

  lemma RefusedAreKids(w: World, x: Spot, names: seq<Name>, i: nat)
    requires i < |Refused(w, x, names)|
    ensures Refused(w, x, names)[i].at in RefusedSpots(w, x, names)
  {
    var ev := Refused(w, x, names)[i];
    assert ev in multiset(Refused(w, x, names));
    RefusedCount(w, x, names, ev);
    RefusedMember(w, x, names, ev.at);
  }

  lemma TurnSettlesTooLong(w: World, roots: seq<Path>, s: Serial)
    requires s.queue != [] && ItemOk(w, roots, s.queue[0])
    ensures TooLongIn(w, TurnEvents(w, s), Settled(w, s, s.queue[0].Where()))
  {
    var item := s.queue[0];
    var x, events := item.Where(), TurnEvents(w, s);
    if w.Classify(x).EnterDir? && IsNew(w, s, x) && w.DepthAllows(item.depth) && w.list(item.path).Listed? {
      var errors := w.list(item.path).entryErrors;
      forall i | 0 <= i < |events| && events[i].item == w.TooLongError(events[i].at.path)
        ensures events[i].at in Settled(w, s, x)
      {
        if i >= |errors| {
          RefusedAreKids(w, x, Fan(w, s, x), i - |errors|);
          assert events[i] == Refused(w, x, Fan(w, s, x))[i - |errors|];
        }
      }
    } else {
      QuietTurn(w, s);
    }
  }

  lemma QuietTurn(w: World, s: Serial)
    requires s.queue != []
    requires var item := s.queue[0]; var x := item.Where();
      !(w.Classify(x).EnterDir? && IsNew(w, s, x) && w.DepthAllows(item.depth) && w.list(item.path).Listed?)
    ensures TooLongIn(w, TurnEvents(w, s), {s.queue[0].Where()})
  {
  }

  lemma DeliverTooLong(w: World, sent: seq<Event>, room: Option<nat>, events: seq<Event>, done: set<Spot>,
                       settled: set<Spot>)
    requires TooLongIn(w, sent, done) && TooLongIn(w, events, settled)
    ensures TooLongIn(w, Deliver(sent, room, events).0, done + settled)
  {
  }

  ghost predicate ClaimsKept(w: World, roots: seq<Path>, l: Loop) {
    QueueOk(w, roots, l.s) && SetsOk(w, l.s) && ClaimsOnceS(w, l.s) && TooLongIn(w, l.s.sent, l.s.done)
  }

  lemma StepKeepsClaimsS(w: World, roots: seq<Path>, l: Loop)
    requires w.Finite() && ClaimsKept(w, roots, l)
    ensures ClaimsKept(w, roots, LoopStep(w, l))
  {
    if !l.Over() {
      var s := l.s;
      assert s.queue[0] in s.queue;
      TurnKeepsQueue(w, roots, s);
      TurnKeepsSets(w, roots, s);
      TurnKeepsClaims(w, roots, s);
      TurnShape(w, roots, s);
      TurnSettlesTooLong(w, roots, s);
      TurnDelivers(w, s);
      DeliverTooLong(w, s.sent, s.room, TurnEvents(w, s), s.done, Settled(w, s, s.queue[0].Where()));
    }
  }

  lemma {:induction false} StartTooLong(w: World, roots: seq<Path>, room: Option<nat>)
    ensures TooLongIn(w, Start(w, roots, room).sent, Start(w, roots, room).done)
  {
    if roots != [] {
      var r, s := roots[|roots| - 1], Start(w, roots[..|roots| - 1], room);
      StartTooLong(w, roots[..|roots| - 1], room);
      if w.TooLong(r) {
        DeliverTooLong(w, s.sent, s.room, [Event(Spot(r, r), w.TooLongError(r))], s.done, {Spot(r, r)});
      }
    }
  }

  lemma StartClaims(w: World, roots: seq<Path>, room: Option<nat>)
    requires Distinct(roots)
    ensures ClaimsOnceS(w, Start(w, roots, room))
  {
    var s := Start(w, roots, room);
    StartIsStarted(w, roots, room);
    forall y | KnownS(s, y) ensures y.IsRoot() {
      assert StartedAt(w, roots, s, y);
    }
  }

  lemma TurnsKeepClaims(w: World, roots: seq<Path>, room: Option<nat>, k: nat)
    requires w.Finite() && Distinct(roots)
    ensures ClaimsKept(w, roots, AfterTurns(w, roots, room, k))
  {
    var inv := (l: Loop) => ClaimsKept(w, roots, l);
    StartIsOk(w, roots, room);
    StartClaims(w, roots, room);
    StartTooLong(w, roots, room);
    forall l | inv(l) ensures inv(Steps(w)(l)) {
      StepKeepsClaimsS(w, roots, l);
    }
    Always(Steps(w), inv, Loop(Start(w, roots, room), true), k);
  }

  lemma KnownIsSimpleS(w: World, roots: seq<Path>, s: Serial, y: Spot)
    requires QueueOk(w, roots, s) && ClaimsOnceS(w, s) && KnownS(s, y)
    ensures w.Walked(roots, y) && Simple(w, y)
  {
    var met := (z: Spot) => KnownS(s, z);
    forall z | met(z) ensures w.Walked(roots, z) && (z.IsRoot() || (z.path != [] && met(z.Parent()))) {
      SpotsMember(s.queue, z);
      assert PlacedAtS(s, z);
    }
    MetIsSimple(w, roots, met, y);
  }

  /** Where simple paths are short enough, no run of the serial engine reports an over-long path. */
  lemma NeverTooLongS(w: World, roots: seq<Path>, room: Option<nat>, s: Serial)
    requires w.Finite() && Distinct(roots) && ShortOnSimplePaths(w, roots) && IsSerialRun(w, roots, room, s)
    ensures !TooLongReported(w, s.sent)
  {
    var k: nat :| s == AfterTurns(w, roots, room, k).s;
    TurnsKeepClaims(w, roots, room, k);
    if i: nat :| i < |s.sent| && s.sent[i].item == w.TooLongError(s.sent[i].at.path) {
      SerialSendsOnly(w, roots, room, s, i);
      KnownIsSimpleS(w, roots, s, s.sent[i].at);
      TooLongMeans(w, s.sent[i].at);
    }
  }
}

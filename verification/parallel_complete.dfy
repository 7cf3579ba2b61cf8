/**
 On a tree, what the parallel engine sends is what the specification sends: for every worker
 count and every schedule, once all workers have left with the receiver still there.
 */
module ParallelComplete {
  import opened Prelude
  import opened Gitignore
  import opened WalkWorld
  import opened ParallelWalk
  import opened ParallelProtocol
  import opened ParallelItems
  import opened ParallelBooks
  import opened Bags

  // ---------------------------------------------------------------- counting events

  function Times(x: Spot, items: seq<WalkItem>, ev: Event): nat {
    if ev.at == x then multiset(items)[ev.item] else 0
  }

  lemma {:induction false} AtTimes(x: Spot, items: seq<WalkItem>, ev: Event)
    ensures multiset(At(x, items))[ev] == Times(x, items, ev)
  {
    if items != [] {
      AtTimes(x, items[1..], ev);
      assert items == [items[0]] + items[1..];
      assert At(x, items) == [Event(x, items[0])] + At(x, items[1..]);
    }
  }

  /** How often worker `k` has still to send `ev` for a visit that is already settled. */
  function OwedOf(w: World, k: Worker, ev: Event): nat {
    match k
    case Expand(item) => Times(item.Where(), w.ListingSends(item.Where()), ev)
    case Reporting(item, _, errors) => Times(item.Where(), w.EntryErrors(item.path, errors), ev)
    case SendChild(item, _, _, file) => One(ev == Event(Spot(item.root, file.path), file))
    case SendRoot(item, file) => One(ev == Event(item.Where(), file))
    case _ => 0
  }

  function Owed(w: World, ev: Event): Worker -> nat {
    (k: Worker) => OwedOf(w, k, ev)
  }

  /** What the specification sends for the visits a step settles. */
  function Incurred(w: World, e: Effect, ev: Event): nat {
    if ev.at in e.settled then Times(ev.at, w.Emits(ev.at), ev) else 0
  }

  /** The worker's next test-and-set finds its directory or file unseen. */
  predicate Unseen(s: Shared, k: Worker) {
    match k
    case TestDir(_, id) => id !in s.visitedDirs
    case TestRoot(item, _) => item.path !in s.visitedFiles
    case TestChild(item, rest, _, _) => rest != [] ==> item.Where().Child(rest[0]).path !in s.visitedFiles
    case _ => true
  }

  predicate Paid(w: World, k: Worker, e: Effect, ev: Event) {
    OwedOf(w, k, ev) + Incurred(w, e, ev) == OwedOf(w, e.next, ev) + multiset(e.sends)[ev]
  }

  lemma VisitPaid(w: World, item: Item, ev: Event)
    requires item.meta.Some? ==> item.meta.value == w.stat(item.path)
    ensures Paid(w, Popped(item), Visit(w, item), ev)
  {
    var c := w.Classify(item.Where());
    assert c == w.ClassifyWith(item.root, item.path, MetaOf(w, item));
    if c.Drop? {
      AtTimes(item.Where(), c.sends, ev);
    }
  }

  lemma ScanChildPaid(w: World, item: Item, rest: seq<Name>, dirs: seq<Item>, found: Scanned, ev: Event)
    requires rest != [] && w.FoundAsVisited(item.Where().Child(rest[0]), found)
    ensures Paid(w, Scanning(item, rest, dirs), ScanChild(item, rest, dirs, found), ev)
  {
    var child := item.Where().Child(rest[0]);
    if found.Pass? {
      AtTimes(child, found.sends, ev);
    } else if found.Abort? {
      AtTimes(child, [found.send], ev);
    }
  }

  lemma ScanPaid(w: World, item: Item, rest: seq<Name>, dirs: seq<Item>, ev: Event)
    ensures Paid(w, Scanning(item, rest, dirs), ScanNext(w, item, rest, dirs), ev)
  {
    if rest != [] {
      var child := item.Where().Child(rest[0]);
      w.ScanIsClassify(item.root, child.path);
      ScanChildPaid(w, item, rest, dirs, w.Scan(item.root, child.path), ev);
    }
  }

  lemma ReportPaid(w: World, item: Item, names: seq<Name>, errors: seq<IoError>, ev: Event)
    ensures Paid(w, Reporting(item, names, errors), Report(w, item, names, errors), ev)
  {
    if errors != [] {
      var rest := w.EntryErrors(item.path, errors[1..]);
      assert w.EntryErrors(item.path, errors) == [Error(item.path, ReadDir, Io(errors[0]))] + rest;
    }
  }

  lemma ListPaid(w: World, roots: seq<Path>, item: Item, ev: Event)
    requires ItemOk(w, roots, item)
    ensures Paid(w, Expand(item), ListDir(w, item), ev)
  {
    var e, x := ListDir(w, item), item.Where();
    assert w.DepthAllows(item.depth) == w.DepthAllows(|x.path| - |x.root|);
    if !w.DepthAllows(item.depth) {
      assert w.ListingSends(x) == [] && e == Go(Finishing(false));
    } else if w.list(item.path).ListFailed? {
      var failure := Error(item.path, ReadDir, Io(w.list(item.path).error));
      assert w.ListingSends(x) == [failure] && e.sends == [Event(x, failure)] && e.next == Finishing(false);
    } else {
      assert w.ListingSends(x) == w.EntryErrors(item.path, w.list(item.path).entryErrors) && e.sends == [];
    }
  }

  lemma ClaimPaid(w: World, s: Shared, item: Item, outcome: Outcome, ev: Event)
    requires w.Classify(item.Where()) == outcome
    ensures outcome.EnterDir? && outcome.id !in s.visitedDirs ==>
      Paid(w, TestDir(item, outcome.id), ClaimDir(s, item, outcome.id), ev)
    ensures outcome.OfferFile? && item.path !in s.visitedFiles ==>
      Paid(w, TestRoot(item, outcome.file), ClaimRoot(s, item, outcome.file), ev)
  {
  }

  lemma ClaimChildPaid(w: World, s: Shared, item: Item, rest: seq<Name>, dirs: seq<Item>, file: WalkItem, ev: Event)
    requires rest != [] && item.Where().Child(rest[0]).path !in s.visitedFiles
    requires w.Classify(item.Where().Child(rest[0])) == OfferFile(file) && file.path == item.path + [rest[0]]
    ensures Paid(w, TestChild(item, rest, dirs, file), ClaimChild(s, item, rest, dirs, file), ev)
  {
  }

  lemma ClaimStepPaid(w: World, roots: seq<Path>, s: Shared, open: bool, k: Worker, ev: Event)
    requires (k.TestDir? || k.TestRoot? || k.TestChild?) && WorkerOk(w, roots, k) && Unseen(s, k)
    ensures Paid(w, k, EffectOf(w, s, open, k), ev)
  {
    match k {
      case TestDir(item, id) => ClaimPaid(w, s, item, EnterDir(id), ev);
      case TestRoot(item, file) => ClaimPaid(w, s, item, OfferFile(file), ev);
      case TestChild(item, rest, dirs, file) => ClaimChildPaid(w, s, item, rest, dirs, file, ev);
    }
  }

  predicate Examines(k: Worker) {
    k.Popped? || k.Expand? || k.Reporting? || k.Scanning?
  }

  lemma ExamineStepPaid(w: World, roots: seq<Path>, s: Shared, open: bool, k: Worker, ev: Event)
    requires Examines(k) && WorkerOk(w, roots, k)
    ensures Paid(w, k, EffectOf(w, s, open, k), ev)
  {
    match k {
      case Popped(item) => VisitPaid(w, item, ev);
      case Expand(item) => ListPaid(w, roots, item, ev);
      case Reporting(item, names, errors) => ReportPaid(w, item, names, errors, ev);
      case Scanning(item, rest, dirs) => ScanPaid(w, item, rest, dirs, ev);
    }
  }

  lemma TakePaid(w: World, s: Shared, ev: Event)
    ensures Paid(w, Ready, TakeWork(s), ev)
  {
  }

  lemma SendPaid(w: World, k: Worker, x: Spot, file: WalkItem, next: Worker, ev: Event)
    requires OwedOf(w, k, ev) == One(ev == Event(x, file)) && OwedOf(w, next, ev) == 0
    ensures Paid(w, k, Go(next).(sends := [Event(x, file)]), ev)
  {
  }

  lemma MoveStepPaid(w: World, s: Shared, open: bool, k: Worker, ev: Event)
    requires k.Ready? || k.SendChild? || k.SendRoot? || k.Finishing?
    ensures Paid(w, k, EffectOf(w, s, open, k), ev)
  {
    match k {
      case Ready => TakePaid(w, s, ev);
      case SendChild(item, rest, dirs, file) =>
        SendPaid(w, k, Spot(item.root, file.path), file,
                 if open then Scanning(item, rest, dirs) else Finishing(true), ev);
      case SendRoot(item, file) => SendPaid(w, k, item.Where(), file, Finishing(!open), ev);
      case Finishing(closed) =>
    }
  }

  lemma StepPaid(w: World, roots: seq<Path>, s: Shared, open: bool, k: Worker, ev: Event)
    requires Runnable(k) && WorkerOk(w, roots, k) && Unseen(s, k)
    ensures Paid(w, k, EffectOf(w, s, open, k), ev)
  {
    if k.TestDir? || k.TestRoot? || k.TestChild? {
      ClaimStepPaid(w, roots, s, open, k, ev);
    } else if Examines(k) {
      ExamineStepPaid(w, roots, s, open, k, ev);
    } else {
      MoveStepPaid(w, s, open, k, ev);
    }
  }

  // ---------------------------------------------------------------- the books of a run on a tree

  predicate Known(w: World, s: State, y: Spot) {
    Pending(w, s, y) > 0 || y in s.done
  }

  predicate DueAt(w: World, s: State, ev: Event) {
    multiset(s.sent)[ev] + SumNat(Owed(w, ev), s.workers)
      == if ev.at in s.done then Times(ev.at, w.Emits(ev.at), ev) else 0
  }

  /** Every set entry was put there by a settled visit. */
  ghost predicate SetsFromDone(w: World, s: State) {
    && (forall id :: id in s.shared.visitedDirs ==> exists x :: x in s.done && w.Classify(x) == EnterDir(id))
    && (forall p :: p in s.shared.visitedFiles ==> exists x :: x in s.done && x.path == p)
  }

  /** Roots, and entries of settled directories, are pending or settled. */
  ghost predicate ClosedUnderChildren(w: World, roots: seq<Path>, s: State) {
    && (forall r :: r in roots ==> Known(w, s, Spot(r, r)))
    && (forall x, n :: x in s.done && n in w.Children(x) ==> Known(w, s, x.Child(n)))
  }

  ghost predicate TreeOk(w: World, roots: seq<Path>, s: State) {
    SetsFromDone(w, s) &&
    (s.open ==> ClosedUnderChildren(w, roots, s) && forall ev :: DueAt(w, s, ev))
  }

  lemma SettledIsHeld(w: World, s: Shared, open: bool, k: Worker, x: Spot)
    requires Runnable(k) && x in EffectOf(w, s, open, k).settled
    ensures HeldOf(w, k, x) >= 1
  {
  }

  /** On a tree no directory or file is met twice. */
  lemma TreeUnseen(w: World, roots: seq<Path>, s: State, i: nat)
    requires w.TreeLike(roots) && ItemsOk(w, roots, s) && Placed(w, s) && SetsFromDone(w, s)
    requires i < |s.workers|
    ensures Unseen(s.shared, s.workers[i])
  {
    var k := s.workers[i];
    assert WorkerOk(w, roots, k);
    match k {
      case TestDir(item, id) =>
        HeldIsPending(w, s, i, item.Where());
        assert PlacedAt(w, s, item.Where());
        forall x | x in s.done ensures w.Classify(x) != EnterDir(id) {
          assert x != item.Where() && w.Walked(roots, x);
        }
      case TestRoot(item, _) =>
        FileUnseen(w, roots, s, i, item.Where());
      case TestChild(item, rest, _, _) =>
        assert rest[0] in rest;
        w.WalkedChild(roots, item.Where(), rest[0]);
        FileUnseen(w, roots, s, i, item.Where().Child(rest[0]));
      case _ =>
    }
  }

  lemma FileUnseen(w: World, roots: seq<Path>, s: State, i: nat, y: Spot)
    requires w.TreeLike(roots) && ItemsOk(w, roots, s) && Placed(w, s) && SetsFromDone(w, s)
    requires i < |s.workers| && HeldOf(w, s.workers[i], y) >= 1 && w.Walked(roots, y)
    ensures y.path !in s.shared.visitedFiles
  {
    HeldIsPending(w, s, i, y);
    assert PlacedAt(w, s, y);
    forall x | x in s.done ensures x.path != y.path {
      assert x != y && w.Walked(roots, x);
      assert x.path == y.path ==> x.root <= y.root || y.root <= x.root;
    }
  }

  // ---------------------------------------------------------------- one step keeps them

  /** A settled visit without children, or the claim that takes its children over. */
  lemma SettledChildren(w: World, roots: seq<Path>, s: Shared, open: bool, k: Worker, x: Spot)
    requires Runnable(k) && WorkerOk(w, roots, k) && Unseen(s, k)
    requires x in EffectOf(w, s, open, k).settled
    ensures w.Children(x) == [] || (k.TestDir? && EffectOf(w, s, open, k).dir.Some? && x == k.item.Where())
  {
    if k.Scanning? && k.rest != [] {
      w.ScanIsClassify(k.item.root, k.item.Where().Child(k.rest[0]).path);
    }
  }

  lemma KeepsDue(w: World, roots: seq<Path>, s: State, i: nat, ev: Event)
    requires Placed(w, s) && i < |s.workers| && Runnable(s.workers[i]) && s.open
    requires WorkerOk(w, roots, s.workers[i]) && Unseen(s.shared, s.workers[i])
    requires DueAt(w, s, ev)
    ensures DueAt(w, Step(w, s, Run(i)), ev)
  {
    var k := s.workers[i];
    var e := EffectOf(w, s.shared, s.open, k);
    StepShape(w, s.shared, s.open, k);
    StepPaid(w, roots, s.shared, s.open, k, ev);
    SumAfter(Owed(w, ev), s, i, e);
    if ev.at in e.settled {
      SettledIsHeld(w, s.shared, s.open, k, ev.at);
      HeldIsPending(w, s, i, ev.at);
      assert PlacedAt(w, s, ev.at);
    }
  }

  lemma KnownStays(w: World, roots: seq<Path>, s: State, i: nat, y: Spot)
    requires ItemsOk(w, roots, s) && i < |s.workers| && Runnable(s.workers[i]) && s.open
    requires Known(w, s, y) || Gained(w, s.workers[i], EffectOf(w, s.shared, s.open, s.workers[i]), y) > 0
    ensures Known(w, Step(w, s, Run(i)), y)
  {
    var k := s.workers[i];
    var e := EffectOf(w, s.shared, s.open, k);
    assert WorkerOk(w, roots, k);
    StepShape(w, s.shared, s.open, k);
    StepEffectOk(w, roots, s.shared, s.open, k);
    StepBalanced(w, roots, s.shared, s.open, k, y);
    PendingAfter(w, s, i, e, y);
  }

  lemma KeepsClosed(w: World, roots: seq<Path>, s: State, i: nat)
    requires ItemsOk(w, roots, s) && i < |s.workers| && Runnable(s.workers[i]) && s.open
    requires Unseen(s.shared, s.workers[i]) && ClosedUnderChildren(w, roots, s)
    ensures ClosedUnderChildren(w, roots, Step(w, s, Run(i)))
  {
    var k := s.workers[i];
    var e := EffectOf(w, s.shared, s.open, k);
    var s' := Step(w, s, Run(i));
    assert WorkerOk(w, roots, k);
    StepShape(w, s.shared, s.open, k);
    forall r | r in roots ensures Known(w, s', Spot(r, r)) {
      KnownStays(w, roots, s, i, Spot(r, r));
    }
    forall x, n | x in s'.done && n in w.Children(x) ensures Known(w, s', x.Child(n)) {
      if x !in s.done {
        SettledChildren(w, roots, s.shared, s.open, k, x);
        KidsMember(x, w.Children(x), x.Child(n));
      }
      KnownStays(w, roots, s, i, x.Child(n));
    }
  }

  lemma KeepsSetsFromDone(w: World, roots: seq<Path>, s: State, i: nat)
    requires ItemsOk(w, roots, s) && i < |s.workers| && Runnable(s.workers[i])
    requires SetsFromDone(w, s)
    ensures SetsFromDone(w, Step(w, s, Run(i)))
  {
    var k := s.workers[i];
    var e := EffectOf(w, s.shared, s.open, k);
    var s' := Step(w, s, Run(i));
    assert WorkerOk(w, roots, k);
    StepShape(w, s.shared, s.open, k);
    ClaimsAreSettled(w, roots, s.shared, s.open, k);
    forall id | id in s'.shared.visitedDirs ensures exists x :: x in s'.done && w.Classify(x) == EnterDir(id) {
      if id in s.shared.visitedDirs {
        var x :| x in s.done && w.Classify(x) == EnterDir(id);
        assert x in s'.done;
      } else {
        assert k.item.Where() in s'.done;
      }
    }
    forall p | p in s'.shared.visitedFiles ensures exists x :: x in s'.done && x.path == p {
      if p in s.shared.visitedFiles {
        var x :| x in s.done && x.path == p;
        assert x in s'.done;
      } else {
        var x :| x in e.settled && x.path == p;
        assert x in s'.done;
      }
    }
  }

  lemma OnlyClaimsClaim(w: World, s: Shared, open: bool, k: Worker)
    requires Runnable(k) && !k.TestDir? && !k.TestRoot? && !k.TestChild?
    ensures EffectOf(w, s, open, k).dir.None? && EffectOf(w, s, open, k).file.None?
  {
  }

  lemma ClaimsAreSettled(w: World, roots: seq<Path>, s: Shared, open: bool, k: Worker)
    requires Runnable(k) && WorkerOk(w, roots, k)
    ensures var e := EffectOf(w, s, open, k);
      && (e.dir.Some? ==>
            k.TestDir? && k.item.Where() in e.settled && w.Classify(k.item.Where()) == EnterDir(e.dir.value))
      && (e.file.Some? ==> exists x :: x in e.settled && x.path == e.file.value)
  {
    match k {
      case TestDir(item, id) =>
        assert ClaimDir(s, item, id).dir.Some? ==> item.Where() in ClaimDir(s, item, id).settled;
      case TestRoot(item, file) => assert item.Where() in ClaimRoot(s, item, file).settled;
      case TestChild(item, rest, dirs, file) =>
        assert item.Where().Child(rest[0]) in ClaimChild(s, item, rest, dirs, file).settled;
      case _ => OnlyClaimsClaim(w, s, open, k);
    }
  }

  lemma StepKeepsTree(w: World, roots: seq<Path>, s: State, l: Label)
    requires w.TreeLike(roots) && ItemsOk(w, roots, s) && Placed(w, s) && TreeOk(w, roots, s)
    ensures TreeOk(w, roots, Step(w, s, l))
  {
    if Enabled(s, l) {
      match l {
        case Run(i) =>
          TreeUnseen(w, roots, s, i);
          KeepsSetsFromDone(w, roots, s, i);
          StepShape(w, s.shared, s.open, s.workers[i]);
          if s.open {
            KeepsClosed(w, roots, s, i);
            forall ev ensures DueAt(w, Step(w, s, l), ev) {
              KeepsDue(w, roots, s, i, ev);
            }
          }
        case Wake(i) => WakeKeepsTree(w, roots, s, i);
        case CloseChannel =>
      }
    }
  }

  lemma WakeKeepsTree(w: World, roots: seq<Path>, s: State, i: nat)
    requires TreeOk(w, roots, s) && Enabled(s, Wake(i))
    ensures TreeOk(w, roots, Step(w, s, Wake(i)))
  {
    var s' := Step(w, s, Wake(i));
    if s.open {
      forall y ensures Pending(w, s', y) == Pending(w, s, y) {
        SumNatUpdate(Held(w, y), s.workers, i, Ready);
      }
      assert forall y :: Known(w, s', y) <==> Known(w, s, y);
      forall ev ensures DueAt(w, s', ev) {
        SumNatUpdate(Owed(w, ev), s.workers, i, Ready);
        assert DueAt(w, s, ev);
      }
    }
  }

  lemma InitTree(w: World, roots: seq<Path>, n: nat)
    requires Distinct(roots)
    ensures TreeOk(w, roots, Init(roots, n))
  {
    var s := Init(roots, n);
    InitPlaced(w, roots, n);
    forall ev ensures DueAt(w, s, ev) {
      SumNatZero(Owed(w, ev), s.workers);
    }
  }

  lemma {:induction false} RunsKeepTree(w: World, roots: seq<Path>, n: nat, labels: seq<Label>)
    requires w.Finite() && w.TreeLike(roots)
    ensures TreeOk(w, roots, Exec(w, Init(roots, n), labels))
  {
    if labels == [] {
      InitTree(w, roots, n);
    } else {
      var before := labels[..|labels| - 1];
      RunsKeepTree(w, roots, n, before);
      RunsKeepItems(w, roots, n, before);
      RunsKeepPlaced(w, roots, n, before);
      StepKeepsTree(w, roots, Exec(w, Init(roots, n), before), labels[|labels| - 1]);
    }
  }

  // ---------------------------------------------------------------- the result of a run

  lemma {:induction false} WalkedIsDone(w: World, roots: seq<Path>, done: set<Spot>, x: Spot)
    requires forall r :: r in roots ==> Spot(r, r) in done
    requires forall y, n :: y in done && n in w.Children(y) ==> y.Child(n) in done
    requires w.Walked(roots, x)
    ensures x in done
    decreases |x.path|
  {
    if x.IsRoot() {
      assert x == Spot(x.root, x.root);
    } else {
      WalkedIsDone(w, roots, done, x.Parent());
      assert x.path == x.path[..|x.path| - 1] + [x.path[|x.path| - 1]];
      assert x == x.Parent().Child(x.path[|x.path| - 1]);
    }
  }

  /** Once everybody has left an open run, every walked path is settled and nothing is owed. */
  lemma FinishedRun(w: World, roots: seq<Path>, n: nat, labels: seq<Label>)
    requires w.Finite() && w.TreeLike(roots) && n > 0
    requires var s := Exec(w, Init(roots, n), labels); AllLeft(s) && s.open
    ensures var s := Exec(w, Init(roots, n), labels);
      && (forall x :: x in s.done <==> w.Walked(roots, x))
      && (forall ev :: SumNat(Owed(w, ev), s.workers) == 0)
  {
    var s := Exec(w, Init(roots, n), labels);
    NothingAbandoned(w, roots, n, labels);
    RunsKeepItems(w, roots, n, labels);
    RunsKeepTree(w, roots, n, labels);
    forall y ensures Known(w, s, y) <==> y in s.done {
      SumNatZero(Held(w, y), s.workers);
    }
    forall x | w.Walked(roots, x) ensures x in s.done {
      WalkedIsDone(w, roots, s.done, x);
    }
    forall ev ensures SumNat(Owed(w, ev), s.workers) == 0 {
      SumNatZero(Owed(w, ev), s.workers);
    }
  }

  /** The parallel engine meets the specification on every tree, for every worker count and
      every interleaving. */
  lemma ParallelIsComplete(w: World, roots: seq<Path>, n: nat, labels: seq<Label>)
    requires w.Finite() && w.TreeLike(roots) && n > 0
    requires var s := Exec(w, Init(roots, n), labels); AllLeft(s) && s.open
    ensures w.Complete(roots, Exec(w, Init(roots, n), labels).sent)
  {
    var s := Exec(w, Init(roots, n), labels);
    FinishedRun(w, roots, n, labels);
    RunsKeepTree(w, roots, n, labels);
    forall ev ensures multiset(s.sent)[ev] == w.Due(roots, ev) {
      assert DueAt(w, s, ev);
    }
  }
}

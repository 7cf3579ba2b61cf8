/**
 Runs over arbitrary directory graphs: no error is swallowed, each directory is expanded at
 most once, no file is sent twice, and without limits the directories expanded at the end
 are exactly the reachable ones, whatever the schedule.
 */
module ParallelReach {
  import opened Prelude
  import opened Gitignore
  import opened WalkWorld
  import opened ParallelWalk
  import opened ParallelProtocol
  import opened ParallelItems
  import opened ParallelBooks
  import opened ParallelComplete
  import opened DirGraph
  import opened Bags

  // ---------------------------------------------------------------- directories

  /** Everything listing the directory of `x` calls for was sent or is still owed. */
  ghost predicate ListingPaid(w: World, s: State, x: Spot) {
    forall item :: PaidOrOwed(w, s, Event(x, item), multiset(w.ListingSends(x))[item])
  }

  predicate PaidOrOwed(w: World, s: State, ev: Event, due: nat) {
    due <= multiset(s.sent)[ev] + SumNat(Owed(w, ev), s.workers)
  }

  /** The visit `x` claimed the directory `id`, all its entries are accounted for, and so is what
      its listing calls for. */
  ghost predicate AccountedBy(w: World, s: State, id: DirId, x: Spot) {
    && x in s.done && w.Classify(x) == EnterDir(id)
    && (forall n :: n in w.Children(x) ==> Known(w, s, x.Child(n)))
    && ListingPaid(w, s, x)
  }

  ghost predicate Accounted(w: World, s: State, id: DirId) {
    exists x :: AccountedBy(w, s, id, x)
  }

  ghost predicate DirsVisited(w: World, s: State) {
    && (forall x :: x in s.done && w.Classify(x).EnterDir? ==> w.Classify(x).id in s.shared.visitedDirs)
    && Distinct(s.expanded) && (forall id :: id in s.expanded <==> id in s.shared.visitedDirs)
  }

  ghost predicate GraphOk(w: World, roots: seq<Path>, s: State) {
    DirsVisited(w, s) &&
    (s.open ==>
      && (forall r :: r in roots ==> Known(w, s, Spot(r, r)))
      && (forall id :: id in s.shared.visitedDirs ==> Accounted(w, s, id))
      && Reported(w, s.done, s.sent))
  }

  /** What a step settles: a drop it reports, or a directory that is now visited, or a file. */
  lemma SettledIsReported(w: World, roots: seq<Path>, s: Shared, open: bool, k: Worker, x: Spot)
    requires Runnable(k) && WorkerOk(w, roots, k) && x in EffectOf(w, s, open, k).settled
    ensures w.Classify(x).Drop? ==> EffectOf(w, s, open, k).sends == At(x, w.Classify(x).sends)
    ensures w.Classify(x).EnterDir? ==>
      w.Classify(x).id in s.visitedDirs || EffectOf(w, s, open, k).dir == Some(w.Classify(x).id)
  {
    match k {
      case Popped(item) => assert w.Classify(item.Where()) == w.ClassifyWith(item.root, item.path, MetaOf(w, item));
      case Scanning(item, rest, dirs) =>
        if rest != [] {
          w.ScanIsClassify(item.root, item.Where().Child(rest[0]).path);
        }
      case _ =>
    }
  }

  lemma KeepsDirsVisited(w: World, roots: seq<Path>, s: State, i: nat)
    requires ItemsOk(w, roots, s) && i < |s.workers| && Runnable(s.workers[i]) && DirsVisited(w, s)
    ensures DirsVisited(w, Step(w, s, Run(i)))
  {
    var k := s.workers[i];
    var e := EffectOf(w, s.shared, s.open, k);
    var s' := Step(w, s, Run(i));
    assert WorkerOk(w, roots, k);
    StepShape(w, s.shared, s.open, k);
    forall x | x in s'.done && w.Classify(x).EnterDir? ensures w.Classify(x).id in s'.shared.visitedDirs {
      if x !in s.done {
        SettledIsReported(w, roots, s.shared, s.open, k, x);
      }
    }
    ClaimIsNew(w, s.shared, s.open, k);
  }

  lemma ClaimIsNew(w: World, s: Shared, open: bool, k: Worker)
    requires Runnable(k)
    ensures var e := EffectOf(w, s, open, k);
      && (e.dir.Some? ==> e.dir.value !in s.visitedDirs)
      && (e.file.Some? ==> e.file.value !in s.visitedFiles)
  {
  }

  lemma KeepsReported(w: World, roots: seq<Path>, s: State, i: nat)
    requires ItemsOk(w, roots, s) && i < |s.workers| && Runnable(s.workers[i]) && s.open
    requires Reported(w, s.done, s.sent)
    ensures Reported(w, Step(w, s, Run(i)).done, Step(w, s, Run(i)).sent)
  {
    var k := s.workers[i];
    var e := EffectOf(w, s.shared, s.open, k);
    var s' := Step(w, s, Run(i));
    assert WorkerOk(w, roots, k);
    StepShape(w, s.shared, s.open, k);
    forall x, item | x in s'.done && w.Classify(x).Drop? && item in w.Classify(x).sends
      ensures Event(x, item) in s'.sent
    {
      if x !in s.done {
        SettledIsReported(w, roots, s.shared, s.open, k, x);
        var j :| 0 <= j < |w.Classify(x).sends| && w.Classify(x).sends[j] == item;
        assert e.sends[j] == Event(x, item);
      }
    }
  }

  /** What a worker owes it goes on owing or sends. */
  lemma DebtStays(w: World, roots: seq<Path>, s: Shared, open: bool, k: Worker, ev: Event)
    requires Runnable(k) && WorkerOk(w, roots, k)
    ensures var e := EffectOf(w, s, open, k); OwedOf(w, k, ev) <= OwedOf(w, e.next, ev) + multiset(e.sends)[ev]
  {
    if Unseen(s, k) {
      StepPaid(w, roots, s, open, k, ev);
    }
  }

  /** Who claims a directory owes its listing. */
  lemma ClaimOwesListing(w: World, roots: seq<Path>, s: Shared, open: bool, k: Worker, item: WalkItem)
    requires Runnable(k) && WorkerOk(w, roots, k) && EffectOf(w, s, open, k).dir.Some?
    ensures k.TestDir?
    ensures var e, ev := EffectOf(w, s, open, k), Event(k.item.Where(), item);
      multiset(w.ListingSends(ev.at))[item] <= OwedOf(w, e.next, ev) + multiset(e.sends)[ev]
  {
    ClaimsAreSettled(w, roots, s, open, k);
  }

  lemma DebtIsPaid(w: World, s: State, i: nat, e: Effect, ev: Event, due: nat)
    requires i < |s.workers| && (e.pop ==> s.shared.queue != []) && s.open
    requires OwedOf(w, s.workers[i], ev) <= OwedOf(w, e.next, ev) + multiset(e.sends)[ev]
    requires PaidOrOwed(w, s, ev, due) || due <= OwedOf(w, e.next, ev) + multiset(e.sends)[ev]
    ensures PaidOrOwed(w, Apply(s, i, e), ev, due)
  {
    SumAfter(Owed(w, ev), s, i, e);
    SumNatPart(Owed(w, ev), s.workers, i);
  }

  lemma KeepsListingPaid(w: World, roots: seq<Path>, s: State, i: nat, x: Spot)
    requires ItemsOk(w, roots, s) && Enabled(s, Run(i)) && s.open
    requires ListingPaid(w, s, x)
      || (EffectOf(w, s.shared, s.open, s.workers[i]).dir.Some? && s.workers[i].TestDir?
          && x == s.workers[i].item.Where())
    ensures ListingPaid(w, Step(w, s, Run(i)), x)
  {
    var k := s.workers[i];
    var e := EffectOf(w, s.shared, s.open, k);
    assert WorkerOk(w, roots, k);
    RunIsApply(w, s, i);
    forall item ensures PaidOrOwed(w, Apply(s, i, e), Event(x, item), multiset(w.ListingSends(x))[item]) {
      var ev := Event(x, item);
      DebtStays(w, roots, s.shared, s.open, k, ev);
      if ListingPaid(w, s, x) {
        assert PaidOrOwed(w, s, ev, multiset(w.ListingSends(x))[item]);
      } else {
        ClaimOwesListing(w, roots, s.shared, s.open, k, item);
      }
      DebtIsPaid(w, s, i, e, ev, multiset(w.ListingSends(x))[item]);
    }
  }

  lemma KeepsAccounted(w: World, roots: seq<Path>, s: State, i: nat, id: DirId)
    requires ItemsOk(w, roots, s) && i < |s.workers| && Runnable(s.workers[i]) && s.open
    requires Accounted(w, s, id) || EffectOf(w, s.shared, s.open, s.workers[i]).dir == Some(id)
    ensures Accounted(w, Step(w, s, Run(i)), id)
  {
    var k := s.workers[i];
    var e := EffectOf(w, s.shared, s.open, k);
    var s' := Step(w, s, Run(i));
    assert WorkerOk(w, roots, k);
    StepShape(w, s.shared, s.open, k);
    if Accounted(w, s, id) {
      var x :| AccountedBy(w, s, id, x);
      forall n | n in w.Children(x) ensures Known(w, s', x.Child(n)) {
        KnownStays(w, roots, s, i, x.Child(n));
      }
      KeepsListingPaid(w, roots, s, i, x);
      assert AccountedBy(w, s', id, x);
    } else {
      ClaimsAreSettled(w, roots, s.shared, s.open, k);
      var x := k.item.Where();
      forall n | n in w.Children(x) ensures Known(w, s', x.Child(n)) {
        KidsMember(x, w.Children(x), x.Child(n));
        KnownStays(w, roots, s, i, x.Child(n));
      }
      KeepsListingPaid(w, roots, s, i, x);
      assert AccountedBy(w, s', id, x);
    }
  }

  lemma StepKeepsGraph(w: World, roots: seq<Path>, s: State, l: Label)
    requires ItemsOk(w, roots, s) && GraphOk(w, roots, s)
    ensures GraphOk(w, roots, Step(w, s, l))
  {
    var s' := Step(w, s, l);
    if Enabled(s, l) {
      match l {
        case Run(i) =>
          KeepsDirsVisited(w, roots, s, i);
          StepShape(w, s.shared, s.open, s.workers[i]);
          if s.open {
            KeepsReported(w, roots, s, i);
            forall r | r in roots ensures Known(w, s', Spot(r, r)) {
              KnownStays(w, roots, s, i, Spot(r, r));
            }
            forall id | id in s'.shared.visitedDirs ensures Accounted(w, s', id) {
              KeepsAccounted(w, roots, s, i, id);
            }
          }
        case Wake(i) => WakeKeepsGraph(w, roots, s, i);
        case CloseChannel =>
      }
    }
  }

  lemma WakeKeepsGraph(w: World, roots: seq<Path>, s: State, i: nat)
    requires GraphOk(w, roots, s) && Enabled(s, Wake(i))
    ensures GraphOk(w, roots, Step(w, s, Wake(i)))
  {
    var s' := Step(w, s, Wake(i));
    forall y ensures Known(w, s', y) <==> Known(w, s, y) {
      SumNatUpdate(Held(w, y), s.workers, i, Ready);
    }
    if s.open {
      forall id | id in s'.shared.visitedDirs ensures Accounted(w, s', id) {
        assert Accounted(w, s, id);
        var x :| AccountedBy(w, s, id, x);
        forall item ensures PaidOrOwed(w, s', Event(x, item), multiset(w.ListingSends(x))[item]) {
          SumNatUpdate(Owed(w, Event(x, item)), s.workers, i, Ready);
          assert PaidOrOwed(w, s, Event(x, item), multiset(w.ListingSends(x))[item]);
        }
        assert AccountedBy(w, s', id, x);
      }
    }
  }

  lemma {:induction false} RunsKeepGraph(w: World, roots: seq<Path>, n: nat, labels: seq<Label>)
    requires Distinct(roots)
    ensures GraphOk(w, roots, Exec(w, Init(roots, n), labels))
  {
    if labels == [] {
      InitPlaced(w, roots, n);
    } else {
      var before := labels[..|labels| - 1];
      RunsKeepGraph(w, roots, n, before);
      RunsKeepItems(w, roots, n, before);
      StepKeepsGraph(w, roots, Exec(w, Init(roots, n), before), labels[|labels| - 1]);
    }
  }

  /** In every run, over any graph, every error met by a settled visit has been sent. */
  lemma NoErrorSwallowed(w: World, roots: seq<Path>, n: nat, labels: seq<Label>, x: Spot, item: WalkItem)
    requires Distinct(roots)
    requires var s := Exec(w, Init(roots, n), labels);
      s.open && x in s.done && w.Classify(x).Drop? && item in w.Classify(x).sends
    ensures Event(x, item) in Exec(w, Init(roots, n), labels).sent
  {
    RunsKeepGraph(w, roots, n, labels);
  }

  /** When all have left and nothing is queued, nothing is held and nothing is owed. */
  lemma KnownIsDone(w: World, s: State, y: Spot)
    requires AllLeft(s) && s.shared.queue == []
    ensures Known(w, s, y) <==> y in s.done
  {
    SumNatZero(Held(w, y), s.workers);
  }

  lemma NothingOwed(w: World, s: State, ev: Event)
    requires AllLeft(s)
    ensures SumNat(Owed(w, ev), s.workers) == 0
  {
    SumNatZero(Owed(w, ev), s.workers);
  }

  lemma AccountedIsFanned(w: World, s: State, id: DirId)
    requires AllLeft(s) && s.shared.queue == [] && Accounted(w, s, id)
    ensures exists x :: FannedAt(w, s.done, id, x) && ListingSent(w, s.sent, x)
  {
    var x :| AccountedBy(w, s, id, x);
    forall n | n in w.Children(x) ensures x.Child(n) in s.done {
      KnownIsDone(w, s, x.Child(n));
    }
    forall item ensures multiset(w.ListingSends(x))[item] <= multiset(s.sent)[Event(x, item)] {
      assert PaidOrOwed(w, s, Event(x, item), multiset(w.ListingSends(x))[item]);
      NothingOwed(w, s, Event(x, item));
    }
    assert FannedAt(w, s.done, id, x) && ListingSent(w, s.sent, x);
  }

  /** When all workers have left an open run, every directory expanded has a claiming visit whose
      entries were all settled and whose listing errors were all sent. */
  lemma ListingsAreReported(w: World, roots: seq<Path>, n: nat, labels: seq<Label>, id: DirId)
    requires Distinct(roots) && n > 0
    requires var s := Exec(w, Init(roots, n), labels); AllLeft(s) && s.open && id in s.expanded
    ensures var s := Exec(w, Init(roots, n), labels);
      exists x :: FannedAt(w, s.done, id, x) && ListingSent(w, s.sent, x)
  {
    NothingAbandoned(w, roots, n, labels);
    RunsKeepGraph(w, roots, n, labels);
    AccountedIsFanned(w, Exec(w, Init(roots, n), labels), id);
  }

  /** In every run, over any graph, no directory is expanded twice. */
  lemma ExpandedOnce(w: World, roots: seq<Path>, n: nat, labels: seq<Label>)
    requires Distinct(roots)
    ensures Distinct(Exec(w, Init(roots, n), labels).expanded)
  {
    RunsKeepGraph(w, roots, n, labels);
  }

  function IdsOf(expanded: seq<DirId>): set<DirId> {
    set id | id in expanded
  }

  /** Without limits, and unless some path was reported as too long, the directories expanded
      by a finished run are exactly the reachable ones, each expanded exactly once. */
  lemma ExpandedIsReachable(w: World, roots: seq<Path>, n: nat, labels: seq<Label>)
    requires Distinct(roots) && n > 0 && Unrestricted(w) && GraphLike(w)
    requires var s := Exec(w, Init(roots, n), labels);
      AllLeft(s) && s.open && !TooLongReported(w, s.sent)
    ensures var s := Exec(w, Init(roots, n), labels);
      Distinct(s.expanded) && IsReachableSet(w, roots, IdsOf(s.expanded))
  {
    var s := Exec(w, Init(roots, n), labels);
    NothingAbandoned(w, roots, n, labels);
    RunsKeepItems(w, roots, n, labels);
    RunsKeepGraph(w, roots, n, labels);
    forall r | r in roots ensures Spot(r, r) in s.done {
      KnownIsDone(w, s, Spot(r, r));
    }
    forall id | id in s.shared.visitedDirs ensures exists x :: FannedAt(w, s.done, id, x) {
      AccountedIsFanned(w, s, id);
    }
    VisitedIsReachable(w, roots, s.done, s.shared.visitedDirs, s.sent);
    assert IdsOf(s.expanded) == s.shared.visitedDirs;
  }

  // ---------------------------------------------------------------- files

  /** How often `p` has been sent as a file. */
  function SentAs(sent: seq<Event>, p: Path): nat {
    if sent == [] then
      0
    else
      SentAs(sent[..|sent| - 1], p) + (var e := sent[|sent| - 1].item; One(e.File? && e.path == p))
  }

  lemma {:induction false} SentAsAppend(a: seq<Event>, b: seq<Event>, p: Path)
    ensures SentAs(a + b, p) == SentAs(a, p) + SentAs(b, p)
  {
    if b == [] {
      assert a + b == a;
    } else {
      assert (a + b)[..|a + b| - 1] == a + b[..|b| - 1];
      SentAsAppend(a, b[..|b| - 1], p);
    }
  }

  /** A file whose path has been claimed and that is about to be sent. */
  function CarriesOf(k: Worker, p: Path): nat {
    match k
    case SendChild(_, _, _, file) => One(file.path == p)
    case SendRoot(_, file) => One(file.path == p)
    case _ => 0
  }

  function Carries(p: Path): Worker -> nat {
    (k: Worker) => CarriesOf(k, p)
  }

  /** Claimed paths are sent or about to be, at most once; unclaimed ones never. */
  predicate OnceAt(s: State, p: Path) {
    SentAs(s.sent, p) + SumNat(Carries(p), s.workers) <= One(p in s.shared.visitedFiles)
  }

  /** A step carries no more files than before, except the one it claims. */
  predicate CarriesOn(k: Worker, e: Effect, p: Path) {
    CarriesOf(e.next, p) + SentAs(e.sends, p) <= CarriesOf(k, p) + One(e.file == Some(p))
  }

  lemma VisitCarries(w: World, roots: seq<Path>, item: Item, p: Path)
    requires ItemOk(w, roots, item)
    ensures CarriesOn(Popped(item), Visit(w, item), p)
  {
    assert w.Classify(item.Where()) == w.ClassifyWith(item.root, item.path, MetaOf(w, item));
    DropSendsNoFile(w, item.Where(), p);
  }

  lemma ScanCarries(w: World, item: Item, rest: seq<Name>, dirs: seq<Item>, p: Path)
    ensures CarriesOn(Scanning(item, rest, dirs), ScanNext(w, item, rest, dirs), p)
  {
    if rest != [] {
      var child := item.Where().Child(rest[0]);
      w.ScanIsClassify(item.root, child.path);
      DropSendsNoFile(w, child, p);
    }
  }

  lemma ListCarries(w: World, item: Item, p: Path)
    ensures CarriesOn(Expand(item), ListDir(w, item), p)
  {
    if w.list(item.path).ListFailed? {
      SentAsOne(Event(item.Where(), Error(item.path, ReadDir, Io(w.list(item.path).error))), p);
    }
  }

  lemma ReportCarries(w: World, item: Item, names: seq<Name>, errors: seq<IoError>, p: Path)
    ensures CarriesOn(Reporting(item, names, errors), Report(w, item, names, errors), p)
  {
    if errors != [] {
      SentAsOne(Event(item.Where(), Error(item.path, ReadDir, Io(errors[0]))), p);
    }
  }

  lemma ClaimCarries(w: World, roots: seq<Path>, s: Shared, k: Worker, p: Path)
    requires k.TestChild? || k.TestRoot?
    requires WorkerOk(w, roots, k)
    ensures CarriesOn(k, EffectOf(w, s, true, k), p)
  {
  }

  lemma StepCarries(w: World, roots: seq<Path>, s: Shared, open: bool, k: Worker, p: Path)
    requires Runnable(k) && WorkerOk(w, roots, k)
    ensures CarriesOn(k, EffectOf(w, s, open, k), p)
  {
    match k {
      case Popped(item) => VisitCarries(w, roots, item, p);
      case Scanning(item, rest, dirs) => ScanCarries(w, item, rest, dirs, p);
      case SendChild(item, _, _, file) => SentAsOne(Event(Spot(item.root, file.path), file), p);
      case SendRoot(item, file) => SentAsOne(Event(item.Where(), file), p);
      case Expand(item) => ListCarries(w, item, p);
      case Reporting(item, names, errors) => ReportCarries(w, item, names, errors, p);
      case TestChild(_, _, _, _) => ClaimCarries(w, roots, s, k, p);
      case TestRoot(_, _) => ClaimCarries(w, roots, s, k, p);
      case _ =>
    }
  }

  lemma SentAsOne(e: Event, p: Path)
    ensures SentAs([e], p) == One(e.item.File? && e.item.path == p)
  {
    assert [e][..0] == [];
  }

  lemma DropSendsNoFile(w: World, x: Spot, p: Path)
    ensures w.Classify(x).Drop? ==> SentAs(At(x, w.Classify(x).sends), p) == 0
  {
    if w.Classify(x).Drop? && w.Classify(x).sends != [] {
      assert At(x, w.Classify(x).sends) == [Event(x, w.Classify(x).sends[0])];
      SentAsOne(Event(x, w.Classify(x).sends[0]), p);
    }
  }

  lemma StepKeepsOnce(w: World, roots: seq<Path>, s: State, l: Label, p: Path)
    requires ItemsOk(w, roots, s) && OnceAt(s, p)
    ensures OnceAt(Step(w, s, l), p)
  {
    if Enabled(s, l) {
      match l {
        case Run(i) =>
          var e := EffectOf(w, s.shared, s.open, s.workers[i]);
          StepShape(w, s.shared, s.open, s.workers[i]);
          StepCarries(w, roots, s.shared, s.open, s.workers[i], p);
          ClaimIsNew(w, s.shared, s.open, s.workers[i]);
          SumAfter(Carries(p), s, i, e);
          SentAsAppend(s.sent, e.sends, p);
        case Wake(i) => SumNatUpdate(Carries(p), s.workers, i, Ready);
        case CloseChannel =>
      }
    }
  }

  /** In every run, over any graph and for any roots, no path is sent twice as a file. */
  lemma {:induction false} NoFileTwice(w: World, roots: seq<Path>, n: nat, labels: seq<Label>, p: Path)
    ensures OnceAt(Exec(w, Init(roots, n), labels), p)
    ensures SentAs(Exec(w, Init(roots, n), labels).sent, p) <= 1
  {
    if labels == [] {
      SumNatZero(Carries(p), Init(roots, n).workers);
    } else {
      var before := labels[..|labels| - 1];
      NoFileTwice(w, roots, n, before, p);
      RunsKeepItems(w, roots, n, before);
      StepKeepsOnce(w, roots, Exec(w, Init(roots, n), before), labels[|labels| - 1], p);
    }
  }
}

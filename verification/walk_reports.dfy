/**
 What arrives from a walk that has run to its end, told from the file system alone: every root
 and every entry of an expanded directory is answered, each case by the item it calls for, and
 nothing arrives that no path calls for. It holds of both engines, on any file system.
 */
module WalkReports {
  import opened Prelude
  import opened Gitignore
  import opened WalkWorld
  import opened ParallelWalk
  import opened ParallelProtocol
  import opened ParallelItems
  import opened ParallelComplete
  import opened ParallelReach
  import opened ParallelSends
  import opened SerialWalk
  import opened SerialBooks
  import opened SerialRuns
  import opened DirGraph
  import opened VisitFacts
  import opened Bags

  // ---------------------------------------------------------------- what is promised

  ghost predicate Silent(sent: seq<Event>, x: Spot) {
    forall i :: 0 <= i < |sent| ==> sent[i].at != x
  }

  ghost predicate ItemSent(sent: seq<Event>, item: WalkItem) {
    exists i :: 0 <= i < |sent| && sent[i].item == item
  }

  /** The error for a file of rules that cannot be read names that file. */
  ghost predicate RulesReported(sent: seq<Event>, x: Spot, s: Source) {
    match s
    case DirRules(dir) => Event(x, Error(dir + [".gitignore"], GitignoreRules, BadRules(s))) in sent
    case Exclude(git) => Event(x, Error(git + ["info", "exclude"], GitignoreRules, BadRules(s))) in sent
    case NoRules => Event(x, Error([], GitignoreRules, BadRules(s))) in sent
  }

  /** A directory whose chain has been asked. */
  ghost predicate DirectoryAnswered(w: World, sent: seq<Event>, expanded: seq<DirId>, x: Spot,
                                    id: Result<DirId, IoError>) {
    var p := x.path;
    if w.respectGitignore && w.fault(x.root, p).Some? then
      RulesReported(sent, x, w.fault(x.root, p).value)
    else if w.respectGitignore && (w.decides(x.root, p, p, true) || (p != [] && p[|p| - 1] == ".git")) then
      Silent(sent, x)
    else
      match id
      case Err(e) => Event(x, Error(p, Metadata, Io(e))) in sent
      case Ok(v) => v in expanded
  }

  /** A file is judged by the chain of the directory it lies in. */
  ghost predicate FileAnswered(w: World, sent: seq<Event>, x: Spot) {
    var p := x.path;
    var dir := if p == [] then x.root else p[..|p| - 1];
    if w.respectGitignore && w.fault(x.root, dir).Some? then
      RulesReported(sent, x, w.fault(x.root, dir).value)
    else if w.respectGitignore && w.decides(x.root, dir, p, false) then
      Silent(sent, x)
    else
      match w.verdict(p)
      case Keep(size, inode) => ItemSent(sent, File(p, size, inode))
      case Unwanted => Silent(sent, x)
      case ProbeFailed(e) => Event(x, Error(p, Open, Io(e))) in sent
  }

  /** The walk has answered a path it met. */
  ghost predicate Answered(w: World, sent: seq<Event>, expanded: seq<DirId>, x: Spot) {
    if w.pathBytes(x.path) > 4096 then
      Event(x, Error(x.path, Metadata, PathTooLong)) in sent
    else
      match w.stat(x.path)
      case Missing(e, dangling) =>
        if dangling then Silent(sent, x) else Event(x, Error(x.path, Metadata, Io(e))) in sent
      case Directory(id) => DirectoryAnswered(w, sent, expanded, x, id)
      case NonDirectory => FileAnswered(w, sent, x)
  }

  /** The directory `id` was expanded along the path `x`: its listing was reported and every entry
      answered, unless it lies below the depth limit. */
  ghost predicate ExpandedAlong(w: World, sent: seq<Event>, expanded: seq<DirId>, id: DirId, x: Spot) {
    && w.stat(x.path) == Directory(Ok(id)) && x.root <= x.path
    && if w.maxDepth.Some? && |x.path| - |x.root| > w.maxDepth.value then
         Silent(sent, x)
       else
         match w.list(x.path)
         case ListFailed(e) => Event(x, Error(x.path, ReadDir, Io(e))) in sent
         case Listed(names, errors) =>
           && (forall e :: multiset(errors)[e] <= multiset(sent)[Event(x, Error(x.path, ReadDir, Io(e)))])
           && (forall n :: n in names ==> Answered(w, sent, expanded, Spot(x.root, x.path + [n])))
  }

  /** Roots and entries of expanded directories are answered. */
  ghost predicate FullReport(w: World, roots: seq<Path>, sent: seq<Event>, expanded: seq<DirId>) {
    && (forall r :: r in roots ==> Answered(w, sent, expanded, Spot(r, r)))
    && (forall id :: id in expanded ==> exists x :: ExpandedAlong(w, sent, expanded, id, x))
  }

  /** What arrived is called for by a path to which directories lead that are gone into. */
  ghost predicate WellFounded(w: World, roots: seq<Path>, ev: Event) {
    && (CalledForItself(w, ev.at, ev.item) || CalledForListing(w, ev.at, ev.item))
    && ev.at.root in roots && ev.at.root <= ev.at.path
    && forall k :: |ev.at.root| <= k < |ev.at.path| ==> StepsDown(w, ev.at, k)
  }

  // ---------------------------------------------------------------- from the books of an engine

  /** The books of a walk that has come to its end. */
  ghost predicate Closed(w: World, roots: seq<Path>, done: set<Spot>, sent: seq<Event>, expanded: seq<DirId>) {
    && Reported(w, done, sent) && AllJustified(w, roots, sent)
    && (forall x :: x in done && w.Classify(x).EnterDir? ==> w.Classify(x).id in expanded)
    && (forall x :: x in done && w.Classify(x).OfferFile? ==> ItemSent(sent, w.Classify(x).file))
  }

  lemma NothingCalledFor(w: World, roots: seq<Path>, sent: seq<Event>, x: Spot)
    requires AllJustified(w, roots, sent) && w.Emits(x) == []
    ensures Silent(sent, x)
  {
    forall i | 0 <= i < |sent| ensures sent[i].at != x {
      assert Justified(w, roots, sent[i]);
    }
  }

  lemma SettledIsAnswered(w: World, roots: seq<Path>, done: set<Spot>, sent: seq<Event>, expanded: seq<DirId>, x: Spot)
    requires Closed(w, roots, done, sent, expanded) && x in done
    ensures Answered(w, sent, expanded, x)
  {
    var c := w.Classify(x);
    if c.Drop? {
      if c.sends == [] {
        NothingCalledFor(w, roots, sent, x);
      } else {
        assert c.sends[0] in c.sends;
      }
    }
  }

  lemma FannedIsExpanded(w: World, roots: seq<Path>, done: set<Spot>, sent: seq<Event>, expanded: seq<DirId>,
                         id: DirId, x: Spot)
    requires Closed(w, roots, done, sent, expanded) && w.Walked(roots, x)
    requires FannedAt(w, done, id, x) && ListingSent(w, sent, x)
    ensures ExpandedAlong(w, sent, expanded, id, x)
  {
    EntersMeans(w, x, id);
    if w.maxDepth.Some? && |x.path| - |x.root| > w.maxDepth.value {
      NothingCalledFor(w, roots, sent, x);
    } else if w.list(x.path).ListFailed? {
      var item := Error(x.path, ReadDir, Io(w.list(x.path).error));
      assert w.ListingSends(x) == [item] && multiset(w.ListingSends(x))[item] == 1;
    } else {
      var names, errors := w.list(x.path).names, w.list(x.path).entryErrors;
      forall e ensures multiset(errors)[e] <= multiset(sent)[Event(x, Error(x.path, ReadDir, Io(e)))] {
        ErrorsListed(w, x.path, errors, e);
        assert w.ListingSends(x) == w.EntryErrors(x.path, errors);
      }
      forall n | n in names ensures Answered(w, sent, expanded, Spot(x.root, x.path + [n])) {
        assert n in w.Children(x);
        SettledIsAnswered(w, roots, done, sent, expanded, x.Child(n));
      }
    }
  }

  lemma ReportFromBooks(w: World, roots: seq<Path>, done: set<Spot>, sent: seq<Event>, expanded: seq<DirId>)
    requires Closed(w, roots, done, sent, expanded) && forall x :: x in done ==> w.Walked(roots, x)
    requires forall r :: r in roots ==> Spot(r, r) in done
    requires forall id :: id in expanded ==> exists x :: FannedAt(w, done, id, x) && ListingSent(w, sent, x)
    ensures FullReport(w, roots, sent, expanded)
  {
    forall r | r in roots ensures Answered(w, sent, expanded, Spot(r, r)) {
      SettledIsAnswered(w, roots, done, sent, expanded, Spot(r, r));
    }
    forall id | id in expanded ensures exists x :: ExpandedAlong(w, sent, expanded, id, x) {
      var x :| FannedAt(w, done, id, x) && ListingSent(w, sent, x);
      FannedIsExpanded(w, roots, done, sent, expanded, id, x);
    }
  }

  lemma JustifiedIsFounded(w: World, roots: seq<Path>, ev: Event)
    requires Justified(w, roots, ev)
    ensures WellFounded(w, roots, ev)
  {
    EmitsMeans(w, ev.at, ev.item);
    WalkedMeans(w, roots, ev.at);
  }

  // ---------------------------------------------------------------- files of the parallel engine

  /** The visit `x` claimed the path `p`, and its file was sent or is about to be. */
  ghost predicate FileAccounted(w: World, s: State, p: Path, x: Spot) {
    x.path == p && w.Classify(x).OfferFile? && PaidOrOwed(w, s, Event(x, w.Classify(x).file), 1)
  }

  ghost predicate FilesOk(w: World, s: State) {
    && (forall x :: x in s.done && w.Classify(x).OfferFile? ==> x.path in s.shared.visitedFiles)
    && (s.open ==> forall p :: p in s.shared.visitedFiles ==> exists x :: FileAccounted(w, s, p, x))
  }

  lemma SettledIsVisited(w: World, roots: seq<Path>, s: Shared, open: bool, k: Worker, x: Spot)
    requires Runnable(k) && WorkerOk(w, roots, k) && x in EffectOf(w, s, open, k).settled
    requires w.Classify(x).OfferFile?
    ensures x.path in s.visitedFiles || EffectOf(w, s, open, k).file == Some(x.path)
  {
    match k {
      case Popped(item) => VisitSettlesDrops(w, roots, item, x);
      case Scanning(item, rest, dirs) =>
        if rest != [] {
          w.ScanIsClassify(item.root, item.Where().Child(rest[0]).path);
        }
      case _ =>
    }
  }

  lemma VisitSettlesDrops(w: World, roots: seq<Path>, item: Item, x: Spot)
    requires ItemOk(w, roots, item) && x in Visit(w, item).settled
    ensures w.Classify(x).Drop?
  {
    assert w.Classify(item.Where()) == w.ClassifyWith(item.root, item.path, MetaOf(w, item));
  }

  /** Who claims a file owes it. */
  lemma ClaimOwesFile(w: World, roots: seq<Path>, s: Shared, open: bool, k: Worker) returns (x: Spot)
    requires Runnable(k) && WorkerOk(w, roots, k) && EffectOf(w, s, open, k).file.Some?
    ensures x.path == EffectOf(w, s, open, k).file.value && w.Classify(x).OfferFile?
    ensures OwedOf(w, EffectOf(w, s, open, k).next, Event(x, w.Classify(x).file)) == 1
  {
    ClaimsAreSettled(w, roots, s, open, k);
    match k {
      case TestRoot(item, file) => x := item.Where();
      case TestChild(item, rest, dirs, file) => x := item.Where().Child(rest[0]);
      case TestDir(item, id) => assert false;
      case _ =>
        OnlyClaimsClaim(w, s, open, k);
        assert false;
    }
  }

  lemma KeepsFile(w: World, roots: seq<Path>, s: State, i: nat, p: Path)
    requires ItemsOk(w, roots, s) && Enabled(s, Run(i)) && s.open && FilesOk(w, s)
    requires p in Step(w, s, Run(i)).shared.visitedFiles
    ensures exists x :: FileAccounted(w, Step(w, s, Run(i)), p, x)
  {
    var k := s.workers[i];
    var e := EffectOf(w, s.shared, s.open, k);
    assert WorkerOk(w, roots, k);
    RunIsApply(w, s, i);
    var x: Spot;
    if p in s.shared.visitedFiles {
      x :| FileAccounted(w, s, p, x);
    } else {
      x := ClaimOwesFile(w, roots, s.shared, s.open, k);
    }
    var ev := Event(x, w.Classify(x).file);
    DebtStays(w, roots, s.shared, s.open, k, ev);
    DebtIsPaid(w, s, i, e, ev, 1);
    assert FileAccounted(w, Step(w, s, Run(i)), p, x);
  }

  lemma StepKeepsFiles(w: World, roots: seq<Path>, s: State, l: Label)
    requires ItemsOk(w, roots, s) && FilesOk(w, s)
    ensures FilesOk(w, Step(w, s, l))
  {
    var s' := Step(w, s, l);
    if Enabled(s, l) {
      match l {
        case Run(i) =>
          var k := s.workers[i];
          assert WorkerOk(w, roots, k);
          RunIsApply(w, s, i);
          forall x | x in s'.done && w.Classify(x).OfferFile? ensures x.path in s'.shared.visitedFiles {
            if x !in s.done {
              SettledIsVisited(w, roots, s.shared, s.open, k, x);
            }
          }
          if s.open {
            forall p | p in s'.shared.visitedFiles ensures exists x :: FileAccounted(w, s', p, x) {
              KeepsFile(w, roots, s, i, p);
            }
          }
        case Wake(i) => WakeKeepsFiles(w, s, i);
        case CloseChannel =>
      }
    }
  }

  lemma WakeKeepsFiles(w: World, s: State, i: nat)
    requires FilesOk(w, s) && Enabled(s, Wake(i))
    ensures FilesOk(w, Step(w, s, Wake(i)))
  {
    var s' := Step(w, s, Wake(i));
    if s.open {
      forall p | p in s'.shared.visitedFiles ensures exists x :: FileAccounted(w, s', p, x) {
        var x :| FileAccounted(w, s, p, x);
        SumNatUpdate(Owed(w, Event(x, w.Classify(x).file)), s.workers, i, Ready);
        assert FileAccounted(w, s', p, x);
      }
    }
  }

  lemma {:induction false} RunsKeepFiles(w: World, roots: seq<Path>, n: nat, labels: seq<Label>)
    ensures FilesOk(w, Exec(w, Init(roots, n), labels))
  {
    if labels != [] {
      var before := labels[..|labels| - 1];
      RunsKeepFiles(w, roots, n, before);
      RunsKeepItems(w, roots, n, before);
      StepKeepsFiles(w, roots, Exec(w, Init(roots, n), before), labels[|labels| - 1]);
    }
  }

  /** A path is offered as the same file wherever it is met. */
  lemma OfferedAlike(w: World, x: Spot, y: Spot)
    requires x.path == y.path && w.Classify(x).OfferFile? && w.Classify(y).OfferFile?
    ensures w.Classify(x) == w.Classify(y)
  {
  }

  lemma FilesAreSent(w: World, s: State, x: Spot)
    requires FilesOk(w, s) && s.open && AllLeft(s) && x in s.done && w.Classify(x).OfferFile?
    ensures ItemSent(s.sent, w.Classify(x).file)
  {
    var y :| FileAccounted(w, s, x.path, y);
    var ev := Event(y, w.Classify(y).file);
    OfferedAlike(w, x, y);
    NothingOwed(w, s, ev);
    assert ev in multiset(s.sent);
  }

  // ---------------------------------------------------------------- the two engines

  /** Every finished run of the parallel engine whose receiver stayed has answered everything. */
  lemma ParallelReportsAll(w: World, roots: seq<Path>, n: nat, labels: seq<Label>)
    requires Distinct(roots) && n > 0
    requires var s := Exec(w, Init(roots, n), labels); AllLeft(s) && s.open
    ensures var s := Exec(w, Init(roots, n), labels); FullReport(w, roots, s.sent, s.expanded)
  {
    var s := Exec(w, Init(roots, n), labels);
    NothingAbandoned(w, roots, n, labels);
    RunsKeepItems(w, roots, n, labels);
    RunsKeepGraph(w, roots, n, labels);
    RunsKeepSends(w, roots, n, labels);
    RunsKeepFiles(w, roots, n, labels);
    forall x | x in s.done && w.Classify(x).OfferFile? ensures ItemSent(s.sent, w.Classify(x).file) {
      FilesAreSent(w, s, x);
    }
    forall r | r in roots ensures Spot(r, r) in s.done {
      KnownIsDone(w, s, Spot(r, r));
    }
    forall id | id in s.expanded ensures exists x :: FannedAt(w, s.done, id, x) && ListingSent(w, s.sent, x) {
      AccountedIsFanned(w, s, id);
    }
    ReportFromBooks(w, roots, s.done, s.sent, s.expanded);
  }

  /** Whatever a run of it sends, finished or not, some path calls for. */
  lemma ParallelReportsOnly(w: World, roots: seq<Path>, n: nat, labels: seq<Label>, i: nat)
    requires i < |Exec(w, Init(roots, n), labels).sent|
    ensures WellFounded(w, roots, Exec(w, Init(roots, n), labels).sent[i])
  {
    NothingElseIsSent(w, roots, n, labels, i);
    JustifiedIsFounded(w, roots, Exec(w, Init(roots, n), labels).sent[i]);
  }

  ghost predicate FileSentFrom(w: World, sent: seq<Event>, p: Path, x: Spot) {
    x.path == p && w.Classify(x).OfferFile? && Event(x, w.Classify(x).file) in sent
  }

  ghost predicate FilesKept(w: World, roots: seq<Path>, room: Option<nat>, l: Loop) {
    && LoopKept(w, roots, room, l)
    && (forall x :: x in l.s.done && w.Classify(x).OfferFile? ==> x.path in l.s.visitedFiles)
    && (room.None? ==> forall p :: p in l.s.visitedFiles ==> exists x :: FileSentFrom(w, l.s.sent, p, x))
  }

  lemma TurnSendsFile(w: World, roots: seq<Path>, s: Serial, p: Path)
    requires s.queue != [] && ItemOk(w, roots, s.queue[0]) && s.room.None?
    requires forall q :: q in s.visitedFiles ==> exists x :: FileSentFrom(w, s.sent, q, x)
    requires p in Turn(w, s).0.visitedFiles
    ensures exists x :: FileSentFrom(w, Turn(w, s).0.sent, p, x)
  {
    TurnShape(w, roots, s);
    TurnOnlySends(w, s);
    var x := s.queue[0].Where();
    if p in s.visitedFiles {
      x :| FileSentFrom(w, s.sent, p, x);
    } else {
      TurnDelivers(w, s);
      assert TurnEvents(w, s) == [Event(x, w.Classify(x).file)];
    }
    assert FileSentFrom(w, Turn(w, s).0.sent, p, x);
  }

  lemma StepKeepsFilesS(w: World, roots: seq<Path>, room: Option<nat>, l: Loop)
    requires w.Finite() && FilesKept(w, roots, room, l)
    ensures FilesKept(w, roots, room, LoopStep(w, l))
  {
    StepKeepsLoop(w, roots, room, l);
    if !l.Over() {
      var s, s' := l.s, Turn(w, l.s).0;
      assert s.queue[0] in s.queue;
      TurnShape(w, roots, s);
      forall x | x in s'.done && w.Classify(x).OfferFile? ensures x.path in s'.visitedFiles {
        TurnBalance(w, roots, s, x);
      }
      if room.None? {
        forall p | p in s'.visitedFiles ensures exists x :: FileSentFrom(w, s'.sent, p, x) {
          TurnSendsFile(w, roots, s, p);
        }
      }
    }
  }

  lemma StartFiles(w: World, roots: seq<Path>, room: Option<nat>)
    requires w.Finite() && Distinct(roots)
    ensures FilesKept(w, roots, room, Loop(Start(w, roots, room), true))
  {
    StartIsOk(w, roots, room);
    StartItems(w, roots, room);
    StartMeets(w, roots, room, Spot([], []));
    forall x | x in Start(w, roots, room).done ensures !w.Classify(x).OfferFile? {
      StartMeets(w, roots, room, x);
    }
  }

  lemma TurnsKeepFiles(w: World, roots: seq<Path>, room: Option<nat>, k: nat)
    requires w.Finite() && Distinct(roots)
    ensures FilesKept(w, roots, room, AfterTurns(w, roots, room, k))
  {
    var inv := (l: Loop) => FilesKept(w, roots, room, l);
    StartFiles(w, roots, room);
    forall l | inv(l) ensures inv(Steps(w)(l)) {
      StepKeepsFilesS(w, roots, room, l);
    }
    Always(Steps(w), inv, Loop(Start(w, roots, room), true), k);
  }

  /** Every run of the serial engine that has emptied its queue while the receiver stays has
      answered everything. */
  lemma SerialReportsAll(w: World, roots: seq<Path>, s: Serial)
    requires w.Finite() && Distinct(roots) && IsSerialRun(w, roots, None, s) && s.queue == []
    ensures FullReport(w, roots, s.sent, s.expanded)
  {
    var k: nat :| s == AfterTurns(w, roots, None, k).s;
    TurnsKeepFiles(w, roots, None, k);
    TurnsKeepSends(w, roots, None, k);
    forall x | x in s.done && w.Classify(x).OfferFile? ensures ItemSent(s.sent, w.Classify(x).file) {
      var y :| FileSentFrom(w, s.sent, x.path, y);
      OfferedAlike(w, x, y);
    }
    forall r | r in roots ensures Spot(r, r) in s.done {
      assert KnownS(s, Spot(r, r));
    }
    forall id | id in s.expanded ensures exists x :: FannedAt(w, s.done, id, x) && ListingSent(w, s.sent, x) {
      DrainedReportsListings(w, roots, s, id);
    }
    ReportFromBooks(w, roots, s.done, s.sent, s.expanded);
  }

  /** Whatever a run of it sends, some path calls for. */
  lemma SerialReportsOnly(w: World, roots: seq<Path>, room: Option<nat>, s: Serial, i: nat)
    requires w.Finite() && Distinct(roots) && IsSerialRun(w, roots, room, s) && i < |s.sent|
    ensures WellFounded(w, roots, s.sent[i])
  {
    SerialSendsOnly(w, roots, room, s, i);
    JustifiedIsFounded(w, roots, s.sent[i]);
  }
}

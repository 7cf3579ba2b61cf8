/**
 What the items of a parallel run mean: where they lie, how deep, and what the worker that
 holds one has already found out about it.
 */
module ParallelItems {
  import opened Prelude
  import opened Gitignore
  import opened WalkWorld
  import opened ParallelWalk
  import opened ParallelProtocol

  /** An item names a path the specification walks, at its true depth below its root. */
  predicate ItemOk(w: World, roots: seq<Path>, item: Item) {
    && w.Walked(roots, item.Where())
    && item.depth == item.Where().Depth()
    && (item.meta.Some? ==> item.meta.value == w.stat(item.path))
  }

  /** `item` is a directory that was entered and may be listed. */
  predicate Entered(w: World, roots: seq<Path>, item: Item) {
    ItemOk(w, roots, item) && w.Classify(item.Where()).EnterDir?
  }

  ghost predicate DirsOk(w: World, roots: seq<Path>, dirs: seq<Item>) {
    forall d :: d in dirs ==> ItemOk(w, roots, d)
  }

  ghost predicate ScanOk(w: World, roots: seq<Path>, item: Item, rest: seq<Name>, dirs: seq<Item>) {
    && Entered(w, roots, item)
    && (forall n :: n in rest ==> n in w.Children(item.Where()))
    && DirsOk(w, roots, dirs)
  }

  ghost predicate WorkerOk(w: World, roots: seq<Path>, k: Worker) {
    match k
    case Popped(item) => ItemOk(w, roots, item)
    case TestDir(item, id) => ItemOk(w, roots, item) && w.Classify(item.Where()) == EnterDir(id)
    case Expand(item) => Entered(w, roots, item)
    case Reporting(item, names, errors) =>
      Entered(w, roots, item) && names == w.Children(item.Where())
    case Scanning(item, rest, dirs) => ScanOk(w, roots, item, rest, dirs)
    case TestChild(item, rest, dirs, file) =>
      ScanOk(w, roots, item, rest, dirs) && rest != []
      && w.Classify(item.Where().Child(rest[0])) == OfferFile(file) && file.path == item.path + [rest[0]]
    case SendChild(item, rest, dirs, file) =>
      ScanOk(w, roots, item, rest, dirs) && file.File?
      && w.Walked(roots, Spot(item.root, file.path)) && w.Classify(Spot(item.root, file.path)) == OfferFile(file)
    case TestRoot(item, file) =>
      ItemOk(w, roots, item) && w.Classify(item.Where()) == OfferFile(file) && file.path == item.path
    case SendRoot(item, file) =>
      ItemOk(w, roots, item) && file.File? && w.Classify(item.Where()) == OfferFile(file) && file.path == item.path
    case _ => true
  }

  ghost predicate ItemsOk(w: World, roots: seq<Path>, s: State) {
    && (forall item :: item in s.shared.queue ==> ItemOk(w, roots, item))
    && (forall i :: 0 <= i < |s.workers| ==> WorkerOk(w, roots, s.workers[i]))
    && (forall x :: x in s.done ==> w.Walked(roots, x))
    && (s.open ==> forall i :: 0 <= i < |s.workers| ==> s.workers[i] != Finishing(true) && s.workers[i] != Left(false))
  }

  /** The effect of one step is about walked paths too. */
  ghost predicate EffectOk(w: World, roots: seq<Path>, open: bool, e: Effect) {
    && WorkerOk(w, roots, e.next)
    && DirsOk(w, roots, e.push)
    && (forall x :: x in e.settled ==> w.Walked(roots, x))
    && (open ==> e.next != Finishing(true) && e.next != Left(false))
  }

  lemma ChildItemOk(w: World, roots: seq<Path>, item: Item, name: Name, meta: Stat)
    requires Entered(w, roots, item) && name in w.Children(item.Where())
    requires meta == w.stat(item.path + [name])
    ensures ItemOk(w, roots, Item(item.path + [name], item.depth + 1, item.root, Some(meta)))
  {
    w.WalkedChild(roots, item.Where(), name);
  }

  lemma ScanStepOk(w: World, roots: seq<Path>, open: bool, item: Item, rest: seq<Name>, dirs: seq<Item>)
    requires ScanOk(w, roots, item, rest, dirs)
    ensures EffectOk(w, roots, open, ScanNext(w, item, rest, dirs))
  {
    if rest != [] {
      var child := item.Where().Child(rest[0]);
      assert rest[0] in rest;
      w.ChildLookupSucceeds(item.Where(), rest[0]);
      w.ScanIsClassify(item.root, child.path);
      w.WalkedChild(roots, item.Where(), rest[0]);
      ChildItemOk(w, roots, item, rest[0], w.stat(child.path));
    }
  }

  lemma OfferPath(w: World, s: Spot)
    requires w.Classify(s).OfferFile?
    ensures w.Classify(s).file.File? && w.Classify(s).file.path == s.path
  {
  }

  lemma VisitOk(w: World, roots: seq<Path>, open: bool, item: Item)
    requires ItemOk(w, roots, item)
    ensures EffectOk(w, roots, open, Visit(w, item))
  {
    var c := w.Classify(item.Where());
    assert c == w.ClassifyWith(item.root, item.path, MetaOf(w, item));
    if c.OfferFile? {
      OfferPath(w, item.Where());
    }
  }

  lemma ClaimChildOk(w: World, roots: seq<Path>, s: Shared, open: bool, item: Item, rest: seq<Name>,
                     dirs: seq<Item>, file: WalkItem)
    requires WorkerOk(w, roots, TestChild(item, rest, dirs, file))
    ensures EffectOk(w, roots, open, ClaimChild(s, item, rest, dirs, file))
  {
    assert rest[0] in rest;
    w.WalkedChild(roots, item.Where(), rest[0]);
    OfferPath(w, item.Where().Child(rest[0]));
  }

  lemma ListOk(w: World, roots: seq<Path>, open: bool, item: Item)
    requires Entered(w, roots, item)
    ensures EffectOk(w, roots, open, ListDir(w, item))
  {
  }

  lemma ReportOk(w: World, roots: seq<Path>, open: bool, item: Item, names: seq<Name>, errors: seq<IoError>)
    requires WorkerOk(w, roots, Reporting(item, names, errors))
    ensures EffectOk(w, roots, open, Report(w, item, names, errors))
  {
  }

  lemma ClaimOk(w: World, roots: seq<Path>, s: Shared, open: bool, item: Item, outcome: Outcome)
    requires ItemOk(w, roots, item) && w.Classify(item.Where()) == outcome
    ensures outcome.EnterDir? ==> EffectOk(w, roots, open, ClaimDir(s, item, outcome.id))
    ensures outcome.OfferFile? ==> EffectOk(w, roots, open, ClaimRoot(s, item, outcome.file))
  {
    if outcome.OfferFile? {
      OfferPath(w, item.Where());
    }
  }

  lemma StepEffectOk(w: World, roots: seq<Path>, s: Shared, open: bool, k: Worker)
    requires Runnable(k) && WorkerOk(w, roots, k)
    requires forall item :: item in s.queue ==> ItemOk(w, roots, item)
    requires open ==> k != Finishing(true)
    ensures EffectOk(w, roots, open, EffectOf(w, s, open, k))
  {
    match k {
      case Popped(item) => VisitOk(w, roots, open, item);
      case TestDir(item, id) => ClaimOk(w, roots, s, open, item, EnterDir(id));
      case TestRoot(item, file) => ClaimOk(w, roots, s, open, item, OfferFile(file));
      case Expand(item) => ListOk(w, roots, open, item);
      case Reporting(item, names, errors) => ReportOk(w, roots, open, item, names, errors);
      case Scanning(item, rest, dirs) => ScanStepOk(w, roots, open, item, rest, dirs);
      case TestChild(item, rest, dirs, file) => ClaimChildOk(w, roots, s, open, item, rest, dirs, file);
      case _ =>
    }
  }

  lemma StepKeepsItems(w: World, roots: seq<Path>, s: State, l: Label)
    requires ItemsOk(w, roots, s)
    ensures ItemsOk(w, roots, Step(w, s, l))
  {
    if Enabled(s, l) && l.Run? {
      StepEffectOk(w, roots, s.shared, s.open, s.workers[l.i]);
    }
  }

  lemma InitItems(w: World, roots: seq<Path>, n: nat)
    ensures ItemsOk(w, roots, Init(roots, n))
  {
    forall item | item in Init(roots, n).shared.queue ensures ItemOk(w, roots, item) {
      assert item.path in roots;
    }
  }

  lemma {:induction false} RunsKeepItems(w: World, roots: seq<Path>, n: nat, labels: seq<Label>)
    ensures ItemsOk(w, roots, Exec(w, Init(roots, n), labels))
    ensures |Exec(w, Init(roots, n), labels).workers| == n
  {
    if labels == [] {
      InitItems(w, roots, n);
    } else {
      RunsKeepItems(w, roots, n, labels[..|labels| - 1]);
      StepKeepsItems(w, roots, Exec(w, Init(roots, n), labels[..|labels| - 1]), labels[|labels| - 1]);
    }
  }

  // ---------------------------------------------------------------- what follows

  /** Queued items carry their true depth, and none is deeper than the limit allows. */
  lemma QueuedDepths(w: World, roots: seq<Path>, n: nat, labels: seq<Label>, item: Item)
    requires item in Exec(w, Init(roots, n), labels).shared.queue
    ensures item.root in roots && item.root <= item.path && item.depth == |item.path| - |item.root|
    ensures w.maxDepth.Some? ==> item.depth <= w.maxDepth.value + 1
  {
    RunsKeepItems(w, roots, n, labels);
    if w.maxDepth.Some? {
      w.WalkedDepth(roots, item.Where());
    }
  }

  /** The branch that gives up a directory because a child's ignore chain cannot be read is
      never taken: in every run the chain was read when the directory itself was visited. */
  lemma ChildLookupsNeverFail(w: World, roots: seq<Path>, n: nat, labels: seq<Label>, i: nat)
    requires var s := Exec(w, Init(roots, n), labels);
      i < |s.workers| && s.workers[i].Scanning? && s.workers[i].rest != []
    ensures var k := Exec(w, Init(roots, n), labels).workers[i];
      !w.Scan(k.item.root, k.item.path + [k.rest[0]]).Abort?
  {
    RunsKeepItems(w, roots, n, labels);
    var k := Exec(w, Init(roots, n), labels).workers[i];
    assert k.rest[0] in k.rest;
    w.ChildLookupSucceeds(k.item.Where(), k.rest[0]);
  }

  /** When all workers have left with the channel still open, every queued item was taken
      and every taken item was finished. */
  lemma NothingAbandoned(w: World, roots: seq<Path>, n: nat, labels: seq<Label>)
    requires n > 0
    requires var s := Exec(w, Init(roots, n), labels); AllLeft(s) && s.open
    ensures Idle(Exec(w, Init(roots, n), labels).shared)
  {
    var s := Exec(w, Init(roots, n), labels);
    RunsKeepProtocol(w, roots, n, labels);
    RunsKeepItems(w, roots, n, labels);
    assert s.workers[0] == Left(true);
  }
}

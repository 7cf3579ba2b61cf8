/**
 What the parallel engine sends in every run, finished or not, on any file system: only items
 the specification sends for a path it walks, and no file below the depth limit.
 */
module ParallelSends {
  import opened Prelude
  import opened Gitignore
  import opened WalkWorld
  import opened ParallelWalk
  import opened ParallelItems

  /** The specification walks the path of the event and sends the item for it. */
  predicate Justified(w: World, roots: seq<Path>, ev: Event) {
    w.Walked(roots, ev.at) && ev.item in w.Emits(ev.at)
  }

  ghost predicate AllJustified(w: World, roots: seq<Path>, events: seq<Event>) {
    forall i :: 0 <= i < |events| ==> Justified(w, roots, events[i])
  }

  lemma VisitJustified(w: World, roots: seq<Path>, item: Item)
    requires ItemOk(w, roots, item)
    ensures AllJustified(w, roots, Visit(w, item).sends)
  {
    var c := w.Classify(item.Where());
    assert c == w.ClassifyWith(item.root, item.path, MetaOf(w, item));
    if c.Drop? {
      assert forall i :: 0 <= i < |c.sends| ==> c.sends[i] in w.Emits(item.Where());
    }
  }

  lemma ListJustified(w: World, roots: seq<Path>, item: Item)
    requires Entered(w, roots, item)
    ensures AllJustified(w, roots, ListDir(w, item).sends)
  {
  }

  lemma ScanJustified(w: World, roots: seq<Path>, item: Item, rest: seq<Name>, dirs: seq<Item>)
    requires ScanOk(w, roots, item, rest, dirs)
    ensures AllJustified(w, roots, ScanNext(w, item, rest, dirs).sends)
  {
    if rest != [] {
      var child := item.Where().Child(rest[0]);
      var found := w.Scan(item.root, child.path);
      assert rest[0] in rest;
      w.WalkedChild(roots, item.Where(), rest[0]);
      w.ScanIsClassify(item.root, child.path);
      if found.Pass? {
        assert forall i :: 0 <= i < |found.sends| ==> found.sends[i] in w.Emits(child);
      }
    }
  }

  /** A worker that reports entry errors reports those of its own listing. */
  ghost predicate ReportsListing(w: World, k: Worker) {
    k.Reporting? ==> forall e :: e in k.errors ==> Error(k.item.path, ReadDir, Io(e)) in w.Emits(k.item.Where())
  }

  lemma ListReports(w: World, roots: seq<Path>, item: Item)
    requires Entered(w, roots, item)
    ensures ReportsListing(w, ListDir(w, item).next)
  {
    var e := ListDir(w, item);
    if e.next.Reporting? {
      var sends := w.EntryErrors(item.path, e.next.errors);
      assert w.Emits(item.Where()) == sends;
      forall error | error in e.next.errors ensures Error(item.path, ReadDir, Io(error)) in sends {
        var i :| 0 <= i < |e.next.errors| && e.next.errors[i] == error;
        assert sends[i] == Error(item.path, ReadDir, Io(error));
      }
    }
  }

  lemma OthersReportNothing(w: World, s: Shared, open: bool, k: Worker)
    requires Runnable(k) && !k.Expand? && !k.Reporting?
    ensures !EffectOf(w, s, open, k).next.Reporting?
  {
  }

  lemma SendsJustified(w: World, roots: seq<Path>, s: Shared, open: bool, k: Worker)
    requires Runnable(k) && WorkerOk(w, roots, k) && ReportsListing(w, k)
    ensures AllJustified(w, roots, EffectOf(w, s, open, k).sends)
  {
    match k {
      case Popped(item) => VisitJustified(w, roots, item);
      case Expand(item) => ListJustified(w, roots, item);
      case Scanning(item, rest, dirs) => ScanJustified(w, roots, item, rest, dirs);
      case _ =>
    }
  }

  lemma StepReports(w: World, roots: seq<Path>, s: Shared, open: bool, k: Worker)
    requires Runnable(k) && WorkerOk(w, roots, k) && ReportsListing(w, k)
    ensures ReportsListing(w, EffectOf(w, s, open, k).next)
  {
    if k.Expand? {
      ListReports(w, roots, k.item);
    } else if !k.Reporting? {
      OthersReportNothing(w, s, open, k);
    }
  }

  ghost predicate SendsOk(w: World, roots: seq<Path>, s: State) {
    && AllJustified(w, roots, s.sent)
    && (forall i :: 0 <= i < |s.workers| ==> ReportsListing(w, s.workers[i]))
  }

  lemma StepKeepsSends(w: World, roots: seq<Path>, s: State, l: Label)
    requires ItemsOk(w, roots, s) && SendsOk(w, roots, s)
    ensures SendsOk(w, roots, Step(w, s, l))
  {
    if Enabled(s, l) && l.Run? {
      var k := s.workers[l.i];
      assert WorkerOk(w, roots, k);
      SendsJustified(w, roots, s.shared, s.open, k);
      StepReports(w, roots, s.shared, s.open, k);
    }
  }

  lemma {:induction false} RunsKeepSends(w: World, roots: seq<Path>, n: nat, labels: seq<Label>)
    ensures SendsOk(w, roots, Exec(w, Init(roots, n), labels))
  {
    if labels != [] {
      var before := labels[..|labels| - 1];
      RunsKeepSends(w, roots, n, before);
      RunsKeepItems(w, roots, n, before);
      StepKeepsSends(w, roots, Exec(w, Init(roots, n), before), labels[|labels| - 1]);
    }
  }

  /** In every run, whatever arrives is what the specification sends for a path it walks; a file
      lies at most one level below the deepest directory that may be listed. */
  lemma NothingElseIsSent(w: World, roots: seq<Path>, n: nat, labels: seq<Label>, i: nat)
    requires i < |Exec(w, Init(roots, n), labels).sent|
    ensures var ev := Exec(w, Init(roots, n), labels).sent[i];
      && Justified(w, roots, ev)
      && (ev.item.File? ==> ev.item.path == ev.at.path)
      && (w.maxDepth.Some? ==> ev.at.Depth() <= w.maxDepth.value + 1)
  {
    RunsKeepSends(w, roots, n, labels);
    var ev := Exec(w, Init(roots, n), labels).sent[i];
    assert Justified(w, roots, ev);
    if w.maxDepth.Some? {
      w.WalkedDepth(roots, ev.at);
    }
  }
}

/**
 The termination protocol of the parallel engine: the active counter is exact, no wakeup is
 lost, nobody leaves early, and a run can always go on until every worker has left.
 These hold for every file system, symlink cycles and overlapping roots included.
 */
module ParallelProtocol {
  import opened Gitignore
  import opened WalkWorld
  import opened ParallelWalk
  import opened Bags

  /** 1 while a worker counts in `active`. */
  function Holding(k: Worker): nat {
    if k.Ready? || k.Asleep? || k.Left? then 0 else 1
  }

  predicate Idle(s: Shared) {
    s.queue == [] && s.active == 0
  }

  ghost predicate ProtocolOk(s: State) {
    // every popped item is counted, and nothing else
    && s.shared.active == SumNat(Holding, s.workers)
    // a worker sleeps only while somebody else may still bring work
    && (forall i :: 0 <= i < |s.workers| && s.workers[i].Asleep? ==> s.shared.queue == [] && s.shared.active > 0)
    // whoever left for want of work was right, and still is
    && (forall i :: 0 <= i < |s.workers| && s.workers[i] == Left(true) ==> Idle(s.shared))
  }

  /** All the protocol needs to know about the step of a worker that stands at `k`. */
  predicate Shape(s: Shared, k: Worker, e: Effect) {
    && e.active == Holding(e.next) - Holding(k)
    && (e.pop ==> s.queue != [] && k.Ready? && e.push == [])
    && (e.push != [] ==> e.wake)
    && (e.next.Asleep? ==> k.Ready? && s.queue == [] && s.active != 0 && e.push == [])
    && (e.next == Left(true) ==> k.Ready? && Idle(s) && e.push == [])
    && (e.active < 0 && s.active == 1 && s.queue == [] && e.push == [] ==> e.wake)
    && (k.Ready? ==> e.push == [] && (e.pop || (s.queue == [] && e.active == 0)))
  }

  lemma VisitShape(w: World, s: Shared, item: Item)
    ensures Shape(s, Popped(item), Visit(w, item))
  {
  }

  lemma ScanShape(w: World, s: Shared, item: Item, rest: seq<Name>, dirs: seq<Item>)
    ensures Shape(s, Scanning(item, rest, dirs), ScanNext(w, item, rest, dirs))
  {
  }

  lemma StepShape(w: World, s: Shared, open: bool, k: Worker)
    requires Runnable(k)
    ensures Shape(s, k, EffectOf(w, s, open, k))
  {
    match k {
      case Popped(item) => VisitShape(w, s, item);
      case Scanning(item, rest, dirs) => ScanShape(w, s, item, rest, dirs);
      case _ =>
    }
  }

  lemma RunIsApply(w: World, s: State, i: nat)
    requires Enabled(s, Run(i))
    ensures var e := EffectOf(w, s.shared, s.open, s.workers[i]);
      (e.pop ==> s.shared.queue != []) && Step(w, s, Run(i)) == Apply(s, i, e)
  {
    StepShape(w, s.shared, s.open, s.workers[i]);
  }

  /** A sum that cannot tell sleeping from ready follows a step of one worker. */
  lemma SumAfter(f: Worker -> nat, s: State, i: nat, e: Effect)
    requires i < |s.workers| && (e.pop ==> s.shared.queue != [])
    requires f(Asleep) == f(Ready)
    ensures SumNat(f, Apply(s, i, e).workers) + f(s.workers[i]) == SumNat(f, s.workers) + f(e.next)
  {
    var ws := if e.wake then WakeAll(s.workers) else s.workers;
    SumNatAlike(f, s.workers, ws);
    SumNatUpdate(f, ws, i, e.next);
  }

  lemma InitProtocol(roots: seq<Path>, n: nat)
    ensures ProtocolOk(Init(roots, n))
  {
    SumNatZero(Holding, Init(roots, n).workers);
  }

  lemma StepKeepsProtocol(w: World, s: State, l: Label)
    requires ProtocolOk(s)
    ensures ProtocolOk(Step(w, s, l))
  {
    if Enabled(s, l) {
      match l {
        case Run(i) =>
          var e := EffectOf(w, s.shared, s.open, s.workers[i]);
          StepShape(w, s.shared, s.open, s.workers[i]);
          ApplyKeepsProtocol(s, i, e);
        case Wake(i) =>
          SumNatUpdate(Holding, s.workers, i, Ready);
        case CloseChannel =>
      }
    }
  }

  lemma ApplyKeepsProtocol(s: State, i: nat, e: Effect)
    requires ProtocolOk(s) && i < |s.workers| && Runnable(s.workers[i])
    requires Shape(s.shared, s.workers[i], e)
    ensures ProtocolOk(Apply(s, i, e))
  {
    SumAfter(Holding, s, i, e);
    SumNatPart(Holding, s.workers, i);
    var s' := Apply(s, i, e);
    forall j | 0 <= j < |s'.workers| && j != i
      ensures s'.workers[j].Asleep? ==> s'.shared.queue == [] && s'.shared.active > 0
      ensures s'.workers[j] == Left(true) ==> Idle(s'.shared)
    {
    }
  }

  /** Every state of every run, under every schedule, keeps the protocol. */
  lemma {:induction false} RunsKeepProtocol(w: World, roots: seq<Path>, n: nat, labels: seq<Label>)
    ensures ProtocolOk(Exec(w, Init(roots, n), labels))
  {
    if labels == [] {
      InitProtocol(roots, n);
    } else {
      RunsKeepProtocol(w, roots, n, labels[..|labels| - 1]);
      StepKeepsProtocol(w, Exec(w, Init(roots, n), labels[..|labels| - 1]), labels[|labels| - 1]);
    }
  }

  /** The counter never goes below zero: whoever is about to decrement it is counted in it. */
  lemma ActiveNeverUnderflows(w: World, roots: seq<Path>, n: nat, labels: seq<Label>, i: nat)
    requires var s := Exec(w, Init(roots, n), labels);
      i < |s.workers| && Runnable(s.workers[i]) && EffectOf(w, s.shared, s.open, s.workers[i]).active < 0
    ensures Exec(w, Init(roots, n), labels).shared.active >= 1
  {
    var s := Exec(w, Init(roots, n), labels);
    RunsKeepProtocol(w, roots, n, labels);
    SumNatPart(Holding, s.workers, i);
    StepShape(w, s.shared, s.open, s.workers[i]);
  }

  /** No lost wakeup and no deadlock: unless all workers have left, some worker can run. */
  lemma NeverStuck(w: World, roots: seq<Path>, n: nat, labels: seq<Label>)
    ensures var s := Exec(w, Init(roots, n), labels);
      AllLeft(s) || exists i: nat :: Enabled(s, Run(i))
  {
    var s := Exec(w, Init(roots, n), labels);
    RunsKeepProtocol(w, roots, n, labels);
    if !AllLeft(s) {
      var j :| 0 <= j < |s.workers| && !s.workers[j].Left?;
      if s.workers[j].Asleep? {
        var i := SumNatWitness(Holding, s.workers);
        assert Enabled(s, Run(i));
      } else {
        assert Enabled(s, Run(j));
      }
    }
  }
}

/**
 Every run ends: a natural number attached to the state falls with every step except a
 spurious wakeup, which raises it by one. So a run takes at most a fixed number of steps
 plus one for each spurious wakeup, on every finite file system, symlink cycles included.
 */
module ParallelTermination {
  import opened Prelude
  import opened Gitignore
  import opened WalkWorld
  import opened ParallelWalk
  import opened ParallelProtocol
  import opened ParallelItems
  import opened Bags

  const ITEM: nat := 5
  const CHILD: nat := 8

  /** The work a worker may still do on what it already holds. */
  function WorkOf(fanout: nat, k: Worker): nat {
    match k
    case Left(_) => 0
    case Ready => 1
    case Asleep => 1
    case Finishing(_) => 2
    case SendRoot(_, _) => 3
    case TestRoot(_, _) => 4
    case TestDir(_, _) => 4
    case Popped(_) => ITEM
    case SendChild(_, rest, dirs, _) => 4 + CHILD * |rest| + ITEM * |dirs|
    case TestChild(_, rest, dirs, _) => 2 + CHILD * |rest| + ITEM * |dirs|
    case Scanning(_, rest, dirs) => 3 + CHILD * |rest| + ITEM * |dirs|
    case Reporting(_, names, errors) => 4 + |errors| + CHILD * |names|
    case Expand(_) => 5 + CHILD * fanout
  }

  function Works(fanout: nat): Worker -> nat {
    (k: Worker) => WorkOf(fanout, k)
  }

  function AwakeOf(k: Worker): nat {
    if k.Ready? then 1 else 0
  }

  /** What claiming one more directory can cost. */
  function ClaimCost(w: World): nat {
    CHILD * w.fanout + 2
  }

  function Work(w: World, s: State): nat {
    ClaimCost(w) * |w.ids - s.shared.visitedDirs| + ITEM * |s.shared.queue|
    + SumNat(Works(w.fanout), s.workers) + if s.open then 1 else 0
  }

  function Potential(w: World, s: State): nat {
    (|s.workers| + 1) * Work(w, s) + SumNat(AwakeOf, s.workers)
  }

  /** The effect of a step on the work: it is less, or the worker just goes to sleep. */
  predicate Consumes(w: World, s: Shared, k: Worker, e: Effect) {
    var before := WorkOf(w.fanout, k) + (if e.pop then ITEM else 0) + (if e.dir.Some? then ClaimCost(w) else 0);
    var after := WorkOf(w.fanout, e.next) + ITEM * |e.push|;
    after < before || (after == before && k.Ready? && e.next.Asleep? && !e.wake)
  }

  lemma VisitConsumes(w: World, s: Shared, item: Item)
    ensures Consumes(w, s, Popped(item), Visit(w, item))
  {
  }

  lemma ScanConsumes(w: World, s: Shared, item: Item, rest: seq<Name>, dirs: seq<Item>)
    ensures Consumes(w, s, Scanning(item, rest, dirs), ScanNext(w, item, rest, dirs))
  {
    if rest != [] {
      ScanChildConsumes(w, s, item, rest, dirs, w.Scan(item.root, item.Where().Child(rest[0]).path));
    }
  }

  lemma ScanChildConsumes(w: World, s: Shared, item: Item, rest: seq<Name>, dirs: seq<Item>, found: Scanned)
    requires rest != []
    ensures Consumes(w, s, Scanning(item, rest, dirs), ScanChild(item, rest, dirs, found))
  {
  }

  lemma ClaimConsumes(w: World, s: Shared, open: bool, k: Worker)
    requires k.TestDir? || k.TestRoot? || (k.TestChild? && k.rest != [])
    ensures Consumes(w, s, k, EffectOf(w, s, open, k))
  {
    match k {
      case TestDir(item, id) => assert Consumes(w, s, k, ClaimDir(s, item, id));
      case TestRoot(item, file) => assert Consumes(w, s, k, ClaimRoot(s, item, file));
      case TestChild(item, rest, dirs, file) => assert Consumes(w, s, k, ClaimChild(s, item, rest, dirs, file));
    }
  }

  lemma ListConsumes(w: World, s: Shared, item: Item)
    requires w.Finite()
    ensures Consumes(w, s, Expand(item), ListDir(w, item))
  {
    if w.list(item.path).Listed? {
      var names, errors := w.list(item.path).names, w.list(item.path).entryErrors;
      assert |names| + |errors| <= w.fanout;
    }
  }

  lemma StepConsumes(w: World, roots: seq<Path>, s: Shared, open: bool, k: Worker)
    requires w.Finite() && Runnable(k) && (k.TestChild? ==> k.rest != [])
    ensures Consumes(w, s, k, EffectOf(w, s, open, k))
  {
    match k {
      case Popped(item) => VisitConsumes(w, s, item);
      case Scanning(item, rest, dirs) => ScanConsumes(w, s, item, rest, dirs);
      case Expand(item) => ListConsumes(w, s, item);
      case _ =>
        if k.TestDir? || k.TestRoot? || k.TestChild? {
          ClaimConsumes(w, s, open, k);
        }
    }
  }

  lemma UnvisitedShrinks(ids: set<DirId>, visited: set<DirId>, id: DirId)
    requires id in ids && id !in visited
    ensures |ids - (visited + {id})| + 1 == |ids - visited|
  {
    assert ids - (visited + {id}) == (ids - visited) - {id};
  }

  lemma MulMonotone(a: nat, x: nat, y: nat)
    requires x <= y
    ensures a * x <= a * y
  {
  }

  /** What is left to do after carrying out an effect. */
  lemma WorkAfter(w: World, s: State, i: nat, e: Effect)
    requires i < |s.workers| && (e.pop ==> s.shared.queue != [])
    requires e.dir.Some? ==> e.dir.value in w.ids && e.dir.value !in s.shared.visitedDirs
    ensures Work(w, Apply(s, i, e)) + WorkOf(w.fanout, s.workers[i]) + (if e.pop then ITEM else 0)
              + (if e.dir.Some? then ClaimCost(w) else 0)
         == Work(w, s) + WorkOf(w.fanout, e.next) + ITEM * |e.push|
  {
    SumAfter(Works(w.fanout), s, i, e);
    if e.dir.Some? {
      UnvisitedShrinks(w.ids, s.shared.visitedDirs, e.dir.value);
      var c, n := ClaimCost(w), |w.ids - (s.shared.visitedDirs + {e.dir.value})|;
      assert c * (n + 1) == c * n + c;
    }
  }

  lemma ClaimsKnownIds(w: World, roots: seq<Path>, s: Shared, open: bool, k: Worker)
    requires w.Finite() && Runnable(k) && WorkerOk(w, roots, k)
    ensures var e := EffectOf(w, s, open, k);
      e.dir.Some? ==> e.dir.value in w.ids && e.dir.value !in s.visitedDirs
  {
    if !k.TestDir? {
      OthersClaimNothing(w, s, open, k);
    }
  }

  lemma OthersClaimNothing(w: World, s: Shared, open: bool, k: Worker)
    requires Runnable(k) && !k.TestDir?
    ensures EffectOf(w, s, open, k).dir.None?
  {
  }

  lemma ApplyLowersPotential(w: World, s: State, i: nat, e: Effect)
    requires i < |s.workers| && (e.pop ==> s.shared.queue != [])
    requires e.dir.Some? ==> e.dir.value in w.ids && e.dir.value !in s.shared.visitedDirs
    requires Consumes(w, s.shared, s.workers[i], e)
    ensures Potential(w, Apply(s, i, e)) < Potential(w, s)
  {
    var s' := Apply(s, i, e);
    WorkAfter(w, s, i, e);
    if Work(w, s') < Work(w, s) {
      SumNatBound(AwakeOf, s'.workers, 1);
      WeighedLess(|s.workers|, Work(w, s'), Work(w, s), SumNat(AwakeOf, s'.workers), SumNat(AwakeOf, s.workers));
    } else {
      SumNatUpdate(AwakeOf, s.workers, i, e.next);
    }
  }

  lemma WeighedLess(n: nat, x: nat, y: nat, a: nat, b: nat)
    requires x < y && a <= n
    ensures (n + 1) * x + a < (n + 1) * y + b
  {
    MulMonotone(n + 1, x + 1, y);
    assert (n + 1) * (x + 1) == (n + 1) * x + (n + 1);
  }

  lemma RunLowersPotential(w: World, roots: seq<Path>, s: State, i: nat)
    requires w.Finite() && ItemsOk(w, roots, s) && Enabled(s, Run(i))
    ensures Potential(w, Step(w, s, Run(i))) < Potential(w, s)
  {
    var k := s.workers[i];
    assert WorkerOk(w, roots, k);
    StepConsumes(w, roots, s.shared, s.open, k);
    ClaimsKnownIds(w, roots, s.shared, s.open, k);
    RunIsApply(w, s, i);
    ApplyLowersPotential(w, s, i, EffectOf(w, s.shared, s.open, k));
  }

  lemma CloseLowersPotential(w: World, s: State)
    requires s.open
    ensures Potential(w, s.(open := false)) < Potential(w, s)
  {
    SumNatBound(AwakeOf, s.workers, 1);
    WeighedLess(|s.workers|, Work(w, s.(open := false)), Work(w, s), SumNat(AwakeOf, s.workers),
                SumNat(AwakeOf, s.workers));
  }

  /** Every step but a spurious wakeup lowers the potential; a wakeup raises it by one. */
  lemma StepLowersPotential(w: World, roots: seq<Path>, s: State, l: Label)
    requires w.Finite() && ItemsOk(w, roots, s) && Enabled(s, l)
    ensures if l.Wake? then Potential(w, Step(w, s, l)) == Potential(w, s) + 1
            else Potential(w, Step(w, s, l)) < Potential(w, s)
  {
    match l {
      case Run(i) => RunLowersPotential(w, roots, s, i);
      case Wake(i) =>
        SumNatUpdate(Works(w.fanout), s.workers, i, Ready);
        SumNatUpdate(AwakeOf, s.workers, i, Ready);
      case CloseChannel => CloseLowersPotential(w, s);
    }
  }

  // ---------------------------------------------------------------- whole runs

  /** How many labels of a schedule took effect, not counting spurious wakeups. */
  function Steps(w: World, s: State, labels: seq<Label>): nat {
    if labels == [] then
      0
    else
      var before, l := labels[..|labels| - 1], labels[|labels| - 1];
      Steps(w, s, before) + if Enabled(Exec(w, s, before), l) && !l.Wake? then 1 else 0
  }

  function SpuriousWakeups(w: World, s: State, labels: seq<Label>): nat {
    if labels == [] then
      0
    else
      var before, l := labels[..|labels| - 1], labels[|labels| - 1];
      SpuriousWakeups(w, s, before) + if Enabled(Exec(w, s, before), l) && l.Wake? then 1 else 0
  }

  function Bound(w: World, roots: seq<Path>, n: nat): nat {
    (n + 1) * (ClaimCost(w) * |w.ids| + ITEM * |roots| + n + 1) + n
  }

  lemma InitialPotential(w: World, roots: seq<Path>, n: nat)
    ensures Potential(w, Init(roots, n)) <= Bound(w, roots, n)
  {
    var s := Init(roots, n);
    SumNatBound(Works(w.fanout), s.workers, 1);
    SumNatBound(AwakeOf, s.workers, 1);
    assert w.ids - {} == w.ids;
    MulMonotone(n + 1, Work(w, s), ClaimCost(w) * |w.ids| + ITEM * |roots| + n + 1);
  }

  lemma {:induction false} RunConsumesPotential(w: World, roots: seq<Path>, n: nat, labels: seq<Label>)
    requires w.Finite()
    ensures var s0 := Init(roots, n);
      Steps(w, s0, labels) + Potential(w, Exec(w, s0, labels)) <= Potential(w, s0) + SpuriousWakeups(w, s0, labels)
  {
    if labels != [] {
      var before, l := labels[..|labels| - 1], labels[|labels| - 1];
      var s := Exec(w, Init(roots, n), before);
      RunConsumesPotential(w, roots, n, before);
      RunsKeepItems(w, roots, n, before);
      if Enabled(s, l) {
        StepLowersPotential(w, roots, s, l);
      }
    }
  }

  /** A run of `n` workers makes at most `Bound` steps, and one more per spurious wakeup. */
  lemma RunsAreBounded(w: World, roots: seq<Path>, n: nat, labels: seq<Label>)
    requires w.Finite()
    ensures Steps(w, Init(roots, n), labels) <= Bound(w, roots, n) + SpuriousWakeups(w, Init(roots, n), labels)
  {
    RunConsumesPotential(w, roots, n, labels);
    InitialPotential(w, roots, n);
  }

  lemma {:induction false} ExecMore(w: World, s: State, a: seq<Label>, b: seq<Label>)
    ensures Exec(w, s, a + b) == Exec(w, Exec(w, s, a), b)
  {
    if b == [] {
      assert a + b == a;
    } else {
      var init := b[..|b| - 1];
      ExecMore(w, s, a, init);
      assert (a + b)[..|a + b| - 1] == a + init;
    }
  }

  /** While somebody has not left, somebody can run, and there is less to do after it. */
  lemma SomeoneMoves(w: World, roots: seq<Path>, n: nat, s: State) returns (i: nat)
    requires w.Finite() && IsRun(w, roots, n, s) && !AllLeft(s)
    ensures Enabled(s, Run(i)) && Potential(w, Step(w, s, Run(i))) < Potential(w, s)
    ensures Step(w, s, Run(i)).open == s.open
  {
    var labels :| s == Exec(w, Init(roots, n), labels);
    NeverStuck(w, roots, n, labels);
    i :| Enabled(s, Run(i));
    RunsKeepItems(w, roots, n, labels);
    RunLowersPotential(w, roots, s, i);
    RunIsApply(w, s, i);
  }

  lemma {:induction false} CanFinish(w: World, roots: seq<Path>, n: nat, s: State) returns (more: seq<Label>)
    requires w.Finite() && IsRun(w, roots, n, s)
    ensures AllLeft(Exec(w, s, more)) && Exec(w, s, more).open == s.open
    decreases Potential(w, s)
  {
    more := [];
    if !AllLeft(s) {
      var i := SomeoneMoves(w, roots, n, s);
      RunGoesOn(w, roots, n, s, Run(i));
      var rest := CanFinish(w, roots, n, Step(w, s, Run(i)));
      assert Exec(w, s, [Run(i)]) == Step(w, s, Run(i)) by { assert [Run(i)][..0] == []; }
      ExecMore(w, s, [Run(i)], rest);
      more := [Run(i)] + rest;
    }
  }

  /** From every reachable state all workers can still get out, without the receiver going
      away. `RunsAreBounded` adds that no schedule can put this off for ever. */
  lemma EveryRunCanFinish(w: World, roots: seq<Path>, n: nat, labels: seq<Label>)
    returns (more: seq<Label>)
    requires w.Finite()
    ensures AllLeft(Exec(w, Init(roots, n), labels + more))
    ensures Exec(w, Init(roots, n), labels + more).open == Exec(w, Init(roots, n), labels).open
  {
    more := CanFinish(w, roots, n, Exec(w, Init(roots, n), labels));
    ExecMore(w, Init(roots, n), labels, more);
  }
}

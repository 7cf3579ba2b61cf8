/** How many steps a cached walk can make: each lookup costs a bounded number of them. */
module CachedWalkBound {
  import opened Prelude
  import opened Gitignore
  import opened WalkWorld
  import opened ParallelWalk
  import opened ParallelItems
  import opened ParallelTermination
  import opened CachedWalk
  import opened CachedWalkProgress
  import opened SimplePaths
  import C = CacheInterleaving

  // ---------------------------------------------------------------- what a lookup costs

  function LongestRoot(roots: seq<Path>): nat {
    if roots == [] then 0
    else
      var rest := LongestRoot(roots[1..]);
      if |roots[0]| > rest then |roots[0]| else rest
  }

  lemma {:induction false} RootIsNoLonger(roots: seq<Path>, r: Path)
    requires r in roots
    ensures |r| <= LongestRoot(roots)
  {
    if r != roots[0] {
      RootIsNoLonger(roots[1..], r);
    }
  }

  /** The steps of one lookup, its begin included: two for each directory on the longest path a
      walk can meet, and a few more. */
  function LookupCost(w: World, roots: seq<Path>): nat {
    2 * (LongestRoot(roots) + |w.ids| + 2) + 5
  }

  lemma NeededIsShort(w: World, rules: Rules, roots: seq<Path>, n: nat, s: State, i: nat)
    requires Lawful(w, rules, roots) && IsRun(w, roots, n, s) && i < |s.workers| && Needs(w, s.workers[i]).Some?
    ensures var q := Needs(w, s.workers[i]).value; C.Rank(C.Job(q.root, q.terminal, C.Fetch)) < LookupCost(w, roots)
  {
    var y := Subject(s.workers[i]);
    RunIsOk(w, rules, roots, n, s);
    NeedsMeans(w, roots, s, i);
    var labels :| s == Exec(w, Init(roots, n), labels);
    RunsKeepClaims(w, roots, n, labels);
    KnownIsSimple(w, roots, s, y);
    SimpleIsShort(w, roots, y);
    RootIsNoLonger(roots, y.root);
  }

  // ---------------------------------------------------------------- what is left of the lookups

  /** The steps worker `i` still has to make for the lookup it is busy with or about to begin. */
  function Effort(w: World, cost: nat, s: Whole, i: nat): nat
    requires i < |s.ties| == |s.walk.workers|
  {
    match s.ties[i]
    case Some(j) => if j < |s.look.jobs| then C.Rank(s.look.jobs[j]) else 0
    case None => if Needs(w, s.walk.workers[i]).Some? then cost else 0
  }

  function Efforts(w: World, cost: nat, s: Whole, n: nat): nat
    requires n <= |s.ties| == |s.walk.workers|
  {
    if n == 0 then 0 else Efforts(w, cost, s, n - 1) + Effort(w, cost, s, n - 1)
  }

  /** Nobody but worker `i` has more to do for its lookup. */
  predicate OthersNoWorse(w: World, cost: nat, s: Whole, t: Whole, i: nat) {
    && |s.ties| == |s.walk.workers| == |t.ties| == |t.walk.workers|
    && forall j :: 0 <= j < |s.ties| && j != i ==> Effort(w, cost, t, j) <= Effort(w, cost, s, j)
  }

  lemma {:induction false} EffortsChange(w: World, cost: nat, s: Whole, t: Whole, i: nat, n: nat)
    requires OthersNoWorse(w, cost, s, t, i) && i < |s.ties| && n <= |s.ties|
    ensures if n <= i then Efforts(w, cost, t, n) <= Efforts(w, cost, s, n)
            else Efforts(w, cost, t, n) + Effort(w, cost, s, i) <= Efforts(w, cost, s, n) + Effort(w, cost, t, i)
  {
    if n > 0 {
      EffortsChange(w, cost, s, t, i, n - 1);
    }
  }

  /** What is left to do: the work of the walk, with room for a lookup at every step, and what the
      lookups under way still take. */
  function Remaining(w: World, cost: nat, s: Whole): nat
    requires |s.ties| == |s.walk.workers|
  {
    (cost + 1) * Potential(w, s.walk) + Efforts(w, cost, s, |s.ties|)
  }

  lemma WeighedDown(cost: nat, p': nat, p: nat, e': nat, e: nat)
    requires p' < p && e' <= e + cost
    ensures (cost + 1) * p' + e' < (cost + 1) * p + e
  {
    MulMonotone(cost + 1, p' + 1, p);
  }

  /** A step of the walk makes up for the lookup its worker may need next. */
  lemma WalkStepPays(w: World, cost: nat, s: Whole, t: Whole, i: nat)
    requires OthersNoWorse(w, cost, s, t, i) && i < |s.ties| && t.ties[i].None?
    requires Potential(w, t.walk) < Potential(w, s.walk)
    ensures Remaining(w, cost, t) < Remaining(w, cost, s)
  {
    EffortsChange(w, cost, s, t, i, |s.ties|);
    assert Effort(w, cost, t, i) <= cost;
    WeighedDown(cost, Potential(w, t.walk), Potential(w, s.walk), Efforts(w, cost, t, |t.ties|),
                Efforts(w, cost, s, |s.ties|));
  }

  /** A step of a lookup leaves the walk alone and gets it closer to its end. */
  lemma LookupStepPays(w: World, cost: nat, s: Whole, t: Whole, i: nat)
    requires OthersNoWorse(w, cost, s, t, i) && i < |s.ties| && t.walk == s.walk
    requires Effort(w, cost, t, i) < Effort(w, cost, s, i)
    ensures Remaining(w, cost, t) < Remaining(w, cost, s)
  {
    EffortsChange(w, cost, s, t, i, |s.ties|);
  }

  // ---------------------------------------------------------------- one step

  lemma WalkStepOthers(w: World, cost: nat, s: Whole, l: Label, t: Whole, i: nat)
    requires |s.ties| == |s.walk.workers| && TiesOk(w, s)
    requires t.walk == Step(w, s.walk, l) && t.look == s.look && |t.ties| == |s.ties|
    requires forall j :: 0 <= j < |s.ties| && j != i ==> t.ties[j] == s.ties[j]
    requires l.Run? ==> l.i == i
    requires l.Wake? ==> l.i == i
    ensures OthersNoWorse(w, cost, s, t, i)
  {
    forall j | 0 <= j < |s.ties| && j != i ensures Effort(w, cost, t, j) <= Effort(w, cost, s, j) {
      if Needs(w, s.walk.workers[j]).Some? {
        OthersStay(w, s.walk, l, j);
      } else {
        OthersStayIdle(w, s.walk, l, j);
      }
    }
  }

  lemma OthersStayIdle(w: World, s: State, l: Label, j: nat)
    requires j < |s.workers| && l != Run(j) && Needs(w, s.workers[j]).None?
    ensures |Step(w, s, l).workers| == |s.workers| && Needs(w, Step(w, s, l).workers[j]).None?
  {
  }

  /** Two states with the same lookups, in which the same workers need one. */
  lemma {:induction false} SameEfforts(w: World, cost: nat, s: Whole, t: Whole, n: nat)
    requires |s.ties| == |s.walk.workers| == |t.ties| == |t.walk.workers| && n <= |s.ties|
    requires t.look == s.look && t.ties == s.ties
    requires forall j :: 0 <= j < |s.ties| ==> Needs(w, t.walk.workers[j]) == Needs(w, s.walk.workers[j])
    ensures Efforts(w, cost, t, n) == Efforts(w, cost, s, n)
  {
    if n > 0 {
      SameEfforts(w, cost, s, t, n - 1);
    }
  }

  /** What a lookup takes from its first step on is less than what was set aside for it. */
  lemma BegunIsCloser(w: World, rules: Rules, roots: seq<Path>, n: nat, cost: nat, s: Whole, i: nat)
    requires Lawful(w, rules, roots) && IsRun(w, roots, n, s.walk) && cost >= LookupCost(w, roots)
    requires i < |s.ties| == |s.walk.workers| && s.ties[i].None? && Needs(w, s.walk.workers[i]).Some?
    ensures var t := RunWorker(w, rules, s, i);
      |t.ties| == |s.ties| && t.walk == s.walk && Effort(w, cost, t, i) < Effort(w, cost, s, i)
  {
    NeededIsShort(w, rules, roots, n, s.walk, i);
  }

  lemma BegunOthers(w: World, rules: Rules, cost: nat, s: Whole, i: nat)
    requires LooksOk(w, rules, s) && TiesOk(w, s) && i < |s.ties| == |s.walk.workers|
    requires s.ties[i].None? && Needs(w, s.walk.workers[i]).Some?
    ensures OthersNoWorse(w, cost, s, RunWorker(w, rules, s, i), i)
  {
    var t := RunWorker(w, rules, s, i);
    forall j | 0 <= j < |s.ties| && j != i
      ensures Effort(w, cost, t, j) <= Effort(w, cost, s, j)
    {
      assert TieOk(w, s, j);
    }
  }

  lemma BeginPays(w: World, rules: Rules, roots: seq<Path>, n: nat, cost: nat, s: Whole, i: nat)
    requires Lawful(w, rules, roots) && WholeOk(w, rules, roots, n, s) && i < |s.ties|
    requires cost >= LookupCost(w, roots)
    requires s.ties[i].None? && Needs(w, s.walk.workers[i]).Some?
    ensures Remaining(w, cost, RunWorker(w, rules, s, i)) < Remaining(w, cost, s)
  {
    BegunIsCloser(w, rules, roots, n, cost, s, i);
    BegunOthers(w, rules, cost, s, i);
    LookupStepPays(w, cost, s, RunWorker(w, rules, s, i), i);
  }

  lemma AdvancePays(w: World, rules: Rules, cost: nat, s: Whole, i: nat)
    requires LooksOk(w, rules, s) && i < |s.ties| && TieOk(w, s, i) && s.ties[i].Some?
    requires !s.look.jobs[s.ties[i].value].stage.Answered?
    ensures Remaining(w, cost, s.(look := C.Step(rules, s.look, C.Advance(s.ties[i].value)))) < Remaining(w, cost, s)
  {
    var k := s.ties[i].value;
    var t := s.(look := C.Step(rules, s.look, C.Advance(k)));
    AdvanceIsCloser(rules, s.look, k);
    forall j | 0 <= j < |s.ties| && j != i ensures Effort(w, cost, t, j) <= Effort(w, cost, s, j) {
      assert TieOk(w, s, j);
    }
    LookupStepPays(w, cost, s, t, i);
  }

  /** A worker that acts, on an answer or without a lookup, makes a step of the walk. */
  lemma ActionPays(w: World, rules: Rules, roots: seq<Path>, n: nat, cost: nat, s: Whole, i: nat)
    requires Lawful(w, rules, roots) && WholeOk(w, rules, roots, n, s) && Enabled(s.walk, Run(i)) && TieOk(w, s, i)
    requires Needs(w, s.walk.workers[i]).None?
      || (s.ties[i].Some? && s.look.jobs[s.ties[i].value].stage.Answered?)
    ensures Remaining(w, cost, WholeStep(w, rules, s, Run(i))) < Remaining(w, cost, s)
  {
    var t := WholeStep(w, rules, s, Run(i));
    if Needs(w, s.walk.workers[i]).Some? {
      AnswerStays(w, rules, s, i);
    }
    StepStaysOk(w, rules, roots, n, s, Run(i));
    WalkStepOthers(w, cost, s, Run(i), t, i);
    var labels :| s.walk == Exec(w, Init(roots, n), labels);
    RunsKeepItems(w, roots, n, labels);
    RunLowersPotential(w, roots, s.walk, i);
    WalkStepPays(w, cost, s, t, i);
  }

  lemma ClosePays(w: World, rules: Rules, cost: nat, s: Whole)
    requires |s.ties| == |s.walk.workers| && s.walk.open
    ensures Remaining(w, cost, WholeStep(w, rules, s, CloseChannel)) < Remaining(w, cost, s)
  {
    var t := WholeStep(w, rules, s, CloseChannel);
    CloseLowersPotential(w, s.walk);
    SameEfforts(w, cost, s, t, |s.ties|);
    WeighedDown(cost, Potential(w, t.walk), Potential(w, s.walk), Efforts(w, cost, t, |t.ties|),
                Efforts(w, cost, s, |s.ties|));
  }

  lemma WakeRaises(w: World, roots: seq<Path>, n: nat, s: State, i: nat)
    requires w.Finite() && IsRun(w, roots, n, s) && Enabled(s, Wake(i))
    ensures Potential(w, Step(w, s, Wake(i))) == Potential(w, s) + 1
  {
    var labels :| s == Exec(w, Init(roots, n), labels);
    RunsKeepItems(w, roots, n, labels);
    StepLowersPotential(w, roots, s, Wake(i));
  }

  lemma WakeLeavesEfforts(w: World, rules: Rules, cost: nat, s: Whole, i: nat)
    requires |s.ties| == |s.walk.workers| && Enabled(s.walk, Wake(i))
    ensures var t := WholeStep(w, rules, s, Wake(i));
      && |t.ties| == |t.walk.workers| == |s.ties| && t.walk == Step(w, s.walk, Wake(i))
      && Efforts(w, cost, t, |t.ties|) == Efforts(w, cost, s, |s.ties|)
  {
    SameEfforts(w, cost, s, WholeStep(w, rules, s, Wake(i)), |s.ties|);
  }

  lemma RemainingRaised(w: World, cost: nat, s: Whole, t: Whole)
    requires |s.ties| == |s.walk.workers| == |t.ties| == |t.walk.workers|
    requires Potential(w, t.walk) == Potential(w, s.walk) + 1
    requires Efforts(w, cost, t, |t.ties|) == Efforts(w, cost, s, |s.ties|)
    ensures Remaining(w, cost, t) == Remaining(w, cost, s) + cost + 1
  {
    OneMore(cost + 1, Potential(w, s.walk));
  }

  lemma WakeCosts(w: World, rules: Rules, roots: seq<Path>, n: nat, cost: nat, s: Whole, i: nat)
    requires w.Finite() && IsRun(w, roots, n, s.walk) && |s.ties| == |s.walk.workers| && Enabled(s.walk, Wake(i))
    ensures |WholeStep(w, rules, s, Wake(i)).ties| == |WholeStep(w, rules, s, Wake(i)).walk.workers|
    ensures Remaining(w, cost, WholeStep(w, rules, s, Wake(i))) == Remaining(w, cost, s) + cost + 1
  {
    WakeRaises(w, roots, n, s.walk, i);
    WakeLeavesEfforts(w, rules, cost, s, i);
    RemainingRaised(w, cost, s, WholeStep(w, rules, s, Wake(i)));
  }

  lemma OneMore(c: nat, p: nat)
    ensures c * (p + 1) == c * p + c
  {
  }

  /** Every step of walk and lookups but a spurious wakeup lowers what remains to be done. */
  lemma StepLowersRemaining(w: World, rules: Rules, roots: seq<Path>, n: nat, cost: nat, s: Whole, l: Label)
    requires Lawful(w, rules, roots) && WholeOk(w, rules, roots, n, s) && Enabled(s.walk, l)
      && cost >= LookupCost(w, roots)
    ensures |WholeStep(w, rules, s, l).ties| == |WholeStep(w, rules, s, l).walk.workers|
    ensures var t := WholeStep(w, rules, s, l);
      if l.Wake? then Remaining(w, cost, t) == Remaining(w, cost, s) + cost + 1
      else Remaining(w, cost, t) < Remaining(w, cost, s)
  {
    StepStaysOk(w, rules, roots, n, s, l);
    match l {
      case Run(i) =>
        assert TieOk(w, s, i);
        if Needs(w, s.walk.workers[i]).Some? && s.ties[i].None? {
          BeginPays(w, rules, roots, n, cost, s, i);
        } else if Needs(w, s.walk.workers[i]).Some? && !s.look.jobs[s.ties[i].value].stage.Answered? {
          AdvancePays(w, rules, cost, s, i);
        } else {
          ActionPays(w, rules, roots, n, cost, s, i);
        }
      case Wake(i) => WakeCosts(w, rules, roots, n, cost, s, i);
      case CloseChannel => ClosePays(w, rules, cost, s);
    }
  }

  // ---------------------------------------------------------------- every run

  /** How many of the labels are steps, and how many are spurious wakeups. */
  ghost function WholeSteps(w: World, rules: Rules, s: Whole, labels: seq<Label>): nat {
    if labels == [] then 0
    else
      var before, l := labels[..|labels| - 1], labels[|labels| - 1];
      WholeSteps(w, rules, s, before) + if Enabled(WholeExec(w, rules, s, before).walk, l) && !l.Wake? then 1 else 0
  }

  ghost function WholeWakeups(w: World, rules: Rules, s: Whole, labels: seq<Label>): nat {
    if labels == [] then 0
    else
      var before, l := labels[..|labels| - 1], labels[|labels| - 1];
      WholeWakeups(w, rules, s, before) + if Enabled(WholeExec(w, rules, s, before).walk, l) && l.Wake? then 1 else 0
  }

  /** The steps made and what remains are paid for by what there was at first and the wakeups. */
  predicate PaidFor(c: nat, steps: nat, remaining: nat, first: nat, wakeups: nat) {
    steps + remaining <= first + c * wakeups
  }

  lemma PaidForMore(c: nat, steps: nat, remaining: nat, first: nat, wakeups: nat, next: nat)
    requires PaidFor(c, steps, remaining, first, wakeups)
    ensures next < remaining ==> PaidFor(c, steps + 1, next, first, wakeups)
    ensures next == remaining + c ==> PaidFor(c, steps, next, first, wakeups + 1)
  {
    OneMore(c, wakeups);
  }

  lemma NotEnabledStays(w: World, rules: Rules, s: Whole, l: Label)
    requires !Enabled(s.walk, l)
    ensures WholeStep(w, rules, s, l) == s
  {
  }

  /** A number read off a state; every step but a wakeup lowers it, and a wakeup raises it by `c`. */
  type Measure = Whole -> nat

  ghost predicate Lowers(w: World, rules: Rules, m: Measure, c: nat, s: Whole, l: Label) {
    Enabled(s.walk, l) ==>
      if l.Wake? then m(WholeStep(w, rules, s, l)) == m(s) + c else m(WholeStep(w, rules, s, l)) < m(s)
  }

  ghost predicate AlwaysLowers(w: World, rules: Rules, roots: seq<Path>, n: nat, m: Measure, c: nat) {
    forall s, l {:trigger Lowers(w, rules, m, c, s, l)} :: WholeOk(w, rules, roots, n, s) ==>
      Lowers(w, rules, m, c, s, l)
  }

  lemma {:induction false} RunIsPaid(w: World, rules: Rules, roots: seq<Path>, n: nat, labels: seq<Label>, m: Measure,
                                     c: nat)
    requires Lawful(w, rules, roots) && AlwaysLowers(w, rules, roots, n, m, c)
    ensures var s0 := Start(roots, n);
      PaidFor(c, WholeSteps(w, rules, s0, labels), m(WholeExec(w, rules, s0, labels)), m(s0),
              WholeWakeups(w, rules, s0, labels))
  {
    if labels != [] {
      var before, l := labels[..|labels| - 1], labels[|labels| - 1];
      var s0 := Start(roots, n);
      var s := WholeExec(w, rules, s0, before);
      RunIsPaid(w, rules, roots, n, before, m, c);
      EveryRunIsAWalk(w, rules, roots, n, before);
      assert Lowers(w, rules, m, c, s, l);
      PaidForMore(c, WholeSteps(w, rules, s0, before), m(s), m(s0), WholeWakeups(w, rules, s0, before),
                  m(WholeStep(w, rules, s, l)));
      if !Enabled(s.walk, l) {
        NotEnabledStays(w, rules, s, l);
      }
    }
  }

  /** What remains to be done, as such a number. */
  function RemainingOf(w: World, cost: nat): Measure {
    (s: Whole) => if |s.ties| == |s.walk.workers| then Remaining(w, cost, s) else 0
  }

  lemma RemainingIsLowered(w: World, rules: Rules, roots: seq<Path>, n: nat, cost: nat, c: nat)
    requires Lawful(w, rules, roots) && cost >= LookupCost(w, roots) && c == cost + 1
    ensures AlwaysLowers(w, rules, roots, n, RemainingOf(w, cost), c)
  {
    var m := RemainingOf(w, cost);
    forall s, l {:trigger Lowers(w, rules, m, c, s, l)} | WholeOk(w, rules, roots, n, s)
      ensures Lowers(w, rules, m, c, s, l)
    {
      if Enabled(s.walk, l) {
        StepLowersRemaining(w, rules, roots, n, cost, s, l);
      }
    }
  }

  lemma {:induction false} NoEffortAtFirst(w: World, cost: nat, roots: seq<Path>, n: nat, k: nat)
    requires k <= n
    ensures Efforts(w, cost, Start(roots, n), k) == 0
  {
    if k > 0 {
      NoEffortAtFirst(w, cost, roots, n, k - 1);
    }
  }

  lemma StartRemaining(w: World, cost: nat, roots: seq<Path>, n: nat)
    ensures RemainingOf(w, cost)(Start(roots, n)) == (cost + 1) * Potential(w, Init(roots, n))
  {
    NoEffortAtFirst(w, cost, roots, n, n);
  }

  lemma StartBelow(w: World, cost: nat, roots: seq<Path>, n: nat, p: nat, b: nat)
    requires p == Potential(w, Init(roots, n)) && p <= b
    ensures RemainingOf(w, cost)(Start(roots, n)) <= (cost + 1) * b
  {
    StartRemaining(w, cost, roots, n);
    MulMonotone(cost + 1, p, b);
  }

  lemma StartIsBounded(w: World, cost: nat, roots: seq<Path>, n: nat, b: nat)
    requires b >= Bound(w, roots, n)
    ensures RemainingOf(w, cost)(Start(roots, n)) <= (cost + 1) * b
  {
    InitialPotential(w, roots, n);
    StartBelow(w, cost, roots, n, Potential(w, Init(roots, n)), b);
  }

  /** A number that every step lowers, and that starts as at most `c` times `b`. */
  lemma LoweredMeasure(w: World, rules: Rules, roots: seq<Path>, n: nat, cost: nat, b: nat) returns (m: Measure)
    requires Lawful(w, rules, roots) && cost >= LookupCost(w, roots) && b >= Bound(w, roots, n)
    ensures AlwaysLowers(w, rules, roots, n, m, cost + 1) && m(Start(roots, n)) <= (cost + 1) * b
  {
    m := RemainingOf(w, cost);
    RemainingIsLowered(w, rules, roots, n, cost, cost + 1);
    StartIsBounded(w, cost, roots, n, b);
  }

  /** If `cost` covers a lookup and `b` bounds the steps of the walk alone, a run of walk and cache
      makes at most `(cost + 1) * b` steps, and `cost + 1` more per spurious wakeup. */
  lemma CachedRunsAreBounded(w: World, rules: Rules, roots: seq<Path>, n: nat, labels: seq<Label>, cost: nat, b: nat)
    requires Lawful(w, rules, roots) && cost >= LookupCost(w, roots) && b >= Bound(w, roots, n)
    ensures var s0 := Start(roots, n);
      WholeSteps(w, rules, s0, labels) <= (cost + 1) * b + (cost + 1) * WholeWakeups(w, rules, s0, labels)
  {
    var m := LoweredMeasure(w, rules, roots, n, cost, b);
    RunIsPaid(w, rules, roots, n, labels, m, cost + 1);
  }
}

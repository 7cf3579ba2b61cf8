/** The lookups of a cached walk hold nobody up: from every reachable state the walk can finish. */
module CachedWalkProgress {
  import opened Prelude
  import opened Gitignore
  import opened WalkWorld
  import opened ParallelWalk
  import opened CachedWalk
  import opened ParallelTermination
  import C = CacheInterleaving

  lemma {:induction false} WholeExecMore(w: World, rules: Rules, s: Whole, a: seq<Label>, b: seq<Label>)
    ensures WholeExec(w, rules, s, a + b) == WholeExec(w, rules, WholeExec(w, rules, s, a), b)
  {
    if b == [] {
      assert a + b == a;
    } else {
      var init := b[..|b| - 1];
      WholeExecMore(w, rules, s, a, init);
      assert (a + b)[..|a + b| - 1] == a + init;
    }
  }

  lemma {:induction false} StaysOk(w: World, rules: Rules, roots: seq<Path>, n: nat, s: Whole, labels: seq<Label>)
    requires Lawful(w, rules, roots) && WholeOk(w, rules, roots, n, s)
    ensures WholeOk(w, rules, roots, n, WholeExec(w, rules, s, labels))
  {
    if labels != [] {
      var before := labels[..|labels| - 1];
      StaysOk(w, rules, roots, n, s, before);
      StepStaysOk(w, rules, roots, n, WholeExec(w, rules, s, before), labels[|labels| - 1]);
    }
  }

  /** How many steps worker `i` is away from its next step of the walk. */
  function Distance(s: Whole, i: nat): nat
    requires i < |s.ties|
  {
    if s.ties[i].None? then 0
    else if s.ties[i].value < |s.look.jobs| then C.Rank(s.look.jobs[s.ties[i].value])
    else 0
  }

  lemma AdvanceIsCloser(rules: Rules, s: C.State, j: nat)
    requires C.Good(rules, s) && j < |s.jobs| && !s.jobs[j].stage.Answered?
    ensures C.Rank(C.Step(rules, s, C.Advance(j)).jobs[j]) < C.Rank(s.jobs[j])
  {
    assert C.JobOk(rules, s, j);
  }

  /** A worker gets through its lookup: after some steps of its own it has made its next step of
      the walk, the one it would have made with the answer at hand. */
  lemma {:induction false} WorkerArrives(w: World, rules: Rules, roots: seq<Path>, n: nat, s: Whole, i: nat)
    returns (labels: seq<Label>)
    requires Lawful(w, rules, roots) && WholeOk(w, rules, roots, n, s) && Enabled(s.walk, Run(i))
    ensures WholeExec(w, rules, s, labels).walk == Step(w, s.walk, Run(i))
    decreases s.ties[i].None?, Distance(s, i)
  {
    var s' := WholeStep(w, rules, s, Run(i));
    StepStaysOk(w, rules, roots, n, s, Run(i));
    assert [Run(i)][..0] == [] && WholeExec(w, rules, s, [Run(i)]) == s';
    assert TieOk(w, s, i);
    if Needs(w, s.walk.workers[i]).None? {
      labels := [Run(i)];
    } else if s.ties[i].Some? && s.look.jobs[s.ties[i].value].stage.Answered? {
      AnswerStays(w, rules, s, i);
      labels := [Run(i)];
    } else {
      if s.ties[i].Some? {
        AdvanceIsCloser(rules, s.look, s.ties[i].value);
      }
      var rest := WorkerArrives(w, rules, roots, n, s', i);
      WholeExecMore(w, rules, s, [Run(i)], rest);
      labels := [Run(i)] + rest;
    }
  }

  /** From every reachable state all workers can still get out, lookups included, without the
      receiver going away. */
  lemma {:induction false} CachedRunCanFinish(w: World, rules: Rules, roots: seq<Path>, n: nat, s: Whole)
    returns (more: seq<Label>)
    requires Lawful(w, rules, roots) && WholeOk(w, rules, roots, n, s)
    ensures AllLeft(WholeExec(w, rules, s, more).walk) && WholeExec(w, rules, s, more).walk.open == s.walk.open
    decreases Potential(w, s.walk)
  {
    if AllLeft(s.walk) {
      more := [];
    } else {
      var i := SomeoneMoves(w, roots, n, s.walk);
      var first := WorkerArrives(w, rules, roots, n, s, i);
      var s' := WholeExec(w, rules, s, first);
      StaysOk(w, rules, roots, n, s, first);
      var rest := CachedRunCanFinish(w, rules, roots, n, s');
      WholeExecMore(w, rules, s, first, rest);
      more := first + rest;
    }
  }
}

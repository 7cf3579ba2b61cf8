/**
 The parallel engine and the ignore cache in one machine: a worker that needs a chain goes
 through the reads and writes of its lookup one by one, interleaved with everything the other
 workers do, and then acts on the answer it got. Every run of it is a run of `ParallelWalk`.
 */
module CachedWalk {
  import opened Prelude
  import opened Gitignore
  import opened GitignoreCaching
  import opened WalkWorld
  import opened ParallelWalk
  import opened ParallelItems
  import opened ParallelBooks
  import opened LookupOrder
  import opened LookupOverlap
  import ParallelComplete
  import WalkReports
  import C = CacheInterleaving

  /** The walk, the cache with all lookups so far, and which lookup each worker is busy with. */
  datatype Whole = Whole(walk: State, look: C.State, ties: seq<Option<nat>>)

  function Start(roots: seq<Path>, parallelism: nat): Whole {
    Whole(Init(roots, parallelism), C.State(map[], []), seq(parallelism, _ => None))
  }

  /** The chain the next step of a worker asks for. */
  function Needs(w: World, k: Worker): Option<Request> {
    match k
    case Popped(item) =>
      var meta := MetaOf(w, item);
      if !w.respectGitignore || w.TooLong(item.path) || meta.Missing? then None
      else Some(Request(item.root, Terminal(item.root, item.path, meta.Directory?)))
    case Scanning(item, rest, _) =>
      if !w.respectGitignore || rest == [] then None
      else
        var child := item.Where().Child(rest[0]).path;
        if w.TooLong(child) || !w.stat(child).NonDirectory? then None
        else Some(Request(item.root, Terminal(item.root, child, false)))
    case _ => None
  }

  /** The world as it looks to a worker whose lookup gave `answer`. */
  function Answering(w: World, rules: Rules, answer: Result<Node, Source>): World {
    w.(fault := (root, t) => if answer.Ok? then None else Some(answer.error),
       decides := (root, t, path, isDir) => answer.Ok? && Decide(Chain(answer.value), rules.Judge(path, isDir)))
  }

  ghost function RunWorker(w: World, rules: Rules, s: Whole, i: nat): Whole
    requires i < |s.ties| == |s.walk.workers|
  {
    match Needs(w, s.walk.workers[i])
    case None => s.(walk := Step(w, s.walk, Run(i)))
    case Some(q) =>
      match s.ties[i]
      case None =>
        Whole(s.walk, s.look.(jobs := s.look.jobs + [C.Job(q.root, q.terminal, C.Fetch)]),
              s.ties[i := Some(|s.look.jobs|)])
      case Some(j) =>
        if j < |s.look.jobs| && s.look.jobs[j].stage.Answered? then
          Whole(Step(Answering(w, rules, s.look.jobs[j].stage.answer), s.walk, Run(i)), s.look, s.ties[i := None])
        else
          s.(look := C.Step(rules, s.look, C.Advance(j)))
  }

  ghost function WholeStep(w: World, rules: Rules, s: Whole, l: Label): Whole {
    if l.Run? && Enabled(s.walk, l) && |s.ties| == |s.walk.workers| then RunWorker(w, rules, s, l.i)
    else s.(walk := Step(w, s.walk, l))
  }

  ghost function WholeExec(w: World, rules: Rules, s: Whole, labels: seq<Label>): Whole {
    if labels == [] then s
    else WholeStep(w, rules, WholeExec(w, rules, s, labels[..|labels| - 1]), labels[|labels| - 1])
  }

  // ---------------------------------------------------------------- what every run keeps

  /** A worker is busy with a lookup of the chain it needs. */
  predicate TieOk(w: World, s: Whole, i: nat)
    requires i < |s.ties| == |s.walk.workers|
  {
    s.ties[i].Some? ==>
      && s.ties[i].value < |s.look.jobs|
      && var j := s.look.jobs[s.ties[i].value]; Needs(w, s.walk.workers[i]) == Some(Request(j.root, j.terminal))
  }

  predicate TiesOk(w: World, s: Whole) {
    |s.ties| == |s.walk.workers| && forall i :: 0 <= i < |s.ties| ==> TieOk(w, s, i)
  }

  /** A request of the walk that can be met was met by some lookup. */
  ghost predicate RequestsServed(w: World, s: Whole) {
    forall q :: q in s.walk.requests && w.fault(q.root, q.terminal).None? ==> C.Served(s.look.jobs, q.root, q.terminal)
  }

  /** Lookup `j` is one the walk has acted on, or a worker is busy with it. */
  ghost predicate Accounted(s: Whole, j: nat)
    requires j < |s.look.jobs|
  {
    || Request(s.look.jobs[j].root, s.look.jobs[j].terminal) in s.walk.requests
    || exists i :: 0 <= i < |s.ties| && s.ties[i] == Some(j)
  }

  ghost predicate AllAccounted(s: Whole) {
    forall j :: 0 <= j < |s.look.jobs| ==> Accounted(s, j)
  }

  ghost predicate LooksOk(w: World, rules: Rules, s: Whole) {
    C.Good(rules, s.look) && C.Owned(s.look) && TiesOk(w, s) && RequestsServed(w, s) && AllAccounted(s)
  }

  /** What the proofs ask of a walk; more if it uses ignore files. */
  ghost predicate Lawful(w: World, rules: Rules, roots: seq<Path>) {
    w.Finite() && Distinct(roots) && (w.respectGitignore ==> RootsAreDirs(w, roots) && w.Follows(rules))
  }

  /** The bookkeeping of the walk itself. */
  ghost predicate WalkOk(w: World, roots: seq<Path>, s: State) {
    w.respectGitignore && RootsAreDirs(w, roots) && ItemsOk(w, roots, s) && Placed(w, s) && AsksOk(w, s)
  }

  lemma RunIsOk(w: World, rules: Rules, roots: seq<Path>, n: nat, s: State)
    requires Lawful(w, rules, roots) && w.respectGitignore && IsRun(w, roots, n, s)
    ensures WalkOk(w, roots, s)
  {
    var labels :| s == Exec(w, Init(roots, n), labels);
    RunsKeepItems(w, roots, n, labels);
    RunsKeepPlaced(w, roots, n, labels);
    RunsKeepAsks(w, roots, n, labels);
  }

  // ---------------------------------------------------------------- lookups begin in order

  /** The path a worker is about to decide on. */
  function Subject(k: Worker): Spot
    requires k.Popped? || (k.Scanning? && k.rest != [])
  {
    if k.Popped? then k.item.Where() else k.item.Where().Child(k.rest[0])
  }

  /** The terminal of a needed chain is the path itself, for a popped directory, or else its parent. */
  lemma NeedsMeans(w: World, roots: seq<Path>, s: State, i: nat)
    requires WalkOk(w, roots, s) && i < |s.workers| && Needs(w, s.workers[i]).Some?
    ensures var k := s.workers[i]; var q := Needs(w, k).value;
      && (k.Popped? || (k.Scanning? && k.rest != []))
      && var y := Subject(k);
         && q.root == y.root && w.Walked(roots, y) && Pending(w, s, y) > 0
         && (if k.Popped? && w.stat(y.path).Directory? then q.terminal == y.path
             else !y.IsRoot() && y.path != [] && q.terminal == y.path[..|y.path| - 1])
  {
    var k := s.workers[i];
    assert WorkerOk(w, roots, k);
    var y := Subject(k);
    if k.Scanning? {
      assert k.rest[0] in k.rest;
      w.WalkedChild(roots, k.item.Where(), k.rest[0]);
    }
    HeldIsPending(w, s, i, y);
  }

  /** Every directory between the root and the terminal was looked up with success, and so was
      the terminal itself unless it is a popped directory. */
  lemma NeededAbove(w: World, roots: seq<Path>, s: State, i: nat)
    requires WalkOk(w, roots, s) && i < |s.workers| && Needs(w, s.workers[i]).Some?
    ensures var q := Needs(w, s.workers[i]).value;
      && q.root <= q.terminal
      && (forall k :: |q.root| <= k < |q.terminal| ==>
            Request(q.root, q.terminal[..k]) in s.requests && w.fault(q.root, q.terminal[..k]).None?)
      && (q.terminal != Subject(s.workers[i]).path ==> q in s.requests && w.fault(q.root, q.terminal).None?)
  {
    NeedsMeans(w, roots, s, i);
    var q, y := Needs(w, s.workers[i]).value, Subject(s.workers[i]);
    forall k | |q.root| <= k < |y.path|
      ensures Request(q.root, y.path[..k]) in s.requests && w.fault(q.root, y.path[..k]).None?
    {
      AboveLookedUp(w, roots, s, y, k);
    }
    forall k | |q.root| <= k < |q.terminal| ensures q.terminal[..k] == y.path[..k] {
    }
  }

  /** While a directory is popped and not looked up, no other worker needs its chain. */
  lemma NobodyElseNeeds(w: World, roots: seq<Path>, s: State, i: nat, j: nat)
    requires WalkOk(w, roots, s) && i < |s.workers| && j < |s.workers| && i != j
    requires Needs(w, s.workers[i]).Some? && Needs(w, s.workers[i]).value.terminal == Subject(s.workers[i]).path
    ensures Needs(w, s.workers[j]) != Needs(w, s.workers[i])
  {
    NeedsMeans(w, roots, s, i);
    PoppedInOrder(w, roots, s, i);
    if Needs(w, s.workers[j]) == Needs(w, s.workers[i]) {
      NeedsMeans(w, roots, s, j);
      NeededAbove(w, roots, s, j);
    }
  }

  lemma RequestsAreServed(w: World, s: Whole, root: Path, d: Path)
    requires RequestsServed(w, s) && Request(root, d) in s.walk.requests && w.fault(root, d).None?
    ensures C.Served(s.look.jobs, root, d)
  {
    var q := Request(root, d);
    assert C.Served(s.look.jobs, q.root, q.terminal);
  }

  /** Nobody has looked up the chain of a popped directory that its worker has not begun to look up. */
  lemma NotYetLookedUp(w: World, rules: Rules, roots: seq<Path>, s: Whole, i: nat, m: nat)
    requires WalkOk(w, roots, s.walk) && LooksOk(w, rules, s) && i < |s.ties| && m < |s.look.jobs|
    requires s.ties[i].None? && Needs(w, s.walk.workers[i]).Some?
    requires Needs(w, s.walk.workers[i]).value.terminal == Subject(s.walk.workers[i]).path
    ensures Request(s.look.jobs[m].root, s.look.jobs[m].terminal) != Needs(w, s.walk.workers[i]).value
  {
    NeedsMeans(w, roots, s.walk, i);
    PoppedInOrder(w, roots, s.walk, i);
    var q := Needs(w, s.walk.workers[i]).value;
    if Request(s.look.jobs[m].root, s.look.jobs[m].terminal) == q {
      assert Accounted(s, m);
      if q in s.walk.requests {
        assert Touches(q, q.root, q.terminal);
      } else {
        var j :| 0 <= j < |s.ties| && s.ties[j] == Some(m);
        assert TieOk(w, s, j);
        NobodyElseNeeds(w, roots, s.walk, i, j);
      }
    }
  }

  /** A lookup always begins as the order of the walk asks for. */
  lemma LookupMayBegin(w: World, rules: Rules, roots: seq<Path>, s: Whole, i: nat)
    requires WalkOk(w, roots, s.walk) && LooksOk(w, rules, s) && i < |s.ties|
    requires s.ties[i].None? && Needs(w, s.walk.workers[i]).Some?
    ensures var q := Needs(w, s.walk.workers[i]).value; C.MayBegin(s.look, q.root, q.terminal)
  {
    var q := Needs(w, s.walk.workers[i]).value;
    NeededAbove(w, roots, s.walk, i);
    forall k | |q.root| <= k < |q.terminal| ensures C.Served(s.look.jobs, q.root, q.terminal[..k]) {
      RequestsAreServed(w, s, q.root, q.terminal[..k]);
    }
    if q.terminal != Subject(s.walk.workers[i]).path {
      RequestsAreServed(w, s, q.root, q.terminal);
    } else {
      forall m | 0 <= m < |s.look.jobs|
        ensures !(s.look.jobs[m].root == q.root && s.look.jobs[m].terminal == q.terminal)
      {
        NotYetLookedUp(w, rules, roots, s, i, m);
      }
    }
  }

  // ---------------------------------------------------------------- answers are fresh

  /** `w'` answers like `w` for one terminal. */
  ghost predicate SameChain(w: World, w': World, root: Path, t: Path) {
    && w' == w.(fault := w'.fault, decides := w'.decides)
    && w'.fault(root, t) == w.fault(root, t)
    && (w.fault(root, t).None? ==>
          forall path, isDir :: w'.decides(root, t, path, isDir) == w.decides(root, t, path, isDir))
  }

  lemma AnswerIsFresh(w: World, rules: Rules, root: Path, t: Path, answer: Result<Node, Source>)
    requires w.Follows(rules) && Agrees(rules, root, t, answer)
    ensures SameChain(w, Answering(w, rules, answer), root, t)
  {
    assert w.fault(root, t) == Fault(rules, root, t);
    var w' := Answering(w, rules, answer);
    if w.fault(root, t).None? {
      forall path, isDir ensures w'.decides(root, t, path, isDir) == w.decides(root, t, path, isDir) {
        var judge := rules.Judge(path, isDir);
        assert Decide(Chain(answer.value), judge) == Decide(FreshChain(rules, root, t), judge);
      }
    }
  }

  lemma IgnoredSame(w: World, w': World, root: Path, path: Path, isDir: bool)
    requires SameChain(w, w', root, Terminal(root, path, isDir))
    ensures w'.Ignored(root, path, isDir) == w.Ignored(root, path, isDir)
  {
  }

  lemma VisitSame(w: World, w': World, item: Item)
    requires Needs(w, Popped(item)).Some?
    requires SameChain(w, w', item.root, Needs(w, Popped(item)).value.terminal)
    ensures Visit(w', item) == Visit(w, item)
  {
    var meta := MetaOf(w, item);
    assert MetaOf(w', item) == meta;
    IgnoredSame(w, w', item.root, item.path, meta.Directory?);
    assert w'.ClassifyWith(item.root, item.path, meta) == w.ClassifyWith(item.root, item.path, meta);
  }

  lemma ScanSame(w: World, w': World, item: Item, rest: seq<Name>, dirs: seq<Item>)
    requires Needs(w, Scanning(item, rest, dirs)).Some?
    requires SameChain(w, w', item.root, Needs(w, Scanning(item, rest, dirs)).value.terminal)
    ensures ScanNext(w', item, rest, dirs) == ScanNext(w, item, rest, dirs)
  {
    var child := item.Where().Child(rest[0]).path;
    IgnoredSame(w, w', item.root, child, false);
    assert w'.Scan(item.root, child) == w.Scan(item.root, child);
  }

  /** The step on a fresh answer is the step of the walk. */
  lemma StepSame(w: World, w': World, s: State, i: nat)
    requires i < |s.workers| && Needs(w, s.workers[i]).Some?
    requires var q := Needs(w, s.workers[i]).value; SameChain(w, w', q.root, q.terminal)
    ensures Step(w', s, Run(i)) == Step(w, s, Run(i))
  {
    match s.workers[i]
    case Popped(item) => VisitSame(w, w', item);
    case Scanning(item, rest, dirs) => ScanSame(w, w', item, rest, dirs);
  }

  // ---------------------------------------------------------------- one step

  /** A step leaves a worker that needs a chain alone, unless it is the one that runs. */
  lemma OthersStay(w: World, s: State, l: Label, j: nat)
    requires j < |s.workers| && l != Run(j) && Needs(w, s.workers[j]).Some?
    ensures |Step(w, s, l).workers| == |s.workers| && Step(w, s, l).workers[j] == s.workers[j]
  {
  }

  /** A step asks for the chain its worker needs, and for nothing else. */
  lemma StepRequests(w: World, s: State, l: Label)
    ensures Step(w, s, l).requests == s.requests +
      if l.Run? && Enabled(s, l) && Needs(w, s.workers[l.i]).Some? then [Needs(w, s.workers[l.i]).value] else []
  {
    if l.Run? && Enabled(s, l) {
      RunRequests(w, s.shared, s.open, s.workers[l.i]);
    } else {
      assert s.requests + [] == s.requests;
    }
  }

  lemma RunRequests(w: World, s: Shared, open: bool, k: Worker)
    ensures EffectOf(w, s, open, k).requests == if Needs(w, k).Some? then [Needs(w, k).value] else []
  {
  }

  /** A step without a lookup. */
  lemma PlainStepStays(w: World, rules: Rules, s: Whole, l: Label)
    requires LooksOk(w, rules, s)
    requires l.Run? && Enabled(s.walk, l) ==> Needs(w, s.walk.workers[l.i]).None?
    ensures LooksOk(w, rules, s.(walk := Step(w, s.walk, l)))
  {
    var s' := s.(walk := Step(w, s.walk, l));
    StepRequests(w, s.walk, l);
    assert s'.walk.requests == s.walk.requests;
    forall j | 0 <= j < |s.ties| ensures TieOk(w, s', j) {
      assert TieOk(w, s, j);
      if s.ties[j].Some? && l != Run(j) {
        OthersStay(w, s.walk, l, j);
      }
    }
    forall m | 0 <= m < |s.look.jobs| ensures Accounted(s', m) {
      assert Accounted(s, m);
    }
  }

  /** A lookup begins. */
  lemma BeginStays(w: World, rules: Rules, roots: seq<Path>, s: Whole, i: nat)
    requires WalkOk(w, roots, s.walk) && LooksOk(w, rules, s) && i < |s.ties|
    requires s.ties[i].None? && Needs(w, s.walk.workers[i]).Some?
    ensures LooksOk(w, rules, RunWorker(w, rules, s, i))
  {
    var q, s' := Needs(w, s.walk.workers[i]).value, RunWorker(w, rules, s, i);
    LookupMayBegin(w, rules, roots, s, i);
    C.BeginKeeps(rules, s.look, q.root, q.terminal);
    assert s'.look == C.Step(rules, s.look, C.Begin(q.root, q.terminal));
    BegunIsTied(w, s, s', i, q);
  }

  lemma BegunIsTied(w: World, s: Whole, s': Whole, i: nat, q: Request)
    requires TiesOk(w, s) && RequestsServed(w, s) && AllAccounted(s) && i < |s.ties|
    requires s.ties[i].None? && Needs(w, s.walk.workers[i]) == Some(q)
    requires s'.walk == s.walk && s'.ties == s.ties[i := Some(|s.look.jobs|)]
    requires s'.look.jobs == s.look.jobs + [C.Job(q.root, q.terminal, C.Fetch)]
    ensures TiesOk(w, s') && RequestsServed(w, s') && AllAccounted(s')
  {
    forall j | 0 <= j < |s.ties| ensures TieOk(w, s', j) {
      assert TieOk(w, s, j);
    }
    forall p | p in s.walk.requests && w.fault(p.root, p.terminal).None?
      ensures C.Served(s'.look.jobs, p.root, p.terminal)
    {
      C.ServedMore(s.look.jobs, C.Job(q.root, q.terminal, C.Fetch), p.root, p.terminal);
    }
    forall m | 0 <= m < |s'.look.jobs| ensures Accounted(s', m) {
      if m < |s.look.jobs| {
        OldStaysAccounted(s, s', i, m);
      } else {
        assert s'.ties[i] == Some(m);
      }
    }
  }

  lemma OldStaysAccounted(s: Whole, s': Whole, i: nat, m: nat)
    requires m < |s.look.jobs| <= |s'.look.jobs| && s'.look.jobs[m] == s.look.jobs[m] && Accounted(s, m)
    requires s'.walk == s.walk && i < |s.ties| == |s'.ties| && s.ties[i].None? && s'.ties == s.ties[i := s'.ties[i]]
    ensures Accounted(s', m)
  {
    if j: nat :| j < |s.ties| && s.ties[j] == Some(m) {
      assert s'.ties[j] == Some(m);
    }
  }

  /** A lookup goes one step on. */
  lemma AdvanceStays(w: World, rules: Rules, s: Whole, j: nat)
    requires LooksOk(w, rules, s) && j < |s.look.jobs|
    ensures LooksOk(w, rules, s.(look := C.Step(rules, s.look, C.Advance(j))))
  {
    var s' := s.(look := C.Step(rules, s.look, C.Advance(j)));
    C.AdvanceKeeps(rules, s.look, j);
    C.AdvanceKeepsOwned(rules, s.look, j);
    forall i | 0 <= i < |s.ties| ensures TieOk(w, s', i) {
      assert TieOk(w, s, i);
    }
    forall q | q in s.walk.requests && w.fault(q.root, q.terminal).None?
      ensures C.Served(s'.look.jobs, q.root, q.terminal)
    {
      C.ServedStays(rules, s.look, j, q.root, q.terminal);
    }
    forall m | 0 <= m < |s'.look.jobs| ensures Accounted(s', m) {
      assert Accounted(s, m);
    }
  }

  /** A worker acts on the answer it got. */
  lemma AnswerStays(w: World, rules: Rules, s: Whole, i: nat)
    requires w.Follows(rules) && LooksOk(w, rules, s) && i < |s.ties| && Enabled(s.walk, Run(i)) && TieOk(w, s, i)
    requires s.ties[i].Some? && s.look.jobs[s.ties[i].value].stage.Answered? && Needs(w, s.walk.workers[i]).Some?
    ensures RunWorker(w, rules, s, i).walk == Step(w, s.walk, Run(i))
    ensures LooksOk(w, rules, RunWorker(w, rules, s, i))
  {
    var q, j := Needs(w, s.walk.workers[i]).value, s.ties[i].value;
    var answer, s' := s.look.jobs[j].stage.answer, RunWorker(w, rules, s, i);
    C.AnsweredAgrees(rules, s.look, j);
    AnswerIsFresh(w, rules, q.root, q.terminal, answer);
    StepSame(w, Answering(w, rules, answer), s.walk, i);
    StepRequests(w, s.walk, Run(i));
    assert s'.walk.requests == s.walk.requests + [q];
    forall k | 0 <= k < |s.ties| ensures TieOk(w, s', k) {
      assert TieOk(w, s, k);
      if s.ties[k].Some? && k != i {
        OthersStay(w, s.walk, Run(i), k);
      }
    }
    forall p | p in s'.walk.requests && w.fault(p.root, p.terminal).None?
      ensures C.Served(s.look.jobs, p.root, p.terminal)
    {
      if p == q {
        assert C.Succeeded(s.look.jobs[j], q.root, q.terminal);
      }
    }
    forall m | 0 <= m < |s.look.jobs| ensures Accounted(s', m) {
      assert Accounted(s, m);
      if m != j && Request(s.look.jobs[m].root, s.look.jobs[m].terminal) !in s.walk.requests {
        var k :| 0 <= k < |s.ties| && s.ties[k] == Some(m);
        assert s'.ties[k] == Some(m);
      }
    }
  }

  // ---------------------------------------------------------------- every run

  ghost predicate WholeOk(w: World, rules: Rules, roots: seq<Path>, n: nat, s: Whole) {
    IsRun(w, roots, n, s.walk) && LooksOk(w, rules, s)
  }

  lemma StartIsOk(w: World, rules: Rules, roots: seq<Path>, n: nat)
    ensures WholeOk(w, rules, roots, n, Start(roots, n))
  {
    assert Init(roots, n) == Exec(w, Init(roots, n), []);
  }

  lemma StepStaysOk(w: World, rules: Rules, roots: seq<Path>, n: nat, s: Whole, l: Label)
    requires Lawful(w, rules, roots) && WholeOk(w, rules, roots, n, s)
    ensures WholeOk(w, rules, roots, n, WholeStep(w, rules, s, l))
  {
    if l.Run? && Enabled(s.walk, l) && Needs(w, s.walk.workers[l.i]).Some? {
      var i := l.i;
      RunIsOk(w, rules, roots, n, s.walk);
      assert TieOk(w, s, i);
      if s.ties[i].None? {
        BeginStays(w, rules, roots, s, i);
      } else if s.look.jobs[s.ties[i].value].stage.Answered? {
        AnswerStays(w, rules, s, i);
        RunGoesOn(w, roots, n, s.walk, l);
      } else {
        AdvanceStays(w, rules, s, s.ties[i].value);
      }
    } else {
      PlainStepStays(w, rules, s, l);
      RunGoesOn(w, roots, n, s.walk, l);
    }
  }

  /** However reads and writes of the cache interleave with everything else, the walk is a run of
      the machine in which every lookup is answered at once, by a fresh chain. */
  lemma {:induction false} EveryRunIsAWalk(w: World, rules: Rules, roots: seq<Path>, n: nat, labels: seq<Label>)
    requires Lawful(w, rules, roots)
    ensures WholeOk(w, rules, roots, n, WholeExec(w, rules, Start(roots, n), labels))
  {
    if labels == [] {
      StartIsOk(w, rules, roots, n);
    } else {
      var before := labels[..|labels| - 1];
      EveryRunIsAWalk(w, rules, roots, n, before);
      StepStaysOk(w, rules, roots, n, WholeExec(w, rules, Start(roots, n), before), labels[|labels| - 1]);
    }
  }

  /** Every lookup of every run, answered from the shared cache, agrees with an uncached chain. */
  lemma CachedLookupsAgree(w: World, rules: Rules, roots: seq<Path>, n: nat, labels: seq<Label>, j: nat)
    requires Lawful(w, rules, roots)
    requires var jobs := WholeExec(w, rules, Start(roots, n), labels).look.jobs; j < |jobs| && jobs[j].stage.Answered?
    ensures var job := WholeExec(w, rules, Start(roots, n), labels).look.jobs[j];
            Agrees(rules, job.root, job.terminal, job.stage.answer)
  {
    EveryRunIsAWalk(w, rules, roots, n, labels);
    C.AnsweredAgrees(rules, WholeExec(w, rules, Start(roots, n), labels).look, j);
  }

  /** A finished walk over a tree, with its cache, sent exactly what the specification sends. */
  lemma CachedWalkIsComplete(w: World, rules: Rules, roots: seq<Path>, n: nat, labels: seq<Label>)
    requires Lawful(w, rules, roots) && w.TreeLike(roots) && n > 0
    requires var s := WholeExec(w, rules, Start(roots, n), labels).walk; AllLeft(s) && s.open
    ensures w.Complete(roots, WholeExec(w, rules, Start(roots, n), labels).walk.sent)
  {
    EveryRunIsAWalk(w, rules, roots, n, labels);
    var s := WholeExec(w, rules, Start(roots, n), labels).walk;
    var ls :| s == Exec(w, Init(roots, n), ls);
    ParallelComplete.ParallelIsComplete(w, roots, n, ls);
  }

  /** On any file system it has answered every root and every entry of an expanded directory. */
  lemma CachedWalkReportsAll(w: World, rules: Rules, roots: seq<Path>, n: nat, labels: seq<Label>)
    requires Lawful(w, rules, roots) && n > 0
    requires var s := WholeExec(w, rules, Start(roots, n), labels).walk; AllLeft(s) && s.open
    ensures var s := WholeExec(w, rules, Start(roots, n), labels).walk;
      WalkReports.FullReport(w, roots, s.sent, s.expanded)
  {
    EveryRunIsAWalk(w, rules, roots, n, labels);
    var s := WholeExec(w, rules, Start(roots, n), labels).walk;
    var ls :| s == Exec(w, Init(roots, n), ls);
    WalkReports.ParallelReportsAll(w, roots, n, ls);
  }
}

/**
 `get_cached_gitignore` at the granularity of its lock: the shared cache is locked for one
 read or one write at a time, and the steps of any number of lookups interleave freely.
 */
module CacheInterleaving {
  import opened Prelude
  import opened Gitignore
  import opened GitignoreCaching

  /** Where a lookup stands: before its first read; before reading the `k`-th directory of its
      terminal; before writing that directory's node; before writing the chain; answered. */
  datatype Stage =
    | Fetch
    | Loop(k: nat, parent: Option<Node>)
    | Insert(k: nat, node: Node)
    | Store(node: Node)
    | Answered(answer: Result<Node, Source>)

  datatype Job = Job(root: Path, terminal: Path, stage: Stage)

  datatype State = State(cache: Entries, jobs: seq<Job>)

  // ---------------------------------------------------------------- one step of one lookup

  function Top(rules: Rules, j: Job): nat {
    |rules.EffectiveRoot(j.root)|
  }

  function AfterLoop(rules: Rules, j: Job, parent: Option<Node>): Stage {
    match rules.gitDir(j.root)
    case None => Store(if parent.Some? then parent.value else Node(NoRules, None))
    case Some(g) =>
      if rules.readable(Exclude(g)) then Store(Node(Exclude(g), parent)) else Answered(Err(Exclude(g)))
  }

  function LoopOn(rules: Rules, c: Entries, j: Job, k: nat, parent: Option<Node>): Stage {
    if k > |j.terminal| then
      AfterLoop(rules, j, parent)
    else
      var d := j.terminal[..k];
      if (j.root, d) in c then Loop(k + 1, Some(c[(j.root, d)]))
      else if !rules.readable(DirRules(d)) then Answered(Err(DirRules(d)))
      else Insert(k, Node(DirRules(d), parent))
  }

  /** What a step writes, if anything. */
  function Written(j: Job): Entries {
    match j.stage
    case Insert(k, node) => if k <= |j.terminal| then map[(j.root, j.terminal[..k]) := node] else map[]
    case Store(node) => map[(j.root, j.terminal) := node]
    case _ => map[]
  }

  function NextStage(rules: Rules, c: Entries, j: Job): Stage {
    match j.stage
    case Fetch =>
      if (j.root, j.terminal) in c then Answered(Ok(c[(j.root, j.terminal)])) else Loop(Top(rules, j), None)
    case Loop(k, parent) => LoopOn(rules, c, j, k, parent)
    case Insert(k, node) => Loop(k + 1, Some(node))
    case Store(node) => Answered(Ok(node))
    case Answered(_) => j.stage
  }

  // ---------------------------------------------------------------- runs

  datatype Label = Begin(root: Path, terminal: Path) | Advance(i: nat)

  predicate Succeeded(j: Job, root: Path, d: Path) {
    j.root == root && j.terminal == d && j.stage.Answered? && j.stage.answer.Ok?
  }

  ghost predicate Served(jobs: seq<Job>, root: Path, d: Path) {
    exists i :: 0 <= i < |jobs| && Succeeded(jobs[i], root, d)
  }

  /** How the walk asks: for a directory below the root only after every directory above it was
      answered, and for the same terminal again only after a first answer. */
  ghost predicate MayBegin(s: State, root: Path, t: Path) {
    && root <= t
    && (forall k :: |root| <= k < |t| ==> Served(s.jobs, root, t[..k]))
    && (forall i :: 0 <= i < |s.jobs| && s.jobs[i].root == root && s.jobs[i].terminal == t ==> Served(s.jobs, root, t))
  }

  ghost function Step(rules: Rules, s: State, l: Label): State {
    match l
    case Begin(root, t) =>
      if MayBegin(s, root, t) then s.(jobs := s.jobs + [Job(root, t, Fetch)]) else s
    case Advance(i) =>
      if i >= |s.jobs| then s
      else
        var j := s.jobs[i];
        State(s.cache + Written(j), s.jobs[i := j.(stage := NextStage(rules, s.cache, j))])
  }

  ghost function Exec(rules: Rules, labels: seq<Label>): State {
    if labels == [] then State(map[], [])
    else Step(rules, Exec(rules, labels[..|labels| - 1]), labels[|labels| - 1])
  }

  // ---------------------------------------------------------------- undisturbed lookups

  function Rank(j: Job): nat {
    var n := |j.terminal| + 2;
    match j.stage
    case Fetch => 2 * n + 4
    case Loop(k, _) => if k <= n then 2 * (n - k) + 3 else 3
    case Insert(k, _) => if k <= n then 2 * (n - k) + 2 else 2
    case Store(_) => 1
    case Answered(_) => 0
  }

  /** A lookup that runs to its end with the cache to itself. */
  function RunAlone(rules: Rules, c: Entries, j: Job): (Entries, Stage)
    requires j.stage.Insert? ==> j.stage.k <= |j.terminal|
    decreases Rank(j)
  {
    if j.stage.Answered? then (c, j.stage)
    else RunAlone(rules, c + Written(j), j.(stage := NextStage(rules, c, j)))
  }

  lemma {:induction false} LoopAlone(rules: Rules, c: Entries, j: Job, k: nat, parent: Option<Node>)
    requires j.root <= j.terminal && j.stage == Loop(k, parent) && Top(rules, j) <= k <= |j.terminal| + 1
    ensures var built := BuildFrom(rules, c, j.root, j.terminal, Top(rules, j), k, parent);
            RunAlone(rules, c, j) ==
              if built.1.Err? then (built.0, Answered(Err(built.1.error)))
              else RunAlone(rules, built.0, j.(stage := AfterLoop(rules, j, built.1.value)))
    decreases |j.terminal| + 1 - k
  {
    var d := j.terminal[..if k <= |j.terminal| then k else 0];
    BuildStep(rules, c, j.root, j.terminal, Top(rules, j), k, parent);
    assert c + map[] == c;
    if k <= |j.terminal| {
      if (j.root, d) in c {
        LoopAlone(rules, c, j.(stage := Loop(k + 1, Some(c[(j.root, d)]))), k + 1, Some(c[(j.root, d)]));
      } else if rules.readable(DirRules(d)) {
        var node := Node(DirRules(d), parent);
        assert c + map[(j.root, d) := node] == c[(j.root, d) := node];
        var inserting := j.(stage := Insert(k, node));
        assert RunAlone(rules, c, j) == RunAlone(rules, c, inserting);
        LoopAlone(rules, c[(j.root, d) := node], j.(stage := Loop(k + 1, Some(node))), k + 1, Some(node));
      }
    }
  }

  lemma FinishAlone(rules: Rules, c: Entries, j: Job, parent: Option<Node>)
    requires j.stage == AfterLoop(rules, j, parent)
    ensures var (c', answer) := Finish(rules, c, j.root, j.terminal, parent);
            RunAlone(rules, c, j) == (c', Answered(answer))
  {
    if j.stage.Store? {
      assert c + Written(j) == c[(j.root, j.terminal) := j.stage.node];
    }
  }

  lemma {:induction false} StepAlone(rules: Rules, c: Entries, j: Job)
    requires !j.stage.Answered? && !j.stage.Insert? && !j.stage.Store?
    ensures RunAlone(rules, c, j) == RunAlone(rules, c, j.(stage := NextStage(rules, c, j)))
  {
    assert c + map[] == c;
  }

  lemma {:induction false} MissAlone(rules: Rules, c: Entries, j: Job, built: (Entries, Result<Option<Node>, Source>))
    requires j.root <= j.terminal && j.stage.Fetch? && (j.root, j.terminal) !in c
    requires built == BuildFrom(rules, c, j.root, j.terminal, Top(rules, j), Top(rules, j), None)
    ensures RunAlone(rules, c, j) ==
      if built.1.Err? then (built.0, Answered(Err(built.1.error)))
      else RunAlone(rules, built.0, j.(stage := AfterLoop(rules, j, built.1.value)))
  {
    StepAlone(rules, c, j);
    LoopAlone(rules, c, j.(stage := Loop(Top(rules, j), None)), Top(rules, j), None);
  }

  lemma LookupBuilds(rules: Rules, c: Entries, root: Path, t: Path, built: (Entries, Result<Option<Node>, Source>))
    requires root <= t && (root, t) !in c
    requires built == BuildFrom(rules, c, root, t, |rules.EffectiveRoot(root)|, |rules.EffectiveRoot(root)|, None)
    ensures Lookup(rules, c, root, t) ==
      if built.1.Err? then (built.0, Err(built.1.error)) else Finish(rules, built.0, root, t, built.1.value)
  {
    var lo := |rules.EffectiveRoot(root)|;
    assert Prefixes(t, lo)[lo - lo..] == Prefixes(t, lo);
  }

  /** Left alone, the steps of a lookup amount to the lookup as one call. */
  lemma AloneIsLookup(rules: Rules, c: Entries, root: Path, t: Path)
    requires root <= t
    ensures RunAlone(rules, c, Job(root, t, Fetch)).0 == Lookup(rules, c, root, t).0
    ensures RunAlone(rules, c, Job(root, t, Fetch)).1 == Answered(Lookup(rules, c, root, t).1)
  {
    var j, lo := Job(root, t, Fetch), |rules.EffectiveRoot(root)|;
    if (root, t) in c {
      StepAlone(rules, c, j);
    } else {
      var built := BuildFrom(rules, c, root, t, lo, lo, None);
      MissAlone(rules, c, j, built);
      LookupBuilds(rules, c, root, t, built);
      if built.1.Ok? {
        FinishAlone(rules, built.0, j.(stage := AfterLoop(rules, j, built.1.value)), built.1.value);
      }
    }
  }

  // ---------------------------------------------------------------- what every run keeps

  /** The chain of `d` consults the exclude file first, if there is one. */
  predicate Headed(rules: Rules, root: Path, node: Node) {
    rules.gitDir(root).Some? ==> node.local.Exclude? && ExcludeReadable(rules, root)
  }

  /** A cached chain that answers for its directory. */
  ghost predicate Finished(rules: Rules, c: Entries, root: Path, d: Path) {
    (root, d) in c && GoodCached(rules)(root, d, c[(root, d)]) && Headed(rules, root, c[(root, d)])
  }

  /** What a lookup holds is right so far. */
  ghost predicate StageOk(rules: Rules, j: Job, good: Goodness) {
    match j.stage
    case Fetch => true
    case Loop(k, parent) =>
      Top(rules, j) <= k <= |j.terminal| + 1
      && if k == Top(rules, j) then parent.None? else parent.Some? && good(j.root, j.terminal[..k - 1], parent.value)
    case Insert(k, node) => Top(rules, j) <= k <= |j.terminal| && good(j.root, j.terminal[..k], node)
    case Store(node) => good(j.root, j.terminal, node) && Headed(rules, j.root, node)
    case Answered(answer) =>
      match answer
      case Ok(node) => good(j.root, j.terminal, node) && Headed(rules, j.root, node)
      case Err(e) => Fault(rules, j.root, j.terminal) == Some(e)
  }

  predicate Building(j: Job) {
    j.stage.Loop? || j.stage.Insert? || j.stage.Store?
  }

  /** A building lookup writes only where nobody was answered yet. */
  predicate WritesApart(j: Job) {
    j.stage.Insert? ==> j.stage.k < |j.root| || j.stage.k == |j.terminal|
  }

  ghost predicate JobOk(rules: Rules, s: State, i: nat)
    requires i < |s.jobs|
  {
    var j := s.jobs[i];
    && j.root <= j.terminal
    && StageOk(rules, j, GoodCached(rules)) && WritesApart(j)
    && (forall k :: |j.root| <= k < |j.terminal| ==> Served(s.jobs, j.root, j.terminal[..k]))
    && (j.stage.Answered? && j.stage.answer.Ok? ==> Finished(rules, s.cache, j.root, j.terminal))
    && (Building(j) ==> !Served(s.jobs, j.root, j.terminal))
    && (j.stage.Fetch? ==> Served(s.jobs, j.root, j.terminal) || (j.root, j.terminal) !in s.cache)
  }

  /** Two unanswered lookups for the same terminal: only after a first answer. */
  ghost predicate Apart(s: State) {
    forall i, k ::
      0 <= i < k < |s.jobs| && s.jobs[i].root == s.jobs[k].root && s.jobs[i].terminal == s.jobs[k].terminal ==>
      Served(s.jobs, s.jobs[i].root, s.jobs[i].terminal)
  }

  ghost predicate Good(rules: Rules, s: State) {
    Sound(s.cache, GoodCached(rules)) && (forall i :: 0 <= i < |s.jobs| ==> JobOk(rules, s, i)) && Apart(s)
  }

  // ---------------------------------------------------------------- one lookup goes one step on

  lemma {:induction false} HeadedStays(rules: Rules, j: Job, parent: Option<Node>)
    requires j.root <= j.terminal && parent.Some? && GoodCached(rules)(j.root, j.terminal, parent.value)
    ensures StageOk(rules, j.(stage := AfterLoop(rules, j, parent)), GoodCached(rules))
  {
    FaultMeans(rules, j.root, j.terminal);
    if rules.gitDir(j.root).Some? && ExcludeReadable(rules, j.root) {
      ExcludeHead(rules, j.root, j.terminal, parent.value);
    }
  }

  lemma LoopStays(rules: Rules, c: Entries, j: Job, k: nat, parent: Option<Node>)
    requires j.root <= j.terminal && j.stage == Loop(k, parent)
    requires Sound(c, GoodCached(rules)) && StageOk(rules, j, GoodCached(rules))
    ensures StageOk(rules, j.(stage := LoopOn(rules, c, j, k, parent)), GoodCached(rules))
  {
    var t := j.terminal;
    if k > |t| {
      assert t[..|t|] == t;
      HeadedStays(rules, j, parent);
    } else if (j.root, t[..k]) !in c {
      if rules.readable(DirRules(t[..k])) {
        GoodExtends(rules, j.root, t);
        assert ParentOk(j.root, t, Top(rules, j), k, parent, GoodCached(rules));
      } else {
        FaultAt(rules, j.root, t, k);
      }
    }
  }

  lemma StageStays(rules: Rules, c: Entries, j: Job)
    requires j.root <= j.terminal && Sound(c, GoodCached(rules)) && StageOk(rules, j, GoodCached(rules))
    requires j.stage.Fetch? && (j.root, j.terminal) in c ==> Finished(rules, c, j.root, j.terminal)
    ensures StageOk(rules, j.(stage := NextStage(rules, c, j)), GoodCached(rules))
    ensures Sound(c + Written(j), GoodCached(rules))
  {
    match j.stage
    case Loop(k, parent) => LoopStays(rules, c, j, k, parent);
    case _ =>
  }

  // ---------------------------------------------------------------- the others do not notice

  lemma ServedIsFinished(rules: Rules, s: State, root: Path, d: Path)
    requires Good(rules, s) && Served(s.jobs, root, d)
    ensures Finished(rules, s.cache, root, d)
  {
    var i :| 0 <= i < |s.jobs| && Succeeded(s.jobs[i], root, d);
    assert JobOk(rules, s, i);
  }

  lemma ServedStays(rules: Rules, s: State, i: nat, root: Path, d: Path)
    requires i < |s.jobs| && Served(s.jobs, root, d)
    ensures Served(Step(rules, s, Advance(i)).jobs, root, d)
  {
    var k :| 0 <= k < |s.jobs| && Succeeded(s.jobs[k], root, d);
    assert Succeeded(Step(rules, s, Advance(i)).jobs[k], root, d);
  }

  /** A step never writes over a finished chain, nor where a first lookup is about to read. */
  lemma WritesElsewhere(rules: Rules, s: State, i: nat, root: Path, d: Path)
    requires Good(rules, s) && i < |s.jobs| && (root, d) in Written(s.jobs[i]) && root <= d
    ensures root == s.jobs[i].root && d == s.jobs[i].terminal && !Served(s.jobs, root, d)
  {
    var j := s.jobs[i];
    assert JobOk(rules, s, i);
    if j.stage.Insert? {
      assert j.terminal[..|j.terminal|] == j.terminal;
    }
  }

  lemma ServedBefore(rules: Rules, s: State, i: nat, root: Path, d: Path)
    requires i < |s.jobs| && Served(Step(rules, s, Advance(i)).jobs, root, d)
    requires !Succeeded(Step(rules, s, Advance(i)).jobs[i], root, d)
    ensures Served(s.jobs, root, d)
  {
    var s' := Step(rules, s, Advance(i));
    var k :| 0 <= k < |s'.jobs| && Succeeded(s'.jobs[k], root, d);
    assert Succeeded(s.jobs[k], root, d);
  }

  lemma NewlyServed(rules: Rules, s: State, i: nat, root: Path, d: Path)
    requires i < |s.jobs| && !Served(s.jobs, root, d) && Served(Step(rules, s, Advance(i)).jobs, root, d)
    ensures s.jobs[i].root == root && s.jobs[i].terminal == d
  {
    if !Succeeded(Step(rules, s, Advance(i)).jobs[i], root, d) {
      ServedBefore(rules, s, i, root, d);
    }
  }

  lemma FinishedStays(rules: Rules, s: State, i: nat, root: Path, d: Path)
    requires Good(rules, s) && i < |s.jobs| && root <= d && Served(s.jobs, root, d)
    ensures Finished(rules, Step(rules, s, Advance(i)).cache, root, d)
  {
    ServedIsFinished(rules, s, root, d);
    if (root, d) in Written(s.jobs[i]) {
      WritesElsewhere(rules, s, i, root, d);
    }
  }

  lemma OtherJobStays(rules: Rules, s: State, i: nat, k: nat)
    requires Good(rules, s) && i < |s.jobs| && k < |s.jobs| && k != i
    ensures JobOk(rules, Step(rules, s, Advance(i)), k)
  {
    var s', j := Step(rules, s, Advance(i)), s.jobs[k];
    assert JobOk(rules, s, k) && s'.jobs[k] == j;
    forall n | |j.root| <= n < |j.terminal| ensures Served(s'.jobs, j.root, j.terminal[..n]) {
      ServedStays(rules, s, i, j.root, j.terminal[..n]);
    }
    if Served(s.jobs, j.root, j.terminal) {
      ServedStays(rules, s, i, j.root, j.terminal);
      FinishedStays(rules, s, i, j.root, j.terminal);
    } else {
      OnlyOne(s, i, k);
      if Served(s'.jobs, j.root, j.terminal) {
        NewlyServed(rules, s, i, j.root, j.terminal);
      }
      if (j.root, j.terminal) in Written(s.jobs[i]) {
        WritesElsewhere(rules, s, i, j.root, j.terminal);
      }
      assert !Succeeded(j, j.root, j.terminal);
    }
  }

  /** Nobody else looks up a terminal that was not answered yet. */
  lemma OnlyOne(s: State, i: nat, k: nat)
    requires Apart(s) && i < |s.jobs| && k < |s.jobs| && k != i
    requires !Served(s.jobs, s.jobs[k].root, s.jobs[k].terminal)
    ensures !(s.jobs[i].root == s.jobs[k].root && s.jobs[i].terminal == s.jobs[k].terminal)
  {
  }

  lemma AboveIsCached(rules: Rules, s: State, i: nat, n: nat)
    requires Good(rules, s) && i < |s.jobs| && |s.jobs[i].root| <= n < |s.jobs[i].terminal|
    ensures (s.jobs[i].root, s.jobs[i].terminal[..n]) in s.cache
    ensures Served(Step(rules, s, Advance(i)).jobs, s.jobs[i].root, s.jobs[i].terminal[..n])
  {
    var j := s.jobs[i];
    assert JobOk(rules, s, i);
    ServedStays(rules, s, i, j.root, j.terminal[..n]);
    ServedIsFinished(rules, s, j.root, j.terminal[..n]);
  }

  lemma OwnStageStays(rules: Rules, s: State, i: nat)
    requires Good(rules, s) && i < |s.jobs|
    ensures StageOk(rules, Step(rules, s, Advance(i)).jobs[i], GoodCached(rules))
    ensures Sound(Step(rules, s, Advance(i)).cache, GoodCached(rules))
    ensures Building(Step(rules, s, Advance(i)).jobs[i]) ==> !Served(s.jobs, s.jobs[i].root, s.jobs[i].terminal)
  {
    var j := s.jobs[i];
    assert JobOk(rules, s, i);
    if Served(s.jobs, j.root, j.terminal) {
      ServedIsFinished(rules, s, j.root, j.terminal);
    }
    StageStays(rules, s.cache, j);
  }

  lemma OwnJobStays(rules: Rules, s: State, i: nat)
    requires Good(rules, s) && i < |s.jobs|
    ensures JobOk(rules, Step(rules, s, Advance(i)), i)
    ensures Sound(Step(rules, s, Advance(i)).cache, GoodCached(rules))
  {
    var s', j := Step(rules, s, Advance(i)), s.jobs[i];
    assert JobOk(rules, s, i);
    OwnStageStays(rules, s, i);
    forall n | |j.root| <= n < |j.terminal|
      ensures Served(s'.jobs, j.root, j.terminal[..n]) && (j.root, j.terminal[..n]) in s.cache
    {
      AboveIsCached(rules, s, i, n);
    }
    if Building(s'.jobs[i]) && Served(s'.jobs, j.root, j.terminal) {
      ServedBefore(rules, s, i, j.root, j.terminal);
    }
    if j.stage.Answered? && j.stage.answer.Ok? {
      assert Succeeded(j, j.root, j.terminal);
      FinishedStays(rules, s, i, j.root, j.terminal);
    }
  }

  // ---------------------------------------------------------------- every run

  lemma AdvanceKeeps(rules: Rules, s: State, i: nat)
    requires Good(rules, s)
    ensures Good(rules, Step(rules, s, Advance(i)))
  {
    if i < |s.jobs| {
      var s' := Step(rules, s, Advance(i));
      OwnJobStays(rules, s, i);
      forall k | 0 <= k < |s'.jobs| ensures JobOk(rules, s', k) {
        if k != i {
          OtherJobStays(rules, s, i, k);
        }
      }
      forall k, n | 0 <= k < n < |s'.jobs| && s'.jobs[k].root == s'.jobs[n].root
        && s'.jobs[k].terminal == s'.jobs[n].terminal
        ensures Served(s'.jobs, s'.jobs[k].root, s'.jobs[k].terminal)
      {
        ServedStays(rules, s, i, s.jobs[k].root, s.jobs[k].terminal);
      }
    }
  }

  lemma ServedMore(jobs: seq<Job>, j: Job, root: Path, d: Path)
    requires j.stage.Fetch?
    ensures Served(jobs + [j], root, d) <==> Served(jobs, root, d)
  {
    if Served(jobs, root, d) {
      var i :| 0 <= i < |jobs| && Succeeded(jobs[i], root, d);
      assert Succeeded((jobs + [j])[i], root, d);
    }
    if Served(jobs + [j], root, d) {
      var i :| 0 <= i < |jobs + [j]| && Succeeded((jobs + [j])[i], root, d);
      assert i < |jobs| && Succeeded(jobs[i], root, d);
    }
  }

  /** What stands in the cache at or below its walk root was put there for its own terminal. */
  ghost predicate Owned(s: State) {
    forall root, d :: (root, d) in s.cache && root <= d ==> Asked(s.jobs, root, d)
  }

  ghost predicate Asked(jobs: seq<Job>, root: Path, d: Path) {
    exists i :: 0 <= i < |jobs| && jobs[i].root == root && jobs[i].terminal == d
  }

  lemma AdvanceKeepsOwned(rules: Rules, s: State, i: nat)
    requires Good(rules, s) && Owned(s)
    ensures Owned(Step(rules, s, Advance(i)))
  {
    if i < |s.jobs| {
      var s' := Step(rules, s, Advance(i));
      forall root, d | (root, d) in s'.cache && root <= d ensures Asked(s'.jobs, root, d) {
        if (root, d) in Written(s.jobs[i]) {
          WritesElsewhere(rules, s, i, root, d);
          assert s'.jobs[i].root == root && s'.jobs[i].terminal == d;
        } else {
          var k :| 0 <= k < |s.jobs| && s.jobs[k].root == root && s.jobs[k].terminal == d;
          assert s'.jobs[k].root == root && s'.jobs[k].terminal == d;
        }
      }
    }
  }

  lemma BeginKeeps(rules: Rules, s: State, root: Path, t: Path)
    requires Good(rules, s) && Owned(s) && MayBegin(s, root, t)
    ensures Good(rules, Step(rules, s, Begin(root, t))) && Owned(Step(rules, s, Begin(root, t)))
  {
    var s', j := Step(rules, s, Begin(root, t)), Job(root, t, Fetch);
    forall r, d ensures Served(s'.jobs, r, d) <==> Served(s.jobs, r, d) {
      ServedMore(s.jobs, j, r, d);
    }
    forall k | 0 <= k < |s'.jobs| ensures JobOk(rules, s', k) {
      if k < |s.jobs| {
        assert JobOk(rules, s, k);
      }
    }
    forall r, d | (r, d) in s'.cache && r <= d ensures Asked(s'.jobs, r, d) {
      var k :| 0 <= k < |s.jobs| && s.jobs[k].root == r && s.jobs[k].terminal == d;
      assert s'.jobs[k].root == r && s'.jobs[k].terminal == d;
    }
  }

  lemma {:induction false} RunsStayGood(rules: Rules, labels: seq<Label>)
    ensures Good(rules, Exec(rules, labels)) && Owned(Exec(rules, labels))
  {
    if labels != [] {
      var n := |labels| - 1;
      var s := Exec(rules, labels[..n]);
      RunsStayGood(rules, labels[..n]);
      match labels[n]
      case Begin(root, t) =>
        if MayBegin(s, root, t) {
          BeginKeeps(rules, s, root, t);
        }
      case Advance(i) =>
        AdvanceKeeps(rules, s, i);
        AdvanceKeepsOwned(rules, s, i);
    }
  }

  lemma AnsweredAgrees(rules: Rules, s: State, i: nat)
    requires Good(rules, s) && i < |s.jobs| && s.jobs[i].stage.Answered?
    ensures Agrees(rules, s.jobs[i].root, s.jobs[i].terminal, s.jobs[i].stage.answer)
  {
    var j := s.jobs[i];
    assert JobOk(rules, s, i);
    FaultMeans(rules, j.root, j.terminal);
    if j.stage.answer.Ok? {
      forall judge: Source -> Verdict {
        GoodHeadAgrees(rules, j.root, j.terminal, j.stage.answer.value, judge);
      }
    }
  }

  /** However the lookups of a walk interleave over the shared cache, each is answered like a
      freshly built chain: it fails on the same file, or decides alike on every path. */
  lemma InterleavedLookupsAgree(rules: Rules, labels: seq<Label>, i: nat)
    requires i < |Exec(rules, labels).jobs| && Exec(rules, labels).jobs[i].stage.Answered?
    ensures var j := Exec(rules, labels).jobs[i];
            Agrees(rules, j.root, j.terminal, j.stage.answer)
  {
    RunsStayGood(rules, labels);
    AnsweredAgrees(rules, Exec(rules, labels), i);
  }
}

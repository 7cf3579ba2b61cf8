/**
 The loop of `walk_single_thread` with the cache it keeps: every chain comes out of the cache,
 and the loop ends in the state it would reach with freshly built chains.
 */
module SerialCache {
  import opened Prelude
  import opened Gitignore
  import opened GitignoreCaching
  import opened WalkWorld
  import opened ParallelWalk
  import opened SerialWalk
  import opened SerialBooks
  import opened SerialLoop
  import opened SerialRuns
  import opened WalkReports
  import opened LookupOrder

  /** The ignore files of the world are `rules`, and no root is a plain file. */
  ghost predicate UsesRules(w: World, rules: Rules, roots: seq<Path>) {
    w.respectGitignore ==> RootsAreDirs(w, roots) && w.Follows(rules)
  }

  // ---------------------------------------------------------------- one lookup

  /** The verdict a looked-up chain gives. */
  function AnswerOf(rules: Rules, path: Path, isDir: bool, r: Result<Node, Source>): Result<bool, WalkItem> {
    match r
    case Err(s) => Err(Error(RulesFile(s), GitignoreRules, BadRules(s)))
    case Ok(node) => Ok(Decide(Chain(node), rules.Judge(path, isDir)))
  }

  /** `gitignore_for_path_local` and `path_is_ignored`. */
  method Ask(w: World, rules: Rules, cache: GitignoreCache, root: Path, path: Path, isDir: bool)
    returns (ignored: Result<bool, WalkItem>)
    modifies cache
    ensures !w.respectGitignore ==> ignored == Ok(false) && cache.entries == old(cache.entries)
    ensures w.respectGitignore ==>
      var (after, answer) := Lookup(rules, old(cache.entries), root, Terminal(root, path, isDir));
      cache.entries == after && ignored == AnswerOf(rules, path, isDir, answer)
  {
    if !w.respectGitignore {
      return Ok(false);
    }
    var r := cache.Get(rules, root, path, isDir);
    if r.Err? {
      return Err(Error(RulesFile(r.error), GitignoreRules, BadRules(r.error)));
    }
    var judge := rules.Judge(path, isDir);
    var matched := Matched(r.value, judge);
    DecideIsFirstDecisive(Chain(r.value), judge);
    assert matched == Decide(Chain(r.value), judge);
    return Ok(matched);
  }

  /** An answer that agrees with a fresh chain gives the verdict of the world. */
  lemma AgreeingVerdict(w: World, rules: Rules, root: Path, path: Path, isDir: bool, r: Result<Node, Source>)
    requires w.respectGitignore && w.Follows(rules) && Agrees(rules, root, Terminal(root, path, isDir), r)
    ensures AnswerOf(rules, path, isDir, r) == w.Ignored(root, path, isDir)
  {
    var t := Terminal(root, path, isDir);
    assert w.fault(root, t) == Fault(rules, root, t);
    assert w.decides(root, t, path, isDir) == Decide(FreshChain(rules, root, t), rules.Judge(path, isDir));
  }

  lemma ReplayMore(rules: Rules, h: seq<Request>, q: Request)
    ensures Replay(rules, h + [q]) == Lookup(rules, Replay(rules, h), q.root, q.terminal).0
  {
    assert (h + [q])[..|h|] == h;
  }

  /** The cache after the requests so far answers the next turn as a fresh chain would. */
  lemma TurnAnswerAgrees(w: World, rules: Rules, roots: seq<Path>, s: Serial)
    requires w.respectGitignore && RootsAreDirs(w, roots) && w.Follows(rules)
    requires s.queue != [] && QueueOk(w, roots, s) && AsksOkS(w, s)
    requires LooksUp(w, s.queue[0].path, w.stat(s.queue[0].path))
    ensures var item := s.queue[0]; var isDir := w.stat(item.path).Directory?;
      var (after, answer) := Lookup(rules, Replay(rules, s.requests), item.root, Terminal(item.root, item.path, isDir));
      && AnswerOf(rules, item.path, isDir, answer) == w.Ignored(item.root, item.path, isDir)
      && after == Replay(rules, s.requests + Asks(w, item))
  {
    var item := s.queue[0];
    var isDir := w.stat(item.path).Directory?;
    var q := Request(item.root, Terminal(item.root, item.path, isDir));
    var h := s.requests + [q];
    assert Asks(w, item) == [q];
    TurnAsks(w, roots, s);
    InOrderMore(w, s.requests, q);
    InOrderAnswersAgree(w, rules, h, |s.requests|);
    assert h[..|s.requests|] == s.requests;
    AgreeingVerdict(w, rules, item.root, item.path, isDir,
                    Lookup(rules, Replay(rules, s.requests), q.root, q.terminal).1);
    ReplayMore(rules, s.requests, q);
  }

  // ---------------------------------------------------------------- the loop

  /** The cache holds what the lookups so far have put there. */
  ghost predicate Cached(w: World, rules: Rules, cache: GitignoreCache, s: Serial)
    reads cache
  {
    w.respectGitignore ==> cache.entries == Replay(rules, s.requests)
  }

  /** One turn of the loop, with the cache. It is the turn the loop makes with fresh chains. */
  method TakeCachedTurn(w: World, rules: Rules, ghost roots: seq<Path>, cache: GitignoreCache, tx: Channel,
                        queue: seq<Item>, visitedDirs: set<DirId>, visitedFiles: set<Path>, ghost s: Serial)
    returns (queue': seq<Item>, visitedDirs': set<DirId>, visitedFiles': set<Path>, goOn: bool)
    requires queue != [] && Holding(tx, queue, visitedDirs, visitedFiles, s) && Cached(w, rules, cache, s)
    requires UsesRules(w, rules, roots) && (w.respectGitignore ==> QueueOk(w, roots, s) && AsksOkS(w, s))
    modifies cache, tx
    ensures Holding(tx, queue', visitedDirs', visitedFiles', Turn(w, s).0) && goOn == Turn(w, s).1
    ensures Cached(w, rules, cache, Turn(w, s).0)
  {
    var item := queue[0];
    var meta := w.stat(item.path);
    var outcome: Outcome;
    TurnRequests(w, s);
    var refused := Refuse(w, tx, item.root, item.path, meta);
    if refused.Some? {
      outcome := refused.value;
      assert s.requests + [] == s.requests;
    } else {
      if w.respectGitignore {
        TurnAnswerAgrees(w, rules, roots, s);
      }
      var ignored := Ask(w, rules, cache, item.root, item.path, meta.Directory?);
      outcome := Conclude(w, tx, item.root, item.path, meta, ignored);
    }
    queue', visitedDirs', visitedFiles', goOn := Act(w, tx, queue, visitedDirs, visitedFiles, outcome, s);
  }

  /** `walk_single_thread` with its cache. It ends in the state in which `WalkSingleThread` ends,
      so that what is proved of the serial engine holds of it. */
  method WalkWithCache(w: World, rules: Rules, roots: seq<Path>, tx: Channel) returns (ghost s: Serial)
    requires w.Finite() && Distinct(roots) && tx.sent == [] && UsesRules(w, rules, roots)
    modifies tx
    ensures IsSerialRun(w, roots, old(tx.room), s) && IsFinishedRun(w, roots, old(tx.room), s)
    ensures tx.sent == s.sent && tx.room == s.room
    ensures old(tx.room).None? ==> FullReport(w, roots, tx.sent, s.expanded)
    ensures old(tx.room).None? && w.TreeLike(roots) ==> w.Complete(roots, tx.sent)
  {
    var cache := new GitignoreCache();
    var visitedDirs: set<DirId> := {};
    var visitedFiles: set<Path> := {};
    s := Start(w, roots, tx.room);
    ghost var room, k: nat := tx.room, 0;
    StartItems(w, roots, room);
    var queue := EnqueueRoots(w, roots, tx);
    var goOn := true;
    while queue != [] && goOn
      invariant AfterTurns(w, roots, room, k) == Loop(s, goOn)
      invariant Holding(tx, queue, visitedDirs, visitedFiles, s) && Cached(w, rules, cache, s)
      invariant fresh(cache)
      decreases w.ids - visitedDirs, |queue|
    {
      TurnsKeepLoop(w, roots, room, k);
      FrontIsOk(w, roots, s);
      TurnDecreases(w, roots, s);
      OneMoreTurn(w, roots, room, k);
      if w.respectGitignore {
        TurnsKeepAsks(w, roots, room, k);
      }
      queue, visitedDirs, visitedFiles, goOn :=
        TakeCachedTurn(w, rules, roots, cache, tx, queue, visitedDirs, visitedFiles, s);
      s, k := Turn(w, s).0, k + 1;
    }
    LoopResult(w, roots, room, s, k);
  }

  /** Every lookup of every serial run, answered from its cache, agrees with an uncached chain. */
  lemma SerialLookupsAgree(w: World, rules: Rules, roots: seq<Path>, room: Option<nat>, s: Serial, k: nat)
    requires w.Finite() && Distinct(roots) && w.respectGitignore && UsesRules(w, rules, roots)
    requires IsSerialRun(w, roots, room, s) && k < |s.requests|
    ensures var q := s.requests[k];
      Agrees(rules, q.root, q.terminal, Lookup(rules, Replay(rules, s.requests[..k]), q.root, q.terminal).1)
  {
    SerialAsksInOrder(w, roots, room, s);
    InOrderAnswersAgree(w, rules, s.requests, k);
  }
}

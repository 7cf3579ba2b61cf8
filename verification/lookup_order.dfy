/**
 Both engines ask the ignore cache in the order under which a cached answer is a fresh one:
 a directory before anything below it, and again only after a successful first time.
 */
module LookupOrder {
  import opened Prelude
  import opened Gitignore
  import opened GitignoreCaching
  import opened WalkWorld
  import opened ParallelWalk
  import opened ParallelProtocol
  import opened ParallelItems
  import opened ParallelBooks
  import opened Bags
  import SerialWalk
  import SerialBooks

  /** The roots are not plain files. (The chain of a file root lies outside its own walk root.) */
  ghost predicate RootsAreDirs(w: World, roots: seq<Path>) {
    forall r :: r in roots ==> !w.stat(r).NonDirectory?
  }

  /** The request `q` after the requests `h`: nobody passed through its directory before, or it
      was asked for first itself, and then its chain could be read. */
  predicate AsksWell(w: World, h: seq<Request>, q: Request) {
    q.root <= q.terminal &&
    (|| FirstTouch(h, q.root, q.terminal).None?
     || (FirstTouch(h, q.root, q.terminal) == Some(q.terminal) && w.fault(q.root, q.terminal).None?))
  }

  predicate AsksWellAt(w: World, h: seq<Request>, k: nat)
    requires k < |h|
  {
    AsksWell(w, h[..k], h[k])
  }

  ghost predicate InOrder(w: World, h: seq<Request>) {
    forall k :: 0 <= k < |h| ==> AsksWellAt(w, h, k)
  }

  lemma InOrderMore(w: World, h: seq<Request>, q: Request)
    requires InOrder(w, h) && AsksWell(w, h, q)
    ensures InOrder(w, h + [q])
  {
    var more := h + [q];
    forall k | 0 <= k < |more| ensures AsksWellAt(w, more, k) {
      assert more[..k] == if k < |h| then h[..k] else h;
      assert k < |h| ==> AsksWellAt(w, h, k);
    }
  }

  lemma InOrderTake(w: World, h: seq<Request>, n: nat)
    requires InOrder(w, h) && n <= |h|
    ensures InOrder(w, h[..n])
  {
    forall k | 0 <= k < n ensures AsksWellAt(w, h[..n], k) {
      assert AsksWellAt(w, h, k) && h[..n][..k] == h[..k];
    }
  }

  /** Whoever was asked for in order was the first to pass through its own directory. */
  lemma {:induction false} AskedIsFirst(w: World, h: seq<Request>, q: Request)
    requires InOrder(w, h) && q in h
    ensures FirstTouch(h, q.root, q.terminal) == Some(q.terminal)
  {
    var init, last := h[..|h| - 1], h[|h| - 1];
    assert h == init + [last];
    FirstTouchAppend(init, last, q.root, q.terminal);
    if q in init {
      InOrderTake(w, h, |h| - 1);
      AskedIsFirst(w, init, q);
    } else {
      assert AsksWellAt(w, h, |h| - 1);
    }
  }

  /** A history in order is answered by the cache as by fresh chains, request by request. */
  lemma InOrderAnswersAgree(w: World, rules: Rules, h: seq<Request>, k: nat)
    requires w.Follows(rules) && InOrder(w, h) && k < |h|
    ensures Agrees(rules, h[k].root, h[k].terminal,
              Lookup(rules, Replay(rules, h[..k]), h[k].root, h[k].terminal).1)
  {
    var q := h[k];
    assert AsksWellAt(w, h, k);
    forall p | p in h[..k] ensures p.root <= p.terminal {
      var j :| 0 <= j < k && h[j] == p;
      assert AsksWellAt(w, h, j);
    }
    FaultMeans(rules, q.root, q.terminal);
    CachedAnswerAgreesIff(rules, h[..k], q.root, q.terminal);
  }

  // ---------------------------------------------------------------- the parallel engine

  /** The directory a request asked for is settled, or a worker is about to claim it. */
  ghost predicate AskedFor(s: State, q: Request) {
    q.root <= q.terminal &&
    (|| Spot(q.root, q.terminal) in s.done
     || exists i :: 0 <= i < |s.workers| && AtTest(s.workers[i], q))
  }

  predicate AtTest(k: Worker, q: Request) {
    k.TestDir? && k.item.Where() == Spot(q.root, q.terminal)
  }

  ghost predicate AsksOk(w: World, s: State) {
    && InOrder(w, s.requests)
    && (forall q :: q in s.requests ==> AskedFor(s, q))
    && (forall x :: x in s.done && w.Classify(x).EnterDir? ==> Request(x.root, x.path) in s.requests)
    && (forall i :: 0 <= i < |s.workers| && s.workers[i].TestDir? ==>
          Request(s.workers[i].item.root, s.workers[i].item.path) in s.requests)
  }

  /** Every directory above a known path is settled. */
  lemma {:induction false} AboveIsDone(w: World, roots: seq<Path>, s: State, y: Spot, p: Path)
    requires Placed(w, s) && (Pending(w, s, y) > 0 || y in s.done)
    requires y.root <= p && p <= y.path && p != y.path
    ensures Spot(y.root, p) in s.done
    decreases |y.path|
  {
    assert PlacedAt(w, s, y);
    var z := y.Parent();
    if p == z.path {
      assert z == Spot(y.root, p);
    } else {
      assert p <= z.path;
      AboveIsDone(w, roots, s, z, p);
    }
  }

  /** A path a worker has popped was not asked for, and neither was anything below it. */
  lemma PoppedIsUntouched(w: World, roots: seq<Path>, s: State, i: nat, q: Request)
    requires Placed(w, s) && AsksOk(w, s) && i < |s.workers| && s.workers[i].Popped?
    requires ItemOk(w, roots, s.workers[i].item) && q in s.requests
    ensures !Touches(q, s.workers[i].item.root, s.workers[i].item.path)
  {
    var x := s.workers[i].item.Where();
    HeldIsPending(w, s, i, x);
    assert PlacedAt(w, s, x);
    assert AskedFor(s, q);
    var y := Spot(q.root, q.terminal);
    if Touches(q, x.root, x.path) {
      if y !in s.done {
        var j :| 0 <= j < |s.workers| && AtTest(s.workers[j], q);
        HeldIsPending(w, s, j, y);
        SumNatTwo(Held(w, x), s.workers, i, j);
      }
      assert y != x;
      AboveIsDone(w, roots, s, y, x.path);
    }
  }

  lemma {:induction false} SumNatTwo<W>(f: W -> nat, ws: seq<W>, i: nat, j: nat)
    requires i < |ws| && j < |ws| && i != j
    ensures f(ws[i]) + f(ws[j]) <= SumNat(f, ws)
  {
    var n := |ws| - 1;
    if i == n {
      SumNatPart(f, ws[..n], j);
    } else if j == n {
      SumNatPart(f, ws[..n], i);
    } else {
      SumNatTwo(f, ws[..n], i, j);
    }
  }

  lemma DirAsk(w: World, roots: seq<Path>, s: State, i: nat)
    requires Placed(w, s) && AsksOk(w, s) && i < |s.workers| && s.workers[i].Popped?
    requires ItemOk(w, roots, s.workers[i].item)
    ensures AsksWell(w, s.requests, Request(s.workers[i].item.root, s.workers[i].item.path))
  {
    var item := s.workers[i].item;
    forall k | 0 <= k < |s.requests| ensures !Touches(s.requests[k], item.root, item.path) {
      PoppedIsUntouched(w, roots, s, i, s.requests[k]);
    }
    FirstTouchMeans(s.requests, item.root, item.path);
  }

  /** A file below a root is looked up in the chain of its settled directory. */
  lemma FileAsk(w: World, roots: seq<Path>, s: State, y: Spot)
    requires w.respectGitignore && Placed(w, s) && AsksOk(w, s)
    requires Pending(w, s, y) > 0 && w.Walked(roots, y) && !y.IsRoot()
    ensures y.path != [] && y.Parent() in s.done && y.root <= y.Parent().path
    ensures AsksWell(w, s.requests, Request(y.root, y.Parent().path))
  {
    assert PlacedAt(w, s, y);
    var x := y.Parent();
    assert w.Walked(roots, x) && w.Classify(x).EnterDir?;
    AskedIsFirst(w, s.requests, Request(x.root, x.path));
  }

  /** A step asks at most one thing, in order, and what it asks for is accounted for after it. */
  predicate AskFits(w: World, s: State, e: Effect) {
    e.requests == [] || (
      && |e.requests| == 1 && AsksWell(w, s.requests, e.requests[0])
      && (var x := Spot(e.requests[0].root, e.requests[0].terminal);
          x in s.done || x in e.settled || AtTest(e.next, e.requests[0])))
  }

  lemma StepAsks(w: World, roots: seq<Path>, s: State, i: nat)
    requires w.respectGitignore && RootsAreDirs(w, roots)
    requires ItemsOk(w, roots, s) && Placed(w, s) && AsksOk(w, s)
    requires i < |s.workers| && Runnable(s.workers[i])
    ensures AskFits(w, s, EffectOf(w, s.shared, s.open, s.workers[i]))
  {
    var k := s.workers[i];
    assert WorkerOk(w, roots, k);
    match k {
      case Popped(item) => PoppedAsks(w, roots, s, i);
      case Scanning(item, rest, dirs) =>
        if rest != [] && w.stat(item.Where().Child(rest[0]).path).NonDirectory? {
          ScanAsks(w, roots, s, i);
        }
      case _ =>
    }
  }

  lemma VisitAsks(w: World, roots: seq<Path>, item: Item)
    requires w.respectGitignore && ItemOk(w, roots, item)
    ensures var e := Visit(w, item); var meta := w.stat(item.path);
      && (w.TooLong(item.path) || meta.Missing? ==> e.requests == [])
      && (!w.TooLong(item.path) && !meta.Missing? ==>
           e.requests == [Request(item.root, Terminal(item.root, item.path, meta.Directory?))])
      && (item.Where() in e.settled || e.next.TestRoot? || (e.next.TestDir? && e.next.item == item))
      && (e.next.TestRoot? ==> !meta.Directory?)
  {
  }

  lemma PoppedAsk(w: World, roots: seq<Path>, s: State, i: nat)
    requires w.respectGitignore && RootsAreDirs(w, roots)
    requires Placed(w, s) && AsksOk(w, s)
    requires i < |s.workers| && s.workers[i].Popped? && ItemOk(w, roots, s.workers[i].item)
    requires !w.stat(s.workers[i].item.path).Missing?
    ensures var item := s.workers[i].item; var meta := w.stat(item.path);
      var t := Terminal(item.root, item.path, meta.Directory?);
      AsksWell(w, s.requests, Request(item.root, t)) && (!meta.Directory? ==> Spot(item.root, t) in s.done)
  {
    var item := s.workers[i].item;
    var x := item.Where();
    HeldIsPending(w, s, i, x);
    if w.stat(item.path).Directory? {
      DirAsk(w, roots, s, i);
    } else {
      assert !x.IsRoot();
      FileAsk(w, roots, s, x);
    }
  }

  lemma PoppedAsks(w: World, roots: seq<Path>, s: State, i: nat)
    requires w.respectGitignore && RootsAreDirs(w, roots)
    requires Placed(w, s) && AsksOk(w, s)
    requires i < |s.workers| && s.workers[i].Popped? && ItemOk(w, roots, s.workers[i].item)
    ensures AskFits(w, s, Visit(w, s.workers[i].item))
  {
    var item := s.workers[i].item;
    var e := Visit(w, item);
    VisitAsks(w, roots, item);
    if e.requests != [] {
      PoppedAsk(w, roots, s, i);
    }
  }

  lemma ScanAsks(w: World, roots: seq<Path>, s: State, i: nat)
    requires w.respectGitignore && Placed(w, s) && AsksOk(w, s)
    requires i < |s.workers| && s.workers[i].Scanning? && s.workers[i].rest != []
    requires WorkerOk(w, roots, s.workers[i])
    ensures var item := s.workers[i].item;
      item.Where() in s.done && AsksWell(w, s.requests, Request(item.root, item.path))
      && Terminal(item.root, item.Where().Child(s.workers[i].rest[0]).path, false) == item.path
  {
    var k := s.workers[i];
    var x := k.item.Where();
    var y := x.Child(k.rest[0]);
    assert k.rest[0] in k.rest;
    w.WalkedChild(roots, x, k.rest[0]);
    HeldIsPending(w, s, i, y);
    FileAsk(w, roots, s, y);
  }

  /** A directory that is entered is settled by its claim only. */
  predicate SettlesByClaim(w: World, k: Worker, e: Effect) {
    && (forall x :: x in e.settled && w.Classify(x).EnterDir? ==> k.TestDir? && x == k.item.Where())
    && (k.TestDir? ==> k.item.Where() in e.settled)
    && (e.next.TestDir? ==> e.requests == [Request(e.next.item.root, e.next.item.path)])
  }

  lemma VisitSettles(w: World, roots: seq<Path>, item: Item)
    requires w.respectGitignore && ItemOk(w, roots, item)
    ensures SettlesByClaim(w, Popped(item), Visit(w, item))
  {
    var c := w.Classify(item.Where());
    assert c == w.ClassifyWith(item.root, item.path, MetaOf(w, item));
  }

  lemma ScanSettles(w: World, item: Item, rest: seq<Name>, dirs: seq<Item>)
    ensures SettlesByClaim(w, Scanning(item, rest, dirs), ScanNext(w, item, rest, dirs))
  {
    if rest != [] {
      w.ScanIsClassify(item.root, item.Where().Child(rest[0]).path);
    }
  }

  lemma StepSettles(w: World, roots: seq<Path>, s: Shared, open: bool, k: Worker)
    requires w.respectGitignore && Runnable(k) && WorkerOk(w, roots, k)
    ensures SettlesByClaim(w, k, EffectOf(w, s, open, k))
  {
    match k {
      case Popped(item) => VisitSettles(w, roots, item);
      case Scanning(item, rest, dirs) => ScanSettles(w, item, rest, dirs);
      case _ =>
    }
  }

  lemma ApplyKeepsAsks(w: World, s: State, i: nat, e: Effect)
    requires AsksOk(w, s) && i < |s.workers| && Runnable(s.workers[i]) && (e.pop ==> s.shared.queue != [])
    requires AskFits(w, s, e) && SettlesByClaim(w, s.workers[i], e)
    ensures AsksOk(w, Apply(s, i, e))
  {
    var k := s.workers[i];
    var s' := Apply(s, i, e);
    if e.requests == [] {
      assert s'.requests == s.requests;
    } else {
      assert e.requests == [e.requests[0]];
      InOrderMore(w, s.requests, e.requests[0]);
    }
    assert s'.workers[i] == e.next;
    forall q | q in s'.requests ensures AskedFor(s', q) {
      if q in s.requests {
        assert AskedFor(s, q);
        if Spot(q.root, q.terminal) !in s.done {
          var j :| 0 <= j < |s.workers| && AtTest(s.workers[j], q);
          assert j != i ==> AtTest(s'.workers[j], q);
        }
      } else {
        assert q == e.requests[0];
      }
    }
  }

  lemma StepKeepsAsks(w: World, roots: seq<Path>, s: State, l: Label)
    requires w.respectGitignore && RootsAreDirs(w, roots)
    requires ItemsOk(w, roots, s) && Placed(w, s) && AsksOk(w, s)
    ensures AsksOk(w, Step(w, s, l))
  {
    if Enabled(s, l) {
      match l {
        case Run(i) =>
          assert WorkerOk(w, roots, s.workers[i]);
          StepShape(w, s.shared, s.open, s.workers[i]);
          StepAsks(w, roots, s, i);
          StepSettles(w, roots, s.shared, s.open, s.workers[i]);
          ApplyKeepsAsks(w, s, i, EffectOf(w, s.shared, s.open, s.workers[i]));
        case Wake(i) =>
          var s' := Step(w, s, l);
          forall q | q in s'.requests ensures AskedFor(s', q) {
            assert AskedFor(s, q);
            if Spot(q.root, q.terminal) !in s.done {
              var j :| 0 <= j < |s.workers| && AtTest(s.workers[j], q);
              assert AtTest(s'.workers[j], q);
            }
          }
        case CloseChannel =>
          var s' := Step(w, s, l);
          assert forall q :: AskedFor(s', q) <==> AskedFor(s, q);
      }
    }
  }

  lemma {:induction false} RunsKeepAsks(w: World, roots: seq<Path>, n: nat, labels: seq<Label>)
    requires w.Finite() && Distinct(roots) && w.respectGitignore && RootsAreDirs(w, roots)
    ensures AsksOk(w, Exec(w, Init(roots, n), labels))
  {
    if labels != [] {
      var before := labels[..|labels| - 1];
      RunsKeepAsks(w, roots, n, before);
      RunsKeepItems(w, roots, n, before);
      RunsKeepPlaced(w, roots, n, before);
      StepKeepsAsks(w, roots, Exec(w, Init(roots, n), before), labels[|labels| - 1]);
    }
  }

  /** Every ignore lookup of every run of the parallel engine, answered from the shared cache,
      agrees with an uncached chain. */
  lemma ParallelLookupsAgree(w: World, rules: Rules, roots: seq<Path>, n: nat, labels: seq<Label>, k: nat)
    requires w.Finite() && Distinct(roots) && w.respectGitignore && RootsAreDirs(w, roots) && w.Follows(rules)
    requires k < |Exec(w, Init(roots, n), labels).requests|
    ensures var h := Exec(w, Init(roots, n), labels).requests;
      Agrees(rules, h[k].root, h[k].terminal, Lookup(rules, Replay(rules, h[..k]), h[k].root, h[k].terminal).1)
  {
    RunsKeepAsks(w, roots, n, labels);
    InOrderAnswersAgree(w, rules, Exec(w, Init(roots, n), labels).requests, k);
  }

  // ---------------------------------------------------------------- the serial engine

  ghost predicate AsksOkS(w: World, s: SerialWalk.Serial) {
    && InOrder(w, s.requests)
    && (forall q :: q in s.requests ==> q.root <= q.terminal && Spot(q.root, q.terminal) in s.done)
    && (forall x :: x in s.done && w.Classify(x).EnterDir? ==> Request(x.root, x.path) in s.requests)
  }

  lemma {:induction false} AboveIsDoneS(w: World, roots: seq<Path>, s: SerialWalk.Serial, y: Spot, p: Path)
    requires SerialBooks.QueueOk(w, roots, s) && SerialBooks.KnownS(s, y)
    requires y.root <= p && p <= y.path && p != y.path
    ensures Spot(y.root, p) in s.done
    decreases |y.path|
  {
    assert SerialBooks.PlacedAtS(s, y);
    var z := y.Parent();
    if p == z.path {
      assert z == Spot(y.root, p);
    } else {
      assert p <= z.path;
      AboveIsDoneS(w, roots, s, z, p);
    }
  }

  lemma TurnDirAsk(w: World, roots: seq<Path>, s: SerialWalk.Serial)
    requires s.queue != [] && SerialBooks.QueueOk(w, roots, s) && AsksOkS(w, s)
    ensures AsksWell(w, s.requests, Request(s.queue[0].root, s.queue[0].path))
  {
    var x := s.queue[0].Where();
    SpotsMember(s.queue, x);
    assert SerialBooks.PlacedAtS(s, x);
    assert ItemOk(w, roots, s.queue[0]);
    forall k | 0 <= k < |s.requests| ensures !Touches(s.requests[k], x.root, x.path) {
      var q := s.requests[k];
      assert q in s.requests;
      if Touches(q, x.root, x.path) {
        assert Spot(q.root, q.terminal) != x;
        AboveIsDoneS(w, roots, s, Spot(q.root, q.terminal), x.path);
      }
    }
    FirstTouchMeans(s.requests, x.root, x.path);
  }

  lemma TurnFileAsk(w: World, roots: seq<Path>, s: SerialWalk.Serial)
    requires w.respectGitignore && s.queue != [] && !s.queue[0].Where().IsRoot()
    requires SerialBooks.QueueOk(w, roots, s) && AsksOkS(w, s)
    ensures var x := s.queue[0].Where();
      x.path != [] && x.Parent() in s.done && AsksWell(w, s.requests, Request(x.root, x.Parent().path))
  {
    var x := s.queue[0].Where();
    SpotsMember(s.queue, x);
    assert SerialBooks.PlacedAtS(s, x);
    assert ItemOk(w, roots, s.queue[0]);
    var z := x.Parent();
    assert w.Walked(roots, z) && w.Classify(z).EnterDir?;
    AskedIsFirst(w, s.requests, Request(z.root, z.path));
  }

  lemma AsksMeans(w: World, item: Item)
    requires w.respectGitignore
    ensures var asks := SerialWalk.Asks(w, item);
      asks == [] || (!w.stat(item.path).Missing?
        && asks == [Request(item.root, Terminal(item.root, item.path, w.stat(item.path).Directory?))])
  {
  }

  /** Nothing is asked for, or one thing in order that is settled. */
  predicate AskPlaced(w: World, h: seq<Request>, asks: seq<Request>, settled: set<Spot>) {
    asks == [] || (|asks| == 1 && AsksWell(w, h, asks[0]) && Spot(asks[0].root, asks[0].terminal) in settled)
  }

  lemma SoleAsk(w: World, h: seq<Request>, asks: seq<Request>, q: Request, settled: set<Spot>)
    requires asks == [q] && AsksWell(w, h, q) && Spot(q.root, q.terminal) in settled
    ensures AskPlaced(w, h, asks, settled)
  {
  }

  /** The requests of a turn are in order, and their directory is settled after the turn. */
  lemma TurnAsks(w: World, roots: seq<Path>, s: SerialWalk.Serial)
    requires w.respectGitignore && RootsAreDirs(w, roots)
    requires s.queue != [] && SerialBooks.QueueOk(w, roots, s) && AsksOkS(w, s)
    ensures AskPlaced(w, s.requests, SerialWalk.Asks(w, s.queue[0]), s.done + {s.queue[0].Where()})
  {
    var item := s.queue[0];
    var asks := SerialWalk.Asks(w, item);
    AsksMeans(w, item);
    if asks != [] {
      if w.stat(item.path).Directory? {
        TurnDirAsk(w, roots, s);
        SoleAsk(w, s.requests, asks, Request(item.root, item.path), s.done + {item.Where()});
      } else {
        FrontIsNoRoot(w, roots, s);
        TurnFileAsk(w, roots, s);
        SoleAsk(w, s.requests, asks, Request(item.root, item.Where().Parent().path), s.done + {item.Where()});
      }
    }
  }

  lemma FrontIsNoRoot(w: World, roots: seq<Path>, s: SerialWalk.Serial)
    requires RootsAreDirs(w, roots) && s.queue != [] && SerialBooks.QueueOk(w, roots, s)
    requires w.stat(s.queue[0].path).NonDirectory?
    ensures !s.queue[0].Where().IsRoot()
  {
    assert ItemOk(w, roots, s.queue[0]);
  }

  lemma EnterAsks(w: World, item: Item)
    requires w.respectGitignore && w.Classify(item.Where()).EnterDir?
    ensures SerialWalk.Asks(w, item) == [Request(item.root, item.path)]
  {
  }

  lemma TurnRequests(w: World, s: SerialWalk.Serial)
    requires s.queue != []
    ensures SerialWalk.Turn(w, s).0.requests == s.requests + SerialWalk.Asks(w, s.queue[0])
  {
  }

  lemma TurnKeepsAsks(w: World, roots: seq<Path>, s: SerialWalk.Serial)
    requires w.respectGitignore && RootsAreDirs(w, roots)
    requires s.queue != [] && SerialBooks.QueueOk(w, roots, s) && AsksOkS(w, s)
    ensures AsksOkS(w, SerialWalk.Turn(w, s).0)
  {
    var item := s.queue[0];
    var x := item.Where();
    var s' := SerialWalk.Turn(w, s).0;
    SerialBooks.TurnShape(w, roots, s);
    TurnRequests(w, s);
    TurnAsks(w, roots, s);
    var asks := SerialWalk.Asks(w, item);
    if asks == [] {
      assert s'.requests == s.requests;
    } else {
      assert asks == [asks[0]];
      InOrderMore(w, s.requests, asks[0]);
    }
    assert x in s'.done;
    forall z | z in s'.done && w.Classify(z).EnterDir? ensures Request(z.root, z.path) in s'.requests {
      TurnSettlesDirs(w, roots, s, z);
      if z == x {
        EnterAsks(w, item);
        assert asks[0] in s'.requests;
      }
    }
  }

  lemma TurnSettlesDirs(w: World, roots: seq<Path>, s: SerialWalk.Serial, z: Spot)
    requires s.queue != [] && ItemOk(w, roots, s.queue[0])
    requires z in SerialWalk.Turn(w, s).0.done && w.Classify(z).EnterDir?
    ensures z in s.done || z == s.queue[0].Where()
  {
    SerialBooks.TurnShape(w, roots, s);
    SerialBooks.TurnBalance(w, roots, s, z);
  }

  lemma StartAsks(w: World, roots: seq<Path>, room: Option<nat>)
    requires w.Finite() && Distinct(roots)
    ensures AsksOkS(w, SerialWalk.Start(w, roots, room))
  {
    SerialBooks.StartItems(w, roots, room);
    var s := SerialWalk.Start(w, roots, room);
    forall x | x in s.done ensures !w.Classify(x).EnterDir? {
      SerialBooks.StartMeets(w, roots, room, x);
      assert SerialBooks.StartedAt(w, roots, s, x);
    }
  }
}

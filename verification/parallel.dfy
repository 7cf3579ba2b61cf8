/**
 `walk_multi_thread` as a state machine. One step of one worker is one critical section of
 the work mutex, one send, or one stretch of local code; the schedule is arbitrary, sleeping
 workers may wake spuriously, and the receiver may go away at any time.
 */
module ParallelWalk {
  import opened Prelude
  import opened Gitignore
  import opened WalkWorld
  import GitignoreCaching

  /** A queue entry; `meta` is what the scanning worker already knows about the path. */
  datatype Item = Item(path: Path, depth: nat, root: Path, meta: Option<Stat>) {
    function Where(): Spot { Spot(root, path) }
  }

  /** Where a worker stands in its loop. */
  datatype Worker =
    | Ready                                                              // about to lock and look for work
    | Asleep                                                             // waiting on the condition variable
    | Popped(item: Item)                                                 // counted in `active`
    | TestDir(item: Item, id: DirId)                                     // about to insert into visited_dirs
    | Expand(item: Item)                                                 // the directory is this worker's
    | Reporting(item: Item, names: seq<Name>, errors: seq<IoError>)      // sending entry errors
    | Scanning(item: Item, rest: seq<Name>, dirs: seq<Item>)             // children left, directories found
    | TestChild(item: Item, rest: seq<Name>, dirs: seq<Item>, file: WalkItem)   // about to insert a child file
    | SendChild(item: Item, rest: seq<Name>, dirs: seq<Item>, file: WalkItem)   // inserted, not yet sent
    | TestRoot(item: Item, file: WalkItem)                               // about to insert a popped file
    | SendRoot(item: Item, file: WalkItem)                               // inserted, not yet sent
    | Finishing(closed: bool)                                            // about to run signal_done_locked
    | Left(drained: bool)                                                // out of the loop

  /** The fields of `WorkState`. */
  datatype Shared = Shared(active: int, queue: seq<Item>, visitedDirs: set<DirId>, visitedFiles: set<Path>)

  /** The whole run. `done`, `expanded` and `requests` are history: which visits were settled,
      which directories were claimed in which order, and which ignore chains were asked for. */
  datatype State = State(
    shared: Shared,
    workers: seq<Worker>,
    open: bool,
    sent: seq<Event>,
    done: set<Spot>,
    expanded: seq<DirId>,
    requests: seq<GitignoreCaching.Request>
  )

  function RootItems(roots: seq<Path>): (r: seq<Item>)
    ensures |r| == |roots|
  {
    seq(|roots|, i requires 0 <= i < |roots| => Item(roots[i], 0, roots[i], None))
  }

  function Init(roots: seq<Path>, parallelism: nat): State {
    State(Shared(0, RootItems(roots), {}, {}), seq(parallelism, _ => Ready), true, [], {}, [], [])
  }

  function WakeAll(ws: seq<Worker>): (r: seq<Worker>)
    ensures |r| == |ws|
    ensures forall i :: 0 <= i < |ws| ==> r[i] == if ws[i].Asleep? then Ready else ws[i]
  {
    seq(|ws|, i requires 0 <= i < |ws| => if ws[i].Asleep? then Ready else ws[i])
  }

  // ---------------------------------------------------------------- one step

  /** What a step does to the run, besides moving its own worker to `next`. */
  datatype Effect = Effect(
    next: Worker,
    pop: bool,
    push: seq<Item>,
    active: int,
    wake: bool,
    dir: Option<DirId>,
    file: Option<Path>,
    sends: seq<Event>,
    settled: set<Spot>,
    requests: seq<GitignoreCaching.Request>
  )

  function Go(next: Worker): Effect {
    Effect(next, false, [], 0, false, None, None, [], {}, [])
  }

  /** `signal_done_locked`, and then on to `next`. */
  function SignalDone(s: Shared, next: Worker): Effect {
    Go(next).(active := -1, wake := s.active - 1 == 0 && s.queue == [])
  }

  function AsksFor(w: World, root: Path, path: Path, isDir: bool): seq<GitignoreCaching.Request> {
    if w.respectGitignore then [GitignoreCaching.Request(root, Terminal(root, path, isDir))] else []
  }

  function MetaOf(w: World, item: Item): Stat {
    if item.meta.Some? then item.meta.value else w.stat(item.path)
  }

  function TakeWork(s: Shared): Effect {
    if s.queue != [] then
      Go(Popped(s.queue[|s.queue| - 1])).(pop := true, active := 1)
    else if s.active == 0 then
      Go(Left(true)).(wake := true)
    else
      Go(Asleep)
  }

  function Visit(w: World, item: Item): Effect {
    var meta := MetaOf(w, item);
    var asks :=
      if w.TooLong(item.path) || meta.Missing? then [] else AsksFor(w, item.root, item.path, meta.Directory?);
    match w.ClassifyWith(item.root, item.path, meta)
    case Drop(sends) =>
      Go(Finishing(false)).(sends := At(item.Where(), sends), settled := {item.Where()}, requests := asks)
    case EnterDir(id) => Go(TestDir(item, id)).(requests := asks)
    case OfferFile(file) => Go(TestRoot(item, file)).(requests := asks)
  }

  function ClaimDir(s: Shared, item: Item, id: DirId): Effect {
    if id in s.visitedDirs then
      SignalDone(s, Ready).(settled := {item.Where()})
    else
      Go(Expand(item)).(dir := Some(id), settled := {item.Where()})
  }

  function ListDir(w: World, item: Item): Effect {
    if !w.DepthAllows(item.depth) then
      Go(Finishing(false))
    else
      match w.list(item.path)
      case ListFailed(e) => Go(Finishing(false)).(sends := [Event(item.Where(), Error(item.path, ReadDir, Io(e)))])
      case Listed(names, errors) => Go(Reporting(item, names, errors))
  }

  function Report(w: World, item: Item, names: seq<Name>, errors: seq<IoError>): Effect {
    if errors == [] then
      Go(Scanning(item, names, []))
    else
      Go(Reporting(item, names, errors[1..])).(sends := [Event(item.Where(), Error(item.path, ReadDir, Io(errors[0])))])
  }

  /** The next child of a listed directory, or the hand-over of the directories found. */
  function ScanNext(w: World, item: Item, rest: seq<Name>, dirs: seq<Item>): Effect {
    if rest == [] then
      Go(Finishing(false)).(push := dirs, wake := dirs != [])
    else
      var child := item.Where().Child(rest[0]).path;
      var asks :=
        if w.TooLong(child) || !w.stat(child).NonDirectory? then [] else AsksFor(w, item.root, child, false);
      ScanChild(item, rest, dirs, w.Scan(item.root, child)).(requests := asks)
  }

  function ScanChild(item: Item, rest: seq<Name>, dirs: seq<Item>, found: Scanned): Effect
    requires rest != []
  {
    var child := item.Where().Child(rest[0]);
    match found
    case Push(meta) => Go(Scanning(item, rest[1..], dirs + [Item(child.path, item.depth + 1, item.root, Some(meta))]))
    case Pass(sends) => Go(Scanning(item, rest[1..], dirs)).(sends := At(child, sends), settled := {child})
    case Abort(send) => Go(Finishing(true)).(sends := At(child, [send]), settled := {child})
    case Claim(file) => Go(TestChild(item, rest, dirs, file))
  }

  function ClaimChild(s: Shared, item: Item, rest: seq<Name>, dirs: seq<Item>, file: WalkItem): Effect
    requires rest != []
  {
    var child := item.Where().Child(rest[0]);
    if child.path in s.visitedFiles then
      Go(Scanning(item, rest[1..], dirs)).(settled := {child})
    else
      Go(SendChild(item, rest[1..], dirs, file)).(file := Some(child.path), settled := {child})
  }

  function ClaimRoot(s: Shared, item: Item, file: WalkItem): Effect {
    if item.path in s.visitedFiles then
      SignalDone(s, Ready).(settled := {item.Where()})
    else
      Go(SendRoot(item, file)).(file := Some(item.path), settled := {item.Where()})
  }

  /** The step of a worker that stands at `k`. */
  function EffectOf(w: World, s: Shared, open: bool, k: Worker): Effect {
    match k
    case Ready => TakeWork(s)
    case Popped(item) => Visit(w, item)
    case TestDir(item, id) => ClaimDir(s, item, id)
    case Expand(item) => ListDir(w, item)
    case Reporting(item, names, errors) => Report(w, item, names, errors)
    case Scanning(item, rest, dirs) => ScanNext(w, item, rest, dirs)
    case TestChild(item, rest, dirs, file) =>
      if rest == [] then Go(k) else ClaimChild(s, item, rest, dirs, file)
    case SendChild(item, rest, dirs, file) =>
      Go(if open then Scanning(item, rest, dirs) else Finishing(true))
        .(sends := [Event(Spot(item.root, file.path), file)])
    case TestRoot(item, file) => ClaimRoot(s, item, file)
    case SendRoot(item, file) => Go(Finishing(!open)).(sends := [Event(item.Where(), file)])
    case Finishing(closed) => SignalDone(s, if closed then Left(false) else Ready)
    case Asleep => Go(k)
    case Left(_) => Go(k)
  }

  /** What an effect does to the fields under the work mutex. */
  function ApplyShared(s: Shared, e: Effect): Shared
    requires e.pop ==> s.queue != []
  {
    Shared(
      s.active + e.active,
      (if e.pop then s.queue[..|s.queue| - 1] else s.queue) + e.push,
      if e.dir.Some? then s.visitedDirs + {e.dir.value} else s.visitedDirs,
      if e.file.Some? then s.visitedFiles + {e.file.value} else s.visitedFiles)
  }

  /** Carry out an effect for worker `i`; a send reaches the channel only while it is open. */
  function Apply(s: State, i: nat, e: Effect): State
    requires i < |s.workers| && (e.pop ==> s.shared.queue != [])
  {
    State(
      ApplyShared(s.shared, e),
      (if e.wake then WakeAll(s.workers) else s.workers)[i := e.next],
      s.open,
      if s.open then s.sent + e.sends else s.sent,
      s.done + e.settled,
      if e.dir.Some? then s.expanded + [e.dir.value] else s.expanded,
      s.requests + e.requests)
  }

  // ---------------------------------------------------------------- runs

  datatype Label = Run(i: nat) | Wake(i: nat) | CloseChannel

  predicate Runnable(k: Worker) {
    !k.Asleep? && !k.Left?
  }

  /** Whether a label names something that can happen in `s`. */
  predicate Enabled(s: State, l: Label) {
    match l
    case Run(i) => i < |s.workers| && Runnable(s.workers[i])
    case Wake(i) => i < |s.workers| && s.workers[i].Asleep?
    case CloseChannel => s.open
  }

  function Step(w: World, s: State, l: Label): State {
    if !Enabled(s, l) then
      s
    else
      match l
      case Run(i) => Apply(s, i, EffectOf(w, s.shared, s.open, s.workers[i]))
      case Wake(i) => s.(workers := s.workers[i := Ready])
      case CloseChannel => s.(open := false)
  }

  /** The state after a schedule. Labels that are not enabled change nothing, so every list
      of labels is a run and every run is one. */
  function Exec(w: World, s: State, labels: seq<Label>): State {
    if labels == [] then s else Step(w, Exec(w, s, labels[..|labels| - 1]), labels[|labels| - 1])
  }

  /** `s` is reached by some schedule. */
  ghost predicate IsRun(w: World, roots: seq<Path>, n: nat, s: State) {
    exists labels :: s == Exec(w, Init(roots, n), labels)
  }

  lemma RunGoesOn(w: World, roots: seq<Path>, n: nat, s: State, l: Label)
    requires IsRun(w, roots, n, s)
    ensures IsRun(w, roots, n, Step(w, s, l))
  {
    var labels :| s == Exec(w, Init(roots, n), labels);
    assert (labels + [l])[..|labels|] == labels;
    assert Step(w, s, l) == Exec(w, Init(roots, n), labels + [l]);
  }

  predicate AllLeft(s: State) {
    forall i :: 0 <= i < |s.workers| ==> s.workers[i].Left?
  }
}

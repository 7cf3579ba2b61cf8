/**
 The file system a walk sees, and what one walk is meant to send.

 `World` fixes every answer of the operating system and of the filters for the length of
 a walk. `Classify`, `Emits` and `Children` say what visiting one path does; `Walked` says
 which paths are visited; together they are the specification both engines are held to.
 */
module WalkWorld {
  import opened Prelude
  import opened Gitignore

  const MAX_WALK_PATH_BYTES: nat := 4096

  /** Device and inode number. */
  type DirId = (nat, nat)

  type IoError = nat

  datatype Stat =
    | Missing(error: IoError, danglingLink: bool)
    | Directory(id: Result<DirId, IoError>)
    | NonDirectory

  datatype Listing =
    | ListFailed(error: IoError)
    | Listed(names: seq<Name>, entryErrors: seq<IoError>)

  /** `build_walked_file`. */
  datatype FileVerdict =
    | Keep(size: nat, inode: nat)
    | Unwanted
    | ProbeFailed(error: IoError)

  datatype WalkOp = Metadata | ReadDir | Open | GitignoreRules

  datatype Cause = PathTooLong | Io(error: IoError) | BadRules(file: Source)

  datatype WalkItem =
    | File(path: Path, size: nat, inode: nat)
    | Error(path: Path, op: WalkOp, cause: Cause)

  /** A path met below a walk root. */
  datatype Spot = Spot(root: Path, path: Path) {
    predicate Below() { root <= path }
    function Depth(): nat requires Below() { |path| - |root| }
    predicate IsRoot() { path == root }
    function Child(name: Name): Spot { Spot(root, path + [name]) }
    function Parent(): Spot requires path != [] { Spot(root, path[..|path| - 1]) }
  }

  /** One item sent on the channel, with the path whose visit sent it. */
  datatype Event = Event(at: Spot, item: WalkItem)

  function At(s: Spot, items: seq<WalkItem>): (r: seq<Event>)
    ensures |r| == |items|
  {
    seq(|items|, i requires 0 <= i < |items| => Event(s, items[i]))
  }

  function RulesFile(s: Source): Path {
    match s
    case DirRules(dir) => dir + [".gitignore"]
    case Exclude(gitDir) => gitDir + ["info", "exclude"]
    case NoRules => []
  }

  /** What a visit decides before it touches shared state. */
  datatype Outcome =
    | Drop(sends: seq<WalkItem>)
    | EnterDir(id: DirId)
    | OfferFile(file: WalkItem)

  datatype World = World(
    pathBytes: Path -> nat,
    stat: Path -> Stat,
    list: Path -> Listing,
    verdict: Path -> FileVerdict,
    fault: (Path, Path) -> Option<Source>,
    decides: (Path, Path, Path, bool) -> bool,
    respectGitignore: bool,
    maxDepth: Option<nat>,
    ids: set<DirId>,
    fanout: nat
  ) {

    /** Finitely many directories, each with distinct entry names and boundedly many of them. */
    ghost predicate Finite() {
      && (forall p :: stat(p).Directory? && stat(p).id.Ok? ==> stat(p).id.value in ids)
      && (forall p :: list(p).Listed? ==>
            |list(p).names| + |list(p).entryErrors| <= fanout && Distinct(list(p).names))
    }

    predicate TooLong(p: Path) {
      pathBytes(p) > MAX_WALK_PATH_BYTES
    }

    function TooLongError(p: Path): WalkItem {
      Error(p, Metadata, PathTooLong)
    }

    /** The ignore chain of a path cannot be read, or it decides. A chain belongs to a walk
        root and a terminal directory. */
    function Ignored(root: Path, path: Path, isDir: bool): Result<bool, WalkItem> {
      if !respectGitignore then
        Ok(false)
      else
        var terminal := Terminal(root, path, isDir);
        match fault(root, terminal)
        case Some(s) => Err(Error(RulesFile(s), GitignoreRules, BadRules(s)))
        case None => Ok(decides(root, terminal, path, isDir))
    }

    /** The ignore answers of this world are those of freshly built chains over `rules`. */
    ghost predicate Follows(rules: Rules) {
      && (forall root, t :: fault(root, t) == Fault(rules, root, t))
      && (forall root, t, path, isDir ::
            decides(root, t, path, isDir) == Decide(FreshChain(rules, root, t), rules.Judge(path, isDir)))
    }

    function Offer(path: Path): Outcome {
      match verdict(path)
      case Keep(size, inode) => OfferFile(File(path, size, inode))
      case Unwanted => Drop([])
      case ProbeFailed(e) => Drop([Error(path, Open, Io(e))])
    }

    predicate IsGitDir(path: Path) {
      path != [] && path[|path| - 1] == ".git"
    }

    /** The decisions of a visit whose metadata is `meta`, in the order the engines make them. */
    function ClassifyWith(root: Path, path: Path, meta: Stat): Outcome {
      if TooLong(path) then
        Drop([TooLongError(path)])
      else if meta.Missing? then
        Drop(if meta.danglingLink then [] else [Error(path, Metadata, Io(meta.error))])
      else
        match Ignored(root, path, meta.Directory?)
        case Err(e) => Drop([e])
        case Ok(true) => Drop([])
        case Ok(false) =>
          if meta.Directory? then
            if respectGitignore && IsGitDir(path) then
              Drop([])
            else
              match meta.id
              case Err(e) => Drop([Error(path, Metadata, Io(e))])
              case Ok(id) => EnterDir(id)
          else
            Offer(path)
    }

    function Classify(s: Spot): Outcome {
      ClassifyWith(s.root, s.path, stat(s.path))
    }

    predicate DepthAllows(depth: int) {
      maxDepth.Some? ==> depth <= maxDepth.value
    }

    /** The entries a visit of `s` queues when its directory was not seen before. */
    function Children(s: Spot): seq<Name> {
      if Classify(s).EnterDir? && DepthAllows(|s.path| - |s.root|) && list(s.path).Listed?
      then list(s.path).names
      else []
    }

    /** What listing the directory `s` sends. */
    function ListingSends(s: Spot): seq<WalkItem> {
      if !DepthAllows(|s.path| - |s.root|) then
        []
      else
        match list(s.path)
        case ListFailed(e) => [Error(s.path, ReadDir, Io(e))]
        case Listed(_, errors) => EntryErrors(s.path, errors)
    }

    function EntryErrors(path: Path, errors: seq<IoError>): (r: seq<WalkItem>)
      ensures |r| == |errors|
    {
      seq(|errors|, i requires 0 <= i < |errors| => Error(path, ReadDir, Io(errors[i])))
    }

    /** Everything the visit of `s` sends when its directory or file was not seen before. */
    function Emits(s: Spot): seq<WalkItem> {
      match Classify(s)
      case Drop(sends) => sends
      case OfferFile(file) => [file]
      case EnterDir(_) => ListingSends(s)
    }

    /** The specification of which paths a walk visits: `s` is a root, or an entry of a visited
        directory that is entered, allowed by the depth limit and listed. */
    predicate Walked(roots: seq<Path>, s: Spot)
      decreases |s.path|
    {
      s.root in roots && s.Below() &&
      (s.IsRoot() || (Walked(roots, s.Parent()) && s.path[|s.path| - 1] in Children(s.Parent())))
    }

    lemma WalkedChild(roots: seq<Path>, s: Spot, name: Name)
      requires Walked(roots, s) && name in Children(s)
      ensures Walked(roots, s.Child(name)) && s.Child(name).Parent() == s && !s.Child(name).IsRoot()
    {
      var c := s.Child(name);
      assert c.path[..|c.path| - 1] == s.path;
    }

    /** How often the specification sends an event. */
    function Due(roots: seq<Path>, e: Event): nat {
      if Walked(roots, e.at) then multiset(Emits(e.at))[e.item] else 0
    }

    /** The channel holds exactly what the specification sends, as a bag. */
    ghost predicate Complete(roots: seq<Path>, sent: seq<Event>) {
      forall e :: multiset(sent)[e] == Due(roots, e)
    }

    /** Distinct roots, none inside another, and every directory reached along one path only. */
    ghost predicate TreeLike(roots: seq<Path>) {
      && Distinct(roots)
      && (forall r, q :: r in roots && q in roots && r <= q ==> r == q)
      && (forall s, t | Walked(roots, s) && Walked(roots, t) && Classify(s).EnterDir? && Classify(s) == Classify(t) ::
            s == t)
    }

    /** No file is deeper than one level below the deepest directory that may be listed. */
    lemma WalkedDepth(roots: seq<Path>, s: Spot)
      requires Walked(roots, s) && maxDepth.Some?
      ensures s.Depth() <= maxDepth.value + 1
    {
    }

    // -------------------------------------------------------------- the child scan of a worker

    /** What `walk_multi_thread` does with one entry of a directory it has listed. */
    function Scan(root: Path, child: Path): Scanned {
      if TooLong(child) then
        Pass([TooLongError(child)])
      else
        match stat(child)
        case Missing(e, dangling) => Pass(if dangling then [] else [Error(child, Metadata, Io(e))])
        case Directory(_) => Push(stat(child))
        case NonDirectory =>
          match Ignored(root, child, false)
          case Err(e) => Abort(e)
          case Ok(true) => Pass([])
          case Ok(false) =>
            match Offer(child)
            case OfferFile(file) => Claim(file)
            case Drop(sends) => Pass(sends)
            case EnterDir(_) => Pass([])
    }

    /** What a scan found is what a visit of the child would decide, except that a directory is
        only passed on. */
    predicate FoundAsVisited(child: Spot, found: Scanned) {
      match found
      case Push(meta) => meta == stat(child.path) && meta.Directory? && !TooLong(child.path)
      case Pass(sends) => Classify(child) == Drop(sends)
      case Abort(e) => Classify(child) == Drop([e])
      case Claim(file) => Classify(child) == OfferFile(file) && file.File? && file.path == child.path
    }

    /** Scanning a child in place decides as visiting it would, except that directories are
        only passed on and that an unreadable chain ends the scan. */
    lemma ScanIsClassify(root: Path, child: Path)
      ensures FoundAsVisited(Spot(root, child), Scan(root, child))
    {
    }

    /** The chain of a file is the chain of its directory, so a directory that was entered
        never has a child whose chain cannot be read. */
    lemma ChildLookupSucceeds(s: Spot, name: Name)
      requires Classify(s).EnterDir?
      ensures !Scan(s.root, s.Child(name).path).Abort?
    {
      var c := s.Child(name);
      assert c.path[..|c.path| - 1] == s.path;
    }
  }

  datatype Scanned =
    | Push(meta: Stat)
    | Pass(sends: seq<WalkItem>)
    | Abort(send: WalkItem)
    | Claim(file: WalkItem)

  predicate Distinct<T(==)>(s: seq<T>) {
    forall i, j :: 0 <= i < j < |s| ==> s[i] != s[j]
  }
}

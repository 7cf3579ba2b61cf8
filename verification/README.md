# Verification of walkkit's walk engine and archive stack

This project models two parts of walkkit in Dafny 4.11 and proves what they are for.

**The walk engine.** `walk_multi_thread` is a state machine (`parallel.dfy`): one step of one worker is
one critical section of the work mutex, one send, or one stretch of local code. The schedule is an arbitrary
list of labels; sleeping workers may wake spuriously, and the receiver may go away at any time. The fields
under the mutex and their critical sections are also the class `SharedWork.WorkState`; the body of a worker
(`worker_loop.dfy`) is written on it and on a mutable channel, and everything it does is a run of the machine. `walk_single_thread` is a set of methods over a mutable
channel, a queue and two visited sets (`serial_walk.dfy`, `serial_loop.dfy`); `serial_runs.dfy` says which states its
loop goes through and what holds of all of them, and `serial_cache.dfy` is the loop with its own cache. Both engines are measured against one
recursive specification (`WalkWorld.World.Walked`, `Emits`, `Complete`) and, on graphs with symlink cycles,
against the least set of directories closed under entries (`DirGraph.IsReachableSet`). `visit_facts.dfy` proves that this
specification is what the tables of the file system call for, and `walk_reports.dfy` says in terms of those tables alone
what has arrived when a walk is over. The file system is a
`World`: a static table of stat, listing and per-file verdicts. The `.gitignore` cache is the class
`GitignoreCaching.GitignoreCache`; `CacheInterleaving` takes it apart at the granularity of its own lock, and
`CachedWalk` joins the two machines: workers go through their lookups read by read and write by write, and every run is
still a run of the machine in which a lookup is answered at once by a fresh chain.

**The archive stack.** Header fields, checksums, the ustar iterator, the ZIP reader, the bounded
decompression loops, format detection and the recursive extractor are modelled on bytes. The loops are
methods and the iterator and the extractor are classes, each proved against a function; readers are set
against writers, and the extractor against the tree of nested archives it unpacks. `tar_archives.dfy`,
`zip_archives.dfy`, `layer_contents.dfy`, `leaf_paths.dfy` and `accepted_names.dfy` tell from bytes, numbers and
characters which data is an archive, what comes out of it, and under which names.

Reading guide: `gitignore*.dfy`, `cache_interleaving.dfy` (ignore chains), `world.dfy` (specification), `walk_common.dfy` (listings and verdicts),
`parallel*.dfy`, `work_state.dfy`, `worker_loop.dfy` (parallel engine), `serial*.dfy` (serial engine), `lookup_*.dfy`,
`cached_walk*.dfy` (how the engines use the cache), `simple_paths.dfy` (how long paths can get on a graph),
`walk_equivalence.dfy`, `dir_graph.dfy`, `visit_facts.dfy`, `walk_reports.dfy`; `bytes.dfy`, `utf8.dfy`, `names.dfy`,
`accepted_names.dfy`, `tar*.dfy`, `zip*.dfy`, `decompress.dfy`, `format.dfy`, `layers.dfy`, `layer_contents.dfy`,
`extract*.dfy`, `leaf_paths.dfy`, `nested_archives.dfy`, `packing.dfy`.

## Conventions

- A path is a sequence of names, so `<=` is `starts_with`. A compiled ignore file is named by where it was read
  from; what its globs say is a parameter.
- Every event on the channel carries the path whose visit sent it. The receiver does not see the tag, and
  `CompareOnTree` drops it. `done`, `expanded` and `requests` are history: the code does not hold them.
- `WalkWorld.World.fault` and `decides` stand for the answers of ignore chains; `Follows` says that they are the
  answers of fresh chains over given rules, and `EveryRunIsAWalk` and `WalkWithCache` are why answers taken from the
  caches may be replaced by them.
- `Bytes.Utf8` stands for the UTF-8 codec of the standard library; proofs that need it ask that decoding inverts
  encoding and that ASCII is its own encoding (`Lawful`). `Utf8Text.Standard` is RFC 3629 itself and meets it. `Lower` folds ASCII only: no other character lowers
  to one that the patterns of `validate_path_traversal` contain.
- `usize` has 64 bits. The ZIP methods keep positions in a subset type of that width, so their verification
  includes that the checked additions of `src/archive/zip.rs` never fail on a slice a process can hold.
- Functions that would swamp the solver are handed to the proofs as function values (`BlockReader`,
  `NameReader`, `TurnReader`, `Finder`, `Opener`, `Packer`); `Blocks`, `Names`, `Turns`, `Find` and `LayerOpener` are
  the repository's own, and `Packers` are the writers set against them.

## Where code and documents disagree

The model follows the code.

- The written specification of the crate gives 8192 as the path limit; `src/walker.rs:21` says 4096.
- The comment on `GitignoreNode::matched` (`src/gitignore_ctx.rs:233-234`) promises that the deepest file wins;
  `info/exclude` stands at the head of a finished chain (`src/worker.rs:87-102`), so it is consulted before every
  `.gitignore`. `ExcludeBeatsWhitelist` is a path this ignores against the promise; `DeepestWinsIff` says for which
  files and paths the promise holds.
- A chain asked for out of order is answered without `info/exclude` (`OutOfOrderExample`); the engines never ask
  that way (`RunsKeepAsks`, `BeginsInOrder`).
- Files of a nested archive are said to be prefixed with its path; with an empty path they are not
  (`UnnamedArchiveExample`, on bytes the readers accept; `NestedUnderIff`).
- The comment on `scan_file_for_nul` promises that a NUL past the first 64 KiB is never seen; after a short read up to
  8191 bytes more are looked at (`ShortReadExample`). It is missed exactly when some read ends between the prefix and
  the NUL (`OnlyNulPastPrefix`), and always when all reads but the last are full (`FullReadsStopAtPrefix`).
- The size named in an `EntryTooLarge` of a decompression depends on how the decoder cuts its output
  (`ReportedSizeExample`): it is the length of the fewest chunks past the cap (`ReportedSize`), so two cuttings are
  reported alike exactly when those are equally long (`SameReportIff`). Nothing else about the outcome depends on it
  (`ChunkingIsIrrelevant`).
- A ZIP end record with no entries is accepted wherever it says its directory is (`EmptyDirectoryExample`).

## Model

| member | source | states |
|---|---|---|
| Gitignore.Matched | src/gitignore_ctx.rs:235-248 | a path is ignored exactly when the first file of the chain with an opinion ignores it |
| Gitignore.DecideIsFirstDecisive | src/gitignore_ctx.rs:235-248 | the recursive verdict of a chain is its first decisive file, both ways |
| Gitignore.LastResort | src/gitignore_ctx.rs:233-248 | a file at the end of a chain decides exactly when all before it are silent |
| Gitignore.FirstOrLast | src/gitignore_ctx.rs:233-248 | whether a file stands first or last matters exactly when it has an opinion, another file has one, and the others decide differently |
| Gitignore.DeepestWinsIff | src/worker.rs:87-102 | the deepest opinion wins if and only if there is no git directory, the exclude file or all `.gitignore` files are silent, or they agree with the exclude file |
| Gitignore.ExcludeBeatsWhitelist | src/worker.rs:87-102 | rules under which a path that the deepest file whitelists is ignored because of the exclude file |
| Gitignore.AncestorDirsInOrder | src/gitignore_ctx.rs:80-111 | the directories of a chain are exactly those between the topmost one and the terminal, each one level below the one before; the topmost one is a repository root properly above the walk root, or else the walk root |
| Gitignore.ChainHolds | src/worker.rs:45-102 | a `.gitignore` belongs to a chain exactly when its directory lies between the repository above the walk root, or else the walk root, and the terminal; the exclude file is that of the git directory |
| Gitignore.ChainOrder | src/gitignore_ctx.rs:235-248 | files are consulted exclude file first, then each directory before the ones above it |
| Gitignore.FaultIsFirst | src/worker.rs:46-102 | an uncached build fails exactly on the shallowest `.gitignore` that cannot be read, or on the exclude file when all of those can |
| Gitignore.IgnoredIff | src/gitignore_ctx.rs:235-248 | a path is ignored exactly when the exclude file ignores it, or has no opinion and the deepest `.gitignore` with one, from its directory up to the topmost one, ignores it |
| GitignoreCaching.GitignoreCache.Get | src/worker.rs:28-118 | a lookup leaves the cache and gives the answer of one pass over it: hit, reuse of cached directories, bare nodes left behind, exclude file at the head, error at the first unreadable file |
| GitignoreCaching.BuildMeets | src/worker.rs:46-78 | the directory loop only adds bare nodes below the walk root's chain, keeps every cached node, stops at the first unreadable file, and stays over good chains if it started on them |
| GitignoreCaching.FaultMeans | src/worker.rs:46-102 | an uncached build fails exactly when a file on the way or the exclude file cannot be read |
| GitignoreCaching.LookupKeepsCacheOk | src/worker.rs:121-191 | which keys the cache holds, and which of them hold finished chains, follows from the history of requests and is kept by every lookup |
| GitignoreCaching.ReplayIsOk | src/worker.rs:121-191 | the same after any history of requests |
| GitignoreCaching.GoodHeadAgrees | src/gitignore_ctx.rs:235-248 | a cached chain that meets the exclude file many times decides like the fresh chain, for every path, once it meets it first |
| GitignoreCaching.BareHeadDiffers | src/worker.rs:36-42 | a bare chain taken for a finished one differs from the fresh chain for some rules |
| GitignoreCaching.AnswerStored | src/worker.rs:104-117 | a lookup returns what it stored, succeeds exactly on a hit or when every file can be read, and otherwise fails as an uncached build does |
| GitignoreCaching.CachedAnswerAgreesIff | src/worker.rs:28-118 | after any history, a cached answer agrees with a fresh chain if and only if there is no git directory, a `.gitignore` on the way cannot be read, nobody passed through the terminal yet, or it was asked for before anything below it and the exclude file can be read |
| GitignoreCaching.OutOfOrderExample | src/worker.rs:46-78 | asking for a deeper directory first makes the next answer for the shallower one wrong |
| CacheInterleaving.AloneIsLookup | src/worker.rs:28-118 | the lock-by-lock steps of a lookup, left alone, amount to the lookup as one call |
| CacheInterleaving.StageStays | src/worker.rs:54-106 | at every step the node a lookup holds is a good chain of the directory it has reached, whatever others wrote in between |
| CacheInterleaving.WritesElsewhere | src/worker.rs:72-78 | a lookup writes at or below the walk root only under its own terminal, and never over an answered one |
| CacheInterleaving.RunsStayGood | src/worker.rs:28-118 | all of this in every interleaving of lookups begun in the order of the walk |
| CacheInterleaving.InterleavedLookupsAgree | src/worker.rs:28-118 | however lookups interleave over the shared cache, each is answered like a fresh chain |
| LookupOrder.RunsKeepAsks | src/worker.rs:479-491 | in every parallel run each directory is asked for before anything below it and again only after success |
| LookupOrder.InOrderAnswersAgree | src/worker.rs:121-191 | a history in that order is answered by the cache as by fresh chains, request by request |
| LookupOrder.ParallelLookupsAgree | src/worker.rs:479-491 | every ignore lookup of every parallel run agrees with an uncached chain |
| LookupOverlap.BeginsInOrder | src/worker.rs:423-488 | a worker about to look up a popped path finds all directories above it looked up, nobody at or below it, and nobody else holding the path |
| LookupOverlap.ScansAfterLookup | src/worker.rs:584-602 | while a directory is scanned its own chain has been looked up with success |
| CachedWalk.LookupMayBegin | src/worker.rs:479-602 | in the machine of walk and cache, every lookup begins in the order that the cache needs |
| CachedWalk.StepSame | src/worker.rs:479-602 | a step on the answer from the cache is the step on the answer of a fresh chain |
| CachedWalk.EveryRunIsAWalk | src/worker.rs:28-715 | however lookups, steps of other workers and writes to the cache interleave, the walk is a run of the parallel engine with fresh chains |
| CachedWalk.CachedLookupsAgree | src/worker.rs:28-118 | every lookup of every such run agrees with an uncached chain |
| CachedWalk.CachedWalkIsComplete | src/worker.rs:28-715 | a finished walk over a tree, with its shared cache, sent exactly what the specification sends |
| CachedWalk.CachedWalkReportsAll | src/worker.rs:28-715 | on any file system a finished walk with its shared cache has answered every root and every entry of an expanded directory |
| CachedWalkProgress.WorkerArrives | src/worker.rs:28-118 | a worker gets through its lookup by its own steps, whatever the cache holds |
| CachedWalkProgress.CachedRunCanFinish | src/worker.rs:423-440 | from every reachable state of walk and cache all workers can still leave |
| CachedWalkBound.NeededIsShort | src/worker.rs:46-78 | no lookup of any run takes more steps than `LookupCost` allows, a number read off the roots and the number of directories |
| CachedWalkBound.StepLowersRemaining | src/worker.rs:28-708 | every step of walk or lookup but a spurious wakeup lowers one natural number |
| CachedWalkBound.CachedRunsAreBounded | src/worker.rs:28-715 | a run of walk and cache makes at most an explicit number of steps, one lookup for each step of the walk, and a fixed number more per spurious wakeup |
| WalkCommon.ReadDirSorted | src/walk_common.rs:205-235 | a listing fails exactly when the directory cannot be opened or has too many readable entries, wherever the excess turns up; otherwise it holds all names in order and all errors |
| WalkCommon.OrderedIsUnique | src/walk_common.rs:230 | there is one ordered list of given names, so an unstable sort is as good as a stable one |
| WalkCommon.UpToMeans | src/walk_common.rs:230 | one name comes before another exactly when it starts the other or has the smaller character where they first differ |
| WalkCommon.ErrorsInOrder | src/walk_common.rs:205-235 | the errors are those of the unreadable entries, in the order they were met |
| WalkCommon.EnumerationOrderIsIrrelevant | src/walk_common.rs:205-235 | the order in which the system enumerates a directory does not show in the names |
| WalkCommon.ShuffledEntries | src/walk_common.rs:205-235 | two enumerations of the same entries give the same list of names and the same bag of entry errors; the errors keep the order they were met in |
| WalkCommon.ScanFileForNul | src/walk_common.rs:61-79 | reports a NUL exactly when one is among the bytes looked at, and a read error only before the prefix is complete |
| WalkCommon.LooksAtPrefix | src/walk_common.rs:52-79 | a NUL in the first 64 KiB is always found, and what is found lies less than one sample beyond |
| WalkCommon.OnlyNulPastPrefix | src/walk_common.rs:52-79 | a file whose only NUL lies past the prefix is taken for text exactly when the sizes of some first reads add up to at least the prefix and at most the place of the NUL |
| WalkCommon.FullReadsStopAtPrefix | src/walk_common.rs:52-60 | when every read but the last fills the buffer, nothing past the prefix is looked at |
| WalkCommon.ShortReadExample | src/walk_common.rs:52-79 | a short first read with the only NUL at index 65536, which is found |
| WalkCommon.BuildWalkedFile | src/walk_common.rs:147-189 | a file is kept if and only if it passes every filter and, if asked, is not binary; only a wanted file can fail its binary probe |
| WalkCommon.WantedMeans | src/walk_common.rs:133-163 | what passes: a matching regular file within the size limit that has the extension asked for, in any case, or none when the empty one is asked for |
| WalkWorld.World.ScanIsClassify | src/worker.rs:545-656 | scanning a child in place decides as visiting it would, except that directories are passed on |
| WalkWorld.World.ChildLookupSucceeds | src/worker.rs:584-602 | an entered directory has no child file whose chain cannot be read |
| WalkWorld.World.WalkedDepth | src/worker.rs:303-332 | no walked path lies deeper than one level below the limit |
| VisitFacts.EmitsMeans | src/worker.rs:231-368 | what a path calls for, by its length, metadata, ignore chain, listing and verdict: one item for itself, or the errors of its listing |
| VisitFacts.EmitsCount | src/worker.rs:231-368 | each item is called for once, the error of an entry as often as the listing met it |
| VisitFacts.EntersMeans | src/worker.rs:262-301 | a directory is gone into exactly when it is short enough, can be identified, is not ignored and, with ignore files, is not called `.git` |
| VisitFacts.OffersMeans | src/worker.rs:344-360 | a file is offered exactly when it is short enough, not ignored and kept by its verdict |
| VisitFacts.WalkedMeans | src/worker.rs:303-334 | a path is walked exactly when every directory between its root and itself is gone into, within the depth limit, and lists the next component |
| SharedWork.WorkState.constructor | src/worker.rs:397-408 | the shared state starts with one item per root, nobody active and nothing visited |
| SharedWork.WorkState.LookForWork | src/worker.rs:423-436 | popping counts the worker in; with nothing queued it leaves only when nobody is active, notifying the others |
| SharedWork.WorkState.SignalDoneLocked | src/worker.rs:371-376 | the count goes down by one and the others are notified when it reaches zero with nothing queued |
| SharedWork.WorkState.ClaimDirectory | src/worker.rs:521-528 | test-and-set of the directory id; a seen one ends the item in the same critical section |
| SharedWork.WorkState.ClaimPoppedFile | src/worker.rs:676-681 | test-and-set of a popped file; a seen one ends the item in the same critical section |
| SharedWork.WorkState.ClaimScannedFile | src/worker.rs:622-627 | test-and-set of a file found in a scan |
| SharedWork.WorkState.HandOver | src/worker.rs:660-664 | the directories found are queued behind the others and the sleepers notified; for none nothing happens |
| WorkerLoop.ScanEntry | src/worker.rs:545-656 | the decisions on one entry of a listed directory, in the order the code makes them; what is sent or claimed is exactly what the entry calls for by its facts, and directories are passed on |
| WorkerLoop.ScanDirectory | src/worker.rs:543-665 | the loop over the entries and the hand-over of the directories found are steps of the machine |
| WorkerLoop.ExpandDirectory | src/worker.rs:530-672 | so are listing a directory and sending its errors |
| WorkerLoop.HandleItem | src/worker.rs:442-708 | so is everything from a popped item to the end of the turn, after which the worker has left or looks for work again |
| WorkerLoop.Work | src/worker.rs:421-708 | a worker on its own ends up leaving or waiting, and all it did to the fields and the channel is a run |
| WorkerLoop.WalkMultiThread | src/worker.rs:385-715 | with the workers running one after the other the engine ends on every finite graph with all workers gone, sends only what some path calls for and no file twice, and while the receiver stays it answers every root and every entry of an expanded directory, reports a tree exactly and expands a graph where it is reachable |
| ParallelProtocol.StepShape | src/worker.rs:421-708 | every step, every skip and every error path changes `active` by exactly what the worker's hold on an item changes |
| ParallelProtocol.RunsKeepProtocol | src/worker.rs:371-436 | in every run `active` is the number of workers with a popped item, a sleeper means an empty queue and someone active, and who left for want of work was right and stays right |
| ParallelProtocol.ActiveNeverUnderflows | src/worker.rs:371-376 | whoever is about to decrement `active` is counted in it |
| ParallelProtocol.NeverStuck | src/worker.rs:423-436 | no lost wakeup and no deadlock: all workers have left or some worker can run, also after the channel closed |
| ParallelItems.RunsKeepItems | src/worker.rs:442-664 | every item queued or held names a path the specification walks, at its true depth, with its true metadata |
| ParallelItems.QueuedDepths | src/worker.rs:530-576 | queued depth is the distance from the walk root and at most one more than the limit |
| ParallelItems.ChildLookupsNeverFail | src/worker.rs:587-600 | the branch that gives a directory up because a child's chain cannot be read is never taken |
| ParallelItems.NothingAbandoned | src/worker.rs:425-440 | when all workers have left an open run the queue is empty and nobody is active |
| ParallelBooks.StepBalanced | src/worker.rs:421-708 | a step loses no path and invents none: what it holds, queues and settles balances |
| ParallelBooks.RunsKeepPlaced | src/worker.rs:421-708 | in every run with distinct roots each path is in one place at most: queued, held or settled, and below a settled one |
| ParallelSends.NothingElseIsSent | src/worker.rs:303-358 | in every run of any worker count, everything sent is what the specification sends for a walked path, files at most one level below the depth limit |
| ParallelComplete.StepPaid | src/worker.rs:442-700 | what a step sends and still owes is what the visits it settles call for |
| ParallelComplete.RunsKeepTree | src/worker.rs:421-708 | on a tree, sent plus owed is the specification of what was settled, and every child of a settled directory is known, in every run |
| ParallelComplete.FinishedRun | src/worker.rs:685-707 | when all workers have left, exactly the walked paths are settled and nothing is owed |
| ParallelComplete.ParallelIsComplete | src/worker.rs:385-715 | a finished run on a tree sent exactly the specified files and errors, each as often, for every worker count and schedule |
| ParallelReach.NoErrorSwallowed | src/worker.rs:442-520 | every error met by a settled visit that enters no directory was sent, on any graph |
| ParallelReach.ListingsAreReported | src/worker.rs:530-672 | in a finished open run every directory expanded has a claiming visit whose entries were all settled and whose listing and entry errors were all sent |
| WalkReports.ParallelReportsAll | src/worker.rs:442-708 | in a finished open run on any file system every root and every entry of an expanded directory within the depth limit is answered: over-long paths, missing files, unreadable ignore files, unidentified directories, failed probes, failed listings and entry errors by their errors, kept files by themselves, dangling links and ignored paths by nothing |
| WalkReports.ParallelReportsOnly | src/worker.rs:442-708 | in every run, everything sent is called for by a path to which entered directories lead |
| ParallelReach.ExpandedOnce | src/worker.rs:521-528 | no directory id is expanded twice |
| ParallelReach.ExpandedIsReachable | src/worker.rs:521-664 | without limits and over-long paths, a finished run expanded exactly the reachable directory ids, each once, under any schedule |
| ParallelReach.NoFileTwice | src/worker.rs:622-692 | no path is sent twice as a file by any set of workers, whatever the roots |
| ParallelTermination.StepLowersPotential | src/worker.rs:421-708 | every step but a spurious wakeup lowers one natural number, on any finite graph with cycles |
| ParallelTermination.RunsAreBounded | src/worker.rs:385-715 | a run makes at most an explicit number of steps, plus one per spurious wakeup |
| ParallelTermination.EveryRunCanFinish | src/worker.rs:423-440 | from every reachable state all workers can still leave without the channel closing |
| SimplePaths.SimpleIsShort | src/worker.rs:521-664 | a walked path that passes through no directory twice has at most as many names below its root as there are directories |
| SimplePaths.RunsMeetSimplePaths | src/worker.rs:521-664 | every run meets such paths only, symlink cycles or not |
| SimplePaths.NeverTooLong | src/worker.rs:443-455 | if every path through distinct directories is short enough, no run reports an over-long one |
| SimplePaths.NeverTooLongS | src/worker.rs:231-245 | nor does a run of the serial engine |
| SimplePaths.ReachableOnShortPaths | src/worker.rs:521-664 | a finished run then expanded exactly the reachable directory ids, on conditions of the file system alone |
| DirGraph.VisitedIsReachable | src/worker.rs:298-334 | a walk that settled all entries of what it visited has visited the least closed set of directories |
| DirGraph.ReachableSetIsUnique | src/worker.rs:298-334 | there is one reachable set, so the schedule cannot matter |
| SerialWalk.Channel.constructor | src/worker.rs:195-200 | a new channel holds nothing |
| SerialWalk.Channel.Send | src/worker.rs:358-360 | a send succeeds until the receiver has gone and is lost afterwards |
| SerialWalk.SendEntryErrors | src/worker.rs:310-316 | every entry error of a listing is sent, in order |
| SerialWalk.PushChildren | src/worker.rs:317-333 | short children are queued in order one level deeper, the others reported |
| SerialLoop.EnqueueRoots | src/worker.rs:212-229 | each root is queued at depth 0, or reported when it is too long |
| SerialLoop.EnterDirectory | src/worker.rs:303-343 | a new directory within the depth limit is listed, its errors sent and its children queued |
| SerialLoop.Refuse | src/worker.rs:232-260 | a path that is too long is refused with its error, one without metadata with the system's, a dangling link with nothing; no other path stops here |
| SerialLoop.Conclude | src/worker.rs:262-358 | what the answer of the chain makes of a path, and what that sends |
| SerialLoop.Examine | src/worker.rs:232-297 | the decisions on a popped path, in the order the code makes them, and what each sends |
| SerialLoop.Act | src/worker.rs:282-368 | the visited sets are tested and extended, a new directory is listed, a new file sent, and the loop ends when that send fails |
| SerialLoop.TakeTurn | src/worker.rs:231-368 | one turn of the loop changes queue, visited sets and channel as its specification says |
| SerialBooks.DrainedIsComplete | src/worker.rs:231-369 | when the queue has run empty on a tree, the channel holds exactly what the specification sends |
| SerialBooks.DrainedIsReachable | src/worker.rs:231-369 | when it has run empty on a graph, the directories expanded are the reachable ones |
| SerialRuns.FinishedIsUnique | src/worker.rs:231-369 | for given roots and a given receiver there is one state in which the loop ends |
| SerialRuns.SerialSendsOnly | src/worker.rs:231-369 | in every state the loop goes through, everything sent is what the specification sends for a walked path, files at most one level below the depth limit |
| SerialRuns.SerialOnce | src/worker.rs:298-360 | no path was sent twice as a file and no directory expanded twice |
| SerialRuns.SerialSwallowsNoError | src/worker.rs:232-297 | while the receiver stays, every error met by a settled visit that enters no directory was sent |
| SerialRuns.SerialReportsListings | src/worker.rs:303-343 | with the queue empty, every directory expanded has a claiming visit whose entries were all settled and whose listing and entry errors were all sent |
| SerialRuns.SerialIsComplete | src/worker.rs:231-369 | with the queue empty, a tree is reported exactly as specified |
| SerialRuns.SerialIsReachable | src/worker.rs:231-369 | with the queue empty and no over-long path, a graph was expanded exactly where it is reachable |
| SerialRuns.SerialAsksInOrder | src/worker.rs:262-271 | each directory is asked for before anything below it and again only after success |
| WalkReports.SerialReportsAll | src/worker.rs:231-369 | with the queue empty and the receiver still there, every root and every entry of an expanded directory is answered, on any file system |
| WalkReports.SerialReportsOnly | src/worker.rs:231-369 | in every state, everything sent is called for by a path to which entered directories lead |
| SerialOrder.SerialInOrder | src/worker.rs:231-343 | in every serial run no file is sent after a deeper one, the files of one directory are sent in the order of its listing, and roots that are files in the order given |
| SerialLoop.WalkSingleThread | src/worker.rs:195-369 | the loop ends on every finite graph, in the one state in which the serial engine ends, and the channel is that of the state: nothing that no path calls for, no file twice, files level by level, and while the receiver stays an answer for every root and every entry of an expanded directory, and a tree exactly |
| SerialCache.Ask | src/worker.rs:121-191 | one lookup in the mutable cache and the match on its chain give the verdict of that chain |
| SerialCache.TurnAnswerAgrees | src/worker.rs:262-271 | the cache left by the lookups so far answers the next turn as a fresh chain would |
| SerialCache.TakeCachedTurn | src/worker.rs:231-368 | a turn with the cache is the turn with fresh chains |
| SerialCache.WalkWithCache | src/worker.rs:195-369 | the loop with its cache ends in the state in which the loop with fresh chains ends |
| SerialCache.SerialLookupsAgree | src/worker.rs:121-191 | every lookup of every serial run agrees with an uncached chain |
| WalkEquivalence.CompleteIsUnique | src/worker.rs:195-715 | two complete channels hold the same bag of items |
| WalkEquivalence.CompareOnTree | src/worker.rs:195-715 | parallel equals serial on every tree: same files and same errors, each as often, for every worker count and schedule |
| WalkEquivalence.SameDirectories | src/worker.rs:298-528 | every serial run that has emptied its queue and every finished parallel run expanded the same directory ids of a graph with cycles, each once, if neither reported an over-long path |
| WalkEquivalence.SameDirectoriesOnShortPaths | src/worker.rs:298-528 | the same on conditions of the file system alone |
| WalkEquivalence.CompareOnGraph | src/worker.rs:298-528 | run on a graph, the serial engine ends in a state with an empty queue, nothing unspecified and no file twice on its channel, and the directories of any finished parallel run expanded |
| Utf8Text.EncodedDecodes | src/archive/tar.rs:292 | the strict and the lossy decoding of RFC 3629 give back every text that was encoded |
| Utf8Text.StrictIffEncoded | src/archive/tar.rs:326 | strict decoding accepts bytes exactly when they are the encoding of a text, and returns that text |
| Utf8Text.Examples | src/archive/tar.rs:292 | a character of each length, and what the lossy decoding makes of an unfinished and of an overlong form |
| Utf8Text.StandardIsLawful | src/archive/zip.rs:154 | that codec has everything the round trips ask of one |
| EntryNames.ValidNameStaysInside | src/archive/tar.rs:58-101 | following an accepted name never climbs above the directory it is resolved in |
| AcceptedNames.AcceptedIff | src/archive/tar.rs:58-101 | a name is accepted exactly when it has no look-alike dot, does not start with a separator, holds no encoded pair of dots in either case, and has between separators nothing that is two dots and blanks |
| EntryNames.JoinedNameIsValid | src/archive/extract.rs:281-285 | joining two accepted names with a slash gives an accepted name |
| TarFields.ParseBase256Field | src/archive/tar.rs:351-374 | succeeds exactly when the lead byte is not 0xff and the big-endian value without the flag bit is below 2^64, and returns that value |
| TarFields.ParseOctalField | src/archive/tar.rs:315-344 | the number a field denotes: base 256, octal digits up to a NUL or space, nothing for blanks, an error otherwise |
| TarFields.OctalFieldRoundTrip | src/archive/tar.rs:315-344 | a number written in octal digits is read back |
| TarFields.Base256RoundTrip | src/archive/tar.rs:351-374 | every 64-bit number written in base 256 is read back |
| TarFields.CheckChecksum | src/archive/tar.rs:376-395 | the loop computes both sums in 32 bits without overflow and accepts exactly the stored unsigned or signed sum |
| TarFields.SumsIgnoreChecksum | src/archive/tar.rs:383-387 | the sums do not depend on bytes 148 to 155 |
| TarFields.SealedIsValid | src/archive/tar.rs:376-395 | storing either sum in any block makes the block valid |
| TarFields.ValidMeansSum | src/archive/tar.rs:388-394 | no other stored number passes |
| TarArchives.ChecksumMeans | src/archive/tar.rs:376-395 | the sum of all bytes with the eight of the checksum field as spaces; 256 less for each high byte when read as signed |
| TarArchives.FieldExamples | src/archive/tar.rs:315-374 | octal digits up to a NUL, blanks, no number, a number in base 256, a negative one |
| TarArchives.TextFieldMeans | src/archive/tar.rs:289-293 | a text field holds a text, spaces that do not belong to it, and from the first NUL on anything |
| TarArchives.JoinMeans | src/archive/tar.rs:303-313 | prefix and name are joined by one slash however many stand where they meet; a blank one leaves the other alone |
| TarHeaders.ParseHeaderBlock | src/archive/tar.rs:253-287 | checksum, size and link checks in this order; name and prefix joined; a file exactly when byte 156 is 48 or 0 |
| TarHeaders.ReadHeader | src/archive/tar.rs:164-176 | a header together with the check of its name |
| TarHeaders.BlocksAreCareful | src/archive/tar.rs:172-176 | no header with a climbing name is accepted |
| TarArchives.HeaderIsRead | src/archive/tar.rs:253-287 | a block is taken for a header exactly when checksum, size, type flag, link name, name and prefix stand at their places and are in order; type flags 48 and 0 are files |
| TarArchives.AfterHeader | src/archive/tar.rs:178-229 | what a header is refused for: too many before it, more than 256 MiB, too few bytes behind it |
| TarArchives.AfterZeros | src/archive/tar.rs:125-163 | a block of zeros ends the archive with a second one, and is an error otherwise |
| TarArchives.NoHeader | src/archive/tar.rs:111-176 | fewer than 512 bytes, or a block that is neither zeros nor a header |
| Tar.Padding | src/archive/tar.rs:400-408 | the padding is shorter than a block and completes the last one |
| Tar.ExtentIsMember | src/archive/tar.rs:188-229 | an extent the reader accepts is a header, its payload and its padding, and lies inside the data |
| Tar.MemberIsExtent | src/archive/tar.rs:188-229 | the converse: a well-formed member that stands at the offset is what the reader finds |
| Tar.EndIsFinish | src/archive/tar.rs:111-163 | the reader stops without error exactly at the end of the data or at two zero blocks |
| Tar.LayoutIsBlocks | src/archive/tar.rs:202-229 | members end at multiples of 512 |
| Tar.ReadTiles | src/archive/tar.rs:106-242 | a successful read walked over members that tile the data |
| Tar.ReadIffArchive | src/archive/tar.rs:106-242 | the reader succeeds if and only if the data is tiled from its first byte to an end marker by at most a million members whose headers declare just those extents, and returns their regular files |
| TarArchives.ReadIffTar | src/archive/tar.rs:106-242 | the same told from the bytes: at most 1,000,000 headers with payload and padding, then nothing or 1024 zeros; the entries are the payloads of the members whose type flag is 48 or 0 |
| Tar.ReadFits | src/archive/tar.rs:211-236 | entries are whole, safely named, at most a million, and together no longer than the archive |
| TarIterator.TarEntriesIter.constructor | src/archive/tar.rs:29-36 | an iterator starts at offset 0 with everything still to yield |
| TarIterator.TarEntriesIter.EndMarker | src/archive/tar.rs:125-163 | a zero block ends the archive only together with a second one |
| TarIterator.TarEntriesIter.Advance | src/archive/tar.rs:178-229 | counts the header, checks size, extent and truncation in this order, and moves past the extent |
| TarIterator.TarEntriesIter.Turn | src/archive/tar.rs:110-241 | one turn of the loop; the consumed members always tile the data up to the offset, and counted headers stay within the limit |
| TarIterator.TarEntriesIter.Next | src/archive/tar.rs:106-245 | yields the items one by one, and nothing for ever after the first error or the end |
| TarIterator.Entries | src/archive/extract.rs:41-42 | collecting gives all entries or the first error |
| TarWriter.TextFieldRoundTrip | src/archive/tar.rs:289-301 | a text without NUL and trailing space is read back from its field |
| TarWriter.JoinsPlainly | src/archive/tar.rs:303-313 | prefix and name are joined as they stand if and only if no slash stands where they meet |
| TarWriter.HeaderRoundTrip | src/archive/tar.rs:253-287 | a written header is accepted with its full name, size and kind |
| TarWriter.TarRoundTrip | src/archive/tar.rs:106-242 | writing any list of members and reading it gives back exactly those with type flag 48 or 0, in order |
| ZipFields.FieldsRoundTrip | src/archive/zip.rs:335-346 | little-endian 16- and 32-bit numbers are read back |
| ZipFields.LeastByteFirst | src/archive/zip.rs:335-346 | the least significant byte comes first |
| ZipFields.LastRecord | src/archive/zip.rs:304-327 | the record found is the one rightmost signature in the last 65535+22 bytes |
| ZipFields.FindEocd | src/archive/zip.rs:294-333 | the backward scan reads that record, refuses Zip64 marks, and fails exactly when there is none |
| Zip.FetchPayload | src/archive/zip.rs:171-264 | local signature, name match, size limits and truncation checked in this order, all reads in bounds, no position overflows |
| Zip.FetchNamed | src/archive/zip.rs:104-161 | central signature, Zip64 marks, name bounds, UTF-8 and traversal checked in this order, all reads in bounds |
| Zip.TakeEntry | src/archive/zip.rs:104-280 | one turn of the loop; directories are skipped, an entry is stored exactly when its method is 0 and deflated exactly when it is 8, and the next position follows the lengths in the header |
| Zip.TakeEntries | src/archive/zip.rs:100-283 | the loop gives the entries of all headers or the first error |
| Zip.Entries | src/archive/zip.rs:85-284 | the reader on any slice, without an out-of-bounds read or an overflow |
| Zip.ErrorStays | src/archive/zip.rs:103-281 | the first error ends the read |
| Zip.EntriesFit | src/archive/zip.rs:103-281 | every header taken lies inside the data and every payload is a part of the data |
| Zip.ReadZipFits | src/archive/zip.rs:85-284 | success means the directory of an archive with entries, 46 bytes each, lies inside the data, every entry is a safely named file with a payload taken from the data, and a stored one has its declared size |
| ZipArchives.LocalIsRead | src/archive/zip.rs:171-264 | a payload is read if and only if a local record with the same name, allowed sizes and that payload stands where the header points |
| ZipArchives.HeaderFaults | src/archive/zip.rs:104-161 | what a central header is refused for, in this order: too few bytes, signature, Zip64 marks, name out of bounds, name |
| ZipArchives.LocalFaults | src/archive/zip.rs:171-264 | what a local record is refused for, in this order: too few bytes, signature, name out of bounds, another name, sizes, payload out of bounds |
| ZipArchives.ReadZipIffArchive | src/archive/zip.rs:85-333 | the reader succeeds if and only if the last end record announces a chain of central headers, with signatures and numbers at their places, each with an accepted name and, unless a directory, pointing at a matching local record; it returns their files in order, method 0 as stored, 8 as deflated, any other by its number |
| ZipArchives.DirectoryInsideIff | src/archive/zip.rs:86-110 | the directory of an accepted archive lies inside the data, except when it is empty and its offset does not |
| ZipArchives.EmptyDirectoryExample | src/archive/zip.rs:86-103 | an accepted archive without entries whose directory offset lies beyond the data |
| ZipWriter.HeaderReads | src/archive/zip.rs:116-138 | every field of a written central header is read back |
| ZipWriter.LocalReads | src/archive/zip.rs:171-264 | the payload behind a written local header is read back |
| ZipWriter.DirectoryReads | src/archive/zip.rs:103-281 | after each header the reader stands behind its record with the files so far |
| ZipWriter.FindsRecord | src/archive/zip.rs:304-327 | the written end record is found if and only if its comment holds no later one |
| ZipWriter.ZipRoundTrip | src/archive/zip.rs:85-333 | writing any list of entries and reading it gives back names, sizes, methods (0 stored, 8 deflated, others by number) and payloads in order, directories left out |
| Decompress.Drain | src/archive/decompress.rs:44-69 | the chunk loop, with the buffer within the cap whenever another chunk is read |
| Decompress.DrainedWithinCap | src/archive/decompress.rs:54-67 | after any number of chunks the loop goes on exactly while the output is within the smaller cap, and stops less than a chunk beyond it |
| Decompress.DecompressesWithinCap | src/archive/decompress.rs:38-70 | success if and only if the stream ends cleanly and its total is within 256 MiB and 250 times a non-empty input; the result is the whole stream |
| Decompress.CapMeans | src/archive/decompress.rs:54-67 | within the cap means at most 256 MiB and, unless the input is empty, at most 250 times the input |
| Decompress.GunzipsExactly | src/archive/decompress.rs:38-70 | gzip succeeds with an output if and only if that is all of a stream that ends cleanly within those limits |
| Decompress.UnzstdsExactly | src/archive/decompress.rs:90-126 | so does zstd, if its decoder starts |
| Decompress.ChunkingIsIrrelevant | src/archive/decompress.rs:44-69 | how the decoder cuts its output does not change the result or the kind of failure |
| Decompress.ReportedSizeExample | src/archive/decompress.rs:55-67 | it does change the size named in the error |
| Decompress.ReportedSize | src/archive/decompress.rs:54-67 | the size named is the length of the fewest chunks past the cap |
| Decompress.SameReportIff | src/archive/decompress.rs:54-67 | two cuttings of an output past the cap are reported alike if and only if the fewest chunks past the cap are equally long |
| Decompress.DecompressGzip | src/archive/decompress.rs:38-70 | the gzip loop |
| Decompress.DecompressZstd | src/archive/decompress.rs:90-126 | the zstd loop, and a decoder that does not start |
| Decompress.DecompressZipDeflate | src/archive/extract.rs:109-153 | the deflate loop and the check of the declared size |
| Decompress.InflatesExactly | src/archive/extract.rs:109-153 | a deflated entry is accepted if and only if it ends cleanly, within both caps, at exactly its declared size |
| Format.TarIsDetected | src/probe/format.rs:53-85 | a ustar magic is recognised unless the first byte starts another format |
| Format.FormatIs | src/probe/format.rs:53-85 | each compressed format and zip is told exactly by its first bytes, tar only by the magic at byte 257 |
| Layers.RepositoryIsSound | src/archive/extract.rs:35-106 | the repository's readers give whole, safely named entries no longer than their archive |
| Layers.LayerCovers | src/archive/extract.rs:39-71 | every layer is charged for at least the bytes of its entries |
| LayerContents.OpensIff | src/archive/extract.rs:35-106 | an archive opens exactly as the layer its first bytes say: a gzip or zstd stream of a tar archive, charged for the whole stream, or a zip or tar archive, charged for its payloads |
| LayerContents.ZipOpensIff | src/archive/extract.rs:60-153 | a written zip archive opens exactly when every file has method 0, or method 8 and inflates within the limits to its declared size; it holds the files with those contents |
| LayerContents.EntryIsOpenedIff | src/archive/extract.rs:281-295 | an entry is put out as it is exactly when no depth is left or its bytes start no format and hold no tar magic; LZ4 and Snappy are tried and fail |
| Extract.Extractor.constructor | src/archive/extract.rs:200-202 | an extractor starts with nothing put out, counted or charged |
| Extract.Extractor.Add | src/archive/extract.rs:219-239 | a charge is accepted exactly while the total stays within 1 GiB |
| Extract.Extractor.ConvertZipEntry | src/archive/extract.rs:74-106 | stored and inflated entries are converted and charged for their payload, other methods refused |
| Extract.Extractor.ConvertZip | src/archive/extract.rs:60-66 | a zip layer succeeds exactly when every entry converts and the sum of payloads fits the budget |
| Extract.Extractor.ChargeTar | src/archive/extract.rs:43-46 | a tar layer is charged for the sum of its payloads |
| Extract.Extractor.OpenStream | src/archive/extract.rs:49-59 | a compressed layer is charged for the whole stream before the tar in it is read |
| Extract.Extractor.AutoExtract | src/archive/extract.rs:35-72 | a layer is opened exactly when its reader succeeds and its charge still fits |
| Extract.Extractor.TakeEntry | src/archive/extract.rs:251-296 | an entry is taken exactly when the three limits allow it and, if it looks like an archive with depth left, its tree fits; counted plus waiting bytes never exceed the charged ones |
| Extract.Extractor.TakeEntries | src/archive/extract.rs:251-297 | the loop over a layer: all entries or none, with the same coupling at every point |
| Extract.Extractor.ExtractInto | src/archive/extract.rs:242-298 | succeeds if and only if the whole tree unpacks and fits on top of what is there, and then appends its flattening and advances both counters by its exact cost |
| Extract.AutoExtractRecursive | src/archive/extract.rs:195-205 | success if and only if the archive unpacks to depth `min(max_depth, 10)` within the limits; the output is the files of the tree in pre-order, each under the names of the archives it lies in and its own, with single slashes between them |
| LeafPaths.FlattenedAreNamed | src/archive/extract.rs:281-295 | every file of the tree is put out in order, with its size and contents, under its full path; unnamed archives are skipped as long as nothing with a name encloses them |
| ExtractFacts.TreeIsCovered | src/archive/extract.rs:262-279 | the bytes of all entries on all levels are covered by the charges |
| ExtractFacts.RoomBounds | src/archive/extract.rs:252-260 | checking before each entry keeps the output within 100,000 |
| ExtractFacts.RoomIff | src/archive/extract.rs:252-260 | that check amounts to one comparison of the final count, strict exactly when the last entry met is not put out |
| ExtractFacts.FlattenedBytes | src/archive/extract.rs:262-279 | the output is no longer than the bytes counted |
| ExtractFacts.TreeLeavesAreWhole | src/archive/extract.rs:281-295 | every leaf on every level has as many bytes as its size says and a name that never climbs |
| ExtractFacts.NestedUnderPath | src/archive/extract.rs:281-288 | files of a nested archive lie under its path when that is not empty, and keep their names when it is |
| ExtractFacts.NestedUnderIff | src/archive/extract.rs:281-288 | safely named files of a nested archive lie under its path if and only if the path is not empty or there are none |
| ExtractFacts.TreeWithinDepth | src/archive/extract.rs:287-288 | no archive is opened below the depth limit |
| ExtractFacts.ExtractionIsBounded | src/archive/extract.rs:179-205 | a successful extraction holds at most 100,000 whole files of at most 512 MiB under safe names from at most ten levels, for at most 1 GiB charged |
| NestedArchives.PackUnpacks | src/archive/extract.rs:242-298 | tar and zip archives packed inside each other unpack to the tree of the pack |
| NestedArchives.ListingIsFlattening | src/archive/extract.rs:281-295 | flattening that tree gives the listing of the pack under full paths |
| NestedArchives.ChargesAreBytes | src/archive/extract.rs:39-71 | for such packs the charges on all levels add up to the bytes on all levels |
| NestedArchives.TreeFitsIff | src/archive/extract.rs:179-280 | the tree of a pack keeps all limits if and only if its bytes and its number of files do |
| Packing.TarIsRecognised | src/probe/format.rs:53-85 | a written tar archive is taken for one |
| Packing.ZipIsRecognised | src/probe/format.rs:53-85 | a written zip archive is taken for one, also an empty one |
| Packing.NestedRoundTrip | src/archive/extract.rs:195-298 | tar and stored zip archives packed inside each other are unpacked to every file under its full path, archives below the depth limit left closed |
| Packing.ExtractPack | src/archive/extract.rs:195-298 | recursive extraction of a pack succeeds if and only if its sizes are within the limits, and returns its listing |
| Packing.InTarExample | src/archive/extract.rs:281-295 | an archive `in.tar` with files `a` and `b` inside another gives `in.tar/a` and `in.tar/b` |
| Packing.UnnamedArchiveExample | src/archive/extract.rs:281-288 | bytes of an archive with an empty name inside another, which the readers accept and whose file keeps its own name |

## Left out

- InterleavedLookupsAgree: asks that lookups begin in the order of the walk; `CachedWalk.LookupMayBegin` shows that they do in every run of the engine with its cache.
- EveryRunIsAWalk: when ignore files are used, the roots are not plain files; the chain of a file root lies outside its own walk root.
- WalkMultiThread: runs the workers one after the other; what other schedules do is proved of the machine, not of a method with threads.
- ReadZipFits: says nothing about the directory offset of an archive without entries, because the code does not look at it (`DirectoryInsideIff`).
- ParallelReportsAll: the roots are distinct, here and in `SerialReportsAll`.
- CompareOnTree: distinct directory roots, none inside another, and each directory reached by one path; with several paths to a directory the schedule decides which of them is walked.
- SameDirectories: no depth limit, no ignore files, and no over-long path reported by either engine; with over-long paths the alias that wins the race decides what is cut off. `SameDirectoriesOnShortPaths` asks instead that paths through distinct directories are short enough.
- CompareOnGraph: the same conditions.
- WalkWithCache: when ignore files are used, the roots are not plain files, for the reason given above.
- CachedRunsAreBounded: counts one lookup for each step of the walk, which is more than any run makes.
- ParallelLookupsAgree: roots that are plain files are excluded, because the chain of such a file lies outside its own walk root.
- EveryRunCanFinish: a finishing schedule exists from every state and `RunsAreBounded` bounds every schedule; fairness of the operating system's scheduler is not modelled.
- AutoExtractRecursive: says exactly when extraction fails, not which of several errors is reported first.
- ChunkingIsIrrelevant: the numbers inside an `EntryTooLarge` are left free, because they do depend on the chunks; `SameReportIff` says how.
- NestedRoundTrip: zip members are stored and no layer is compressed, because nothing is known of the foreign encoders.
- TarRoundTrip: for every UTF-8 codec that is lawful; that the standard library implements RFC 3629 is not proved.
- Workers that panic, poisoned locks, and a bounded channel that blocks its senders.
- Real file-system calls, permissions and races with changing files: stat, listing and verdict are static tables of the world. `walk_common.dfy` says how a listing and a verdict come about.
- Parsing `.gitignore` lines, glob matching, `resolve_git_dir` and `gitdir:` pointers: parameters of `Rules`.
- DEFLATE, gzip and zstd decoding: streams of chunks; nothing is assumed of them but the buffer size.
- Guards of the readers against overflow that no slice in memory can reach, error message texts, tracing, feature flags (all on) and 32-bit targets.
- `ignore::Walk` behind `CodeWalker`, the sandbox, the probes for executables and file types, sorting and iterators: foreign or easy.

/**
 `WorkState` (`src/walk_common.rs`) and the critical sections in which `walk_multi_thread`
 changes it. Each section does to the fields exactly what the step of the state machine does.
 */
module SharedWork {
  import opened Gitignore
  import opened WalkWorld
  import opened ParallelWalk

  /** What looking for work comes to. */
  datatype Look = Work(item: Item) | Drained | Wait

  class WorkState {
    /** How many workers hold a popped item: a `usize`. */
    var active: nat
    var queue: seq<Item>
    var visitedDirs: set<DirId>
    var visitedFiles: set<Path>

    function Fields(): Shared
      reads this
    {
      Shared(active, queue, visitedDirs, visitedFiles)
    }

    constructor (roots: seq<Path>)
      ensures Fields() == Init(roots, 0).shared
    {
      active, queue, visitedDirs, visitedFiles := 0, RootItems(roots), {}, {};
    }

    /** One turn of the inner loop: take an item, find out that there will be none, or wait.
        `notify` says that the condition variable is notified. */
    method LookForWork() returns (r: Look, notify: bool)
      modifies this
      ensures var e := TakeWork(old(Fields()));
        && Fields() == ApplyShared(old(Fields()), e) && notify == e.wake
        && e.next == match r case Work(item) => Popped(item) case Drained => Left(true) case Wait => Asleep
    {
      if queue != [] {
        r := Work(queue[|queue| - 1]);
        queue := queue[..|queue| - 1];
        active := active + 1;
        return r, false;
      }
      if active == 0 {
        return Drained, true;
      }
      return Wait, false;
    }

    /** `signal_done_locked`. Its callers hold a popped item, so the count does not underflow
        (`ParallelProtocol.ActiveNeverUnderflows`). */
    method SignalDoneLocked() returns (notify: bool)
      requires active > 0
      modifies this`active
      ensures var e := SignalDone(old(Fields()), Ready);
        Fields() == ApplyShared(old(Fields()), e) && notify == e.wake
    {
      active := active - 1;
      notify := active == 0 && queue == [];
    }

    /** Test-and-set of a directory id; a directory that was seen before ends the item at once. */
    method ClaimDirectory(item: Item, id: DirId) returns (unseen: bool, notify: bool)
      requires active > 0
      modifies this
      ensures var e := ClaimDir(old(Fields()), item, id);
        && Fields() == ApplyShared(old(Fields()), e) && notify == e.wake
        && unseen == e.next.Expand? && unseen == (id !in old(visitedDirs))
    {
      unseen := id !in visitedDirs;
      visitedDirs := visitedDirs + {id};
      notify := false;
      if !unseen {
        assert visitedDirs == old(visitedDirs);
        notify := SignalDoneLocked();
      }
    }

    /** Test-and-set of a popped file. */
    method ClaimPoppedFile(item: Item, file: WalkItem) returns (unseen: bool, notify: bool)
      requires active > 0
      modifies this
      ensures var e := ClaimRoot(old(Fields()), item, file);
        && Fields() == ApplyShared(old(Fields()), e) && notify == e.wake
        && unseen == e.next.SendRoot? && unseen == (item.path !in old(visitedFiles))
    {
      unseen := item.path !in visitedFiles;
      visitedFiles := visitedFiles + {item.path};
      notify := false;
      if !unseen {
        assert visitedFiles == old(visitedFiles);
        notify := SignalDoneLocked();
      }
    }

    /** Test-and-set of a file found while scanning a directory. */
    method ClaimScannedFile(item: Item, rest: seq<Name>, dirs: seq<Item>, file: WalkItem) returns (unseen: bool)
      requires rest != []
      modifies this`visitedFiles
      ensures var e := ClaimChild(old(Fields()), item, rest, dirs, file);
        && Fields() == ApplyShared(old(Fields()), e) && !e.wake
        && unseen == e.next.SendChild?
    {
      var path := item.Where().Child(rest[0]).path;
      unseen := path !in visitedFiles;
      visitedFiles := visitedFiles + {path};
      assert !unseen ==> visitedFiles == old(visitedFiles);
    }

    /** The hand-over of the directories found in a scan; nothing happens for none. */
    method HandOver(w: World, item: Item, dirs: seq<Item>) returns (notify: bool)
      modifies this`queue
      ensures var e := ScanNext(w, item, [], dirs);
        Fields() == ApplyShared(old(Fields()), e) && notify == e.wake
    {
      notify := dirs != [];
      if notify {
        queue := queue + dirs;
      }
      assert old(queue) + [] == old(queue);
    }
  }
}

/**
 `walk_single_thread`: one queue, taken from the front, children pushed at the back.
 `Turn` is one turn of its loop; the loop itself is the method at the end.
 */
module SerialWalk {
  import opened Prelude
  import opened Gitignore
  import opened WalkWorld
  import opened ParallelWalk
  import opened ParallelItems
  import opened ParallelBooks
  import GitignoreCaching

  /** The sending half of the result channel; `room` is how many more items the receiver
      takes before it goes away, `None` if it stays. */
  class Channel {
    var sent: seq<Event>
    var room: Option<nat>

    constructor (room: Option<nat>)
      ensures sent == [] && this.room == room
    {
      sent := [];
      this.room := room;
    }

    method Send(e: Event) returns (ok: bool)
      modifies this
      ensures ok <==> old(room) != Some(0)
      ensures (sent, room) == Deliver(old(sent), old(room), [e])
    {
      ok := room != Some(0);
      assert [e][..1] == [e] && sent + [e][..0] == sent;
      if ok {
        sent := sent + [e];
        if room.Some? {
          room := Some(room.value - 1);
        }
      }
    }
  }

  /** The channel after a number of sends whose results are ignored. */
  function Deliver(sent: seq<Event>, room: Option<nat>, events: seq<Event>): (seq<Event>, Option<nat>) {
    if room.None? then (sent + events, None)
    else if room.value <= |events| then (sent + events[..room.value], Some(0))
    else (sent + events, Some(room.value - |events|))
  }

  lemma DeliverMore(sent: seq<Event>, room: Option<nat>, a: seq<Event>, b: seq<Event>)
    ensures Deliver(Deliver(sent, room, a).0, Deliver(sent, room, a).1, b) == Deliver(sent, room, a + b)
  {
    if room.Some? && room.value <= |a| {
      assert (a + b)[..room.value] == a[..room.value];
      assert sent + a[..room.value] + b[..0] == sent + a[..room.value];
    } else if room.Some? && room.value <= |a| + |b| {
      assert (a + b)[..room.value] == a + b[..room.value - |a|];
      assert sent + a + b[..room.value - |a|] == sent + (a + b[..room.value - |a|]);
    } else {
      assert sent + a + b == sent + (a + b);
    }
  }

  lemma DeliverNone(sent: seq<Event>, room: Option<nat>)
    ensures Deliver(sent, room, []) == (sent, room)
  {
    var none: seq<Event> := [];
    assert none[..0] == none && sent + none == sent;
  }

  /** The variables of the loop, and the history the proofs speak about. */
  datatype Serial = Serial(
    queue: seq<Item>,
    visitedDirs: set<DirId>,
    visitedFiles: set<Path>,
    sent: seq<Event>,
    room: Option<nat>,
    done: set<Spot>,
    expanded: seq<DirId>,
    requests: seq<GitignoreCaching.Request>
  ) {
    function Sending(events: seq<Event>): Serial {
      this.(sent := Deliver(sent, room, events).0, room := Deliver(sent, room, events).1)
    }
  }

  // ---------------------------------------------------------------- the children of a directory

  /** The children short enough to be queued. */
  function Kept(w: World, x: Spot, depth: nat, names: seq<Name>): seq<Item> {
    if names == [] then
      []
    else
      var child := x.Child(names[0]);
      (if w.TooLong(child.path) then [] else [Item(child.path, depth + 1, x.root, None)])
      + Kept(w, x, depth, names[1..])
  }

  /** The errors sent for the others. */
  function Refused(w: World, x: Spot, names: seq<Name>): seq<Event> {
    if names == [] then
      []
    else
      var child := x.Child(names[0]);
      (if w.TooLong(child.path) then [Event(child, w.TooLongError(child.path))] else [])
      + Refused(w, x, names[1..])
  }

  function RefusedSpots(w: World, x: Spot, names: seq<Name>): set<Spot> {
    set n | n in names && w.TooLong(x.Child(n).path) :: x.Child(n)
  }

  lemma {:induction false} KeptCount(w: World, x: Spot, depth: nat, names: seq<Name>, y: Spot)
    ensures Spots(Kept(w, x, depth, names), y) == if w.TooLong(y.path) then 0 else Kids(x, names, y)
  {
    if names != [] {
      KeptCount(w, x, depth, names[1..], y);
      var child := x.Child(names[0]);
      var first := if w.TooLong(child.path) then [] else [Item(child.path, depth + 1, x.root, None)];
      SpotsAppend(first, Kept(w, x, depth, names[1..]), y);
      if first != [] {
        assert first[..0] == [];
        assert Spots(first, y) == One(child == y);
      }
    }
  }

  lemma {:induction false} RefusedCount(w: World, x: Spot, names: seq<Name>, ev: Event)
    ensures multiset(Refused(w, x, names))[ev]
         == if w.TooLong(ev.at.path) && ev.item == w.TooLongError(ev.at.path) then Kids(x, names, ev.at) else 0
  {
    if names != [] {
      RefusedCount(w, x, names[1..], ev);
    }
  }

  lemma RefusedMember(w: World, x: Spot, names: seq<Name>, y: Spot)
    ensures y in RefusedSpots(w, x, names) <==> w.TooLong(y.path) && Kids(x, names, y) > 0
  {
    KidsMember(x, names, y);
  }

  lemma {:induction false} KeptItemsOk(w: World, roots: seq<Path>, item: Item, names: seq<Name>)
    requires Entered(w, roots, item)
    requires forall n :: n in names ==> n in w.Children(item.Where())
    ensures forall d :: d in Kept(w, item.Where(), item.depth, names) ==> ItemOk(w, roots, d)
  {
    if names != [] {
      KeptItemsOk(w, roots, item, names[1..]);
      assert names[0] in names;
      w.WalkedChild(roots, item.Where(), names[0]);
    }
  }

  // ---------------------------------------------------------------- one turn of the loop

  function Asks(w: World, item: Item): seq<GitignoreCaching.Request> {
    if w.TooLong(item.path) || w.stat(item.path).Missing? then []
    else AsksFor(w, item.root, item.path, w.stat(item.path).Directory?)
  }

  /** A directory seen for the first time. */
  function EnterNew(w: World, s: Serial, item: Item, id: DirId): Serial {
    var x := item.Where();
    var claimed := s.(
      visitedDirs := s.visitedDirs + {id}, expanded := s.expanded + [id], done := s.done + {x});
    if !w.DepthAllows(item.depth) then
      claimed
    else
      match w.list(item.path)
      case ListFailed(e) => claimed.Sending([Event(x, Error(item.path, ReadDir, Io(e)))])
      case Listed(names, errors) =>
        claimed
          .(queue := s.queue + Kept(w, x, item.depth, names), done := s.done + {x} + RefusedSpots(w, x, names))
          .Sending(At(x, w.EntryErrors(item.path, errors)) + Refused(w, x, names))
  }

  /** A turn on the first item of the queue; the flag says whether the loop goes on. */
  function Turn(w: World, s0: Serial): (Serial, bool)
    requires s0.queue != []
  {
    var item := s0.queue[0];
    var x := item.Where();
    var s := s0.(queue := s0.queue[1..], requests := s0.requests + Asks(w, item));
    match w.Classify(x)
    case Drop(sends) => (s.(done := s.done + {x}).Sending(At(x, sends)), true)
    case EnterDir(id) =>
      if id in s.visitedDirs then (s.(done := s.done + {x}), true) else (EnterNew(w, s, item, id), true)
    case OfferFile(file) =>
      if item.path in s.visitedFiles then
        (s.(done := s.done + {x}), true)
      else
        (s.(visitedFiles := s.visitedFiles + {item.path}, done := s.done + {x}).Sending([Event(x, file)]),
         s.room != Some(0))
  }

  /** Enqueueing one root, or refusing it when it is too long. */
  function StartOne(w: World, s: Serial, r: Path): Serial {
    if w.TooLong(r) then
      s.(done := s.done + {Spot(r, r)}).Sending([Event(Spot(r, r), w.TooLongError(r))])
    else
      s.(queue := s.queue + [Item(r, 0, r, None)])
  }

  function Start(w: World, roots: seq<Path>, room: Option<nat>): Serial {
    if roots == [] then
      Serial([], {}, {}, [], room, {}, [], [])
    else
      StartOne(w, Start(w, roots[..|roots| - 1], room), roots[|roots| - 1])
  }

  // ---------------------------------------------------------------- the imperative pieces

  method SendEntryErrors(w: World, tx: Channel, x: Spot, errors: seq<IoError>)
    modifies tx
    ensures (tx.sent, tx.room) == Deliver(old(tx.sent), old(tx.room), At(x, w.EntryErrors(x.path, errors)))
  {
    var j := 0;
    ghost var all := At(x, w.EntryErrors(x.path, errors));
    assert all[..0] == [];
    assert old(tx.sent) + all[..0] == old(tx.sent);
    while j < |errors|
      invariant 0 <= j <= |errors|
      invariant (tx.sent, tx.room) == Deliver(old(tx.sent), old(tx.room), all[..j])
    {
      var ok := tx.Send(Event(x, Error(x.path, ReadDir, Io(errors[j]))));
      DeliverMore(old(tx.sent), old(tx.room), all[..j], [all[j]]);
      assert all[..j] + [all[j]] == all[..j + 1];
      j := j + 1;
    }
    assert all[..j] == all;
  }

  lemma {:induction false} KeptSplit(w: World, x: Spot, depth: nat, names: seq<Name>, n: Name)
    ensures Kept(w, x, depth, names + [n]) == Kept(w, x, depth, names) + Kept(w, x, depth, [n])
    ensures Refused(w, x, names + [n]) == Refused(w, x, names) + Refused(w, x, [n])
  {
    if names == [] {
      assert names + [n] == [n];
    } else {
      assert (names + [n])[1..] == names[1..] + [n];
      KeptSplit(w, x, depth, names[1..], n);
    }
  }

  /** Push the children of a listed directory, refusing those that are too long. */
  method PushChildren(w: World, tx: Channel, queue: seq<Item>, x: Spot, depth: nat, names: seq<Name>)
    returns (grown: seq<Item>)
    modifies tx
    ensures grown == queue + Kept(w, x, depth, names)
    ensures (tx.sent, tx.room) == Deliver(old(tx.sent), old(tx.room), Refused(w, x, names))
  {
    grown := queue;
    var j := 0;
    DeliverNone(tx.sent, tx.room);
    assert names[..0] == [];
    while j < |names|
      invariant 0 <= j <= |names|
      invariant grown == queue + Kept(w, x, depth, names[..j])
      invariant (tx.sent, tx.room) == Deliver(old(tx.sent), old(tx.room), Refused(w, x, names[..j]))
    {
      var child := x.Child(names[j]);
      KeptSplit(w, x, depth, names[..j], names[j]);
      assert names[..j] + [names[j]] == names[..j + 1];
      if w.TooLong(child.path) {
        var ok := tx.Send(Event(child, w.TooLongError(child.path)));
        assert Refused(w, x, [names[j]]) == [Event(child, w.TooLongError(child.path))];
        DeliverMore(old(tx.sent), old(tx.room), Refused(w, x, names[..j]), Refused(w, x, [names[j]]));
      } else {
        grown := grown + [Item(child.path, depth + 1, x.root, None)];
        assert Kept(w, x, depth, [names[j]]) == [Item(child.path, depth + 1, x.root, None)];
        assert Refused(w, x, [names[j]]) == [];
        assert Refused(w, x, names[..j]) + [] == Refused(w, x, names[..j]);
      }
      j := j + 1;
    }
    assert names[..j] == names;
  }
}

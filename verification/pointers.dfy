/** Spawning pointer entities from `PointerSpawn` events (run by server and client alike). */
module Pointers {
  import opened Ids
  import opened Protocol
  import opened Components
  import opened Events

  /** `PlayerPointer::spawn`: the components a freshly spawned pointer gets. */
  function SpawnPointer(owner: PlayerId, location: Vec2, sync: NetworkSync): (p: Pointer)
    ensures p.control.owner == owner
    ensures p.movable == NewMovable(location)
    ensures p.sync == sync && p.location == location
    ensures p.movableChanged
  {
    Pointer(sync, PlayerControllable(owner), NewMovable(location), location, true)
  }

  /** The number of `PointerSpawn` events in a stream. */
  function SpawnCount(events: seq<ServerEvent>): nat
    decreases |events|
  {
    if events == [] then 0
    else (if events[0].PointerSpawn? then 1 else 0) + SpawnCount(events[1..])
  }

  /** The pointers spawned by a stream of events, in event order. */
  function Spawned(events: seq<ServerEvent>): (r: seq<Pointer>)
    ensures |r| == SpawnCount(events)
    ensures forall p :: p in r ==>
      exists e :: e in events && e.PointerSpawn? && p == SpawnPointer(e.owner, e.at, e.sync)
    decreases |events|
  {
    if events == [] then []
    else
      var head := if events[0].PointerSpawn? then [SpawnPointer(events[0].owner, events[0].at, events[0].sync)] else [];
      head + Spawned(events[1..])
  }

  /** Spawning over two streams in turn is spawning over their concatenation. */
  lemma {:induction false} SpawnedAppend(a: seq<ServerEvent>, b: seq<ServerEvent>)
    ensures Spawned(a + b) == Spawned(a) + Spawned(b)
    decreases |a|
  {
    if a == [] {
      assert a + b == b;
    } else {
      assert (a + b)[0] == a[0];
      assert (a + b)[1..] == a[1..] + b;
      SpawnedAppend(a[1..], b);
    }
  }

  /**
   * `handle_pointer_spawns`: every `PointerSpawn` adds one new entity after the
   * existing ones, which are left untouched; other events spawn nothing.
   */
  function HandlePointerSpawns(store: Store, events: seq<ServerEvent>): (r: Store)
    ensures |r| == |store| + SpawnCount(events)
    ensures r[..|store|] == store
    ensures forall k :: |store| <= k < |r| ==>
      exists e :: e in events && e.PointerSpawn? && r[k] == SpawnPointer(e.owner, e.at, e.sync)
  {
    var r := store + Spawned(events);
    assert forall k :: |store| <= k < |r| ==> r[k] in Spawned(events);
    r
  }

  /** A stream of spawn events spawns one pointer per event, each as its event describes. */
  lemma {:induction false} SpawnedAllSpawns(events: seq<ServerEvent>)
    requires forall k :: 0 <= k < |events| ==> events[k].PointerSpawn?
    ensures |Spawned(events)| == |events|
    ensures forall k :: 0 <= k < |events| ==>
      Spawned(events)[k] == SpawnPointer(events[k].owner, events[k].at, events[k].sync)
    decreases |events|
  {
    if events != [] {
      SpawnedAllSpawns(events[1..]);
      assert Spawned(events) == [SpawnPointer(events[0].owner, events[0].at, events[0].sync)] + Spawned(events[1..]);
    }
  }

  /** One spawn event yields exactly the pointer it describes. */
  lemma SpawnOne(store: Store, e: ServerEvent)
    requires e.PointerSpawn?
    ensures HandlePointerSpawns(store, [e]) == store + [SpawnPointer(e.owner, e.at, e.sync)]
  {
    assert [e][1..] == [];
  }

  /** Spawning is insert-only: the same event twice gives two entities with one id. */
  lemma SpawnTwiceDuplicates(store: Store, e: ServerEvent)
    requires e.PointerSpawn?
    ensures var r := HandlePointerSpawns(store, [e, e]);
      |r| == |store| + 2 && r[|store|].sync == r[|store| + 1].sync == e.sync
  {
    SpawnedAppend([e], [e]);
    assert [e, e] == [e] + [e];
    assert [e][1..] == [];
  }
}

/**
 * A client frame that receives the full-state replay. The framework applies
 * `Commands` spawns at the end of the frame, so the movement handler, when it
 * reads the same frame's events, looks entities up before the frame's spawns
 * exist. `SameFrame` is that frame; `SpawnsFirst` is the frame with the
 * movement handler ordered after the spawns have landed.
 */
module Frames {
  import opened Ids
  import opened Wrappers
  import opened Protocol
  import opened Components
  import opened Events
  import opened Pointers
  import opened InternalEvents
  import opened Client
  import opened Convergence

  /** Both handlers read the frame's events; the spawns land only after the movement handler has run. */
  function SameFrame(store: Store, events: seq<ServerEvent>): Store
  {
    HandlePointerSpawns(HandleMovementChanges(store, events), events)
  }

  /** The movement handler reads the frame's events after the frame's spawns have landed. */
  function SpawnsFirst(store: Store, events: seq<ServerEvent>): Store
  {
    HandleMovementChanges(HandlePointerSpawns(store, events), events)
  }

  /** `events` is the replay of `server` as a client unwraps it: a spawn, then a movement change, per pointer in store order. */
  ghost predicate IsReplay(events: seq<ServerEvent>, server: Store)
  {
    && |events| == 2 * |server|
    && forall k :: 0 <= k < |server| ==>
         && events[2 * k] == PointerSpawn(server[k].sync, server[k].control.owner, server[k].location)
         && events[2 * k + 1] == EntityMovementChange(server[k].sync, server[k].movable, server[k].location)
  }

  /** The pointers spawned by `events` are one fresh pointer per server pointer, in store order. */
  ghost predicate SpawnsReplayed(events: seq<ServerEvent>, server: Store)
  {
    && |Spawned(events)| == |server|
    && forall k :: 0 <= k < |server| ==>
         Spawned(events)[k] == SpawnPointer(server[k].control.owner, server[k].location, server[k].sync)
  }

  /** What a client unwraps from the replay messages is the replay, spawn then movement change per pointer. */
  lemma {:induction false} ReplayUpdates(server: Store)
    ensures IsReplay(ServerUpdates(ReplayMessages(server)), server)
    decreases |server|
  {
    if server == [] {
      assert ReplayMessages(server) == [];
    } else {
      var init := server[..|server| - 1];
      var p := server[|server| - 1];
      var before := ServerUpdates(ReplayMessages(init));
      var events := ServerUpdates(ReplayMessages(server));
      ReplayUpdates(init);
      UnwrapReplaySnoc(server);
      assert events == before + [PointerSpawn(p.sync, p.control.owner, p.location), EntityMovementChange(p.sync, p.movable, p.location)];
      forall k | 0 <= k < |server|
        ensures events[2 * k] == PointerSpawn(server[k].sync, server[k].control.owner, server[k].location)
        ensures events[2 * k + 1] == EntityMovementChange(server[k].sync, server[k].movable, server[k].location)
      {
        if k < |init| {
          assert init[k] == server[k];
          assert events[2 * k] == before[2 * k] && events[2 * k + 1] == before[2 * k + 1];
        }
      }
    }
  }

  /** The j-th event of a replay is about the (j/2)-th pointer, and is a movement change iff j is odd. */
  lemma ReplayEventAt(events: seq<ServerEvent>, server: Store, j: nat)
    requires IsReplay(events, server)
    requires j < |events|
    ensures events[j].sync == server[j / 2].sync
    ensures events[j].EntityMovementChange? <==> j % 2 == 1
  {
    var k := j / 2;
    if j % 2 == 0 {
      assert j == 2 * k;
    } else {
      assert j == 2 * k + 1;
    }
  }

  /** A replay spawns one fresh pointer per server pointer, in store order. */
  lemma {:induction false} SpawnedReplay(events: seq<ServerEvent>, server: Store)
    requires IsReplay(events, server)
    ensures SpawnsReplayed(events, server)
    decreases |server|
  {
    if server != [] {
      var n := |server| - 1;
      var init := server[..n];
      var p := server[n];
      var spawn := PointerSpawn(p.sync, p.control.owner, p.location);
      var change := EntityMovementChange(p.sync, p.movable, p.location);
      var before := events[..2 * n];
      assert events == before + [spawn, change];
      assert IsReplay(before, init) by {
        forall k | 0 <= k < n
          ensures before[2 * k] == events[2 * k] && before[2 * k + 1] == events[2 * k + 1]
        {
        }
        assert forall k :: 0 <= k < n ==> init[k] == server[k];
      }
      SpawnedReplay(before, init);
      SpawnedAppend(before, [spawn, change]);
      assert [spawn, change][1..] == [change];
      assert [change][1..] == [];
      assert Spawned([spawn, change]) == [SpawnPointer(p.control.owner, p.location, p.sync)];
      assert forall k :: 0 <= k < n ==> init[k] == server[k];
    }
  }

  /** No event of a replay names an id the server store does not hold. */
  lemma ReplayLeavesOthersAlone(store: Store, events: seq<ServerEvent>, server: Store, i: nat)
    requires IsReplay(events, server)
    requires i < |store|
    requires forall j :: 0 <= j < |server| ==> store[i].sync.uniqueId != server[j].sync.uniqueId
    ensures HandleMovementChanges(store, events)[i] == store[i]
  {
    forall j | 0 <= j < |events|
      ensures !Names(events[j], store[i].sync.uniqueId)
    {
      ReplayEventAt(events, server, j);
    }
    UnnamedEntitiesUntouched(store, events, i);
  }

  /**
   * The replay as the code handles it in one frame: the client keeps its own
   * pointers and gains one pointer per server pointer, but each is exactly
   * what its spawn event builds, `Movable::new(position)`; the movement
   * change that followed it found no entity and was dropped.
   */
  lemma {:induction false} NewJoinerSameFrame(client: Store, server: Store)
    requires forall i, j :: 0 <= i < |client| && 0 <= j < |server| ==>
      client[i].sync.uniqueId != server[j].sync.uniqueId
    ensures var r := SameFrame(client, ServerUpdates(ReplayMessages(server)));
      && |r| == |client| + |server|
      && r[..|client|] == client
      && forall k :: 0 <= k < |server| ==>
           r[|client| + k] == SpawnPointer(server[k].control.owner, server[k].location, server[k].sync)
  {
    var events := ServerUpdates(ReplayMessages(server));
    ReplayUpdates(server);
    SpawnedReplay(events, server);
    var moved := HandleMovementChanges(client, events);
    forall i | 0 <= i < |client|
      ensures moved[i] == client[i]
    {
      ReplayLeavesOthersAlone(client, events, server, i);
    }
    assert moved == client;
    var r := SameFrame(client, events);
    assert r == client + Spawned(events);
    forall k | 0 <= k < |server|
      ensures r[|client| + k] == SpawnPointer(server[k].control.owner, server[k].location, server[k].sync)
    {
      assert r[|client| + k] == Spawned(events)[k];
    }
  }

  /**
   * A pointer on its way from (50,50) to (100,50), replayed to a new client
   * in one frame, arrives as a pointer heading for (50,50): the client's copy
   * disagrees with the server's.
   */
  lemma ReplayedMoveIsLost()
    ensures var p := Pointer(NetworkSync(7), PlayerControllable(1), NewMovable(Vec2(100.0, 50.0)), Vec2(50.0, 50.0), false);
      && SameFrame([], ServerUpdates(ReplayMessages([p])))[0].movable.targetLocation == Vec2(50.0, 50.0)
      && !Agrees(SameFrame([], ServerUpdates(ReplayMessages([p]))), [p])
  {
    var p := Pointer(NetworkSync(7), PlayerControllable(1), NewMovable(Vec2(100.0, 50.0)), Vec2(50.0, 50.0), false);
    NewJoinerSameFrame([], [p]);
    assert [] + [p] == [p];
  }

  /** The store a replay's spawns build: the client's pointers followed by one fresh pointer per server pointer. */
  ghost predicate SpawnedFrom(spawned: Store, client: Store, server: Store)
  {
    && |spawned| == |client| + |server|
    && (forall i :: 0 <= i < |client| ==> spawned[i] == client[i])
    && forall k :: 0 <= k < |server| ==>
         spawned[|client| + k] == SpawnPointer(server[k].control.owner, server[k].location, server[k].sync)
  }

  /** Handling a replay's spawns builds the client's pointers followed by the fresh copies. */
  lemma SpawnsOfReplay(client: Store, events: seq<ServerEvent>, server: Store)
    requires SpawnsReplayed(events, server)
    ensures SpawnedFrom(HandlePointerSpawns(client, events), client, server)
  {
    var spawned := HandlePointerSpawns(client, events);
    assert spawned == client + Spawned(events);
    forall k | 0 <= k < |server|
      ensures spawned[|client| + k] == Spawned(events)[k]
    {
    }
  }

  /** The first entity with the k-th server pointer's id is its fresh copy. */
  lemma FindSpawned(spawned: Store, client: Store, server: Store, k: nat)
    requires UniqueIds(server)
    requires forall i, j :: 0 <= i < |client| && 0 <= j < |server| ==>
      client[i].sync.uniqueId != server[j].sync.uniqueId
    requires SpawnedFrom(spawned, client, server)
    requires k < |server|
    ensures FindUnit(spawned, server[k].sync.uniqueId) == Some(|client| + k)
  {
    var id := server[k].sync.uniqueId;
    forall i | 0 <= i < |client| + k
      ensures spawned[i].sync.uniqueId != id
    {
      if i >= |client| {
        assert spawned[i].sync == server[i - |client|].sync;
      }
    }
    assert spawned[|client| + k].sync.uniqueId == id;
  }

  /** With the spawns landed first, the copy of the server pointer at `i - |client|` takes the replayed movable and position. */
  lemma RebuildOne(spawned: Store, events: seq<ServerEvent>, client: Store, server: Store, i: nat)
    requires UniqueIds(server)
    requires forall i, j :: 0 <= i < |client| && 0 <= j < |server| ==>
      client[i].sync.uniqueId != server[j].sync.uniqueId
    requires IsReplay(events, server)
    requires SpawnedFrom(spawned, client, server)
    requires |client| <= i < |client| + |server|
    ensures |HandleMovementChanges(spawned, events)| == |client| + |server|
    ensures HandleMovementChanges(spawned, events)[i].movable == server[i - |client|].movable
    ensures HandleMovementChanges(spawned, events)[i].location == server[i - |client|].location
  {
    var k := i - |client|;
    FindSpawned(spawned, client, server, k);
    forall j | 2 * k + 1 < j < |events|
      ensures !Names(events[j], events[2 * k + 1].sync.uniqueId)
    {
      ReplayEventAt(events, server, j);
    }
    LastMovementChangeWins(spawned, events, 2 * k + 1);
  }

  /**
   * New-joiner full view, with the movement handler ordered after the
   * frame's spawns: a client whose pointers share no id with the server's,
   * receiving the replay of a server store without duplicate ids, ends the
   * frame holding its own pointers followed by exactly the server's.
   */
  lemma {:induction false} NewJoinerFullViewSpawnsFirst(client: Store, server: Store)
    requires UniqueIds(server)
    requires forall i, j :: 0 <= i < |client| && 0 <= j < |server| ==>
      client[i].sync.uniqueId != server[j].sync.uniqueId
    ensures Agrees(SpawnsFirst(client, ServerUpdates(ReplayMessages(server))), client + server)
  {
    var events := ServerUpdates(ReplayMessages(server));
    ReplayUpdates(server);
    SpawnedReplay(events, server);
    var spawned := HandlePointerSpawns(client, events);
    SpawnsOfReplay(client, events, server);
    var r := HandleMovementChanges(spawned, events);
    var expected := client + server;
    forall i: nat | i < |r|
      ensures r[i].sync == expected[i].sync && r[i].control == expected[i].control
      ensures r[i].movable == expected[i].movable && r[i].location == expected[i].location
    {
      if i < |client| {
        ReplayLeavesOthersAlone(spawned, events, server, i);
      } else {
        RebuildOne(spawned, events, client, server, i);
      }
    }
  }
}

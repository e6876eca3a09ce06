/**
 * End-to-end properties that relate the server's systems to the client's:
 * what the server sends, the client unwraps; every change reaches every
 * peer; and a new player's replay rebuilds the server's pointers.
 */
module Convergence {
  import opened Ids
  import opened Wrappers
  import opened Protocol
  import opened Components
  import opened Events
  import opened Game
  import opened Pointers
  import opened Net
  import opened InternalEvents
  import opened Server
  import opened Client

  /** What the server wraps as server updates, the client unwraps unchanged and in order. */
  lemma {:induction false} UnwrapRoundTrip(events: seq<ServerEvent>)
    ensures ServerUpdates(Updates(events)) == events
    decreases |events|
  {
    if events != [] {
      assert Updates(events)[1..] == Updates(events[1..]);
      UnwrapRoundTrip(events[1..]);
    }
  }

  /** A changed movable is reported by the next sync and reaches every connection's game channel. */
  lemma ChangeReachesEveryPeer(store: Store, conns: Connections, i: nat, c: nat)
    requires i < |store| && store[i].movableChanged
    requires c < |conns|
    ensures ServerUpdate(MovementChangeOf(store[i])) in SendToAll(conns, Updates(SyncMovable(store).events))[c].gameOut
  {
    ChangedMovementsComplete(store, i);
    var events := SyncMovable(store).events;
    var k :| 0 <= k < |events| && events[k] == MovementChangeOf(store[i]);
    var out := SendToAll(conns, Updates(events))[c].gameOut;
    assert out[|conns[c].gameOut| + k] == ServerUpdate(events[k]);
  }

  /** An accepted move is reported by the next sync, carrying the commanded movable. */
  lemma OwnerMoveIsReported(store: Store, ac: AssociatedCommand)
    requires ac.command.PointerMoveChange?
    requires FindUnit(store, ac.command.unit.uniqueId).Some?
    requires store[FindUnit(store, ac.command.unit.uniqueId).value].control.owner == ac.player
    ensures var r := HandleClientMoveCommand(store, ac);
      var i := FindUnit(store, ac.command.unit.uniqueId).value;
      && r[i].movable == ac.command.target
      && EntityMovementChange(store[i].sync, ac.command.target, store[i].location) in SyncMovable(r).events
  {
    var r := HandleClientMoveCommand(store, ac);
    var i := FindUnit(store, ac.command.unit.uniqueId).value;
    ChangedMovementsComplete(r, i);
  }

  // ---------------------------------------------------------------------
  // Reconciliation of a client's store

  /**
   * A client handling one server event: the spawn handler and the movement
   * handler each see it, the movement handler after the spawn has landed.
   */
  function ReconcileOne(store: Store, e: ServerEvent): Store
  {
    ApplyMovementChange(HandlePointerSpawns(store, [e]), e)
  }

  /** A client handling a stream of server events in order. */
  function Reconcile(store: Store, events: seq<ServerEvent>): Store
    decreases |events|
  {
    if events == [] then store
    else ReconcileOne(Reconcile(store, events[..|events| - 1]), events[|events| - 1])
  }

  /** Two stores hold the same pointers in the same order (change marks aside). */
  ghost predicate Agrees(a: Store, b: Store)
  {
    && |a| == |b|
    && forall i :: 0 <= i < |a| ==>
         && a[i].sync == b[i].sync
         && a[i].control == b[i].control
         && a[i].movable == b[i].movable
         && a[i].location == b[i].location
  }

  /** The replay of one pointer appends that pointer, exactly, to a store that does not know its id. */
  lemma ReplayPairRebuilds(store: Store, p: Pointer)
    requires forall i :: 0 <= i < |store| ==> store[i].sync.uniqueId != p.sync.uniqueId
    ensures var r := ReconcileOne(ReconcileOne(store, PointerSpawn(p.sync, p.control.owner, p.location)),
                                  EntityMovementChange(p.sync, p.movable, p.location));
      && |r| == |store| + 1
      && r[..|store|] == store
      && r[|store|].sync == p.sync && r[|store|].control == p.control
      && r[|store|].movable == p.movable && r[|store|].location == p.location
  {
    var spawn := PointerSpawn(p.sync, p.control.owner, p.location);
    var change := EntityMovementChange(p.sync, p.movable, p.location);
    SpawnOne(store, spawn);
    var spawned := ReconcileOne(store, spawn);
    assert spawned == store + [SpawnPointer(p.control.owner, p.location, p.sync)];
    SpawnedAppend([change], []);
    assert Spawned([change]) == [];
    assert HandlePointerSpawns(spawned, [change]) == spawned;
    var found := FindUnit(spawned, p.sync.uniqueId);
    assert spawned[|store|].sync.uniqueId == p.sync.uniqueId;
    assert found == Some(|store|);
  }

  lemma ReconcileTwoMore(store: Store, events: seq<ServerEvent>, a: ServerEvent, b: ServerEvent)
    ensures Reconcile(store, events + [a, b]) == ReconcileOne(ReconcileOne(Reconcile(store, events), a), b)
  {
    var all := events + [a, b];
    assert all[..|all| - 1] == events + [a];
    assert (events + [a])[..|events|] == events;
  }

  lemma UnwrapReplaySnoc(server: Store)
    requires server != []
    ensures var p := server[|server| - 1];
      ServerUpdates(ReplayMessages(server)) ==
        ServerUpdates(ReplayMessages(server[..|server| - 1]))
          + [PointerSpawn(p.sync, p.control.owner, p.location), EntityMovementChange(p.sync, p.movable, p.location)]
  {
    var p := server[|server| - 1];
    var init := server[..|server| - 1];
    assert ReplayMessages(server) == ReplayMessages(init) + ReplayPair(p);
    ServerUpdatesAppend(ReplayMessages(init), ReplayPair(p));
    UnwrapPair(p);
  }

  lemma UnwrapPair(p: Pointer)
    ensures ServerUpdates(ReplayPair(p)) ==
      [PointerSpawn(p.sync, p.control.owner, p.location), EntityMovementChange(p.sync, p.movable, p.location)]
  {
    var pair := ReplayPair(p);
    assert pair[1..][1..] == [];
    assert ServerUpdates(pair[1..]) == [pair[1].update];
  }

  /** A store that agrees with `client + init` knows none of the ids that follow `init` in the server. */
  lemma FreshIdAfterPrefix(r: Store, client: Store, server: Store)
    requires server != []
    requires UniqueIds(server)
    requires forall i, j :: 0 <= i < |client| && 0 <= j < |server| ==>
      client[i].sync.uniqueId != server[j].sync.uniqueId
    requires Agrees(r, client + server[..|server| - 1])
    ensures forall i :: 0 <= i < |r| ==> r[i].sync.uniqueId != server[|server| - 1].sync.uniqueId
  {
    var init := server[..|server| - 1];
    forall i | 0 <= i < |r|
      ensures r[i].sync.uniqueId != server[|server| - 1].sync.uniqueId
    {
      assert r[i].sync == (client + init)[i].sync;
      if i >= |client| {
        assert (client + init)[i] == server[i - |client|];
      }
    }
  }

  lemma SplitLast(client: Store, server: Store)
    requires server != []
    ensures client + server == (client + server[..|server| - 1]) + [server[|server| - 1]]
  {
    assert server == server[..|server| - 1] + [server[|server| - 1]];
  }

  lemma AgreesSnoc(r: Store, r': Store, expected: Store, p: Pointer)
    requires Agrees(r, expected)
    requires |r'| == |r| + 1 && r'[..|r|] == r
    requires r'[|r|].sync == p.sync && r'[|r|].control == p.control
    requires r'[|r|].movable == p.movable && r'[|r|].location == p.location
    ensures Agrees(r', expected + [p])
  {
    forall i | 0 <= i < |r|
      ensures r'[i] == r[i]
    {
      assert r'[..|r|][i] == r'[i];
    }
  }

  /**
   * New-joiner full view: a client whose pointers share no id with the
   * server's, receiving the full-state replay of a server store without
   * duplicate ids, ends up holding its own pointers followed by exactly the
   * server's.
   */
  lemma {:induction false} NewJoinerFullView(client: Store, server: Store)
    requires UniqueIds(server)
    requires forall i, j :: 0 <= i < |client| && 0 <= j < |server| ==>
      client[i].sync.uniqueId != server[j].sync.uniqueId
    ensures Agrees(Reconcile(client, ServerUpdates(ReplayMessages(server))), client + server)
    decreases |server|
  {
    if server == [] {
      assert ReplayMessages(server) == [];
      assert client + server == client;
    } else {
      var init := server[..|server| - 1];
      var p := server[|server| - 1];
      assert UniqueIds(init);
      assert forall i, j :: 0 <= i < |client| && 0 <= j < |init| ==>
        client[i].sync.uniqueId != init[j].sync.uniqueId;
      NewJoinerFullView(client, init);
      var before := ServerUpdates(ReplayMessages(init));
      var r := Reconcile(client, before);
      var spawn := PointerSpawn(p.sync, p.control.owner, p.location);
      var change := EntityMovementChange(p.sync, p.movable, p.location);
      UnwrapReplaySnoc(server);
      ReconcileTwoMore(client, before, spawn, change);
      FreshIdAfterPrefix(r, client, server);
      ReplayPairRebuilds(r, p);
      var r' := ReconcileOne(ReconcileOne(r, spawn), change);
      AgreesSnoc(r, r', client + init, p);
      assert Reconcile(client, ServerUpdates(ReplayMessages(server))) == r';
      SplitLast(client, server);
    }
  }

  // ---------------------------------------------------------------------
  // Scenarios

  /**
   * After the connect handshake's spawn events are handled, the k-th new
   * player owns a new pointer at the spawn point, heading nowhere else, and
   * the existing pointers are untouched.
   */
  lemma NewPlayerGetsPointer(store: Store, internal: seq<Internal>, randoms: seq<u32>, k: nat)
    requires |randoms| >= |internal| && k < |internal|
    ensures var r := HandlePointerSpawns(store, SpawnPointOnPlayerConnect(internal, randoms));
      && |r| == |store| + |internal|
      && r[..|store|] == store
      && r[|store| + k].sync.uniqueId == randoms[k]
      && r[|store| + k].control.owner == internal[k].id.playerId
      && r[|store| + k].location == SPAWN_POINT
      && r[|store| + k].movable == NewMovable(SPAWN_POINT)
      && r[|store| + k].movableChanged
  {
    var events := SpawnPointOnPlayerConnect(internal, randoms);
    SpawnedAllSpawns(events);
    var r := HandlePointerSpawns(store, events);
    assert r == store + Spawned(events);
    assert r[|store| + k] == Spawned(events)[k];
  }

  /**
   * A click is accepted by the server: if the client's copy agrees with the
   * server's store and the client owns a pointer, the command its click
   * produces passes the ownership check and moves exactly that pointer.
   */
  lemma ClickIsAccepted(client: Store, server: Store, identity: ClientIdentification, position: Vec2)
    requires Agrees(client, server)
    requires UniqueIds(server)
    requires FindOwned(client, identity.playerId).Some?
    ensures var i := FindOwned(client, identity.playerId).value;
      var r := HandleClientMoveCommand(server, AssociatedCommand(identity.playerId, ClickCommand(identity, client, position)));
      && r[i].movable == NewMovable(position)
      && r[i].movableChanged
      && forall j :: 0 <= j < |server| && j != i ==> r[j] == server[j]
  {
    var i := FindOwned(client, identity.playerId).value;
    var found := FindUnit(server, client[i].sync.uniqueId);
    assert server[i].sync.uniqueId == client[i].sync.uniqueId;
    assert found == Some(i);
  }
}

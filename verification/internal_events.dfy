/**
 * The server's connect handshake: once a new connection has been given a
 * player id, the player is told its identity, a pointer is spawned for it,
 * and every existing pointer is replayed to it.
 */
module InternalEvents {
  import opened Ids
  import opened Protocol
  import opened Components
  import opened Events
  import opened Net

  /** Raised once per new connection, carrying the identity assigned to it. */
  datatype Internal = PlayerConnected(handle: ConnectionHandle, id: ClientIdentification)

  /** Where a new player's pointer appears. */
  const SPAWN_POINT: Vec2 := Vec2(50.0, 50.0)

  /** Every connection named by an internal event is still open: `get_mut(&handle).unwrap()` would panic otherwise. */
  ghost predicate AllConnected(conns: Connections, internal: seq<Internal>)
  {
    forall k :: 0 <= k < |internal| ==> IsConnected(conns, internal[k].handle)
  }

  /** How many internal events name handle `h`. */
  function CountFor(h: ConnectionHandle, internal: seq<Internal>): nat
    decreases |internal|
  {
    if internal == [] then 0
    else CountFor(h, internal[..|internal| - 1]) + (if internal[|internal| - 1].handle == h then 1 else 0)
  }

  // ---------------------------------------------------------------------
  // handle_new_player_connections

  /** The identification messages the handshake addresses to `h`, in event order. */
  function IdentificationsFor(h: ConnectionHandle, internal: seq<Internal>): (msgs: seq<MetaInformation>)
    ensures |msgs| == CountFor(h, internal)
    ensures forall m :: m in msgs ==>
      exists e :: e in internal && e.handle == h && m == ClientIdentificationMessage(e.id)
    decreases |internal|
  {
    if internal == [] then []
    else
      var e := internal[|internal| - 1];
      IdentificationsFor(h, internal[..|internal| - 1])
        + (if e.handle == h then [ClientIdentificationMessage(e.id)] else [])
  }

  /** Each new player is sent its identity on the metadata channel, and only it. */
  function HandleNewPlayerConnections(conns: Connections, internal: seq<Internal>): (r: Connections)
    requires AllConnected(conns, internal)
    ensures |r| == |conns|
    ensures forall i :: 0 <= i < |conns| ==>
      r[i] == conns[i].(metaOut := conns[i].metaOut + IdentificationsFor(conns[i].handle, internal))
    decreases |internal|
  {
    if internal == [] then
      assert forall i :: 0 <= i < |conns| ==> conns[i].metaOut + [] == conns[i].metaOut;
      conns
    else
      var e := internal[|internal| - 1];
      var sent := HandleNewPlayerConnections(conns, internal[..|internal| - 1]);
      SameHandlesConnected(conns, sent, e.handle);
      SendMetaTo(sent, e.handle, [ClientIdentificationMessage(e.id)])
  }

  /** One connect: exactly one identification, carrying the new id, reaches the new handle; no one else hears anything. */
  lemma IdentifyOne(conns: Connections, h: ConnectionHandle, id: ClientIdentification)
    requires IsConnected(conns, h)
    ensures var r := HandleNewPlayerConnections(conns, [PlayerConnected(h, id)]);
      forall i :: 0 <= i < |conns| ==>
        r[i] == if conns[i].handle == h then conns[i].(metaOut := conns[i].metaOut + [ClientIdentificationMessage(id)])
                else conns[i]
  {
    var internal := [PlayerConnected(h, id)];
    assert internal[..0] == [];
    forall i | 0 <= i < |conns|
      ensures IdentificationsFor(conns[i].handle, internal) ==
        (if conns[i].handle == h then [ClientIdentificationMessage(id)] else [])
    {
    }
  }

  // ---------------------------------------------------------------------
  // spawn_point_on_player_connect

  /** Each new player gets one pointer spawn event, at the spawn point, with a freshly drawn id. */
  function SpawnPointOnPlayerConnect(internal: seq<Internal>, randoms: seq<u32>): (r: seq<ServerEvent>)
    requires |randoms| >= |internal|
    ensures |r| == |internal|
    ensures forall k :: 0 <= k < |internal| ==>
      r[k] == PointerSpawn(NewNetworkSync(randoms[k]), internal[k].id.playerId, SPAWN_POINT)
    decreases |internal|
  {
    if internal == [] then []
    else
      [PointerSpawn(NewNetworkSync(randoms[0]), internal[0].id.playerId, SPAWN_POINT)]
        + SpawnPointOnPlayerConnect(internal[1..], randoms[1..])
  }

  // ---------------------------------------------------------------------
  // sync_pointers_on_connect

  /** What a new player is told about one existing pointer: where it is and whose it is, then how it moves. */
  function ReplayPair(p: Pointer): seq<GameEvent>
  {
    [ServerUpdate(PointerSpawn(p.sync, p.control.owner, p.location)),
     ServerUpdate(EntityMovementChange(p.sync, p.movable, p.location))]
  }

  /** The full-state replay: one spawn/movement pair per existing pointer, in store order. */
  function ReplayMessages(store: Store): (msgs: seq<GameEvent>)
    ensures |msgs| == 2 * |store|
    ensures forall k :: 0 <= k < |store| ==>
      && msgs[2 * k] == ServerUpdate(PointerSpawn(store[k].sync, store[k].control.owner, store[k].location))
      && msgs[2 * k + 1] == ServerUpdate(EntityMovementChange(store[k].sync, store[k].movable, store[k].location))
    decreases |store|
  {
    if store == [] then []
    else ReplayMessages(store[..|store| - 1]) + ReplayPair(store[|store| - 1])
  }

  /** `n` copies of `s`, one after another. */
  function Repeat<T>(s: seq<T>, n: nat): (r: seq<T>)
    ensures |r| == n * |s|
  {
    if n == 0 then [] else Repeat(s, n - 1) + s
  }

  /** Each new player is sent the replay of every pointer on the game channel; other connections get nothing. */
  function SyncPointersOnConnect(conns: Connections, internal: seq<Internal>, store: Store): (r: Connections)
    requires AllConnected(conns, internal)
    ensures |r| == |conns|
    ensures forall i :: 0 <= i < |conns| ==>
      r[i] == conns[i].(gameOut := conns[i].gameOut + Repeat(ReplayMessages(store), CountFor(conns[i].handle, internal)))
    decreases |internal|
  {
    if internal == [] then
      assert forall i :: 0 <= i < |conns| ==> conns[i].gameOut + [] == conns[i].gameOut;
      conns
    else
      var e := internal[|internal| - 1];
      var sent := SyncPointersOnConnect(conns, internal[..|internal| - 1], store);
      SameHandlesConnected(conns, sent, e.handle);
      SendGameTo(sent, e.handle, ReplayMessages(store))
  }

  /** One connect: the new handle receives exactly 2·N game messages for N pointers; no one else hears anything. */
  lemma ReplayOne(conns: Connections, h: ConnectionHandle, id: ClientIdentification, store: Store)
    requires IsConnected(conns, h)
    ensures var r := SyncPointersOnConnect(conns, [PlayerConnected(h, id)], store);
      forall i :: 0 <= i < |conns| ==>
        && (conns[i].handle == h ==>
              && r[i] == conns[i].(gameOut := conns[i].gameOut + ReplayMessages(store))
              && |r[i].gameOut| == |conns[i].gameOut| + 2 * |store|)
        && (conns[i].handle != h ==> r[i] == conns[i])
  {
    var internal := [PlayerConnected(h, id)];
    assert internal[..0] == [];
    var replay := ReplayMessages(store);
    assert Repeat(replay, 1) == replay by {
      assert Repeat(replay, 0) == [];
    }
  }
}

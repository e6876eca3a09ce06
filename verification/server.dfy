/**
 * The authoritative server's per-frame systems: command intake from the
 * connections, connection bookkeeping, ownership-checked command application,
 * change detection on movables and fan-out of server events.
 */
module Server {
  import opened Ids
  import opened Wrappers
  import opened Protocol
  import opened Components
  import opened Events
  import opened Game
  import opened Net
  import opened InternalEvents

  /** Which player each connection belongs to. */
  type ClientHandleMap = map<ConnectionHandle, PlayerId>

  // ---------------------------------------------------------------------
  // handle_clients_commands

  /** The player commands in a stream of game events, in order. */
  function PlayerCommands(events: seq<GameEvent>): (cmds: seq<PlayerCommand>)
    ensures |cmds| <= |events|
    ensures forall c :: c in cmds ==> PlayerCommand(c) in events
    ensures forall c :: PlayerCommand(c) in events ==> c in cmds
    decreases |events|
  {
    if events == [] then []
    else (if events[0].PlayerCommand? then [events[0].command] else []) + PlayerCommands(events[1..])
  }

  lemma {:induction false} PlayerCommandsSnoc(events: seq<GameEvent>, e: GameEvent)
    ensures PlayerCommands(events + [e]) == PlayerCommands(events) + (if e.PlayerCommand? then [e.command] else [])
    decreases |events|
  {
    if events == [] {
      assert events + [e] == [e];
      assert [e][1..] == [];
    } else {
      assert (events + [e])[0] == events[0];
      assert (events + [e])[1..] == events[1..] + [e];
      PlayerCommandsSnoc(events[1..], e);
    }
  }

  function Tag(player: PlayerId, cmds: seq<PlayerCommand>): (q: seq<AssociatedCommand>)
    ensures |q| == |cmds|
    ensures forall k :: 0 <= k < |cmds| ==> q[k] == AssociatedCommand(player, cmds[k])
  {
    seq(|cmds|, k requires 0 <= k < |cmds| => AssociatedCommand(player, cmds[k]))
  }

  /** What one connection's inbound game events contribute to the command queue. */
  function Intake(handleMap: ClientHandleMap, h: ConnectionHandle, events: seq<GameEvent>): (q: seq<AssociatedCommand>)
    ensures h !in handleMap ==> q == []
    ensures forall a :: a in q ==> h in handleMap && a.player == handleMap[h] && PlayerCommand(a.command) in events
    ensures h in handleMap ==> forall c :: PlayerCommand(c) in events ==> AssociatedCommand(handleMap[h], c) in q
  {
    if h in handleMap then Tag(handleMap[h], PlayerCommands(events)) else []
  }

  /**
   * Receiving one more event: a player command from a mapped connection is
   * queued exactly once, tagged with that connection's player; a command from
   * an unmapped connection and any server update queue nothing.
   */
  lemma IntakeStep(handleMap: ClientHandleMap, h: ConnectionHandle, events: seq<GameEvent>, e: GameEvent)
    ensures Intake(handleMap, h, events + [e]) ==
      Intake(handleMap, h, events) + (if h in handleMap && e.PlayerCommand? then [AssociatedCommand(handleMap[h], e.command)] else [])
  {
    PlayerCommandsSnoc(events, e);
    if h in handleMap {
      var tail: seq<PlayerCommand> := if e.PlayerCommand? then [e.command] else [];
      TagAppend(handleMap[h], PlayerCommands(events), tail);
    }
  }

  lemma TagAppend(player: PlayerId, a: seq<PlayerCommand>, b: seq<PlayerCommand>)
    ensures Tag(player, a + b) == Tag(player, a) + Tag(player, b)
  {
    assert forall k :: 0 <= k < |a| + |b| ==> (Tag(player, a) + Tag(player, b))[k] == AssociatedCommand(player, (a + b)[k]);
  }

  /** The command queue built from every connection, in connection order. */
  function AllIntake(handleMap: ClientHandleMap, conns: Connections): (q: seq<AssociatedCommand>)
    ensures forall a :: a in q ==>
      exists i :: && 0 <= i < |conns|
                  && conns[i].handle in handleMap
                  && a.player == handleMap[conns[i].handle]
                  && PlayerCommand(a.command) in conns[i].gameIn
    decreases |conns|
  {
    if conns == [] then []
    else
      var last := conns[|conns| - 1];
      AllIntake(handleMap, conns[..|conns| - 1]) + Intake(handleMap, last.handle, last.gameIn)
  }

  /** Every player command received from a mapped connection is queued, tagged with that connection's player. */
  lemma {:induction false} AllIntakeComplete(handleMap: ClientHandleMap, conns: Connections, i: nat, c: PlayerCommand)
    requires i < |conns| && conns[i].handle in handleMap
    requires PlayerCommand(c) in conns[i].gameIn
    ensures AssociatedCommand(handleMap[conns[i].handle], c) in AllIntake(handleMap, conns)
    decreases |conns|
  {
    var init := conns[..|conns| - 1];
    AllIntakeSplit(handleMap, conns);
    if i < |init| {
      assert init[i] == conns[i];
      AllIntakeComplete(handleMap, init, i, c);
    } else {
      assert conns[i] == conns[|conns| - 1];
    }
  }

  /** The queue built from all connections holds the queue of all but the last, and the last one's intake. */
  lemma AllIntakeSplit(handleMap: ClientHandleMap, conns: Connections)
    requires conns != []
    ensures forall a :: a in AllIntake(handleMap, conns[..|conns| - 1]) ==> a in AllIntake(handleMap, conns)
    ensures var last := conns[|conns| - 1];
      forall a :: a in Intake(handleMap, last.handle, last.gameIn) ==> a in AllIntake(handleMap, conns)
  {
  }

  /** The `while let` loop over one connection: receive every game event, queueing player commands from mapped handles. */
  method ReceiveCommands(conn: Connection, handleMap: ClientHandleMap) returns (queue: seq<AssociatedCommand>)
    ensures queue == Intake(handleMap, conn.handle, conn.gameIn)
  {
    queue := [];
    var j := 0;
    while j < |conn.gameIn|
      invariant 0 <= j <= |conn.gameIn|
      invariant queue == Intake(handleMap, conn.handle, conn.gameIn[..j])
    {
      var event := conn.gameIn[j];
      IntakeStep(handleMap, conn.handle, conn.gameIn[..j], event);
      assert conn.gameIn[..j + 1] == conn.gameIn[..j] + [event];
      match event {
        case PlayerCommand(cmd) =>
          if conn.handle in handleMap {
            queue := queue + [AssociatedCommand(handleMap[conn.handle], cmd)];
          }
        case ServerUpdate(_) =>
      }
      j := j + 1;
    }
    assert conn.gameIn[..j] == conn.gameIn;
  }

  /** `handle_clients_commands`: drain every connection's game channel into the command queue. */
  method HandleClientsCommands(conns: Connections, handleMap: ClientHandleMap)
    returns (drained: Connections, queue: seq<AssociatedCommand>)
    ensures queue == AllIntake(handleMap, conns)
    ensures |drained| == |conns|
    ensures forall i :: 0 <= i < |conns| ==> drained[i] == conns[i].(gameIn := [])
  {
    drained := [];
    queue := [];
    var i := 0;
    while i < |conns|
      invariant 0 <= i <= |conns|
      invariant |drained| == i
      invariant forall k :: 0 <= k < i ==> drained[k] == conns[k].(gameIn := [])
      invariant queue == AllIntake(handleMap, conns[..i])
    {
      var received := ReceiveCommands(conns[i], handleMap);
      assert conns[..i + 1][..i] == conns[..i];
      assert AllIntake(handleMap, conns[..i + 1]) == AllIntake(handleMap, conns[..i]) + received;
      queue := queue + received;
      drained := drained + [conns[i].(gameIn := [])];
      i := i + 1;
    }
    assert conns[..i] == conns;
  }

  // ---------------------------------------------------------------------
  // handle_client_connections

  /** Transport notices about connections (packet and error payloads are not modelled). */
  datatype NetworkEvent =
    | Connected(handle: ConnectionHandle)
    | Disconnected(handle: ConnectionHandle)
    | Packet(handle: ConnectionHandle)
    | Error(handle: ConnectionHandle)

  /** The handles of the `Connected` notices, in order. */
  function ConnectedHandles(events: seq<NetworkEvent>): (hs: seq<ConnectionHandle>)
    ensures |hs| <= |events|
    decreases |events|
  {
    if events == [] then []
    else (if events[0].Connected? then [events[0].handle] else []) + ConnectedHandles(events[1..])
  }

  datatype ConnectionsStep = ConnectionsStep(handleMap: ClientHandleMap, internal: seq<Internal>)

  /**
   * `handle_client_connections`: each `Connected` notice draws the next random
   * value as the new player's id, maps the handle to it and raises one
   * `PlayerConnected`; every other notice changes nothing.
   */
  function HandleClientConnections(events: seq<NetworkEvent>, handleMap: ClientHandleMap, randoms: seq<u32>)
    : (r: ConnectionsStep)
    requires |randoms| >= |ConnectedHandles(events)|
    ensures |r.internal| == |ConnectedHandles(events)|
    ensures forall k :: 0 <= k < |r.internal| ==>
      r.internal[k] == PlayerConnected(ConnectedHandles(events)[k], NewIdentification(randoms[k]))
    decreases |events|
  {
    if events == [] then ConnectionsStep(handleMap, [])
    else
      match events[0]
      case Connected(h) =>
        var id := NewIdentification(randoms[0]);
        var rest := HandleClientConnections(events[1..], handleMap[h := id.playerId], randoms[1..]);
        ConnectionsStep(rest.handleMap, [PlayerConnected(h, id)] + rest.internal)
      case _ => HandleClientConnections(events[1..], handleMap, randoms)
  }

  /**
   * The handles mapped afterwards are the old ones plus every newly connected
   * one; entries of handles that did not reconnect keep their player.
   */
  lemma {:induction false} HandleClientConnectionsMap(events: seq<NetworkEvent>, handleMap: ClientHandleMap, randoms: seq<u32>)
    requires |randoms| >= |ConnectedHandles(events)|
    ensures var r := HandleClientConnections(events, handleMap, randoms);
      && r.handleMap.Keys == handleMap.Keys + (set h | h in ConnectedHandles(events))
      && forall h :: h in handleMap && h !in ConnectedHandles(events) ==> r.handleMap[h] == handleMap[h]
    decreases |events|
  {
    if events != [] {
      match events[0]
      case Connected(h) =>
        HandleClientConnectionsMap(events[1..], handleMap[h := randoms[0]], randoms[1..]);
      case _ =>
        HandleClientConnectionsMap(events[1..], handleMap, randoms);
    }
  }

  /**
   * Which player a connected handle belongs to: the k-th connect's handle,
   * unless it connects again later in the batch, ends up mapped to the k-th
   * random draw, which is also the id announced in the k-th `PlayerConnected`.
   */
  lemma {:induction false} HandleClientConnectionsPlayer(events: seq<NetworkEvent>, handleMap: ClientHandleMap, randoms: seq<u32>, k: nat)
    requires |randoms| >= |ConnectedHandles(events)|
    requires k < |ConnectedHandles(events)|
    requires ConnectedHandles(events)[k] !in ConnectedHandles(events)[k + 1..]
    ensures var r := HandleClientConnections(events, handleMap, randoms);
      && ConnectedHandles(events)[k] in r.handleMap
      && r.handleMap[ConnectedHandles(events)[k]] == randoms[k]
      && r.internal[k].id.playerId == randoms[k]
    decreases |events|
  {
    match events[0]
    case Connected(h) =>
      var rest := ConnectedHandles(events[1..]);
      assert ConnectedHandles(events) == [h] + rest;
      if k == 0 {
        assert rest == ConnectedHandles(events)[1..];
        HandleClientConnectionsMap(events[1..], handleMap[h := randoms[0]], randoms[1..]);
      } else {
        assert ConnectedHandles(events)[k + 1..] == rest[k..];
        HandleClientConnectionsPlayer(events[1..], handleMap[h := randoms[0]], randoms[1..], k - 1);
      }
    case _ =>
      assert ConnectedHandles(events) == ConnectedHandles(events[1..]);
      HandleClientConnectionsPlayer(events[1..], handleMap, randoms, k);
  }

  /** A connect maps the handle to the fresh id and announces that same id once. */
  lemma ConnectedOne(handleMap: ClientHandleMap, h: ConnectionHandle, random: u32)
    ensures HandleClientConnections([Connected(h)], handleMap, [random]) ==
      ConnectionsStep(handleMap[h := random], [PlayerConnected(h, ClientIdentification(random))])
  {
    assert [Connected(h)][1..] == [];
  }

  /** A disconnect leaves the map as it is (the entry is not removed) and announces nothing. */
  lemma DisconnectedOne(handleMap: ClientHandleMap, h: ConnectionHandle, randoms: seq<u32>)
    ensures HandleClientConnections([Disconnected(h)], handleMap, randoms) == ConnectionsStep(handleMap, [])
  {
    assert [Disconnected(h)][1..] == [];
  }

  // ---------------------------------------------------------------------
  // handle_client_move_commands

  /** `ac` is a move command for `p`, issued by `p`'s owner. */
  predicate MovesAsOwner(ac: AssociatedCommand, p: Pointer)
  {
    && ac.command.PointerMoveChange?
    && ac.command.unit.uniqueId == p.sync.uniqueId
    && ac.player == p.control.owner
  }

  /**
   * One queued command: a move for a known unit, validated against the
   * unit's owner, overwrites that unit's movable and marks it changed.
   * Pings, unknown units and commands from anyone but the owner change nothing.
   */
  function HandleClientMoveCommand(store: Store, ac: AssociatedCommand): (r: Store)
    ensures |r| == |store|
    ensures forall i :: 0 <= i < |store| ==>
      r[i].sync == store[i].sync && r[i].control == store[i].control && r[i].location == store[i].location
    ensures forall i :: 0 <= i < |store| && r[i] != store[i] ==> MovesAsOwner(ac, store[i])
    ensures ac.command.Ping? ==> r == store
    ensures ac.command.PointerMoveChange? && FindUnit(store, ac.command.unit.uniqueId).None? ==> r == store
    ensures ac.command.PointerMoveChange? && FindUnit(store, ac.command.unit.uniqueId).Some? ==>
      var i := FindUnit(store, ac.command.unit.uniqueId).value;
      && (store[i].control.owner != ac.player ==> r == store)
      && (store[i].control.owner == ac.player ==>
            && r[i].movable == ac.command.target
            && r[i].movableChanged
            && forall j :: 0 <= j < |store| && j != i ==> r[j] == store[j])
  {
    match ac.command
    case Ping(_) => store
    case PointerMoveChange(unit, target) =>
      match FindUnit(store, unit.uniqueId)
      case None => store
      case Some(i) =>
        match ValidatePlayerCommand(ac.player, store[i].control, ac.command)
        case Ok(_) => store[i := store[i].(movable := UpdateMovable(store[i].movable, target), movableChanged := true)]
        case Err(_) => store
  }

  /** `handle_client_move_commands`: apply the queued commands in order. */
  function HandleClientMoveCommands(store: Store, cmds: seq<AssociatedCommand>): (r: Store)
    ensures |r| == |store|
    ensures forall i :: 0 <= i < |store| ==>
      r[i].sync == store[i].sync && r[i].control == store[i].control && r[i].location == store[i].location
    decreases |cmds|
  {
    if cmds == [] then store
    else HandleClientMoveCommands(HandleClientMoveCommand(store, cmds[0]), cmds[1..])
  }

  /** The ownership check gates every mutation: an entity changes only if its owner sent a move for it. */
  lemma {:induction false} OwnershipGatesEveryMutation(store: Store, cmds: seq<AssociatedCommand>, i: nat)
    requires i < |store|
    requires HandleClientMoveCommands(store, cmds)[i] != store[i]
    ensures exists k :: 0 <= k < |cmds| && MovesAsOwner(cmds[k], store[i])
    decreases |cmds|
  {
    var mid := HandleClientMoveCommand(store, cmds[0]);
    if mid[i] != store[i] {
      assert MovesAsOwner(cmds[0], store[i]);
    } else {
      OwnershipGatesEveryMutation(mid, cmds[1..], i);
      var k :| 0 <= k < |cmds[1..]| && MovesAsOwner(cmds[1..][k], mid[i]);
      assert MovesAsOwner(cmds[k + 1], store[i]);
    }
  }

  /** Commands from players other than an entity's owner never touch it. */
  lemma ForeignCommandsChangeNothing(store: Store, cmds: seq<AssociatedCommand>, i: nat)
    requires i < |store|
    requires forall k :: 0 <= k < |cmds| ==> cmds[k].player != store[i].control.owner
    ensures HandleClientMoveCommands(store, cmds)[i] == store[i]
  {
    if HandleClientMoveCommands(store, cmds)[i] != store[i] {
      OwnershipGatesEveryMutation(store, cmds, i);
    }
  }

  // ---------------------------------------------------------------------
  // sync_movable

  /** The broadcast describing a pointer's current movement state. */
  function MovementChangeOf(p: Pointer): ServerEvent
  {
    EntityMovementChange(p.sync, p.movable, p.location)
  }

  function ChangedCount(store: Store): nat
    decreases |store|
  {
    if store == [] then 0
    else (if store[0].movableChanged then 1 else 0) + ChangedCount(store[1..])
  }

  /** One movement change per changed movable, in store order. */
  function ChangedMovements(store: Store): (events: seq<ServerEvent>)
    ensures |events| == ChangedCount(store)
    ensures forall e :: e in events ==>
      exists i :: 0 <= i < |store| && store[i].movableChanged && e == MovementChangeOf(store[i])
    decreases |store|
  {
    if store == [] then []
    else
      (if store[0].movableChanged then [MovementChangeOf(store[0])] else []) + ChangedMovements(store[1..])
  }

  /** Every changed movable is reported. */
  lemma {:induction false} ChangedMovementsComplete(store: Store, i: nat)
    requires i < |store| && store[i].movableChanged
    ensures MovementChangeOf(store[i]) in ChangedMovements(store)
    decreases |store|
  {
    if i > 0 {
      ChangedMovementsComplete(store[1..], i - 1);
    }
  }

  function ClearChanged(store: Store): (r: Store)
    ensures |r| == |store|
    ensures forall i :: 0 <= i < |store| ==> r[i] == store[i].(movableChanged := false)
  {
    seq(|store|, i requires 0 <= i < |store| => store[i].(movableChanged := false))
  }

  datatype Synced = Synced(events: seq<ServerEvent>, store: Store)

  /** `sync_movable`: report every changed movable once and consume the change marks. */
  function SyncMovable(store: Store): (r: Synced)
    ensures |r.events| == ChangedCount(store)
    ensures r.events == ChangedMovements(store)
    ensures |r.store| == |store|
    ensures forall i :: 0 <= i < |store| ==> r.store[i] == store[i].(movableChanged := false)
  {
    Synced(ChangedMovements(store), ClearChanged(store))
  }

  /** A store with no change marks has nothing to report. */
  lemma {:induction false} NothingChangedNothingReported(store: Store)
    requires forall i :: 0 <= i < |store| ==> !store[i].movableChanged
    ensures ChangedCount(store) == 0
    decreases |store|
  {
    if store != [] {
      NothingChangedNothingReported(store[1..]);
    }
  }

  /** With nothing changed since, a second sync reports nothing: each change is broadcast once. */
  lemma SyncMovableTwiceQuiet(store: Store)
    ensures SyncMovable(SyncMovable(store).store).events == []
  {
    NothingChangedNothingReported(SyncMovable(store).store);
  }

  // ---------------------------------------------------------------------
  // broadcast_server_events

  /** Server events wrapped for the game channel. */
  function Updates(events: seq<ServerEvent>): (msgs: seq<GameEvent>)
    ensures |msgs| == |events|
    ensures forall k :: 0 <= k < |events| ==> msgs[k] == ServerUpdate(events[k])
  {
    seq(|events|, k requires 0 <= k < |events| => ServerUpdate(events[k]))
  }

  /** `broadcast_server_events`: for each event in turn, send it to every connection. */
  method BroadcastServerEvents(conns: Connections, events: seq<ServerEvent>) returns (sent: Connections)
    ensures sent == SendToAll(conns, Updates(events))
  {
    sent := conns;
    var k := 0;
    while k < |events|
      invariant 0 <= k <= |events|
      invariant |sent| == |conns|
      invariant forall c :: 0 <= c < |conns| ==> sent[c] == conns[c].(gameOut := conns[c].gameOut + Updates(events[..k]))
    {
      assert Updates(events[..k + 1]) == Updates(events[..k]) + [ServerUpdate(events[k])];
      var i := 0;
      while i < |sent|
        invariant 0 <= i <= |sent| == |conns|
        invariant forall c :: 0 <= c < i ==> sent[c] == conns[c].(gameOut := conns[c].gameOut + Updates(events[..k + 1]))
        invariant forall c :: i <= c < |conns| ==> sent[c] == conns[c].(gameOut := conns[c].gameOut + Updates(events[..k]))
      {
        sent := sent[i := sent[i].(gameOut := sent[i].gameOut + [ServerUpdate(events[k])])];
        i := i + 1;
      }
      k := k + 1;
    }
    assert events[..k] == events;
  }
}

/**
 * The client's per-frame systems: learning its identity, unwrapping server
 * updates, reconciling its local pointers with movement changes, and turning
 * a click into a command.
 */
module Client {
  import opened Ids
  import opened Wrappers
  import opened Protocol
  import opened Components
  import opened Events
  import opened Net

  // ---------------------------------------------------------------------
  // receive_initial

  /** One metadata message: an identification replaces the client's player id; a disconnect reason is only reported. */
  function ApplyMeta(identity: ClientIdentification, msg: MetaInformation): (r: ClientIdentification)
    ensures msg.ClientIdentificationMessage? ==> r.playerId == msg.identification.playerId
    ensures msg.DisconnectReason? ==> r == identity
  {
    match msg
    case ClientIdentificationMessage(id) => UpdateIdentification(identity, id)
    case DisconnectReason(_) => identity
  }

  /** A stream of metadata messages, applied in order. */
  function ApplyMetas(identity: ClientIdentification, msgs: seq<MetaInformation>): ClientIdentification
    decreases |msgs|
  {
    if msgs == [] then identity else ApplyMetas(ApplyMeta(identity, msgs[0]), msgs[1..])
  }

  /** Disconnect reasons alone never change who the client is. */
  lemma {:induction false} DisconnectReasonsKeepIdentity(identity: ClientIdentification, msgs: seq<MetaInformation>)
    requires forall j :: 0 <= j < |msgs| ==> msgs[j].DisconnectReason?
    ensures ApplyMetas(identity, msgs) == identity
    decreases |msgs|
  {
    if msgs != [] {
      DisconnectReasonsKeepIdentity(identity, msgs[1..]);
    }
  }

  /** The client ends up with the id of the last identification it received. */
  lemma {:induction false} LastIdentificationWins(identity: ClientIdentification, msgs: seq<MetaInformation>, k: nat)
    requires k < |msgs| && msgs[k].ClientIdentificationMessage?
    requires forall j :: k < j < |msgs| ==> msgs[j].DisconnectReason?
    ensures ApplyMetas(identity, msgs).playerId == msgs[k].identification.playerId
    decreases |msgs|
  {
    if k == 0 {
      DisconnectReasonsKeepIdentity(ApplyMeta(identity, msgs[0]), msgs[1..]);
    } else {
      LastIdentificationWins(ApplyMeta(identity, msgs[0]), msgs[1..], k - 1);
    }
  }

  /** Every connection's inbound metadata, in connection order. */
  function AllMetaIn(conns: Connections): (msgs: seq<MetaInformation>)
    ensures forall m :: m in msgs ==> exists i :: 0 <= i < |conns| && m in conns[i].metaIn
    ensures forall i, m :: 0 <= i < |conns| && m in conns[i].metaIn ==> m in msgs
    decreases |conns|
  {
    if conns == [] then [] else conns[0].metaIn + AllMetaIn(conns[1..])
  }

  /** Draining connections in turn keeps each connection's messages together, in connection order. */
  lemma {:induction false} AllMetaInAppend(a: Connections, b: Connections)
    ensures AllMetaIn(a + b) == AllMetaIn(a) + AllMetaIn(b)
    decreases |a|
  {
    if a == [] {
      assert a + b == b;
    } else {
      assert (a + b)[0] == a[0];
      assert (a + b)[1..] == a[1..] + b;
      AllMetaInAppend(a[1..], b);
    }
  }

  datatype Initial = Initial(conns: Connections, identity: ClientIdentification)

  /** `receive_initial`: drain every metadata channel into the client's identity. */
  function ReceiveInitial(conns: Connections, identity: ClientIdentification): (r: Initial)
    ensures |r.conns| == |conns|
    ensures forall i :: 0 <= i < |conns| ==> r.conns[i] == conns[i].(metaIn := [])
    ensures (forall i :: 0 <= i < |conns| ==> conns[i].metaIn == []) ==> r.identity == identity
  {
    var msgs := AllMetaIn(conns);
    assert msgs != [] ==> msgs[0] in msgs;
    Initial(seq(|conns|, i requires 0 <= i < |conns| => conns[i].(metaIn := [])), ApplyMetas(identity, msgs))
  }

  /**
   * The client's identity after draining is the id of the last
   * identification received, taking connections in order and each
   * connection's messages in arrival order.
   */
  lemma ReceiveInitialLastIdentification(conns: Connections, identity: ClientIdentification, i: nat, k: nat)
    requires i < |conns| && k < |conns[i].metaIn|
    requires conns[i].metaIn[k].ClientIdentificationMessage?
    requires forall j :: k < j < |conns[i].metaIn| ==> conns[i].metaIn[j].DisconnectReason?
    requires forall c, j :: i < c < |conns| && 0 <= j < |conns[c].metaIn| ==> conns[c].metaIn[j].DisconnectReason?
    ensures ReceiveInitial(conns, identity).identity.playerId == conns[i].metaIn[k].identification.playerId
  {
    var before := conns[..i];
    var after := conns[i + 1..];
    assert conns == before + ([conns[i]] + after);
    AllMetaInAppend(before, [conns[i]] + after);
    AllMetaInAppend([conns[i]], after);
    assert AllMetaIn([conns[i]]) == conns[i].metaIn;
    var msgs := AllMetaIn(conns);
    var tail := AllMetaIn(after);
    assert msgs == AllMetaIn(before) + conns[i].metaIn + tail;
    forall m | m in tail
      ensures m.DisconnectReason?
    {
      var c :| 0 <= c < |after| && m in after[c].metaIn;
      assert after[c] == conns[i + 1 + c];
    }
    var at := |AllMetaIn(before)| + k;
    forall j | at < j < |msgs|
      ensures msgs[j].DisconnectReason?
    {
      if j < |AllMetaIn(before)| + |conns[i].metaIn| {
        assert msgs[j] == conns[i].metaIn[j - |AllMetaIn(before)|];
      } else {
        assert msgs[j] == tail[j - |AllMetaIn(before)| - |conns[i].metaIn|];
      }
    }
    assert msgs[at] == conns[i].metaIn[k];
    LastIdentificationWins(identity, msgs, at);
  }

  // ---------------------------------------------------------------------
  // receive_server_events

  /** The payloads of the server updates in a stream of game events, in order; commands are dropped. */
  function ServerUpdates(events: seq<GameEvent>): (r: seq<ServerEvent>)
    ensures |r| <= |events|
    ensures forall e :: e in r ==> ServerUpdate(e) in events
    ensures forall e :: ServerUpdate(e) in events ==> e in r
    decreases |events|
  {
    if events == [] then []
    else (if events[0].ServerUpdate? then [events[0].update] else []) + ServerUpdates(events[1..])
  }

  /** Unwrapping distributes over concatenation, so order across messages is kept. */
  lemma {:induction false} ServerUpdatesAppend(a: seq<GameEvent>, b: seq<GameEvent>)
    ensures ServerUpdates(a + b) == ServerUpdates(a) + ServerUpdates(b)
    decreases |a|
  {
    if a == [] {
      assert a + b == b;
    } else {
      assert (a + b)[0] == a[0];
      assert (a + b)[1..] == a[1..] + b;
      ServerUpdatesAppend(a[1..], b);
    }
  }

  /** Commands that reach a client are ignored. */
  lemma {:induction false} ServerUpdatesDropsCommands(events: seq<GameEvent>)
    requires forall k :: 0 <= k < |events| ==> events[k].PlayerCommand?
    ensures ServerUpdates(events) == []
    decreases |events|
  {
    if events != [] {
      ServerUpdatesDropsCommands(events[1..]);
    }
  }

  /** Every connection's inbound game events, in connection order. */
  function AllGameIn(conns: Connections): (events: seq<GameEvent>)
    ensures forall e :: e in events ==> exists i :: 0 <= i < |conns| && e in conns[i].gameIn
    ensures forall i, e :: 0 <= i < |conns| && e in conns[i].gameIn ==> e in events
    decreases |conns|
  {
    if conns == [] then [] else conns[0].gameIn + AllGameIn(conns[1..])
  }

  /** Draining connections in turn keeps each connection's events together, in connection order. */
  lemma {:induction false} AllGameInAppend(a: Connections, b: Connections)
    ensures AllGameIn(a + b) == AllGameIn(a) + AllGameIn(b)
    decreases |a|
  {
    if a == [] {
      assert a + b == b;
    } else {
      assert (a + b)[0] == a[0];
      assert (a + b)[1..] == a[1..] + b;
      AllGameInAppend(a[1..], b);
    }
  }

  datatype Received = Received(conns: Connections, events: seq<ServerEvent>)

  /** `receive_server_events`: drain every game channel, forwarding only server updates. */
  function ReceiveServerEvents(conns: Connections): (r: Received)
    ensures |r.conns| == |conns|
    ensures forall i :: 0 <= i < |conns| ==> r.conns[i] == conns[i].(gameIn := [])
    ensures forall e :: e in r.events ==> exists i :: 0 <= i < |conns| && ServerUpdate(e) in conns[i].gameIn
    ensures forall i, e :: 0 <= i < |conns| && ServerUpdate(e) in conns[i].gameIn ==> e in r.events
  {
    Received(seq(|conns|, i requires 0 <= i < |conns| => conns[i].(gameIn := [])), ServerUpdates(AllGameIn(conns)))
  }

  /**
   * Forwarding keeps order: the events forwarded from two groups of
   * connections are those of the first group followed by those of the second.
   */
  lemma ReceiveServerEventsAppend(a: Connections, b: Connections)
    ensures ReceiveServerEvents(a + b).events == ReceiveServerEvents(a).events + ReceiveServerEvents(b).events
  {
    AllGameInAppend(a, b);
    ServerUpdatesAppend(AllGameIn(a), AllGameIn(b));
  }

  // ---------------------------------------------------------------------
  // handle_movement_changes

  /**
   * One server event: a movement change for a known id overwrites the first
   * such entity's movable and position with the received values; a change
   * for an unknown id, and a spawn, change nothing here.
   */
  function ApplyMovementChange(store: Store, ev: ServerEvent): (r: Store)
    ensures |r| == |store|
    ensures forall i :: 0 <= i < |store| ==> r[i].sync == store[i].sync && r[i].control == store[i].control
    ensures ev.PointerSpawn? ==> r == store
    ensures ev.EntityMovementChange? ==>
      forall i :: 0 <= i < |store| && store[i].sync.uniqueId != ev.sync.uniqueId ==> r[i] == store[i]
    ensures ev.EntityMovementChange? && FindUnit(store, ev.sync.uniqueId).None? ==> r == store
    ensures ev.EntityMovementChange? && FindUnit(store, ev.sync.uniqueId).Some? ==>
      var i := FindUnit(store, ev.sync.uniqueId).value;
      && r[i].movable == ev.movable
      && r[i].location == ev.location
      && forall j :: 0 <= j < |store| && j != i ==> r[j] == store[j]
  {
    match ev
    case PointerSpawn(_, _, _) => store
    case EntityMovementChange(netsync, movable, pos) =>
      match FindUnit(store, netsync.uniqueId)
      case None => store
      case Some(i) =>
        store[i := store[i].(movable := UpdateMovable(store[i].movable, movable),
                             location := Vec2(pos.x, pos.y),
                             movableChanged := true)]
  }

  /** Last writer wins: applying the same change twice is applying it once. */
  lemma MovementChangeIdempotent(store: Store, ev: ServerEvent)
    ensures ApplyMovementChange(ApplyMovementChange(store, ev), ev) == ApplyMovementChange(store, ev)
  {
    var once := ApplyMovementChange(store, ev);
    if ev.EntityMovementChange? {
      FindUnitSameIds(store, once, ev.sync.uniqueId);
    }
  }

  /** `handle_movement_changes`: apply the frame's server events in order. */
  function HandleMovementChanges(store: Store, events: seq<ServerEvent>): (r: Store)
    ensures |r| == |store|
    ensures forall i :: 0 <= i < |store| ==> r[i].sync == store[i].sync && r[i].control == store[i].control
    decreases |events|
  {
    if events == [] then store
    else HandleMovementChanges(ApplyMovementChange(store, events[0]), events[1..])
  }

  /** `ev` is a movement change naming `id`. */
  predicate Names(ev: ServerEvent, id: NetworkObjectId)
  {
    ev.EntityMovementChange? && ev.sync.uniqueId == id
  }

  /** An entity whose id no movement change of the frame names is left as it was. */
  lemma {:induction false} UnnamedEntitiesUntouched(store: Store, events: seq<ServerEvent>, i: nat)
    requires i < |store|
    requires forall k :: 0 <= k < |events| ==> !Names(events[k], store[i].sync.uniqueId)
    ensures HandleMovementChanges(store, events)[i] == store[i]
    decreases |events|
  {
    if events != [] {
      var next := ApplyMovementChange(store, events[0]);
      assert !Names(events[0], store[i].sync.uniqueId);
      assert next[i] == store[i];
      UnnamedEntitiesUntouched(next, events[1..], i);
    }
  }

  /**
   * Last writer wins: when `events[k]` is the last movement change for a
   * known id, the first entity with that id ends the frame with that
   * change's movable and position.
   */
  lemma {:induction false} LastMovementChangeWins(store: Store, events: seq<ServerEvent>, k: nat)
    requires k < |events| && events[k].EntityMovementChange?
    requires FindUnit(store, events[k].sync.uniqueId).Some?
    requires forall j :: k < j < |events| ==> !Names(events[j], events[k].sync.uniqueId)
    ensures var i := FindUnit(store, events[k].sync.uniqueId).value;
      && HandleMovementChanges(store, events)[i].movable == events[k].movable
      && HandleMovementChanges(store, events)[i].location == events[k].location
    decreases |events|
  {
    var id := events[k].sync.uniqueId;
    var i := FindUnit(store, id).value;
    var next := ApplyMovementChange(store, events[0]);
    if k == 0 {
      forall j | 0 <= j < |events[1..]|
        ensures !Names(events[1..][j], next[i].sync.uniqueId)
      {
        assert events[1..][j] == events[j + 1];
      }
      UnnamedEntitiesUntouched(next, events[1..], i);
    } else {
      FindUnitSameIds(store, next, id);
      forall j | k - 1 < j < |events[1..]|
        ensures !Names(events[1..][j], events[1..][k - 1].sync.uniqueId)
      {
        assert events[1..][j] == events[j + 1];
      }
      LastMovementChangeWins(next, events[1..], k - 1);
    }
  }

  // ---------------------------------------------------------------------
  // capture_clicks

  const PING_PAYLOAD: u32 := 42

  /** The first pointer, in iteration order, owned by `owner`. */
  function FindOwned(store: Store, owner: PlayerId): (r: Option<nat>)
    ensures r.Some? ==> r.value < |store| && store[r.value].control.owner == owner
    ensures r.Some? ==> forall j :: 0 <= j < r.value ==> store[j].control.owner != owner
    ensures r.None? <==> forall j :: 0 <= j < |store| ==> store[j].control.owner != owner
    decreases |store|
  {
    if store == [] then None
    else if store[0].control.owner == owner then Some(0)
    else
      match FindOwned(store[1..], owner)
      case None => None
      case Some(k) => Some(k + 1)
  }

  /**
   * The command a click at `position` produces: move the client's own pointer
   * there if it has one, otherwise a ping.
   */
  function ClickCommand(identity: ClientIdentification, pointers: Store, position: Vec2): (c: PlayerCommand)
    ensures c.PointerMoveChange? <==> exists i :: 0 <= i < |pointers| && pointers[i].control.owner == identity.playerId
    ensures c.PointerMoveChange? ==>
      && c.target == NewMovable(position)
      && exists i :: 0 <= i < |pointers| && pointers[i].control.owner == identity.playerId && c.unit == pointers[i].sync
    ensures c.Ping? ==> c.n == PING_PAYLOAD
  {
    match FindOwned(pointers, identity.playerId)
    case Some(i) => PointerMoveChange(pointers[i].sync, NewMovable(position))
    case None => Ping(PING_PAYLOAD)
  }

  /** `capture_clicks`: on a left click, send the click's command to every connection. */
  function CaptureClicks(conns: Connections, identity: ClientIdentification, pointers: Store, clicked: bool, position: Vec2)
    : (r: Connections)
    ensures !clicked ==> r == conns
    ensures clicked ==> |r| == |conns| && forall i :: 0 <= i < |conns| ==>
      r[i] == conns[i].(gameOut := conns[i].gameOut + [PlayerCommand(ClickCommand(identity, pointers, position))])
  {
    if clicked then SendToAll(conns, [PlayerCommand(ClickCommand(identity, pointers, position))]) else conns
  }
}

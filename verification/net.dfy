/**
 * The transport as the core sees it: per-connection message queues, one
 * inbound and one outbound queue per channel. Connections are listed in the
 * transport's iteration order.
 */
module Net {
  import opened Ids
  import opened Protocol
  import opened Events

  datatype Connection = Connection(
    handle: ConnectionHandle,
    gameIn: seq<GameEvent>,
    metaIn: seq<MetaInformation>,
    gameOut: seq<GameEvent>,
    metaOut: seq<MetaInformation>)

  type Connections = seq<Connection>

  /** Handles are keys of the transport's connection table, so no two connections share one. */
  ghost predicate UniqueHandles(conns: Connections)
  {
    forall i, j :: 0 <= i < j < |conns| ==> conns[i].handle != conns[j].handle
  }

  ghost predicate IsConnected(conns: Connections, h: ConnectionHandle)
  {
    exists i :: 0 <= i < |conns| && conns[i].handle == h
  }

  /** Send game events to the connection with handle `h` (which must exist). */
  function SendGameTo(conns: Connections, h: ConnectionHandle, msgs: seq<GameEvent>): (r: Connections)
    requires IsConnected(conns, h)
    ensures |r| == |conns|
    ensures forall i :: 0 <= i < |conns| && conns[i].handle == h ==>
      r[i] == conns[i].(gameOut := conns[i].gameOut + msgs)
    ensures forall i :: 0 <= i < |conns| && conns[i].handle != h ==> r[i] == conns[i]
  {
    seq(|conns|, i requires 0 <= i < |conns| =>
      if conns[i].handle == h then conns[i].(gameOut := conns[i].gameOut + msgs) else conns[i])
  }

  /** Send metadata to the connection with handle `h` (which must exist). */
  function SendMetaTo(conns: Connections, h: ConnectionHandle, msgs: seq<MetaInformation>): (r: Connections)
    requires IsConnected(conns, h)
    ensures |r| == |conns|
    ensures forall i :: 0 <= i < |conns| && conns[i].handle == h ==>
      r[i] == conns[i].(metaOut := conns[i].metaOut + msgs)
    ensures forall i :: 0 <= i < |conns| && conns[i].handle != h ==> r[i] == conns[i]
  {
    seq(|conns|, i requires 0 <= i < |conns| =>
      if conns[i].handle == h then conns[i].(metaOut := conns[i].metaOut + msgs) else conns[i])
  }

  /** Send the same game events, in order, to every connection. */
  function SendToAll(conns: Connections, msgs: seq<GameEvent>): (r: Connections)
    ensures |r| == |conns|
    ensures forall i :: 0 <= i < |conns| ==> r[i] == conns[i].(gameOut := conns[i].gameOut + msgs)
  {
    seq(|conns|, i requires 0 <= i < |conns| => conns[i].(gameOut := conns[i].gameOut + msgs))
  }

  /** Sending never adds, drops or renames a connection. */
  lemma SameHandlesConnected(a: Connections, b: Connections, h: ConnectionHandle)
    requires |a| == |b|
    requires forall i :: 0 <= i < |a| ==> a[i].handle == b[i].handle
    requires IsConnected(a, h)
    ensures IsConnected(b, h)
  {
    var i :| 0 <= i < |a| && a[i].handle == h;
    assert b[i].handle == h;
  }
}

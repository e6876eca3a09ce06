/**
 * The wire protocol shared by server and client: the synchronisation id
 * component, the client's identity resource, the metadata messages and the
 * two message channels registered with the transport.
 */
module Protocol {
  import opened Ids
  import opened Wrappers

  /** The component that names an entity across the network. */
  datatype NetworkSync = NetworkSync(uniqueId: NetworkObjectId)

  /** The identity a client learns from the server. */
  datatype ClientIdentification = ClientIdentification(playerId: PlayerId)

  /** Session messages, carried on the metadata channel. */
  datatype MetaInformation =
    | ClientIdentificationMessage(identification: ClientIdentification)
    | DisconnectReason(reason: string)

  function NewIdentification(id: PlayerId): (c: ClientIdentification)
    ensures c.playerId == id
  {
    ClientIdentification(id)
  }

  /** `update` copies the other identity's player id into this one. */
  function UpdateIdentification(current: ClientIdentification, other: ClientIdentification): (r: ClientIdentification)
    ensures r.playerId == other.playerId
  {
    current.(playerId := other.playerId)
  }

  /** Receiving the same identification twice is the same as receiving it once. */
  lemma UpdateIdentificationIdempotent(current: ClientIdentification, other: ClientIdentification)
    ensures UpdateIdentification(UpdateIdentification(current, other), other) == UpdateIdentification(current, other)
  {
  }

  /** `NetworkSync::new`, with the random draw passed in. */
  function NewNetworkSync(random: u32): (s: NetworkSync)
    ensures s.uniqueId == random
  {
    NetworkSync(random)
  }

  // ---------------------------------------------------------------------
  // Channel settings

  /** Retransmission and windowing parameters of a reliable channel (durations in milliseconds). */
  datatype ReliableChannelSettings = ReliableChannelSettings(
    bandwidth: nat,
    recvWindowSize: nat,
    sendWindowSize: nat,
    burstBandwidth: nat,
    initSend: nat,
    wakeupTimeMs: nat,
    initialRttMs: nat,
    maxRttMs: nat,
    rttUpdateFactor: real,
    rttResendFactor: real)

  /** How a channel delivers: the transport also offers an unreliable mode, which this protocol does not use. */
  datatype MessageChannelMode =
    | Unreliable
    | Reliable(reliabilitySettings: ReliableChannelSettings, maxMessageLen: nat)

  datatype MessageChannelSettings = MessageChannelSettings(
    channel: nat,
    channelMode: MessageChannelMode,
    messageBufferSize: nat,
    packetBufferSize: nat)

  const RELIABILITY: ReliableChannelSettings := ReliableChannelSettings(
    bandwidth := 4096,
    recvWindowSize := 1024,
    sendWindowSize := 1024,
    burstBandwidth := 1024,
    initSend := 512,
    wakeupTimeMs := 100,
    initialRttMs := 200,
    maxRttMs := 2000,
    rttUpdateFactor := 0.1,
    rttResendFactor := 1.5)

  const GAME_EVENT_CHANNEL_SETTINGS: MessageChannelSettings :=
    MessageChannelSettings(0, Reliable(RELIABILITY, 1024), 8, 8)

  const META_CHANNEL_SETTINGS: MessageChannelSettings :=
    MessageChannelSettings(1, Reliable(RELIABILITY, 1024), 8, 8)

  /** The two message types a connection carries. */
  datatype MessageKind = GameEventKind | MetaInformationKind

  datatype Registration = Registration(kind: MessageKind, settings: MessageChannelSettings)

  /** The channel a message kind was registered on, if any. */
  function ChannelOf(registrations: seq<Registration>, kind: MessageKind): (c: Option<nat>)
    ensures c.Some? <==> exists i :: 0 <= i < |registrations| && registrations[i].kind == kind
    ensures c.Some? ==> exists i :: 0 <= i < |registrations| && registrations[i].kind == kind && registrations[i].settings.channel == c.value
  {
    if registrations == [] then None
    else if registrations[0].kind == kind then Some(registrations[0].settings.channel)
    else ChannelOf(registrations[1..], kind)
  }

  /** `network_setup`: the registrations made on every connection's channel builder. */
  function NetworkSetup(): (r: seq<Registration>)
    ensures |r| == 2
    ensures ChannelOf(r, GameEventKind) == Some(0)
    ensures ChannelOf(r, MetaInformationKind) == Some(1)
    ensures forall i :: 0 <= i < |r| ==> r[i].settings.channelMode.Reliable?
    ensures forall i :: 0 <= i < |r| ==> r[i].settings.channelMode.maxMessageLen == 1024
    ensures forall i :: 0 <= i < |r| ==> r[i].settings.channelMode.reliabilitySettings.initialRttMs == 200
    ensures forall i :: 0 <= i < |r| ==> r[i].settings.channelMode.reliabilitySettings.maxRttMs == 2000
  {
    [Registration(GameEventKind, GAME_EVENT_CHANNEL_SETTINGS),
     Registration(MetaInformationKind, META_CHANNEL_SETTINGS)]
  }

  /** Game events and metadata never share a channel, so neither can block the other. */
  lemma ChannelsAreDistinct(k1: MessageKind, k2: MessageKind)
    requires k1 != k2
    ensures ChannelOf(NetworkSetup(), k1).Some? && ChannelOf(NetworkSetup(), k2).Some?
    ensures ChannelOf(NetworkSetup(), k1) != ChannelOf(NetworkSetup(), k2)
  {
  }
}

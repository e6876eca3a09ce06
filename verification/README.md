# Authoritative pointer synchronisation, modelled in Dafny

This project models the core of a small client/server multiplayer prototype:
every connected player owns one pointer, clicks to send it somewhere, and an
authoritative server validates the command, moves the pointer tick by tick
and broadcasts its movement state so that every client's copy follows the
server's. The framework's per-frame "systems" are modelled as pure step
functions (or short methods with loops) over

- an **entity store** (`Components.Store`): the pointers of one process as a
  sequence in query iteration order, each with its network id
  (`NetworkSync`), owner (`PlayerControllable`), `Movable`, position and a
  change mark for its `Movable`;
- the **connections** (`Net.Connections`): per peer, inbound and outbound
  queues for the game-event channel and the metadata channel, in the
  transport's iteration order;
- the server's **handle map** from connection handle to player id, and the
  client's **identity**.

Modules follow the program: `Protocol` (ids, identity, metadata, channel
registration), `Components` and `Game` (movable, ownership check, movement
step), `Events` (the wire messages), `Pointers` (spawning), `Server`,
`InternalEvents` (the connect handshake), `Client`, `Convergence`
(properties that relate server and client) and `Frames` (how a new client's
frame handles the full-state replay). `Ids` and `Wrappers` hold the
fixed-width integers and `Option`/`Result`.

Ids (player ids, connection handles, network object ids) are `u32`, a
bounded `newtype`. Coordinates are exact `real`s. Random draws
(`get_random`, `generate_network_id`) are passed in as sequences of values.
The movement step is given each pointer's Euclidean distance to its target
as a parameter (a non-negative real whose square is the squared distance),
because square roots are not part of the model.

The message types are reconstructed from how the server and client use
them: `PlayerCommand = PointerMoveChange(NetworkSync, Movable) | Ping(u32)`,
`ServerEvent = PointerSpawn(NetworkSync, PlayerId, Vec2) |
EntityMovementChange(NetworkSync, Movable, Location)`, and `GameEvent =
PlayerCommand | ServerUpdate`. The `common/src/events.rs` in the repository
is an older version that defines none of them.

Behaviours of the code worth knowing:
- A client treats `PointerSpawn` as insert-only, not as an upsert. The same
  spawn applied twice gives two entities with one id
  (`Pointers.SpawnTwiceDuplicates`).
- A `Disconnected` notice leaves the handle map unchanged. The entry is not
  removed (`Server.DisconnectedOne`).
- Only changes to a `Movable` are broadcast: an accepted command, an arrival
  and a spawn. Intermediate positions of a moving pointer are not broadcast.
- Random ids are not checked for collisions.

## Model

| member | source | states |
|---|---|---|
| Protocol.NewIdentification | common/src/protocol.rs:66-70 | a new identity carries exactly the given player id |
| Protocol.UpdateIdentification | common/src/protocol.rs:72-74 | after an update the player id is the other identity's |
| Protocol.UpdateIdentificationIdempotent | common/src/protocol.rs:72-74 | updating twice with the same identity equals updating once |
| Protocol.NewNetworkSync | common/src/protocol.rs:82-88 | a new sync component's id is the random 32-bit draw |
| Protocol.NetworkSetup | common/src/protocol.rs:13-51 | two registrations: game events on channel 0, metadata on channel 1, both reliable, both with 1024-byte messages and 200 ms / 2 s RTT bounds |
| Protocol.ChannelsAreDistinct | common/src/protocol.rs:100-108 | the two message kinds are registered on different channels |
| Components.NewMovable | common/src/game.rs:21-27 | target is the given point, active is true, speed is POINTER_SPEED = 100 |
| Components.UpdateMovable | common/src/game.rs:33-37 | after an update, speed, active flag and target all equal the incoming movable's |
| Components.UpdateMovableIdempotent | common/src/game.rs:33-37 | updating twice with the same movable equals updating once |
| Components.FindUnit | server/src/main.rs:177 | the lookup returns the first entity with the id, or none exactly when no entity has it |
| Game.ValidatePlayerCommand | common/src/game.rs:114-121 | Ok exactly when the player is the owner; otherwise the error is NotOwned with the attempting player and the owner |
| Game.ValidationIgnoresCommand | common/src/game.rs:114-121 | the verdict does not depend on the command |
| Game.AdvanceRemaining | common/src/game.rs:105-109 | a step shorter than the remaining distance leaves exactly the difference to go |
| Game.MoveStep | common/src/game.rs:96-110 | an inactive pointer is unchanged; within reach it lands exactly on its target and stops; otherwise it stays active, keeps its movable and moves reach closer |
| Game.AtRestStaysPut | common/src/game.rs:97 | a pointer at rest is unchanged by any number of ticks |
| Game.ArrivalConvergence | common/src/game.rs:94-112 | with positive reach and n ≥ 1 ticks covering the distance, the pointer ends exactly on its target and at rest |
| Game.MoveMovables | common/src/game.rs:94-96 | one tick applies the step to every pointer, in place |
| Game.MoveMovablesNeverActivates | common/src/game.rs:94-112 | a tick never increases the number of active pointers |
| Pointers.SpawnPointer | common/src/pointer.rs:53-59 | a spawned pointer has the event's owner, id and position, and Movable::new of its position |
| Pointers.SpawnedAppend | common/src/pointer.rs:24-39 | spawning over two event streams in turn equals spawning over their concatenation |
| Pointers.HandlePointerSpawns | common/src/pointer.rs:18-40 | one new entity per PointerSpawn, after the untouched existing ones, each built from some spawn event |
| Pointers.SpawnOne | common/src/pointer.rs:26-35 | a single spawn event appends exactly the pointer it describes |
| Pointers.SpawnTwiceDuplicates | common/src/pointer.rs:26-35 | the same spawn twice yields two entities with the same id |
| InternalEvents.HandleNewPlayerConnections | server/src/internal_events.rs:26-36 | each connection's metadata queue gains exactly the identification messages addressed to its handle |
| InternalEvents.IdentifyOne | server/src/internal_events.rs:31-33 | one connect sends one identification with the new id to the new handle and nothing to anyone else |
| InternalEvents.SpawnPointOnPlayerConnect | server/src/internal_events.rs:38-51 | one PointerSpawn per new player, owned by that player, at (50,50), with a fresh random id |
| InternalEvents.ReplayMessages | server/src/internal_events.rs:60-66 | 2·N messages for N pointers; for each pointer a PointerSpawn with its owner and position, then an EntityMovementChange with its movable, both with its id |
| InternalEvents.SyncPointersOnConnect | server/src/internal_events.rs:53-70 | each connection's game queue gains the replay once per connect event naming its handle |
| InternalEvents.ReplayOne | server/src/internal_events.rs:59-66 | one connect sends exactly the 2·N replay messages to the new handle and leaves every other connection unchanged |
| Server.Intake | server/src/main.rs:82-92 | an unmapped handle contributes nothing; every queued entry carries the handle's player and a command that arrived on it |
| Server.IntakeStep | server/src/main.rs:84-92 | one more event queues exactly one entry, tagged with the handle's player, iff it is a command from a mapped handle; server updates queue nothing |
| Server.AllIntake | server/src/main.rs:79-81 | every queued entry comes from a mapped connection, with that connection's player and a command it sent |
| Server.AllIntakeComplete | server/src/main.rs:79-92 | every player command received on a mapped connection is queued, tagged with that connection's player |
| Server.ReceiveCommands | server/src/main.rs:81-93 | the receive loop over one connection queues exactly that connection's intake |
| Server.HandleClientsCommands | server/src/main.rs:73-119 | the queue is the intake of every connection in order, and every inbound game queue is drained |
| Server.HandleClientConnections | server/src/main.rs:135-161 | one PlayerConnected per Connected notice, in order, with that notice's handle and the next random id |
| Server.HandleClientConnectionsMap | server/src/main.rs:140-152 | mapped handles afterwards are the old ones plus the connected ones; other entries keep their player |
| Server.HandleClientConnectionsPlayer | server/src/main.rs:142-148 | the k-th connected handle, unless it connects again later in the batch, maps to the k-th random draw, which is also the id its PlayerConnected announces |
| Server.ConnectedOne | server/src/main.rs:142-149 | a connect inserts handle ↦ fresh id and emits one PlayerConnected with that same id |
| Server.DisconnectedOne | server/src/main.rs:150-152 | a disconnect leaves the map unchanged and emits nothing |
| Server.HandleClientMoveCommand | server/src/main.rs:174-190 | Ping, unknown id and non-owner leave the store unchanged; the owner's move sets that unit's movable and change mark and nothing else; ids, owners and positions never change |
| Server.HandleClientMoveCommands | server/src/main.rs:163-193 | ids, owners and positions of all entities are preserved by any command sequence |
| Server.OwnershipGatesEveryMutation | server/src/main.rs:177-184 | an entity that changed was named by a move command from its owner |
| Server.ForeignCommandsChangeNothing | server/src/main.rs:178-184 | commands only from non-owners leave the entity unchanged |
| Server.ChangedMovements | server/src/main.rs:200-210 | one event per changed movable, each carrying a changed entity's id, movable and position |
| Server.ChangedMovementsComplete | server/src/main.rs:204-208 | every changed movable is reported |
| Server.SyncMovable | server/src/main.rs:200-210 | the events are the movement changes of the changed movables, one each, in store order; every entity is kept except that its change mark is consumed |
| Server.SyncMovableTwiceQuiet | server/src/main.rs:201 | a second sync with no new changes reports nothing |
| Server.BroadcastServerEvents | server/src/main.rs:121-133 | every connection's game queue gains every event, wrapped as a server update, in event order |
| Client.ApplyMeta | client/src/main.rs:91-97 | an identification sets the player id; a disconnect reason leaves the identity unchanged |
| Client.DisconnectReasonsKeepIdentity | client/src/main.rs:95-97 | a stream of disconnect reasons leaves the identity unchanged |
| Client.LastIdentificationWins | client/src/main.rs:87-101 | the identity ends with the id of the last identification received |
| Client.ReceiveInitial | client/src/main.rs:87-101 | every metadata queue is drained; with nothing received the identity is unchanged |
| Client.AllMetaIn | client/src/main.rs:88-90 | the drained metadata holds exactly the messages of every connection |
| Client.AllMetaInAppend | client/src/main.rs:88-90 | connections are drained in turn, each connection's messages together and in arrival order |
| Client.ReceiveInitialLastIdentification | client/src/main.rs:87-101 | the identity ends with the id of the last identification received, taking connections in order and each connection's messages in arrival order |
| Client.ServerUpdates | client/src/main.rs:106-111 | exactly the server-update payloads received are forwarded; commands are not |
| Client.ServerUpdatesAppend | client/src/main.rs:104-114 | forwarding keeps order across consecutive messages |
| Client.ServerUpdatesDropsCommands | client/src/main.rs:107-111 | player commands received by a client forward nothing |
| Client.ReceiveServerEvents | client/src/main.rs:103-115 | every game queue is drained; an event is forwarded iff it arrived as a server update on some connection |
| Client.AllGameIn | client/src/main.rs:104-106 | the drained game events are exactly those of every connection |
| Client.AllGameInAppend | client/src/main.rs:104-106 | connections are drained in turn, each connection's events together and in arrival order |
| Client.ReceiveServerEventsAppend | client/src/main.rs:103-115 | the events forwarded from two groups of connections are the first group's followed by the second's |
| Client.ApplyMovementChange | client/src/main.rs:121-134 | a known id's first entity takes exactly the received movable and position; unknown ids, spawns and entities with other ids are unchanged |
| Client.MovementChangeIdempotent | client/src/main.rs:122-129 | applying the same movement change twice equals applying it once |
| Client.HandleMovementChanges | client/src/main.rs:117-135 | ids and owners of local entities are never changed by server events |
| Client.UnnamedEntitiesUntouched | client/src/main.rs:121-133 | an entity whose id no movement change of the frame names is left as it was |
| Client.LastMovementChangeWins | client/src/main.rs:121-129 | the first entity with a known id ends the frame with the movable and position of the last movement change naming that id |
| Client.FindOwned | client/src/main.rs:150-153 | the search returns the first pointer owned by the player, or none exactly when there is none |
| Client.ClickCommand | client/src/main.rs:150-160 | a move of the player's own pointer to Movable::new(click) iff it owns a pointer, otherwise Ping(42) |
| Client.CaptureClicks | client/src/main.rs:137-163 | without a click nothing is sent; with one, the click's command is sent once to every connection |
| Convergence.UnwrapRoundTrip | server/src/main.rs:125-132 | the client unwraps exactly the server events the server wrapped, in order |
| Convergence.ChangeReachesEveryPeer | server/src/main.rs:121-133 | a changed movable's movement change reaches every connection's game queue |
| Convergence.OwnerMoveIsReported | server/src/main.rs:174-181 | an accepted move is reported by the next sync with the commanded movable |
| Convergence.ReplayPairRebuilds | server/src/internal_events.rs:60-66 | when the movement change is handled after its spawn has landed (ReconcileOne), one replayed pair appends exactly that pointer to a store that does not know its id |
| Convergence.NewJoinerFullView | server/src/internal_events.rs:53-70 | when each event is handled after the previous spawns have landed (Reconcile), a client applying the replay of a server store with unique ids ends with its own pointers followed by exactly the server's |
| Convergence.NewPlayerGetsPointer | server/src/internal_events.rs:38-51 | once the handshake's spawn events are handled, each new player owns one new pointer at (50,50) with the random id drawn for it, marked changed, and the existing entities are untouched |
| Convergence.ClickIsAccepted | server/src/main.rs:174-181 | when the client's view agrees with a server store of unique ids, the command a click produces passes the server's ownership check and moves exactly the clicking player's pointer |
| Pointers.SpawnedAllSpawns | common/src/pointer.rs:24-35 | a stream of spawn events spawns exactly one pointer per event, in order, each as its event describes |
| Frames.ReplayUpdates | server/src/internal_events.rs:60-66 | what a client unwraps from the replay is a spawn then a movement change per server pointer, in store order |
| Frames.SpawnedReplay | common/src/pointer.rs:24-35 | a replay spawns one fresh pointer per server pointer, in store order, with Movable::new of its position |
| Frames.ReplayLeavesOthersAlone | client/src/main.rs:121-133 | a replay leaves every entity whose id the server does not hold unchanged |
| Frames.NewJoinerSameFrame | client/src/main.rs:117-135 | as written, with spawns deferred to the end of the frame: the client keeps its pointers and gains one per server pointer, each with Movable::new of its position instead of the server's movable |
| Frames.ReplayedMoveIsLost | client/src/main.rs:123-131 | a pointer moving from (50,50) to (100,50), replayed in one frame, arrives heading for (50,50), so the client's copy disagrees with the server's |
| Frames.NewJoinerFullViewSpawnsFirst | server/src/internal_events.rs:53-70 | with the movement handler ordered after the frame's spawns, a client receiving the replay of a server store with unique ids ends with its own pointers followed by exactly the server's |

## Findings

| source | as written | input that shows it | evidently intended | confidence | as-written member | corrected member |
|---|---|---|---|---|---|---|
| client/src/main.rs:117-135 | The movement handler looks up each change's entity at once. The pointer's spawn (common/src/pointer.rs:53-67) is a deferred command that lands at the end of the frame. A replayed change read in its spawn's frame finds no entity and is dropped (the `warn!` branch). | A pointer moving from (50,50) towards (100,50), replayed to a new client, with both handlers reading the replay in the frame it arrives | The new client adopts the replayed movable once the spawn has landed | medium (depends on the framework's system order), not executed | Frames.ReplayedMoveIsLost | Frames.NewJoinerFullViewSpawnsFirst |

## Left out

- Bevy app and plugin wiring, system registration, scheduling order and the
  startup systems: each system is a separate step function.
- The transport (listen/connect, channel internals, retransmission,
  heartbeats): connections are per-handle message queues. `broadcast_message`
  and `send` are appends to those queues.
- A `get_mut(&handle).unwrap()` on a connection that has gone would panic in
  the source. The model makes "the handle is still connected" a precondition.
- Random number generation: fresh player ids and network ids are parameters.
- Floating point: `f32` coordinates, the distance computation and
  normalisation are exact reals. The distance to the target is a parameter.
- Change detection: the framework marks a component changed whenever it is
  written or added. The model keeps this as a `movableChanged` mark on the
  entity, cleared by `sync_movable`.
- Convergence.ReconcileOne: a client handles a spawn and the following
  movement change in event order, the change after the spawn has landed. The
  framework defers spawns to the end of the frame, so the code as written
  does not behave this way when both handlers read the replay in the frame it
  arrives. `Frames.SameFrame` models that frame (see "## Findings").
- Convergence.ReplayPairRebuilds: holds for `ReconcileOne` only. In a frame
  as written the replayed movable is lost (`Frames.NewJoinerSameFrame`).
- Convergence.NewJoinerFullView: holds for `Reconcile` only. In a frame as
  written every replayed pointer gets `Movable::new` of its position
  (`Frames.NewJoinerSameFrame`). `Frames.NewJoinerFullViewSpawnsFirst`
  proves the same view for a frame whose movement handler runs after the
  spawns have landed.
- Server.HandleClientConnectionsPlayer: a handle that connects more than once
  in one batch is covered at its last connect only. Its earlier draws are
  overwritten in the map but still announced.
- `Transform` and `Location` are one field. `move_movable` moves the
  `Transform` (common/src/game.rs:94-109) and the replay reads it
  (server/src/internal_events.rs:55, 62-65). `sync_movable` reads a
  `Location` (server/src/main.rs:201) and the client writes one
  (client/src/main.rs:119, 128-129). The pointer bundle has no `Location`
  (common/src/pointer.rs:6-16), and common/src/game.rs defines none. Taken
  literally, neither query would match a pointer. The model keeps one
  position per pointer that all these systems read and write.
- Rendering, sprites, textures and the camera; window and cursor capture
  (the click position and whether a click happened are parameters); logging;
  the client's connect-time ping; `GameInfo` and `headless_condition`.
- The third coordinate of transforms: pointers live in the plane.

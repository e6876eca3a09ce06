/** The messages exchanged over the game-event channel, and the server's command queue entry. */
module Events {
  import opened Ids
  import opened Protocol
  import opened Components

  /** What a client asks the server to do. */
  datatype PlayerCommand =
    | PointerMoveChange(unit: NetworkSync, target: Movable)
    | Ping(n: u32)

  /** What the server tells every client. */
  datatype ServerEvent =
    | PointerSpawn(sync: NetworkSync, owner: PlayerId, at: Vec2)
    | EntityMovementChange(sync: NetworkSync, movable: Movable, location: Location)

  /** The one message type of the game-event channel, in both directions. */
  datatype GameEvent =
    | PlayerCommand(command: PlayerCommand)
    | ServerUpdate(update: ServerEvent)

  /** A command tagged with the player it came from, as queued on the server. */
  datatype AssociatedCommand = AssociatedCommand(player: PlayerId, command: PlayerCommand)
}

/** Fixed-width integers and the identifier types built on them. */
module Ids {

  /** Rust's `u32`. */
  newtype u32 = x: int | 0 <= x < 0x1_0000_0000

  /** Rust's `u64`. */
  newtype u64 = x: int | 0 <= x < 0x1_0000_0000_0000_0000

  /** The identity of a connected player, drawn at random when its connection appears. */
  type PlayerId = u32

  /** The transport's handle for one peer connection. */
  type ConnectionHandle = u32

  /** The id naming one synchronised entity on the server and on every client. */
  type NetworkObjectId = u32
}

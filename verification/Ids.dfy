/** The identifiers that the modules share. Every id is drawn fresh, so numbers do. */
module Ids {
  type UserId = nat
  type ChannelId = nat
  type MessageId = nat
  type NoteId = nat
  type SessionId = nat
  type TokenId = nat
  /** An instance of the server. */
  type NodeId = nat
  /** Readings of a logical clock. */
  type Time = nat
}

/** Shared vocabulary: optional values and the platform's numeric identifiers. */
module Common {

  /** A value that may be absent (Python's `None`). */
  datatype Option<+T> = None | Some(value: T)

  /** Snowflake identifiers handed out by the chat platform. */
  type GuildId = nat
  type ChannelId = nat
  type UserId = nat
  type RoleId = nat
}

/** The identifiers the components share. */
module Ids {
  import opened Bytes

  /** Discord snowflakes. */
  type Channel = uint64
  type User = uint64

  /** A Matrix room id; the empty string stands for none. */
  type RoomId = string
}

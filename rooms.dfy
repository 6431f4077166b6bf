/** The configured rooms and the per-room tuple the status query yields. */
module Rooms {

  type RoomId = string
  type GroupId = string

  /** One entry of the configured `live_rooms` list. */
  datatype RoomConfig = RoomConfig(roomId: RoomId, groupIds: seq<GroupId>)

  /** The `(status, cover, uname, live_url)` tuple produced for one reply entry. */
  datatype LiveInfo = LiveInfo(status: int, cover: string, uname: string, liveUrl: string)

  /** The value of `live_status` that means "streaming now". */
  const LIVE: int := 1

  function Min(a: int, b: int): int
  {
    if a <= b then a else b
  }

  /** The room ids that occur in a list of rooms. */
  function RoomIds(rooms: seq<RoomConfig>): set<RoomId>
  {
    set r | r in rooms :: r.roomId
  }

  /** No room id is configured twice. */
  predicate DistinctIds(rooms: seq<RoomConfig>)
  {
    forall i, j :: 0 <= i < j < |rooms| ==> rooms[i].roomId != rooms[j].roomId
  }
}

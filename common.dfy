/** The records the room handler manipulates: the events it consumes, the
    guessable items (queries) of its pool and the per-player bookkeeping. */
module Common {

  /** The 32-bit signed integers the game uses for room and client ids. */
  newtype int32 = x: int | -0x8000_0000 <= x < 0x8000_0000

  datatype Option<+T> = None | Some(value: T)

  /** The kinds of event a room can be handed; `Unknown` is the default kind. */
  datatype EventKind =
    | Unknown
    | StartNewRound
    | EndRound
    | PlayerJoinRoom
    | PlayerInput
    | ClientChangeName
    | ClientChangeColor

  datatype Event = Event(kind: EventKind, roomId: int32, clientId: int32, inputStr: string)

  /** An event whose client id and input are left at their defaults (-1 and
      the empty string), as the room's own follow-up timers build them. */
  function RoomEvent(kind: EventKind, roomId: int32): Event
  {
    Event(kind, roomId, -1, "")
  }

  /** A member of a room. `score` is counted in tenths of a point, so that the
      scoring rules are exact; it can never be negative. */
  datatype PlayerInfo = PlayerInfo(clientId: int32, score: nat, active: bool)

  /** A guessable item. `clientId` and `tGuessed` are stamped when a player
      solves it and it is retired. */
  datatype Query = Query(x: real, y: real, clientId: int32, tGuessed: real, text: string, answer: string)
}

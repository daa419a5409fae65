/**
 * What the server sends (server.js:43-196): every `emit` becomes an
 * event value, addressed to one socket, to the sockets of one room, or to
 * the lobby, so that each transition can say what it announces.
 */
module Protocol {
  import opened Wrappers
  import opened Board

  /** A socket's `id`. */
  type SocketId = string
  /** The room token a client sends with joinRoom. */
  type Token = string

  /** RoomStatus (server.js:14-17). */
  datatype Status = Full | ReadyToPlay {
    /** The number each status is sent as. */
    function Code(): int {
      match this
      case Full => 2
      case ReadyToPlay => 3
    }
  }

  /** One entry of roomsUpdate (server.js:143-147), with the status sent
      as its number. */
  datatype RoomInfo = RoomInfo(id: Token, status: int, createdDate: int)

  /** The status rule of broadcastRooms (server.js:145): a room with two
      players is full, any other room can still be joined. */
  function StatusOf(seated: int): Status {
    if seated == 2 then Full else ReadyToPlay
  }

  datatype Event =
    /** `socket.emit("redirectHome")` to a socket turned away from a full room. */
    | RedirectHome(socket: SocketId)
    /** `checkWaitingOtherPlayer {waiting}` to a room. */
    | CheckWaiting(room: Token, waiting: bool)
    /** `joined {symbol}` to one player. */
    | Joined(socket: SocketId, symbol: Cell)
    /** `resetGame {currentPlayer}` to a room. */
    | ResetGame(room: Token, currentPlayer: Cell)
    /** `updateBoard {row, col, symbol, currentPlayer}` to a room; the first
        three are `null` when the turn was passed. */
    | UpdateBoard(room: Token, row: Option<int>, col: Option<int>, symbol: Cell, currentPlayer: Cell)
    /** `gameOver {winner, cells}` to a room. */
    | GameOver(room: Token, winner: Cell, cells: seq<Pos>)
    /** `timer {time}` to a room. */
    | Timer(room: Token, time: int)
    /** `opponentLeft` to a room. */
    | OpponentLeft(room: Token)
    /** `roomsUpdate` to the lobby. */
    | RoomsUpdate(rooms: seq<RoomInfo>)
}

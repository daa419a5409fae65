/**
 * Whole-server runs from an empty registry, composed from the contracts of
 * the handlers alone: what one joining socket can do in a fresh room, how a
 * third socket is turned away, and how the turn passes after a move.
 */
module Scenarios {
  import opened Wrappers
  import opened Board
  import opened Protocol
  import opened Rooms
  import opened Server

  /** One socket joining a new registry: it sits alone, with no symbol,
      in a room where no turn is set and no game is over. */
  method SeatAlone(socket: SocketId, token: Token, now: int) returns (registry: Registry)
    requires token != ""
    ensures fresh(registry) && registry.Valid()
    ensures registry.order == [token] && registry.Routed(socket) == Some(token)
    ensures fresh(registry.rooms[token]) && registry.rooms[token].Opened([Player(socket, None)])
  {
    registry := new Registry();
    var admitted, joined := registry.JoinRoom(socket, token, now, X, false);
    assert registry.order == [token];
    assert registry.rooms[token].players[0].id == socket;
    assert registry.FindRoomBySocket(socket) == Some(token);
  }

  /** A socket alone in a new room has no symbol and no turn is set, so the
      turn guard of makeMove (server.js:68) lets it play; writing `null` on
      the empty board leaves it empty, and checkWin reports the column of
      empty cells as a win for nobody (server.js:73-89). */
  method LonePlayerEndsGame(socket: SocketId, token: Token, now: int, row: int, col: int)
    returns (events: seq<Event>)
    requires token != "" && InBounds(row, col)
    ensures |events| == 2
    ensures events[0] == UpdateBoard(token, Some(row), Some(col), None, None)
    ensures events[1].GameOver? && events[1].winner == None && |events[1].cells| >= WIN_LENGTH
  {
    var registry := SeatAlone(socket, token, now);
    PlaceSameContent(CreateBoard(), row, col);
    EmptySymbolWinsOnEmptyBoard(row, col);
    WinLineMeaning(CreateBoard(), row, col, None);
    events := registry.MakeMove(socket, row, col);
  }

  /** The second socket completes the room and both get their marks; a
      third is sent home and the room keeps its two players
      (server.js:42-45, 55-56, 161-166). */
  method ThirdSocketIsTurnedAway(a: SocketId, b: SocketId, c: SocketId, token: Token, now: int,
                                 start: Mark, swapSeats: bool)
    returns (registry: Registry, paired: seq<Event>, refused: seq<Event>)
    ensures |paired| >= 3 && paired[..3] == [CheckWaiting(token, false), Joined(a, Some(SeatMarks(swapSeats).0)),
                            Joined(b, Some(SeatMarks(swapSeats).1))]
    ensures refused == [RedirectHome(c)]
    ensures token in registry.rooms
    ensures registry.rooms[token].players == [Player(a, Some(SeatMarks(swapSeats).0)), Player(b, Some(SeatMarks(swapSeats).1))]
  {
    registry := new Registry();
    var first, waiting := registry.JoinRoom(a, token, now, start, swapSeats);
    var second, third: bool;
    second, paired := registry.JoinRoom(b, token, now, start, swapSeats);
    assert paired[..|paired| - 1] == [CheckWaiting(token, false)] + registry.rooms[token].ResetEvents();
    third, refused := registry.JoinRoom(c, token, now, start, swapSeats);
  }

  /** Two sockets joining a new registry under one token, with `start` the
      mark of the first of them. */
  method SeatPair(a: SocketId, b: SocketId, token: Token, now: int, swapSeats: bool)
    returns (registry: Registry)
    requires a != b
    ensures fresh(registry) && registry.Valid()
    ensures registry.order == [token] && token in registry.rooms
    ensures fresh(registry.rooms[token])
    ensures var room := registry.rooms[token];
      && room.players == [Player(a, Some(SeatMarks(swapSeats).0)), Player(b, Some(SeatMarks(swapSeats).1))]
      && room.currentPlayer == Some(SeatMarks(swapSeats).0)
      && room.board == CreateBoard() && !room.gameOver
  {
    var m := SeatMarks(swapSeats);
    registry := new Registry();
    var first, waiting := registry.JoinRoom(a, token, now, m.0, swapSeats);
    var second, paired := registry.JoinRoom(b, token, now, m.0, swapSeats);
  }

  /** In a fresh pair, the player holding the starting mark moves; the
      turn goes to the other mark, so a second move by the same player is
      ignored (server.js:68, 94). */
  method TurnPassesAfterMove(a: SocketId, b: SocketId, token: Token, now: int, swapSeats: bool,
                             row: int, col: int, row2: int, col2: int)
    returns (moved: seq<Event>, again: seq<Event>)
    requires a != b && token != "" && InBounds(row, col) && InBounds(row2, col2)
    ensures moved == [Timer(token, TURN_TIME),
                      UpdateBoard(token, Some(row), Some(col), Some(SeatMarks(swapSeats).0),
                                  Some(SeatMarks(swapSeats).1))]
    ensures again == []
  {
    var m := SeatMarks(swapSeats);
    var registry := SeatPair(a, b, token, now, swapSeats);
    var room := registry.rooms[token];
    assert room.players[0].id == a;
    assert registry.FindRoomBySocket(a) == Some(token);
    assert registry.Routed(a) == Some(token);
    FirstStoneDoesNotWin(row, col, m.0);
    moved := registry.MakeMove(a, row, col);
    assert registry.FindRoomBySocket(a) == Some(token);
    assert registry.Routed(a) == Some(token);
    again := registry.MakeMove(a, row2, col2);
  }

  /** joinRoom accepts the empty token (server.js:30), but every later
      handler of a socket whose room has it returns at `if (!token)`
      (server.js:124): disconnecting leaves the seat taken and the room
      stored, and nothing is emitted. */
  method EmptyTokenSeatIsKept(socket: SocketId, now: int)
    returns (registry: Registry, events: seq<Event>)
    ensures events == []
    ensures "" in registry.rooms && registry.rooms[""].players == [Player(socket, None)]
  {
    registry := new Registry();
    var admitted, joined := registry.JoinRoom(socket, "", now, X, false);
    assert registry.rooms[""].players[0].id == socket;
    assert registry.FindRoomBySocket(socket) == Some("");
    events := registry.Disconnect(socket);
  }
}

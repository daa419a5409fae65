/**
 * One game room (server.js:31-38): its seats, whose turn it is, the board,
 * the game-over flag and the turn timer, with the handlers that change them
 * (server.js:42-57, 65-102, 109-112, 126-132, 152-203).
 *
 * Every handler returns the events it emits, in order. The interval timer is
 * a flag `timerActive` (an interval is scheduled) plus `Tick`, one firing of
 * the interval callback. The two random choices of resetRoom are parameters.
 */
module Rooms {
  import opened Wrappers
  import opened Board
  import opened Protocol

  /** Seconds a player has for a turn (server.js:13). */
  const TURN_TIME: int := 60

  /** An entry of `room.players`; the symbol is `null` until a reset. */
  datatype Player = Player(id: SocketId, symbol: Cell)

  predicate Seated(ps: seq<Player>, id: SocketId) {
    exists i :: 0 <= i < |ps| && ps[i].id == id
  }

  /** Seat `k` is the first seat taken by `id`. */
  predicate FirstSeat(ps: seq<Player>, id: SocketId, k: int) {
    0 <= k < |ps| && ps[k].id == id && forall j :: 0 <= j < k ==> ps[j].id != id
  }

  /** `players.find(p => p.id === id)` (server.js:66, 109). */
  function FindPlayer(ps: seq<Player>, id: SocketId): (p: Option<Player>)
    ensures p.None? <==> !Seated(ps, id)
    ensures p.Some? ==> exists k :: FirstSeat(ps, id, k) && p.value == ps[k]
  {
    if ps == [] then None
    else if ps[0].id == id then Some(ps[0])
    else
      var p := FindPlayer(ps[1..], id);
      assert p.Some? ==> exists k :: FirstSeat(ps[1..], id, k) && p.value == ps[1..][k];
      assert forall k :: FirstSeat(ps[1..], id, k) ==> FirstSeat(ps, id, k + 1);
      p
  }

  /** `players.filter(p => p.id !== id)` (server.js:126). */
  function Without(ps: seq<Player>, id: SocketId): (rest: seq<Player>)
    ensures forall p :: p in rest <==> p in ps && p.id != id
    ensures |rest| <= |ps|
    ensures |rest| == |ps| <==> !Seated(ps, id)
    ensures !Seated(ps, id) ==> rest == ps
  {
    if ps == [] then []
    else
      var tail := Without(ps[1..], id);
      assert Seated(ps, id) <==> ps[0].id == id || Seated(ps[1..], id) by {
        if Seated(ps, id) && ps[0].id != id {
          var i :| 0 <= i < |ps| && ps[i].id == id;
          assert ps[1..][i - 1].id == id;
        }
        if Seated(ps[1..], id) {
          var i :| 0 <= i < |ps[1..]| && ps[1..][i].id == id;
          assert ps[i + 1].id == id;
        }
      }
      if ps[0].id == id then tail
      else
        assert ps == [ps[0]] + ps[1..];
        [ps[0]] + tail
  }

  /** The turn switch `s === "X" ? "O" : "X"` (server.js:94, 177): always
      a mark, never the one given, and `null` goes to X. */
  function Flip(s: Cell): (t: Cell)
    ensures t.Some? && t != s
    ensures s.None? ==> t == Some(X)
  {
    if s == Some(X) then Some(O) else Some(X)
  }

  /** The seat order of `shuffle(["X", "O"])` (server.js:161-163): X then O,
      or swapped. */
  function SeatMarks(swapSeats: bool): (m: (Mark, Mark))
    ensures m.0 != m.1
    ensures {m.0, m.1} == {X, O}
  {
    if swapSeats then (O, X) else (X, O)
  }

  /** Two seats with two different marks. */
  predicate Paired(ps: seq<Player>) {
    |ps| == 2 && ps[0].symbol.Some? && ps[1].symbol.Some? && ps[0].symbol != ps[1].symbol
  }

  class Room {
    const token: Token
    /** `createdDate`, the creation time in milliseconds. */
    const createdDate: int
    var players: seq<Player>
    var currentPlayer: Cell
    var board: Grid
    var gameOver: bool
    var timer: int
    /** An interval is scheduled (`timerInterval` not cleared). */
    var timerActive: bool

    /** What holds between handlers, except the pairing of a full room,
        which joinRoom breaks for the moment before its reset. */
    ghost predicate Sound()
      reads this
    {
      WellFormed(board) && |players| <= 2 && 0 < timer <= TURN_TIME
    }

    /** At most two seats, the countdown within one turn, and once two
        players sit, they hold X and O and a turn is set. */
    ghost predicate Valid()
      reads this
    {
      Sound() && (|players| == 2 ==> Paired(players) && currentPlayer.Some?)
    }

    /** A room as created (server.js:31-38), with `seats` taken since and
        no game begun. */
    predicate Opened(seats: seq<Player>)
      reads this
    {
      && players == seats && currentPlayer == None && board == CreateBoard()
      && !gameOver && timer == TURN_TIME && !timerActive
    }

    /** The room literal of joinRoom (server.js:31-38). */
    constructor(token: Token, createdDate: int)
      ensures Valid() && Opened([])
      ensures this.token == token && this.createdDate == createdDate
    {
      this.token := token;
      this.createdDate := createdDate;
      players := [];
      currentPlayer := None;
      board := CreateBoard();
      gameOver := false;
      timer := TURN_TIME;
      timerActive := false;
    }

    /** `player` may act: the turn guard of makeMove and passTurn
        (server.js:68, 110), which a player whose symbol is `null` passes
        while no turn is set. */
    predicate HasTurn(socket: SocketId)
      reads this
    {
      var p := FindPlayer(players, socket);
      p.Some? && currentPlayer == p.value.symbol
    }

    /** The guards of makeMove that come before the board is read
        (server.js:65-68). */
    predicate MayMove(socket: SocketId)
      reads this
    {
      !gameOver && HasTurn(socket)
    }

    /** All guards of makeMove (server.js:65-69): a column outside the row
        reads `undefined`, which is not `null`, so such a move is ignored. */
    predicate CanMove(socket: SocketId, row: int, col: int)
      reads this
      requires WellFormed(board)
    {
      MayMove(socket) && 0 <= row < SIZE && 0 <= col < SIZE && board[row][col] == None
    }

    /** The events of switchTurn (server.js:178-184), after the switch. */
    function SwitchEvents(): seq<Event>
      reads this
    {
      [Timer(token, TURN_TIME), UpdateBoard(token, None, None, None, currentPlayer)]
    }

    /** The events of resetRoom (server.js:165-171), after the reset. */
    function ResetEvents(): seq<Event>
      reads this
      requires |players| == 2
    {
      [Joined(players[0].id, players[0].symbol), Joined(players[1].id, players[1].symbol),
       ResetGame(token, currentPlayer), Timer(token, TURN_TIME)]
    }

    /** switchTurn (server.js:177-178): the other mark has the turn and the
        countdown starts again; nothing else changes. */
    twostate predicate Switched()
      reads this
    {
      && currentPlayer == Flip(old(currentPlayer))
      && timer == TURN_TIME && timerActive
      && players == old(players) && board == old(board) && gameOver == old(gameOver)
    }

    /** The room as resetRoom leaves it for the seats `before`
        (server.js:156-163, 171). */
    ghost predicate IsFreshGame(before: seq<Player>, start: Mark, swapSeats: bool)
      reads this
      requires |before| >= 2
    {
      var m := SeatMarks(swapSeats);
      && players == before[0 := before[0].(symbol := Some(m.0))][1 := before[1].(symbol := Some(m.1))]
      && currentPlayer == Some(start) && board == CreateBoard() && !gameOver
      && timer == TURN_TIME && timerActive
    }

    /** resetRoom (server.js:154-171). */
    twostate predicate ResetEffect(start: Mark, swapSeats: bool, events: seq<Event>)
      reads this
    {
      if |old(players)| < 2 then unchanged(this) && events == []
      else IsFreshGame(old(players), start, swapSeats) && |players| == 2 && events == ResetEvents()
    }

    /** joinRoom once the room exists (server.js:42-57). */
    twostate predicate JoinEffect(socket: SocketId, start: Mark, swapSeats: bool, admitted: bool, events: seq<Event>)
      reads this
    {
      if |old(players)| >= 2 then !admitted && unchanged(this) && events == [RedirectHome(socket)]
      else
        var seated := old(players) + [Player(socket, None)];
        && admitted
        && (|seated| < 2 ==>
              && players == seated && currentPlayer == old(currentPlayer) && board == old(board)
              && gameOver == old(gameOver) && timer == old(timer) && timerActive == old(timerActive)
              && events == [CheckWaiting(token, true)])
        && (|seated| >= 2 ==>
              && IsFreshGame(seated, start, swapSeats) && |players| == 2
              && events == [CheckWaiting(token, false)] + ResetEvents())
    }

    /** makeMove past its guards (server.js:71-102): `symbol` is placed,
        and either the game is won or the turn goes to the other mark. */
    twostate predicate PlayEffect(row: int, col: int, symbol: Cell, events: seq<Event>)
      reads this
      requires old(WellFormed(board)) && InBounds(row, col)
    {
      var placed := Place(old(board), row, col, symbol);
      var won := WinLine(placed, row, col, symbol);
      && board == placed && players == old(players)
      && (won.Some? ==>
            && gameOver && !timerActive
            && currentPlayer == old(currentPlayer) && timer == old(timer)
            && events == [UpdateBoard(token, Some(row), Some(col), symbol, currentPlayer),
                          GameOver(token, symbol, won.value)])
      && (won.None? ==>
            && !gameOver && timerActive && timer == TURN_TIME
            && currentPlayer == Flip(symbol) && currentPlayer != symbol
            && events == [Timer(token, TURN_TIME), UpdateBoard(token, Some(row), Some(col), symbol, currentPlayer)])
    }

    /** makeMove once the room is found (server.js:65-102). */
    twostate predicate MoveEffect(socket: SocketId, row: int, col: int, events: seq<Event>)
      reads this
      requires old(WellFormed(board))
    {
      if !old(CanMove(socket, row, col)) then unchanged(this) && events == []
      else PlayEffect(row, col, FindPlayer(old(players), socket).value.symbol, events)
    }

    /** passTurn once the room is found (server.js:109-112); it does not
        look at `gameOver`. */
    twostate predicate PassEffect(socket: SocketId, events: seq<Event>)
      reads this
    {
      if !old(HasTurn(socket)) then unchanged(this) && events == []
      else Switched() && events == SwitchEvents()
    }

    /** disconnect once the room is found (server.js:126-132): the leaver's
        seats go, and a room left with fewer than two players is told and
        its countdown stops. */
    twostate predicate LeaveEffect(socket: SocketId, events: seq<Event>)
      reads this
    {
      && players == Without(old(players), socket)
      && currentPlayer == old(currentPlayer) && board == old(board)
      && gameOver == old(gameOver) && timer == old(timer)
      && (|players| < 2 ==> !timerActive && events == [OpponentLeft(token)])
      && (|players| >= 2 ==> timerActive == old(timerActive) && events == [])
    }

    /** One firing of the interval (server.js:195-201). */
    twostate predicate TickEffect(events: seq<Event>)
      reads this
    {
      if !old(timerActive) then unchanged(this) && events == []
      else if old(timer) - 1 <= 0 then Switched() && events == [Timer(token, old(timer) - 1)] + SwitchEvents()
      else
        && timer == old(timer) - 1 && timerActive
        && players == old(players) && currentPlayer == old(currentPlayer)
        && board == old(board) && gameOver == old(gameOver)
        && events == [Timer(token, timer)]
    }

    /** restartTimer (server.js:190-194). */
    method RestartTimer() returns (events: seq<Event>)
      requires Sound()
      modifies this`timer, this`timerActive
      ensures Sound() && timer == TURN_TIME && timerActive
      ensures events == [Timer(token, TURN_TIME)]
    {
      timer := TURN_TIME;
      timerActive := true;
      events := [Timer(token, timer)];
    }

    /** switchTurn (server.js:174-185). */
    method SwitchTurn() returns (events: seq<Event>)
      requires Valid()
      modifies this
      ensures Valid() && Switched() && events == SwitchEvents()
    {
      currentPlayer := Flip(currentPlayer);
      events := RestartTimer();
      events := events + [UpdateBoard(token, None, None, None, currentPlayer)];
    }

    /** resetRoom (server.js:152-172); the two seats may still be unpaired. */
    method Reset(start: Mark, swapSeats: bool) returns (events: seq<Event>)
      requires Sound()
      modifies this
      ensures Valid() && ResetEffect(start, swapSeats, events)
    {
      if |players| < 2 {
        return [];
      }
      gameOver := false;
      board := CreateBoard();
      currentPlayer := Some(start);
      var m := SeatMarks(swapSeats);
      players := players[0 := players[0].(symbol := Some(m.0))];
      players := players[1 := players[1].(symbol := Some(m.1))];
      events := [Joined(players[0].id, players[0].symbol), Joined(players[1].id, players[1].symbol),
                 ResetGame(token, currentPlayer)];
      var started := RestartTimer();
      events := events + started;
    }

    /** joinRoom once the room exists (server.js:42-57). */
    method Join(socket: SocketId, start: Mark, swapSeats: bool) returns (admitted: bool, events: seq<Event>)
      requires Valid()
      modifies this
      ensures Valid() && JoinEffect(socket, start, swapSeats, admitted, events)
    {
      if |players| >= 2 {
        return false, [RedirectHome(socket)];
      }
      players := players + [Player(socket, None)];
      admitted := true;
      events := [CheckWaiting(token, |players| < 2)];
      if |players| == 2 {
        var reset := Reset(start, swapSeats);
        events := events + reset;
      }
    }

    /** makeMove once the room is found (server.js:65-102). A row outside
        the board makes `board[row][col]` throw, so the caller provides one
        whenever the move gets that far. */
    method MakeMove(socket: SocketId, row: int, col: int) returns (events: seq<Event>)
      requires Valid()
      requires MayMove(socket) ==> 0 <= row < SIZE
      modifies this
      ensures Valid() && MoveEffect(socket, row, col, events)
      ensures forall r, c :: InBounds(r, c) && old(board)[r][c].Some? ==> board[r][c] == old(board)[r][c]
    {
      if gameOver {
        return [];
      }
      var player := FindPlayer(players, socket);
      if player.None? || currentPlayer != player.value.symbol {
        return [];
      }
      if !(0 <= col < SIZE) || board[row][col] != None {
        return [];
      }
      events := Play(row, col, player.value.symbol);
    }

    /** makeMove past its guards (server.js:71-102). */
    method Play(row: int, col: int, symbol: Cell) returns (events: seq<Event>)
      requires Valid() && InBounds(row, col) && board[row][col] == None
      requires !gameOver && currentPlayer == symbol
      modifies this
      ensures Valid() && PlayEffect(row, col, symbol, events)
    {
      board := Place(board, row, col, symbol);
      var won := CheckWin(board, row, col, symbol);
      if won.Some? {
        events := [UpdateBoard(token, Some(row), Some(col), symbol, currentPlayer),
                   GameOver(token, symbol, won.value)];
        timerActive := false;
        gameOver := true;
        return;
      }
      currentPlayer := Flip(symbol);
      events := RestartTimer();
      events := events + [UpdateBoard(token, Some(row), Some(col), symbol, currentPlayer)];
    }

    /** passTurn once the room is found (server.js:109-112). */
    method PassTurn(socket: SocketId) returns (events: seq<Event>)
      requires Valid()
      modifies this
      ensures Valid() && PassEffect(socket, events)
    {
      var player := FindPlayer(players, socket);
      if player.None? || currentPlayer != player.value.symbol {
        return [];
      }
      events := SwitchTurn();
    }

    /** disconnect once the room is found (server.js:126-132). */
    method Leave(socket: SocketId) returns (events: seq<Event>)
      requires Valid()
      modifies this
      ensures Valid() && LeaveEffect(socket, events)
    {
      players := Without(players, socket);
      if |players| < 2 {
        events := [OpponentLeft(token)];
        timerActive := false;
      } else {
        events := [];
      }
    }

    /** The interval callback of restartTimer (server.js:194-202): count
        down one second, and at zero hand the turn over. */
    method Tick() returns (events: seq<Event>)
      requires Valid()
      modifies this
      ensures Valid() && TickEffect(events)
    {
      if !timerActive {
        return [];
      }
      var left := timer - 1;
      if left <= 0 {
        var switched := SwitchTurn();
        events := [Timer(token, left)] + switched;
      } else {
        timer := left;
        events := [Timer(token, left)];
      }
    }
  }
}

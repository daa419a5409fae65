# Five-in-a-row room server, modelled in Dafny

A model of the in-memory game server in `server.js`, which referees 18×18
five-in-a-row matches between pairs of socket clients. The model covers:

- the board;
- win detection along the four directions through the cell just played;
- the room state machine: join, move, pass, reset requests, disconnects and the per-turn countdown;
- the registry of rooms keyed by token, with lookup by socket and the lobby listing.

Modules, one file each:

- `Wrappers` (`wrappers.dfy`): an `Option` type. It stands for the server's `null` wherever the code compares a value against it.
- `Board` (`board.dfy`): the grid is a sequence of rows of `Option<Mark>`.
  - `Place` is the single-cell assignment of makeMove.
  - getLine and checkWin are methods with loops (`Walk`, `GetLine`, `CheckWin`), each proved equal to a pure function (`Ray`, `Line`, `WinLine`).
  - Lemmas about those functions say what a reported line is, and when a line is reported.
- `Protocol` (`protocol.dfy`): socket ids, tokens, the lobby status, and one event constructor per `emit`.
- `Rooms` (`room.dfy`): the class `Room`, whose fields are those of the room record.
  - Each handler is a method that updates the fields in place and returns the events it emits, in order.
  - Each method's postcondition is a two-state predicate such as `MoveEffect` or `JoinEffect`, and the registry reuses the same predicate.
  - `Valid` is the room invariant: at most two seats, a countdown within one turn, and a full room's players hold X and O with a turn set.
- `Server` (`server.dfy`): the class `Registry`.
  - Rooms are kept in a map, together with the order in which `for … in` visits their tokens.
  - Its `Valid` says that every room is valid and knows its own token, and that no stored room is empty.
- `Scenarios` (`scenarios.dfy`): whole-server runs from an empty registry, proved from the handlers' contracts alone.

Inputs the server takes from its environment become parameters:

- `now` stands for `new Date().getTime()`;
- `start` stands for the random starting mark of resetRoom;
- `swapSeats` stands for the outcome of `shuffle(["X", "O"])`.

The interval timer becomes a flag `timerActive`, which is true while an interval is scheduled, plus `Room.Tick` and `Registry.TimerFired`, each one firing of the interval callback.

Behaviours of the code that are easy to miss, all of which the model keeps:

- A lone player in a fresh room passes the turn guard. Both its symbol and `currentPlayer` are `null`, so its move writes `null`. `checkWin` then finds the whole column of empty cells, and the game ends with winner `null`. See `Board.EmptySymbolWinsOnEmptyBoard` and `Scenarios.LonePlayerEndsGame`.
- joinRoom accepts the empty token and creates a room under it. Every other per-socket handler tests the token it finds with `if (!token) return;`, and the empty string fails that test. A socket whose first room has the empty token can therefore never move, pass, reset or leave, and that room is never deleted. See `Server.Registry.Routed` and `Scenarios.EmptyTokenSeatIsKept`.
- `currentPlayer` stays set after a player leaves and after a win. A lone player's pass sets it.
- passTurn does not check `gameOver`, so a pass after a win restarts the countdown.
- A countdown reaching zero emits `timer` with 0, then `timer` with 60, then the pass's `updateBoard`.
- A move whose column is off the board is ignored, because `board[row][col]` is `undefined`, which is not `null`. A move whose row is off the board makes the handler throw. The move methods therefore require a row on the board only when the move gets past the turn guard. They do not require the column to be on the board.

## Model

| member | source | states |
|---|---|---|
| Board.CreateBoard | server.js:214-216 | the board is 18×18 and every cell is empty |
| Board.Place | server.js:71 | the board keeps its shape, the cell written reads back the symbol, every other cell is unchanged |
| Board.PlaceSameContent | server.js:71 | writing a cell's own content back leaves the board as it was |
| Board.Walk | server.js:238-251 | one `while` loop of getLine appends exactly the cells of the run from its start along its direction (`Ray`) |
| Board.GetLine | server.js:236-253 | getLine returns the played cell, then the forward run, then the backward run (`Line`) |
| Board.CheckWin | server.js:218-234 | checkWin returns what `WinLine` returns: the first direction, in the fixed order, whose line has at least 5 cells |
| Board.FirstWin | server.js:227-233 | a line is returned if and only if some remaining direction's line has at least 5 cells; the one returned is the first such, and it has at least 5 cells |
| Board.RayHolds | server.js:240-243 | every cell a getLine loop collects is on the board and holds the symbol |
| Board.RayConsecutive | server.js:240-243 | the cells a loop collects are the consecutive steps from its start |
| Board.RayEnd | server.js:240 | the cell just past a collected run is off the board or does not hold the symbol |
| Board.RayIsMaximalRun | server.js:238-251 | a collected run is the maximal run of the symbol from its start: all its cells hold it, consecutively, and the next does not |
| Board.RunIffWithinRay | server.js:238-251 | the first k cells from a start all hold the symbol exactly when k is at most the length of the collected run |
| Board.LineShape | server.js:236-253 | getLine's first cell is the played cell, and every other cell it lists is on the board and holds the symbol |
| Board.RunIsDetected | server.js:218-234 | a run through the played cell of at least 5 cells along any of the four directions makes checkWin report a win |
| Board.LongLineWins | server.js:227-231 | any direction whose line has at least 5 cells makes checkWin report a win |
| Board.WinLineMeaning | server.js:218-234 | no win means every direction's line is shorter than 5; a reported line has at least 5 cells, starts at the played cell, and every other cell holds the symbol |
| Board.EmptySymbolWinsOnEmptyBoard | server.js:218-253 | searching an empty board for the `null` symbol reports a win through any cell |
| Board.FirstStoneDoesNotWin | server.js:218-253 | the first stone on an empty board never wins |
| Rooms.FindPlayer | server.js:66 | `find` by socket id: nothing exactly when no seat has the id, otherwise the first seat that has it |
| Rooms.Without | server.js:126 | `filter`: keeps exactly the seats of other sockets, removes at least one seat exactly when the socket is seated, and keeps the list as it was when the socket is not seated |
| Rooms.Flip | server.js:94 | the turn switch always yields a mark different from its input, and `null` goes to X |
| Rooms.SeatMarks | server.js:161-163 | the two seats get the two different marks X and O |
| Rooms.Room.constructor | server.js:31-38 | a new room has no players, no turn, an empty board, no game over, 60 seconds and no interval |
| Rooms.Room.RestartTimer | server.js:187-193 | the countdown is back at 60 and scheduled, and `timer 60` is emitted |
| Rooms.Room.SwitchTurn | server.js:174-185 | the other mark has the turn and the countdown restarts; seats, board and game-over flag are unchanged; `timer` then `updateBoard` with null cell fields is emitted |
| Rooms.Room.Reset | server.js:152-172 | with fewer than two players nothing changes and nothing is emitted; otherwise the board is empty, the game is not over, the turn is the given mark, the two seats get X and O in the order chosen, the countdown restarts, and `joined` to each seat, `resetGame` and `timer` are emitted |
| Rooms.Room.Join | server.js:40-57 | a full room is unchanged and the socket is sent home; otherwise one seat with a `null` symbol is appended and `checkWaitingOtherPlayer` is emitted, and a second seat triggers a reset; the room never holds more than two players |
| Rooms.Room.MakeMove | server.js:65-102 | nothing changes and nothing is emitted when the game is over, the socket is not seated, it is not the player's turn, or the cell is not empty; otherwise the effect of `Play`; a filled cell is never overwritten |
| Rooms.Room.Play | server.js:71-102 | the symbol is written to exactly that cell; on a win the game is over, the countdown stops, the turn is unchanged, and `updateBoard` then `gameOver` with the winning line is emitted; otherwise the turn goes to the other mark, the countdown restarts at 60, and `timer` then `updateBoard` is emitted |
| Rooms.Room.PassTurn | server.js:109-112 | when it is the socket's turn the effect of a switch, whether or not the game is over; otherwise nothing changes |
| Rooms.Room.Leave | server.js:126-132 | exactly the leaver's seats are removed; with fewer than two players left, the countdown stops and `opponentLeft` is emitted |
| Rooms.Room.Tick | server.js:194-202 | with no interval nothing happens; otherwise the countdown drops by one and `timer` is emitted; at zero the turn switches and the countdown is back at 60 |
| Server.Remove | server.js:134 | deleting a key leaves exactly the other keys, none of them twice |
| Server.RemoveAbsent | server.js:134 | deleting a key that is not there leaves the visiting order as it was |
| Server.RemoveKeepsOrder | server.js:134 | deleting a key drops exactly its place from the visiting order, and the other keys keep their order |
| Server.Registry.constructor | server.js:19 | the registry starts with no rooms |
| Server.Registry.FindIn | server.js:206-211 | the scan returns nothing exactly when no room it visits seats the socket, otherwise the first room that does |
| Server.Registry.FindRoomBySocket | server.js:205-212 | nothing exactly when no room seats the socket; otherwise a stored room that does, the first in visiting order |
| Server.Registry.Routed | server.js:62-63 | the room a per-socket handler acts on: the room findRoomBySocket finds, and none when it finds no room or a room whose token is the empty string |
| Server.Registry.RoomsNow | server.js:141-149 | every room once in visiting order; status 2 (Full) exactly when it has two players, 3 (ReadyToPlay) exactly when it has one |
| Server.Registry.JoinRoom | server.js:29-59 | a room is created, empty-boarded and with no turn, only when the token is absent; the room's join effect otherwise; other rooms are untouched; an admitted join ends with the lobby listing |
| Server.Registry.Open | server.js:30-39 | a new room is stored under the token, created now, and the token is visited last |
| Server.Registry.Enter | server.js:40-58 | the room's join effect, then the lobby listing when admitted |
| Server.Registry.MakeMove | server.js:61-103 | a socket in no room, or whose room has the empty token, changes nothing; otherwise its room's move effect, with every other room unchanged |
| Server.Registry.PassTurn | server.js:105-113 | a socket in no room, or whose room has the empty token, changes nothing; otherwise its room's pass effect, with every other room unchanged |
| Server.Registry.ResetRequest | server.js:115-119 | a socket in no room, or whose room has the empty token, changes nothing; otherwise its room's reset effect, with every other room unchanged |
| Server.Registry.Disconnect | server.js:121-137 | a socket in no room, or whose room has the empty token, changes nothing and emits nothing; otherwise the effect of `Vacate`, with every other room unchanged |
| Server.Registry.Vacate | server.js:125-136 | the room's leave effect; the room is deleted exactly when no player is left; the lobby listing is emitted last |
| Server.Registry.Close | server.js:133-135 | the deleted token leaves both the map and the visiting order, and the registry stays valid |
| Server.Registry.TimerFired | server.js:194-202 | a firing for a token not stored changes nothing; otherwise the room's tick effect, with every other room unchanged |
| Scenarios.SeatAlone | server.js:29-59 | one socket joining a new registry under a non-empty token sits alone with no symbol, and its handlers reach that room |
| Scenarios.LonePlayerEndsGame | server.js:29-90 | a single socket in a new room with a non-empty token can move, and the game ends with winner `null` and a line of at least 5 cells |
| Scenarios.ThirdSocketIsTurnedAway | server.js:29-59 | the second socket completes the room and both get distinct marks; a third socket is sent home, and the room keeps its two players |
| Scenarios.SeatPair | server.js:29-172 | two sockets joining a new registry sit in joining order with the marks chosen, the first mark to move |
| Scenarios.EmptyTokenSeatIsKept | server.js:29-124 | a socket that joined the room with the empty token stays seated after disconnecting, the room stays stored, and nothing is emitted |
| Scenarios.TurnPassesAfterMove | server.js:61-102 | with a non-empty token, the first player's move passes the turn to the other mark, and a second move by the same player is ignored |

## Left out

- Express, HTTP and socket.io setup, `server.listen` and `console.log` (server.js:1-10, 22-28, 259-261) are left out. Events are returned as values rather than sent. The addressing of events follows the constructors of `Protocol.Event`. Which sockets are in which socket.io room (`socket.join`) is not modelled.
- Real time and concurrency are left out. A firing of the interval is an explicit call, and races between a firing and a client event are not modelled.
- `Math.random` is left out, as is the fairness of `shuffle`, a sort with a random comparator (server.js:158, 161, 255-257). Their outcomes are parameters.
- `new Date().getTime()` is the parameter `now`.
- JavaScript enumerates array-index-like keys (tokens such as `"7"`) before other keys, in ascending order. The model visits every token in insertion order.
- Tokens that name keys of `Object.prototype` (such as `"constructor"`) are left out. In the code such a token never creates a room, and the handler throws.
- Handler arguments that are not strings or integers are left out, such as a non-string token or a fractional row.
- A move whose row is off the board makes the code throw, which in Node ends the process. The model excludes that call by a precondition instead of modelling the crash.
- The `timerInterval` handle itself is left out. Only whether an interval is scheduled is kept, because the model never holds more than one interval per room.

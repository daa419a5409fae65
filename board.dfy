/**
 * The 18x18 five-in-a-row board: creation, placing a mark, and detection of a
 * winning line through the cell just played (server.js:214-253).
 *
 * A cell holds `None` (the server's `null`) or a mark. The symbol searched for
 * is itself a `Cell`, because the server compares cells against a player's
 * symbol with `===`, and that symbol is `null` until the first reset.
 */
module Board {
  import opened Wrappers

  /** Side length of the board (server.js:12). */
  const SIZE: int := 18
  /** Length from which a contiguous line wins (server.js:229). */
  const WIN_LENGTH: int := 5

  datatype Mark = X | O
  type Cell = Option<Mark>
  type Grid = seq<seq<Cell>>
  datatype Pos = Pos(row: int, col: int)

  /** The four directions of checkWin, in the order they are tried:
      vertical, horizontal, `\` and `/` (server.js:220-225). */
  const DIRECTIONS: seq<(int, int)> := [(1, 0), (0, 1), (1, 1), (1, -1)]

  predicate InBounds(r: int, c: int) {
    0 <= r < SIZE && 0 <= c < SIZE
  }

  predicate WellFormed(b: Grid) {
    |b| == SIZE && forall r :: 0 <= r < SIZE ==> |b[r]| == SIZE
  }

  /** The guard of both loops of getLine: in bounds and carrying `s`. */
  predicate Holds(b: Grid, r: int, c: int, s: Cell)
    requires WellFormed(b)
  {
    InBounds(r, c) && b[r][c] == s
  }

  /** A unit step of a direction or of its opposite. */
  predicate Step(dr: int, dc: int) {
    -1 <= dr <= 1 && -1 <= dc <= 1 && (dr != 0 || dc != 0)
  }

  /** `x + i * d` for a unit step `d`, without multiplication. */
  function Along(x: int, i: int, d: int): int {
    if d > 0 then x + i else if d < 0 then x - i else x
  }

  /** How many more in-bounds steps a walk from (r, c) can take. */
  function Reach(r: int, c: int, dr: int, dc: int): int {
    if dr > 0 then SIZE - r
    else if dr < 0 then r + 1
    else if dc > 0 then SIZE - c
    else c + 1
  }

  /** createBoard (server.js:214-216): SIZE rows of SIZE empty cells. */
  function CreateBoard(): (b: Grid)
    ensures WellFormed(b)
    ensures forall r, c :: InBounds(r, c) ==> b[r][c] == None
  {
    seq(SIZE, _ => seq(SIZE, _ => None))
  }

  /** `board[row][col] = s` (server.js:71): the cell reads back `s`, every
      other cell keeps its content. */
  function Place(b: Grid, row: int, col: int, s: Cell): (b': Grid)
    requires WellFormed(b) && InBounds(row, col)
    ensures WellFormed(b')
    ensures b'[row][col] == s
    ensures forall r, c :: InBounds(r, c) && (r != row || c != col) ==> b'[r][c] == b[r][c]
  {
    b[row := b[row][col := s]]
  }

  /** Writing a cell's own content back leaves the board as it was. */
  lemma PlaceSameContent(b: Grid, row: int, col: int)
    requires WellFormed(b) && InBounds(row, col)
    ensures Place(b, row, col, b[row][col]) == b
  {
    assert b[row][col := b[row][col]] == b[row];
  }

  /** The cells visited by one loop of getLine: starting at (r, c) and
      stepping by (dr, dc) while the cell is in bounds and holds `s`. */
  function Ray(b: Grid, r: int, c: int, s: Cell, dr: int, dc: int): seq<Pos>
    requires WellFormed(b) && (dr != 0 || dc != 0)
    decreases Reach(r, c, dr, dc)
  {
    if Holds(b, r, c, s) then [Pos(r, c)] + Ray(b, r + dr, c + dc, s, dr, dc) else []
  }

  /** The `k` cells from (r, c) onwards along (dr, dc) are in bounds and hold `s`. */
  ghost predicate RunOf(b: Grid, r: int, c: int, s: Cell, dr: int, dc: int, k: int)
    requires WellFormed(b)
  {
    forall i :: 0 <= i < k ==> Holds(b, Along(r, i, dr), Along(c, i, dc), s)
  }

  /** Every cell listed is in bounds and holds `s`. */
  ghost predicate AllHold(b: Grid, cells: seq<Pos>, s: Cell)
    requires WellFormed(b)
  {
    forall i :: 0 <= i < |cells| ==> InBounds(cells[i].row, cells[i].col) && b[cells[i].row][cells[i].col] == s
  }

  /** The cells listed are the consecutive steps from (r, c) along (dr, dc). */
  ghost predicate Consecutive(cells: seq<Pos>, r: int, c: int, dr: int, dc: int) {
    forall i :: 0 <= i < |cells| ==> cells[i] == Pos(Along(r, i, dr), Along(c, i, dc))
  }

  /** What getLine returns (server.js:236-253): the played cell, then the
      run forward along (dr, dc), then the run backward. */
  function Line(b: Grid, row: int, col: int, s: Cell, dr: int, dc: int): seq<Pos>
    requires WellFormed(b) && Step(dr, dc)
  {
    [Pos(row, col)] + Ray(b, row + dr, col + dc, s, dr, dc) + Ray(b, row - dr, col - dc, s, -dr, -dc)
  }

  lemma DirectionIsStep(j: int)
    requires 0 <= j < |DIRECTIONS|
    ensures Step(DIRECTIONS[j].0, DIRECTIONS[j].1)
  {
  }

  /** The line through (row, col) along the `j`-th direction of checkWin. */
  function LineAt(b: Grid, row: int, col: int, s: Cell, j: int): seq<Pos>
    requires WellFormed(b) && 0 <= j < |DIRECTIONS|
  {
    DirectionIsStep(j);
    Line(b, row, col, s, DIRECTIONS[j].0, DIRECTIONS[j].1)
  }

  /** The first direction, from the `i`-th on, whose line is long enough. */
  function FirstWin(b: Grid, row: int, col: int, s: Cell, i: nat): (w: Option<seq<Pos>>)
    requires WellFormed(b) && i <= |DIRECTIONS|
    ensures w.Some? <==> exists j :: i <= j < |DIRECTIONS| && |LineAt(b, row, col, s, j)| >= WIN_LENGTH
    ensures w.Some? ==> exists j :: (i <= j < |DIRECTIONS| && w.value == LineAt(b, row, col, s, j)
      && |w.value| >= WIN_LENGTH
      && forall k :: i <= k < j ==> |LineAt(b, row, col, s, k)| < WIN_LENGTH)
    decreases |DIRECTIONS| - i
  {
    if i == |DIRECTIONS| then None
    else if |LineAt(b, row, col, s, i)| >= WIN_LENGTH then Some(LineAt(b, row, col, s, i))
    else FirstWin(b, row, col, s, i + 1)
  }

  /** What checkWin returns (server.js:218-234). */
  function WinLine(b: Grid, row: int, col: int, s: Cell): Option<seq<Pos>>
    requires WellFormed(b)
  {
    FirstWin(b, row, col, s, 0)
  }

  /** One iteration of a loop of getLine: appending the current cell and
      walking on leaves the cells still to come unchanged. */
  lemma RayStep(b: Grid, r: int, c: int, s: Cell, dr: int, dc: int, cells: seq<Pos>)
    requires WellFormed(b) && Step(dr, dc) && Holds(b, r, c, s)
    ensures (cells + [Pos(r, c)]) + Ray(b, r + dr, c + dc, s, dr, dc) == cells + Ray(b, r, c, s, dr, dc)
  {
  }

  /** One while loop of getLine (server.js:240-244 and 247-251): from
      (r, c), append each cell that is in bounds and holds the symbol,
      stepping by (dr, dc). */
  method Walk(board: Grid, r: int, c: int, symbol: Cell, dr: int, dc: int, cells: seq<Pos>) returns (grown: seq<Pos>)
    requires WellFormed(board) && Step(dr, dc)
    ensures grown == cells + Ray(board, r, c, symbol, dr, dc)
  {
    grown := cells;
    var r', c' := r, c;
    while Holds(board, r', c', symbol)
      invariant grown + Ray(board, r', c', symbol, dr, dc) == cells + Ray(board, r, c, symbol, dr, dc)
      decreases Reach(r', c', dr, dc)
    {
      RayStep(board, r', c', symbol, dr, dc, grown);
      grown := grown + [Pos(r', c')];
      r', c' := r' + dr, c' + dc;
    }
    assert grown + [] == grown;
  }

  /** getLine (server.js:236-253): the played cell, then the forward loop,
      then the backward loop (`r -= dr` is a step by (-dr, -dc)). */
  method GetLine(board: Grid, row: int, col: int, symbol: Cell, dr: int, dc: int) returns (cells: seq<Pos>)
    requires WellFormed(board) && Step(dr, dc)
    ensures cells == Line(board, row, col, symbol, dr, dc)
  {
    cells := [Pos(row, col)];
    cells := Walk(board, row + dr, col + dc, symbol, dr, dc, cells);
    cells := Walk(board, row - dr, col - dc, symbol, -dr, -dc, cells);
  }

  /** checkWin (server.js:218-234): tries the directions in order and
      returns the first line of WIN_LENGTH cells or more. */
  method CheckWin(board: Grid, row: int, col: int, symbol: Cell) returns (w: Option<seq<Pos>>)
    requires WellFormed(board)
    ensures w == WinLine(board, row, col, symbol)
  {
    for i := 0 to |DIRECTIONS|
      invariant FirstWin(board, row, col, symbol, i) == WinLine(board, row, col, symbol)
    {
      DirectionIsStep(i);
      var line := GetLine(board, row, col, symbol, DIRECTIONS[i].0, DIRECTIONS[i].1);
      if |line| >= WIN_LENGTH {
        return Some(line);
      }
    }
    return None;
  }

  /** Every cell of a ray is in bounds and holds `s`. */
  lemma {:induction false} RayHolds(b: Grid, r: int, c: int, s: Cell, dr: int, dc: int)
    requires WellFormed(b) && Step(dr, dc)
    ensures AllHold(b, Ray(b, r, c, s, dr, dc), s)
    decreases Reach(r, c, dr, dc)
  {
    if Holds(b, r, c, s) {
      RayHolds(b, r + dr, c + dc, s, dr, dc);
      var rest := Ray(b, r + dr, c + dc, s, dr, dc);
      var ray := [Pos(r, c)] + rest;
      forall i | 0 < i < |ray|
        ensures InBounds(ray[i].row, ray[i].col) && b[ray[i].row][ray[i].col] == s
      {
        assert ray[i] == rest[i - 1];
      }
    }
  }

  /** The i-th cell of a ray is i steps from its start. */
  lemma {:induction false} RayConsecutive(b: Grid, r: int, c: int, s: Cell, dr: int, dc: int)
    requires WellFormed(b) && Step(dr, dc)
    ensures Consecutive(Ray(b, r, c, s, dr, dc), r, c, dr, dc)
    decreases Reach(r, c, dr, dc)
  {
    if Holds(b, r, c, s) {
      RayConsecutive(b, r + dr, c + dc, s, dr, dc);
      var rest := Ray(b, r + dr, c + dc, s, dr, dc);
      var ray := [Pos(r, c)] + rest;
      forall i | 0 < i < |ray|
        ensures ray[i] == Pos(Along(r, i, dr), Along(c, i, dc))
      {
        assert ray[i] == rest[i - 1];
        assert Along(r, i, dr) == Along(r + dr, i - 1, dr);
        assert Along(c, i, dc) == Along(c + dc, i - 1, dc);
      }
    }
  }

  /** The cell one step past the end of a ray does not hold `s`. */
  lemma {:induction false} RayEnd(b: Grid, r: int, c: int, s: Cell, dr: int, dc: int)
    requires WellFormed(b) && Step(dr, dc)
    ensures !Holds(b, Along(r, |Ray(b, r, c, s, dr, dc)|, dr), Along(c, |Ray(b, r, c, s, dr, dc)|, dc), s)
    decreases Reach(r, c, dr, dc)
  {
    if Holds(b, r, c, s) {
      RayEnd(b, r + dr, c + dc, s, dr, dc);
      var n := |Ray(b, r + dr, c + dc, s, dr, dc)|;
      assert Along(r, n + 1, dr) == Along(r + dr, n, dr);
      assert Along(c, n + 1, dc) == Along(c + dc, n, dc);
    }
  }

  /** A ray is the longest run from its start: its cells are the run's
      cells in order, and the cell after its end does not hold `s`. */
  lemma RayIsMaximalRun(b: Grid, r: int, c: int, s: Cell, dr: int, dc: int)
    requires WellFormed(b) && Step(dr, dc)
    ensures RunOf(b, r, c, s, dr, dc, |Ray(b, r, c, s, dr, dc)|)
    ensures !Holds(b, Along(r, |Ray(b, r, c, s, dr, dc)|, dr), Along(c, |Ray(b, r, c, s, dr, dc)|, dc), s)
    ensures Consecutive(Ray(b, r, c, s, dr, dc), r, c, dr, dc)
  {
    RayHolds(b, r, c, s, dr, dc);
    RayConsecutive(b, r, c, s, dr, dc);
    RayEnd(b, r, c, s, dr, dc);
    var ray := Ray(b, r, c, s, dr, dc);
    forall i | 0 <= i < |ray|
      ensures Holds(b, Along(r, i, dr), Along(c, i, dc), s)
    {
      assert ray[i] == Pos(Along(r, i, dr), Along(c, i, dc));
    }
  }

  /** The ray's length is exactly the length of the longest run: a run of
      `k` cells exists if and only if `k` is at most the ray's length. */
  lemma RunIffWithinRay(b: Grid, r: int, c: int, s: Cell, dr: int, dc: int, k: nat)
    requires WellFormed(b) && Step(dr, dc)
    ensures RunOf(b, r, c, s, dr, dc, k) <==> k <= |Ray(b, r, c, s, dr, dc)|
  {
    RayIsMaximalRun(b, r, c, s, dr, dc);
    var n := |Ray(b, r, c, s, dr, dc)|;
    if k > n {
      assert !Holds(b, Along(r, n, dr), Along(c, n, dc), s);
    }
  }

  lemma AllHoldConcat(b: Grid, x: seq<Pos>, y: seq<Pos>, s: Cell)
    requires WellFormed(b) && AllHold(b, x, s) && AllHold(b, y, s)
    ensures AllHold(b, x + y, s)
  {
    forall i | 0 <= i < |x + y|
      ensures InBounds((x + y)[i].row, (x + y)[i].col) && b[(x + y)[i].row][(x + y)[i].col] == s
    {
      if i < |x| {
        assert (x + y)[i] == x[i];
      } else {
        assert (x + y)[i] == y[i - |x|];
      }
    }
  }

  /** getLine's result starts with the played cell, and every other cell
      it lists is in bounds and holds the symbol (server.js:237-251). */
  lemma {:induction false} LineShape(b: Grid, row: int, col: int, s: Cell, dr: int, dc: int)
    requires WellFormed(b) && Step(dr, dc)
    ensures Line(b, row, col, s, dr, dc)[0] == Pos(row, col)
    ensures AllHold(b, Line(b, row, col, s, dr, dc)[1..], s)
  {
    var fwd := Ray(b, row + dr, col + dc, s, dr, dc);
    var bwd := Ray(b, row - dr, col - dc, s, -dr, -dc);
    RayHolds(b, row + dr, col + dc, s, dr, dc);
    RayHolds(b, row - dr, col - dc, s, -dr, -dc);
    AllHoldConcat(b, fwd, bwd, s);
    assert Line(b, row, col, s, dr, dc)[1..] == fwd + bwd;
  }

  /** A run through the played cell along one of the four directions, with
      `ahead` cells forward and `behind` cells backward, that reaches
      WIN_LENGTH cells in all makes checkWin report a win. */
  lemma RunIsDetected(b: Grid, row: int, col: int, s: Cell, j: int, ahead: nat, behind: nat)
    requires WellFormed(b) && 0 <= j < |DIRECTIONS|
    requires RunOf(b, row + DIRECTIONS[j].0, col + DIRECTIONS[j].1, s, DIRECTIONS[j].0, DIRECTIONS[j].1, ahead)
    requires RunOf(b, row - DIRECTIONS[j].0, col - DIRECTIONS[j].1, s, -DIRECTIONS[j].0, -DIRECTIONS[j].1, behind)
    requires 1 + ahead + behind >= WIN_LENGTH
    ensures WinLine(b, row, col, s).Some?
  {
    var (dr, dc) := DIRECTIONS[j];
    RunIffWithinRay(b, row + dr, col + dc, s, dr, dc, ahead);
    RunIffWithinRay(b, row - dr, col - dc, s, -dr, -dc, behind);
    LongLineWins(b, row, col, s, j);
  }

  /** Any direction whose line is long enough makes checkWin report a win. */
  lemma LongLineWins(b: Grid, row: int, col: int, s: Cell, j: int)
    requires WellFormed(b) && 0 <= j < |DIRECTIONS|
    requires |LineAt(b, row, col, s, j)| >= WIN_LENGTH
    ensures WinLine(b, row, col, s).Some?
  {
    assert exists k :: 0 <= k < |DIRECTIONS| && |LineAt(b, row, col, s, k)| >= WIN_LENGTH;
  }

  /** When checkWin reports no win, every line through the played cell is
      shorter than WIN_LENGTH; when it reports one, the line it returns is
      a whole line through the played cell, with the played cell first and
      every cell holding the symbol. */
  lemma WinLineMeaning(b: Grid, row: int, col: int, s: Cell)
    requires WellFormed(b)
    ensures WinLine(b, row, col, s).None? ==>
      forall j :: 0 <= j < |DIRECTIONS| ==> |LineAt(b, row, col, s, j)| < WIN_LENGTH
    ensures WinLine(b, row, col, s).Some? ==>
      && |WinLine(b, row, col, s).value| >= WIN_LENGTH
      && WinLine(b, row, col, s).value[0] == Pos(row, col)
      && AllHold(b, WinLine(b, row, col, s).value[1..], s)
  {
    var w := WinLine(b, row, col, s);
    if w.Some? {
      var j :| 0 <= j < |DIRECTIONS| && w.value == LineAt(b, row, col, s, j);
      LineShape(b, row, col, s, DIRECTIONS[j].0, DIRECTIONS[j].1);
    }
  }

  /** On an empty board, searching for the empty symbol finds the whole
      column through the played cell: a "move" whose symbol is `null`
      reports a win (server.js:68-74 as written). */
  lemma EmptySymbolWinsOnEmptyBoard(row: int, col: int)
    requires InBounds(row, col)
    ensures WinLine(CreateBoard(), row, col, None).Some?
  {
    var b := CreateBoard();
    var ahead, behind := SIZE - 1 - row, row;
    assert RunOf(b, row + 1, col, None, 1, 0, ahead);
    assert RunOf(b, row - 1, col, None, -1, 0, behind);
    RunIsDetected(b, row, col, None, 0, ahead, behind);
  }

  /** A line needs more than the stone just played: the first stone on an
      empty board never wins. */
  lemma FirstStoneDoesNotWin(row: int, col: int, m: Mark)
    requires InBounds(row, col)
    ensures WinLine(Place(CreateBoard(), row, col, Some(m)), row, col, Some(m)).None?
  {
    var b := Place(CreateBoard(), row, col, Some(m));
    forall j | 0 <= j < |DIRECTIONS| ensures |LineAt(b, row, col, Some(m), j)| < WIN_LENGTH {
      DirectionIsStep(j);
      var (dr, dc) := DIRECTIONS[j];
      assert !Holds(b, row + dr, col + dc, Some(m));
      assert !Holds(b, row - dr, col - dc, Some(m));
    }
  }
}

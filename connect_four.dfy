/** Connect Four on a 6 x 7 board stored row-major as a flat array of 42 cells
    (index 7 * row + column, row 0 at the top). A cell holds 0 when empty and
    the mover's board value otherwise. */
module ConnectFour {
  import opened Outcomes

  const Rows: int := 6
  const Columns: int := 7
  const NumSquares: int := 42
  const InARowToWin: int := 4
  const NumPlayers: int := 2

  /** Board value written for a player index (0 -> 1, 1 -> 2); the game base
      class that defines it is not part of this model. */
  function BoardValue(player: int): (v: int)
    requires player >= 0
    ensures v != 0
    ensures BoardValueToPlayer(v) == player
  {
    player + 1
  }

  function BoardValueToPlayer(v: int): int
  {
    v - 1
  }

  function Cell(row: int, col: int): int
  {
    Columns * row + col
  }

  predicate InBoard(row: int, col: int)
  {
    0 <= row < Rows && 0 <= col < Columns
  }

  // ---------------------------------------------------------------------------
  // Lines of the board, enumerated the way update_game_state enumerates them
  // ---------------------------------------------------------------------------

  /** Which matrix a diagonal scan runs over: the transposed 7 x 6 board, or that
      matrix turned by np.rot90, which is the 6 x 7 board with its rows reversed. */
  datatype View = Transposed | Rotated

  function ViewRows(v: View): int
  {
    if v == Transposed then Columns else Rows
  }

  function ViewColumns(v: View): int
  {
    if v == Transposed then Rows else Columns
  }

  /** The board cell shown at position (i, j) of a view. */
  function ViewCell(v: View, i: int, j: int): int
  {
    if v == Transposed then Cell(j, i) else Cell(Rows - 1 - i, j)
  }

  /** numpy's `diagonal(offset = k)` of a view, as board cell indices. */
  function Diagonal(v: View, k: int): seq<int>
  {
    if k >= 0 then
      var n := Min(ViewRows(v), ViewColumns(v) - k);
      seq(if n < 0 then 0 else n, i => ViewCell(v, i, i + k))
    else
      var n := Min(ViewRows(v) + k, ViewColumns(v));
      seq(if n < 0 then 0 else n, i => ViewCell(v, i - k, i))
  }

  /** The offsets check_diagonal visits for given column_count and row_count:
      0, then 1 .. row_count - 4, then -1 .. -(column_count - 4). */
  function DiagonalOffsets(columnCount: int, rowCount: int): (offsets: seq<int>)
    requires columnCount >= InARowToWin && rowCount >= InARowToWin
    ensures |offsets| == columnCount + rowCount - 2 * InARowToWin + 1
  {
    [0] + seq(rowCount - InARowToWin, i => i + 1) + seq(columnCount - InARowToWin, i => -(i + 1))
  }

  function RowLine(r: int): seq<int>
  {
    seq(Columns, j => Cell(r, j))
  }

  function ColumnLine(c: int): seq<int>
  {
    seq(Rows, i => Cell(i, c))
  }

  /** The lines check_diagonal scans in a view: one diagonal per offset. */
  function DiagonalScan(v: View, columnCount: int, rowCount: int): (lines: seq<seq<int>>)
    requires columnCount >= InARowToWin && rowCount >= InARowToWin
    ensures |lines| == |DiagonalOffsets(columnCount, rowCount)|
  {
    var offsets := DiagonalOffsets(columnCount, rowCount);
    seq(|offsets|, i requires 0 <= i < |offsets| => Diagonal(v, offsets[i]))
  }

  /** Every line check_in_a_row is applied to, in order: the six rows, the seven
      columns, the "\" diagonals of the transposed board (called with
      column_count 7, row_count 6) and those of its rot90 (column_count 6,
      row_count 7). */
  function ScanLines(): (lines: seq<seq<int>>)
    ensures |lines| == 25
  {
    seq(Rows, RowLine)
    + seq(Columns, ColumnLine)
    + DiagonalScan(Transposed, Columns, Rows)
    + DiagonalScan(Rotated, Rows, Columns)
  }

  // ---------------------------------------------------------------------------
  // Geometry: four cells in a straight line
  // ---------------------------------------------------------------------------

  /** The four directions a line of the board can run in: along a row, down a
      column, down-right ("\") and up-right ("/"). */
  datatype Direction = Horizontal | Vertical | Falling | Rising

  function RowAt(d: Direction, r: int, t: int): int
  {
    match d
    case Horizontal => r
    case Vertical => r + t
    case Falling => r + t
    case Rising => r - t
  }

  function ColAt(d: Direction, c: int, t: int): int
  {
    if d == Vertical then c else c + t
  }

  /** The cells met walking `len` steps from (r, c) in direction d. */
  function Ray(r: int, c: int, d: Direction, len: nat): seq<int>
  {
    seq(len, t => Cell(RowAt(d, r, t), ColAt(d, c, t)))
  }

  /** Four equal non-empty cells starting at (r, c) in direction d. */
  predicate FourAt(b: seq<int>, r: int, c: int, d: Direction)
    requires |b| == NumSquares
  {
    && InBoard(r, c)
    && InBoard(RowAt(d, r, 3), ColAt(d, c, 3))
    && b[Cell(r, c)] != 0
    && b[Cell(RowAt(d, r, 1), ColAt(d, c, 1))] == b[Cell(r, c)]
    && b[Cell(RowAt(d, r, 2), ColAt(d, c, 2))] == b[Cell(r, c)]
    && b[Cell(RowAt(d, r, 3), ColAt(d, c, 3))] == b[Cell(r, c)]
  }

  ghost predicate HasFourInARow(b: seq<int>)
    requires |b| == NumSquares
  {
    exists r, c, d :: FourAt(b, r, c, d)
  }

  // Where each scanned line starts, which way it runs and how long it is.

  function DiagonalStartRow(v: View, k: int): int
  {
    if v == Transposed then (if k >= 0 then k else 0)
    else (if k >= 0 then Rows - 1 else Rows - 1 + k)
  }

  function DiagonalStartCol(v: View, k: int): int
  {
    if v == Transposed then (if k >= 0 then 0 else -k)
    else (if k >= 0 then k else 0)
  }

  function ViewDirection(v: View): Direction
  {
    if v == Transposed then Falling else Rising
  }

  /** A diagonal of either view is a straight ray of board cells. */
  lemma DiagonalIsRay(v: View, k: int)
    ensures var line := Diagonal(v, k);
      && line == Ray(DiagonalStartRow(v, k), DiagonalStartCol(v, k), ViewDirection(v), |line|)
      && forall t :: 0 <= t < |line| ==>
           InBoard(RowAt(ViewDirection(v), DiagonalStartRow(v, k), t), ColAt(ViewDirection(v), DiagonalStartCol(v, k), t))
  {
    var line := Diagonal(v, k);
    var ray := Ray(DiagonalStartRow(v, k), DiagonalStartCol(v, k), ViewDirection(v), |line|);
    forall t | 0 <= t < |line|
      ensures line[t] == ray[t]
    {
      if k >= 0 {
        assert line[t] == ViewCell(v, t, t + k);
      } else {
        assert line[t] == ViewCell(v, t - k, t);
      }
    }
  }

  function LineStartRow(li: int): int
    requires 0 <= li < 25
  {
    if li < 6 then li
    else if li < 13 then 0
    else if li < 19 then DiagonalStartRow(Transposed, DiagonalOffsets(Columns, Rows)[li - 13])
    else DiagonalStartRow(Rotated, DiagonalOffsets(Rows, Columns)[li - 19])
  }

  function LineStartCol(li: int): int
    requires 0 <= li < 25
  {
    if li < 6 then 0
    else if li < 13 then li - 6
    else if li < 19 then DiagonalStartCol(Transposed, DiagonalOffsets(Columns, Rows)[li - 13])
    else DiagonalStartCol(Rotated, DiagonalOffsets(Rows, Columns)[li - 19])
  }

  function LineDirection(li: int): Direction
    requires 0 <= li < 25
  {
    if li < 6 then Horizontal
    else if li < 13 then Vertical
    else if li < 19 then Falling
    else Rising
  }

  /** Every scanned line is a straight ray of at least four cells, all on the board. */
  lemma ScanLineIsRay(li: int)
    requires 0 <= li < 25
    ensures var line := ScanLines()[li];
      && line == Ray(LineStartRow(li), LineStartCol(li), LineDirection(li), |line|)
      && |line| >= InARowToWin
      && forall t :: 0 <= t < |line| ==>
           InBoard(RowAt(LineDirection(li), LineStartRow(li), t), ColAt(LineDirection(li), LineStartCol(li), t))
  {
    var lines := ScanLines();
    if li < 6 {
      assert lines[li] == RowLine(li);
    } else if li < 13 {
      assert lines[li] == ColumnLine(li - 6);
    } else if li < 19 {
      var k := DiagonalOffsets(Columns, Rows)[li - 13];
      assert DiagonalOffsets(Columns, Rows) == [0, 1, 2, -1, -2, -3];
      assert lines[li] == DiagonalScan(Transposed, Columns, Rows)[li - 13] == Diagonal(Transposed, k);
      DiagonalIsRay(Transposed, k);
    } else {
      var k := DiagonalOffsets(Rows, Columns)[li - 19];
      assert DiagonalOffsets(Rows, Columns) == [0, 1, 2, 3, -1, -2];
      assert lines[li] == DiagonalScan(Rotated, Rows, Columns)[li - 19] == Diagonal(Rotated, k);
      DiagonalIsRay(Rotated, k);
    }
  }

  // ---------------------------------------------------------------------------
  // Runs of four along one line
  // ---------------------------------------------------------------------------

  /** The values a line shows on board b (cells off the board read as empty). */
  function LineValues(b: seq<int>, line: seq<int>): (vals: seq<int>)
    ensures |vals| == |line|
  {
    seq(|line|, i requires 0 <= i < |line| => if 0 <= line[i] < |b| then b[line[i]] else 0)
  }

  /** Positions p .. p + 3 of vals hold one non-zero value. */
  predicate HasFour(vals: seq<int>, p: int)
  {
    && 0 <= p && p + InARowToWin <= |vals|
    && vals[p] != 0
    && vals[p + 1] == vals[p] && vals[p + 2] == vals[p] && vals[p + 3] == vals[p]
  }

  /** The first position at or after p where four in a row start. */
  function FirstFourFrom(vals: seq<int>, p: nat): (r: Option<nat>)
    decreases |vals| - p
    ensures r.Some? ==> p <= r.value && HasFour(vals, r.value)
    ensures r.Some? ==> forall q :: p <= q < r.value ==> !HasFour(vals, q)
    ensures r.None? ==> forall q :: p <= q ==> !HasFour(vals, q)
  {
    if p + InARowToWin > |vals| then None
    else if HasFour(vals, p) then Some(p)
    else FirstFourFrom(vals, p + 1)
  }

  function FirstFour(vals: seq<int>): Option<nat>
  {
    FirstFourFrom(vals, 0)
  }

  /** The winner after check_in_a_row has scanned one line, starting from w. */
  function LineStep(b: seq<int>, line: seq<int>, w: Option<int>): (w': Option<int>)
    ensures w.Some? ==> w'.Some?
    ensures w' != w ==> FirstFour(LineValues(b, line)).Some?
  {
    var vals := LineValues(b, line);
    match FirstFour(vals)
    case Some(p) => Some(BoardValueToPlayer(vals[p]))
    case None => w
  }

  /** The winner after the first n scanned lines, starting from w. */
  function ScanPrefix(b: seq<int>, n: nat, w: Option<int>): (r: Option<int>)
    requires n <= 25
    ensures w.Some? ==> r.Some?
  {
    if n == 0 then w else LineStep(b, ScanLines()[n - 1], ScanPrefix(b, n - 1, w))
  }

  function ScanWinner(b: seq<int>): Option<int>
  {
    ScanPrefix(b, 25, None)
  }

  ghost predicate SomeLineHasFour(b: seq<int>, n: nat)
    requires n <= 25
  {
    exists li, p :: 0 <= li < n && HasFour(LineValues(b, ScanLines()[li]), p)
  }

  /** Scanning changes the winner exactly when some scanned line holds four in a row. */
  lemma {:induction false} ScanPrefixSome(b: seq<int>, n: nat, w: Option<int>)
    requires n <= 25
    ensures ScanPrefix(b, n, w).Some? <==> w.Some? || SomeLineHasFour(b, n)
    ensures !SomeLineHasFour(b, n) ==> ScanPrefix(b, n, w) == w
  {
    if n > 0 {
      ScanPrefixSome(b, n - 1, w);
      var vals := LineValues(b, ScanLines()[n - 1]);
      if SomeLineHasFour(b, n) && !SomeLineHasFour(b, n - 1) {
        var li, p :| 0 <= li < n && HasFour(LineValues(b, ScanLines()[li]), p);
        assert li == n - 1;
        assert FirstFour(vals).Some?;
      }
      if SomeLineHasFour(b, n - 1) {
        var li, p :| 0 <= li < n - 1 && HasFour(LineValues(b, ScanLines()[li]), p);
        assert 0 <= li < n && HasFour(LineValues(b, ScanLines()[li]), p);
      }
      if FirstFour(vals).Some? {
        assert HasFour(LineValues(b, ScanLines()[n - 1]), FirstFour(vals).value);
      }
    }
  }

  // ---------------------------------------------------------------------------
  // The scanned lines find exactly the fours in a row of the board
  // ---------------------------------------------------------------------------

  /** Four in a row found on a straight line of board cells are four in a row on the board. */
  lemma RayFourIsFourInARow(b: seq<int>, line: seq<int>, r0: int, c0: int, d: Direction, p: int)
    requires |b| == NumSquares
    requires line == Ray(r0, c0, d, |line|)
    requires forall t :: 0 <= t < |line| ==> InBoard(RowAt(d, r0, t), ColAt(d, c0, t))
    requires HasFour(LineValues(b, line), p)
    ensures FourAt(b, RowAt(d, r0, p), ColAt(d, c0, p), d)
    ensures LineValues(b, line)[p] == b[Cell(RowAt(d, r0, p), ColAt(d, c0, p))]
  {
    var vals := LineValues(b, line);
    var r, c := RowAt(d, r0, p), ColAt(d, c0, p);
    forall t | 0 <= t < InARowToWin
      ensures InBoard(RowAt(d, r, t), ColAt(d, c, t))
      ensures vals[p + t] == b[Cell(RowAt(d, r, t), ColAt(d, c, t))]
    {
      assert RowAt(d, r, t) == RowAt(d, r0, p + t) && ColAt(d, c, t) == ColAt(d, c0, p + t);
      assert line[p + t] == Cell(RowAt(d, r0, p + t), ColAt(d, c0, p + t));
    }
  }

  /** Four in a row found on a scanned line are four in a row on the board. */
  lemma LineFourIsFourInARow(b: seq<int>, li: int, p: int)
    requires |b| == NumSquares && 0 <= li < 25
    requires HasFour(LineValues(b, ScanLines()[li]), p)
    ensures var d := LineDirection(li);
      var (r, c) := (RowAt(d, LineStartRow(li), p), ColAt(d, LineStartCol(li), p));
      && FourAt(b, r, c, d)
      && LineValues(b, ScanLines()[li])[p] == b[Cell(r, c)]
  {
    ScanLineIsRay(li);
    RayFourIsFourInARow(b, ScanLines()[li], LineStartRow(li), LineStartCol(li), LineDirection(li), p);
  }

  /** The scanned line through a four in a row and the position where the four starts on it. */
  function LineThrough(r: int, c: int, d: Direction): (int, int)
  {
    match d
    case Horizontal => (r, c)
    case Vertical => (6 + c, r)
    case Falling => if r - c >= 0 then (13 + (r - c), c) else (15 - (r - c), r)
    case Rising => if r + c - 5 >= 0 then (19 + (r + c - 5), 5 - r) else (22 - (r + c - 5), c)
  }

  /** The line LineThrough names runs through (r, c) in direction d and is long enough. */
  lemma LineThroughFits(r: int, c: int, d: Direction)
    requires InBoard(r, c) && InBoard(RowAt(d, r, 3), ColAt(d, c, 3))
    ensures var (li, p) := LineThrough(r, c, d);
      && 0 <= li < 25 && 0 <= p
      && LineDirection(li) == d
      && RowAt(d, LineStartRow(li), p) == r && ColAt(d, LineStartCol(li), p) == c
      && p + InARowToWin <= |ScanLines()[li]|
  {
    var (li, p) := LineThrough(r, c, d);
    assert DiagonalOffsets(Columns, Rows) == [0, 1, 2, -1, -2, -3];
    assert DiagonalOffsets(Rows, Columns) == [0, 1, 2, 3, -1, -2];
    var lines := ScanLines();
    match d
    case Horizontal =>
      assert lines[li] == RowLine(r);
    case Vertical =>
      assert lines[li] == ColumnLine(c);
    case Falling =>
      var k := DiagonalOffsets(Columns, Rows)[li - 13];
      assert k == r - c;
      assert lines[li] == DiagonalScan(Transposed, Columns, Rows)[li - 13] == Diagonal(Transposed, k);
    case Rising =>
      var k := DiagonalOffsets(Rows, Columns)[li - 19];
      assert k == r + c - 5;
      assert lines[li] == DiagonalScan(Rotated, Rows, Columns)[li - 19] == Diagonal(Rotated, k);
  }

  /** A four in a row that starts at position p of a straight line of board
      cells, and fits on it, shows on that line as four in a row. */
  lemma FourInARowIsOnRay(b: seq<int>, line: seq<int>, r0: int, c0: int, d: Direction, p: int)
    requires |b| == NumSquares && 0 <= p && p + InARowToWin <= |line|
    requires line == Ray(r0, c0, d, |line|)
    requires forall t :: 0 <= t < |line| ==> InBoard(RowAt(d, r0, t), ColAt(d, c0, t))
    requires FourAt(b, RowAt(d, r0, p), ColAt(d, c0, p), d)
    ensures HasFour(LineValues(b, line), p)
  {
    var vals := LineValues(b, line);
    var r, c := RowAt(d, r0, p), ColAt(d, c0, p);
    forall t | 0 <= t < InARowToWin
      ensures vals[p + t] == b[Cell(RowAt(d, r, t), ColAt(d, c, t))]
    {
      assert RowAt(d, r, t) == RowAt(d, r0, p + t) && ColAt(d, c, t) == ColAt(d, c0, p + t);
      assert line[p + t] == Cell(RowAt(d, r0, p + t), ColAt(d, c0, p + t));
      assert InBoard(RowAt(d, r0, p + t), ColAt(d, c0, p + t));
    }
    assert RowAt(d, r, 0) == r && ColAt(d, c, 0) == c;
  }

  /** Every four in a row on the board lies on one of the scanned lines. */
  lemma FourInARowIsOnScannedLine(b: seq<int>, r: int, c: int, d: Direction)
    requires |b| == NumSquares && FourAt(b, r, c, d)
    ensures var (li, p) := LineThrough(r, c, d);
      0 <= li < 25 && HasFour(LineValues(b, ScanLines()[li]), p)
  {
    var (li, p) := LineThrough(r, c, d);
    LineThroughFits(r, c, d);
    ScanLineIsRay(li);
    FourInARowIsOnRay(b, ScanLines()[li], LineStartRow(li), LineStartCol(li), d, p);
  }

  /** The scan records a winner exactly when the board holds four in a row. */
  lemma ScanWinnerIffFourInARow(b: seq<int>)
    requires |b| == NumSquares
    ensures ScanWinner(b).Some? <==> HasFourInARow(b)
  {
    ScanPrefixSome(b, 25, None);
    if HasFourInARow(b) {
      var r, c, d :| FourAt(b, r, c, d);
      FourInARowIsOnScannedLine(b, r, c, d);
      var (li, p) := LineThrough(r, c, d);
      assert 0 <= li < 25 && HasFour(LineValues(b, ScanLines()[li]), p);
    }
    if SomeLineHasFour(b, 25) {
      var li, p :| 0 <= li < 25 && HasFour(LineValues(b, ScanLines()[li]), p);
      LineFourIsFourInARow(b, li, p);
    }
  }

  /** If the board had no four in a row before one empty cell was filled with v,
      any four in a row the scan finds afterwards are v's. */
  lemma {:induction false} ScanFindsOnlyMover(b: seq<int>, i: int, v: int, n: nat)
    requires |b| == NumSquares && 0 <= i < NumSquares && v != 0 && n <= 25
    requires !HasFourInARow(b)
    ensures var w := ScanPrefix(b[i := v], n, None); w == None || w == Some(BoardValueToPlayer(v))
  {
    if n > 0 {
      ScanFindsOnlyMover(b, i, v, n - 1);
      var b' := b[i := v];
      var vals := LineValues(b', ScanLines()[n - 1]);
      var first := FirstFour(vals);
      if first.Some? {
        var p := first.value;
        LineFourIsFourInARow(b', n - 1, p);
        var d := LineDirection(n - 1);
        var r, c := RowAt(d, LineStartRow(n - 1), p), ColAt(d, LineStartCol(n - 1), p);
        var c0, c1, c2, c3 := Cell(r, c), Cell(RowAt(d, r, 1), ColAt(d, c, 1)),
          Cell(RowAt(d, r, 2), ColAt(d, c, 2)), Cell(RowAt(d, r, 3), ColAt(d, c, 3));
        if i != c0 && i != c1 && i != c2 && i != c3 {
          assert FourAt(b, r, c, d);
          assert false;
        }
        assert vals[p] == b'[c0] == v;
      }
    }
  }

  // ---------------------------------------------------------------------------
  // Board states and moves
  // ---------------------------------------------------------------------------

  /** Every occupied cell above the bottom row rests on an occupied cell. */
  ghost predicate Gravity(b: seq<int>)
    requires |b| == NumSquares
  {
    forall r, c :: InBoard(r, c) && r < Rows - 1 && b[Cell(r, c)] != 0 ==> b[Cell(r + 1, c)] != 0
  }

  /** The number of occupied cells. */
  function Occupied(b: seq<int>): nat
  {
    if b == [] then 0 else Occupied(b[..|b| - 1]) + (if b[|b| - 1] != 0 then 1 else 0)
  }

  /** Filling one empty cell adds exactly one occupied cell. */
  lemma {:induction false} OccupiedAfterFill(b: seq<int>, i: int, v: int)
    requires 0 <= i < |b| && b[i] == 0 && v != 0
    ensures Occupied(b[i := v]) == Occupied(b) + 1
  {
    var b' := b[i := v];
    assert b'[..|b| - 1] == if i == |b| - 1 then b[..|b| - 1] else b[..|b| - 1][i := v];
    if i < |b| - 1 {
      OccupiedAfterFill(b[..|b| - 1], i, v);
    }
  }

  /** The row a piece dropped into column col comes to rest in: the lowest
      empty cell of the column, searching upward from row `row`. */
  function DropRow(b: seq<int>, col: int, row: int): (r: int)
    requires |b| == NumSquares && 0 <= col < Columns && 0 <= row < Rows
    requires b[Cell(0, col)] == 0
    ensures 0 <= r <= row && b[Cell(r, col)] == 0
    ensures forall r' :: r < r' <= row ==> b[Cell(r', col)] != 0
  {
    if b[Cell(row, col)] == 0 then row else DropRow(b, col, row - 1)
  }

  /** The board after the mover's value v is dropped into column col. */
  function Dropped(b: seq<int>, col: int, v: int): (b': seq<int>)
    requires |b| == NumSquares && 0 <= col < Columns && b[col] == 0
    ensures |b'| == |b|
    ensures forall i :: 0 <= i < |b| && b'[i] != b[i] ==> b[i] == 0 && b'[i] == v && i % Columns == col
  {
    b[Cell(DropRow(b, col, Rows - 1), col) := v]
  }

  /** Dropping a piece keeps gravity, lands on top of the column's stack, and
      changes nothing but that cell. */
  lemma DroppedOnTop(b: seq<int>, col: int, v: int)
    requires |b| == NumSquares && 0 <= col < Columns && b[col] == 0 && v != 0
    requires Gravity(b)
    ensures var row := DropRow(b, col, Rows - 1);
      && Gravity(Dropped(b, col, v))
      && (forall r :: 0 <= r < row ==> b[Cell(r, col)] == 0)
      && (forall i :: 0 <= i < NumSquares && i != Cell(row, col) ==> Dropped(b, col, v)[i] == b[i])
      && Occupied(Dropped(b, col, v)) == Occupied(b) + 1
  {
    var row := DropRow(b, col, Rows - 1);
    OccupiedAfterFill(b, Cell(row, col), v);
    forall r | 0 <= r < row
      ensures b[Cell(r, col)] == 0
    {
      if b[Cell(r, col)] != 0 {
        GravityBelow(b, r, col, row);
      }
    }
  }

  /** Under gravity an occupied cell has only occupied cells below it. */
  lemma {:induction false} GravityBelow(b: seq<int>, r: int, c: int, r': int)
    requires |b| == NumSquares && Gravity(b) && InBoard(r, c) && r <= r' < Rows
    requires b[Cell(r, c)] != 0
    ensures b[Cell(r', c)] != 0
    decreases r' - r
  {
    if r < r' {
      assert b[Cell(r + 1, c)] != 0;
      GravityBelow(b, r + 1, c, r');
    }
  }

  /** What advance raises, checked in the source's order. The column test reads
      board[a] with Python indexing before the range test, so an action in
      [-42, 42) outside [0, 7) reads some cell first, and one beyond raises an
      index error. */
  datatype AdvanceError = GameOver | NoAction | ColumnFull | NotLegal | IndexOutOfRange

  function PythonIndex(i: int): int
  {
    if i < 0 then NumSquares + i else i
  }

  function AdvanceCheck(b: seq<int>, winner: Option<int>, a: Option<int>): (e: Option<AdvanceError>)
    requires |b| == NumSquares
    ensures e.None? <==> winner.None? && a.Some? && 0 <= a.value < Columns && b[a.value] == 0
  {
    if winner.Some? then Some(GameOver)
    else if a.None? then Some(NoAction)
    else if !(-NumSquares <= a.value < NumSquares) then Some(IndexOutOfRange)
    else if b[PythonIndex(a.value)] != 0 then Some(ColumnFull)
    else if a.value >= Columns || a.value < 0 then Some(NotLegal)
    else None
  }

  /** The columns from col on whose top cell is empty, in increasing order. */
  function OpenColumns(b: seq<int>, col: nat): (cols: seq<int>)
    requires |b| == NumSquares
    decreases Columns - col
    ensures forall x :: x in cols <==> col <= x < Columns && b[x] == 0
    ensures forall i :: 0 <= i < |cols| ==> col <= cols[i]
    ensures forall i, j :: 0 <= i < j < |cols| ==> cols[i] < cols[j]
  {
    if col >= Columns then []
    else (if b[col] == 0 then [col] else []) + OpenColumns(b, col + 1)
  }

  /** get_legal_moves: no moves once the game is over, otherwise the open columns. */
  function LegalMoves(b: seq<int>, winner: Option<int>): (moves: seq<int>)
    requires |b| == NumSquares
    ensures winner.Some? ==> moves == []
    ensures winner.None? ==> forall a :: a in moves <==> 0 <= a < Columns && b[a] == 0
  {
    if winner.Some? then [] else OpenColumns(b, 0)
  }

  /** The legal moves are exactly the actions advance accepts, listed in increasing order. */
  lemma LegalMovesAreAccepted(b: seq<int>, winner: Option<int>)
    requires |b| == NumSquares
    ensures forall a :: a in LegalMoves(b, winner) <==> AdvanceCheck(b, winner, Some(a)).None?
    ensures forall i, j :: 0 <= i < j < |LegalMoves(b, winner)| ==> LegalMoves(b, winner)[i] < LegalMoves(b, winner)[j]
    ensures winner.Some? ==> LegalMoves(b, winner) == []
  {
  }

  /** next_turn: 0 -> 1 -> 0. */
  function NextTurnOf(turn: int): (next: int)
    ensures 0 <= turn < NumPlayers ==> 0 <= next < NumPlayers && next != turn
  {
    if turn + 1 >= NumPlayers then 0 else turn + 1
  }

  lemma NextTurnAlternates(turn: int)
    requires 0 <= turn < NumPlayers
    ensures 0 <= NextTurnOf(turn) < NumPlayers
    ensures NextTurnOf(turn) != turn && NextTurnOf(NextTurnOf(turn)) == turn
  {
  }

  /** The draw test of the game base class, which is not part of this model:
      taken as "no winner and no empty cell". */
  predicate IsDraw(b: seq<int>, winner: Option<int>)
  {
    winner.None? && forall i :: 0 <= i < |b| ==> b[i] != 0
  }

  /** The winner update_game_state leaves, starting from w: the scan, then the
      draw test. A draw (-1) is declared only when the scan left no winner and
      the board is full, and always then. */
  function Judged(b: seq<int>, w: Option<int>): (j: Option<int>)
    ensures ScanPrefix(b, 25, w).Some? ==> j == ScanPrefix(b, 25, w)
    ensures j == ScanPrefix(b, 25, w) || j == Some(-1)
    ensures ScanPrefix(b, 25, w).None? ==> (j == Some(-1) <==> forall i :: 0 <= i < |b| ==> b[i] != 0)
    ensures j.None? ==> exists i :: 0 <= i < |b| && b[i] == 0
  {
    var found := ScanPrefix(b, 25, w);
    if IsDraw(b, found) then Some(-1) else found
  }

  // ---------------------------------------------------------------------------
  // The game object
  // ---------------------------------------------------------------------------

  class ConnectFour {
    var board: array<int>
    var turn: int
    /** None while the game runs; the winner's player index, or -1 for a draw. */
    var winner: Option<int>

    ghost predicate Valid()
      reads this, board
    {
      && board.Length == NumSquares
      && 0 <= turn < NumPlayers
      && (forall i :: 0 <= i < NumSquares ==> 0 <= board[i] <= NumPlayers)
      && Gravity(board[..])
      && (winner.None? ==> !HasFourInARow(board[..]))
      && (winner.Some? ==> -1 <= winner.value < NumPlayers)
    }

    predicate IsGameOver()
      reads this
    {
      winner.Some?
    }

    constructor ()
      ensures Valid() && fresh(board)
      ensures turn == 0 && winner == None
      ensures forall i :: 0 <= i < NumSquares ==> board[i] == 0
    {
      board := new int[NumSquares](_ => 0);
      turn := 0;
      winner := None;
    }

    /** A new game object with its own board holding the same cells, winner and turn. */
    method Copy() returns (c: ConnectFour)
      requires Valid()
      ensures fresh(c) && fresh(c.board) && c.Valid()
      ensures c.board[..] == board[..] && c.winner == winner && c.turn == turn
    {
      c := new ConnectFour();
      var cells := board[..];
      c.board := new int[NumSquares](i requires 0 <= i < NumSquares => cells[i]);
      c.winner := winner;
      c.turn := turn;
      assert c.board[..] == board[..];
    }

    function GetLegalMoves(): (moves: seq<int>)
      reads this, board
      requires board.Length == NumSquares
      ensures forall a :: a in moves <==> !IsGameOver() && 0 <= a < Columns && board[a] == 0
    {
      LegalMoves(board[..], winner)
    }

    method NextTurn()
      modifies this`turn
      ensures turn == NextTurnOf(old(turn))
    {
      turn := turn + 1;
      if turn >= NumPlayers {
        turn := 0;
      }
    }

    /** check_in_a_row: walks one line counting equal non-zero values; a 0 or a
        new value restarts the count, and the fourth equal value in a row names
        the winner and ends the walk. */
    method CheckInARow(line: seq<int>)
      modifies this`winner
      ensures winner == match FirstFour(line)
        case Some(p) => Some(BoardValueToPlayer(line[p]))
        case None => old(winner)
    {
      var counter, last := 0, -1;
      var k := 0;
      while k < |line|
        invariant 0 <= k <= |line|
        invariant winner == old(winner)
        invariant forall q :: 0 <= q && q + InARowToWin <= k ==> !HasFour(line, q)
        invariant 0 <= counter < InARowToWin && counter <= k
        invariant counter == 0 ==> last == -1 && (k == 0 || line[k - 1] == 0)
        invariant counter > 0 ==> last == line[k - 1] && last != 0
        invariant forall j :: k - counter <= j < k ==> line[j] == last
        invariant 0 < counter < k ==> line[k - counter - 1] != last
      {
        var c := line[k];
        if c == 0 {
          counter, last := 0, -1;
        } else if c == last {
          counter := counter + 1;
          if counter == InARowToWin {
            assert HasFour(line, k - 3);
            winner := Some(BoardValueToPlayer(c));
            return;
          }
        } else {
          last, counter := c, 1;
        }
        k := k + 1;
      }
    }

    /** update_game_state: scans the rows, the columns and both diagonal
        directions, then passes the turn, then applies the draw test. */
    method UpdateGameState()
      requires board.Length == NumSquares
      modifies this`winner, this`turn
      ensures winner == Judged(board[..], old(winner))
      ensures turn == NextTurnOf(old(turn))
    {
      var lines := ScanLines();
      var i := 0;
      while i < |lines|
        invariant 0 <= i <= |lines|
        invariant winner == ScanPrefix(board[..], i, old(winner))
        invariant turn == old(turn)
      {
        CheckInARow(LineValues(board[..], lines[i]));
        i := i + 1;
      }
      NextTurn();
      if IsDraw(board[..], winner) {
        winner := Some(-1);
      }
    }

    /** advance: checks the action, drops the mover's piece into the lowest empty
        cell of the column (start at index 35 + a, step up by 7), then updates
        the winner and the turn. */
    method Advance(a: Option<int>) returns (r: Outcome<AdvanceError>)
      requires Valid()
      modifies this, board
      ensures Valid() && board == old(board)
      ensures r == match AdvanceCheck(old(board[..]), old(winner), a)
        case Some(e) => Fail(e)
        case None => Pass
      ensures r.Fail? ==> board[..] == old(board[..]) && turn == old(turn) && winner == old(winner)
      ensures r.Pass? ==> board[..] == Dropped(old(board[..]), a.value, BoardValue(old(turn)))
      ensures r.Pass? ==> turn == NextTurnOf(old(turn)) && winner == Judged(board[..], None)
      ensures r.Pass? ==> Occupied(board[..]) == Occupied(old(board[..])) + 1
      ensures r.Pass? ==> (winner == Some(old(turn)) <==> HasFourInARow(board[..]))
      ensures r.Pass? ==> winner == None || winner == Some(old(turn)) || winner == Some(-1)
      ensures r.Pass? ==> (winner == Some(-1) <==>
        !HasFourInARow(board[..]) && forall i :: 0 <= i < NumSquares ==> board[i] != 0)
    {
      var check := AdvanceCheck(board[..], winner, a);
      if check.Some? {
        return Fail(check.value);
      }
      var col := a.value;
      ghost var before := board[..];
      var boardValue := BoardValue(turn);
      var reversedA := Columns - col;
      ghost var row := Rows - 1;
      while board[NumSquares - reversedA] != 0
        invariant 0 <= row < Rows && reversedA == NumSquares - Cell(row, col)
        invariant forall r' :: row < r' < Rows ==> board[Cell(r', col)] != 0
        decreases row
      {
        reversedA := reversedA + Columns;
        row := row - 1;
      }
      assert row == DropRow(before, col, Rows - 1);
      board[NumSquares - reversedA] := boardValue;
      assert board[..] == Dropped(before, col, boardValue);
      DroppedOnTop(before, col, boardValue);
      ScanFindsOnlyMover(before, Cell(row, col), boardValue, 25);
      ScanWinnerIffFourInARow(board[..]);
      UpdateGameState();
      r := Pass;
    }
  }
}

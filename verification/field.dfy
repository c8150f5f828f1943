/** The tic-tac-toe board (`Field` in main.rs): a 3x3 grid of cells with the
    operations that place a mark and that look for a winning line.

    The grid is stored row by row, as in the source: `b[y][x]` is the cell in
    column `x` of row `y`, and `GetItem` reads it by coordinates. */
module Field {

  /** The state of one cell. The source keeps each cell as an optional
      `CellStatus` but only ever stores a present value, so here a cell is one
      of the three values and an unset cell cannot be written down at all. */
  datatype Cell = Cross | Zero | Empty

  /** What `MakeMove` reports. */
  datatype MoveStatus = Success | LimitError | CellValError

  /** A signed 32-bit integer: the type of the coordinates a move carries. */
  type int32 = x: int | -0x8000_0000 <= x < 0x8000_0000

  /** The number of rows, and of cells in a row. */
  const Size := 3

  /** A coordinate that lies on the board. */
  type Index = i: int | 0 <= i < Size

  type Board = seq<seq<Cell>>

  /** Every board the program builds has three rows of three cells; this is
      what makes each index into it safe. */
  predicate Valid(b: Board) {
    |b| == 3 && forall y :: 0 <= y < 3 ==> |b[y]| == 3
  }

  /** The cell in column `x` of row `y`. */
  function GetItem(b: Board, x: Index, y: Index): Cell
    requires Valid(b)
  {
    b[y][x]
  }

  /** Two boards that read the same at every coordinate are the same board:
      `GetItem` sees all of a board's contents. */
  lemma CellsDetermineBoard(b: Board, b': Board)
    requires Valid(b) && Valid(b')
    requires forall x: Index, y: Index :: GetItem(b, x, y) == GetItem(b', x, y)
    ensures b == b'
  {
    forall y: Index ensures b[y] == b'[y] {
      assert forall x: Index :: b[y][x] == GetItem(b, x, y);
    }
  }

  /** Both coordinates lie on the board. */
  predicate InBounds(x: int, y: int) {
    0 <= x < Size && 0 <= y < Size
  }

  /** A fresh board: three rows of three `Empty` cells. */
  function New(): (b: Board)
    ensures Valid(b)
    ensures forall x: Index, y: Index :: GetItem(b, x, y) == Empty
  {
    [[Empty, Empty, Empty], [Empty, Empty, Empty], [Empty, Empty, Empty]]
  }

  datatype MoveResult = MoveResult(board: Board, status: MoveStatus)

  /** Place `val` at column `x`, row `y`. The bounds are checked first and the
      occupancy of the target cell second; only a move that passes both
      changes the board, and then only in the target cell. */
  function MakeMove(b: Board, x: int32, y: int32, val: Cell): (r: MoveResult)
    requires Valid(b)
    ensures Valid(r.board)
    ensures r.status == LimitError <==> !InBounds(x, y)
    ensures r.status == CellValError <==> InBounds(x, y) && GetItem(b, x, y) != Empty
    ensures r.status == Success <==> InBounds(x, y) && GetItem(b, x, y) == Empty
    ensures r.status != Success ==> r.board == b
    ensures r.status == Success ==> GetItem(r.board, x, y) == val
    ensures forall i: Index, j: Index :: (i != x || j != y) ==> GetItem(r.board, i, j) == GetItem(b, i, j)
    ensures forall i: Index, j: Index :: GetItem(b, i, j) != Empty ==> GetItem(r.board, i, j) == GetItem(b, i, j)
  {
    if x > 2 || x < 0 || y > 2 || y < 0 then
      MoveResult(b, LimitError)
    else if GetItem(b, x, y) != Empty then
      MoveResult(b, CellValError)
    else
      MoveResult(b[y := b[y][x := val]], Success)
  }

  /** On a fresh board every in-range move succeeds and leaves its mark. */
  lemma FreshBoardAcceptsAnyCell(x: Index, y: Index, val: Cell)
    ensures MakeMove(New(), x, y, val).status == Success
    ensures GetItem(MakeMove(New(), x, y, val).board, x, y) == val
  {
  }

  /** Playing the same in-range cell twice: the first move succeeds, the second
      is refused as occupied and the first mark stays. */
  lemma SecondMoveOnCellRejected(b: Board, x: Index, y: Index, first: Cell, second: Cell)
    requires Valid(b) && GetItem(b, x, y) == Empty && first != Empty
    ensures MakeMove(b, x, y, first).status == Success
    ensures MakeMove(MakeMove(b, x, y, first).board, x, y, second).status == CellValError
    ensures GetItem(MakeMove(MakeMove(b, x, y, first).board, x, y, second).board, x, y) == first
  {
  }

  // ---------------------------------------------------------------------------
  // Counting marks

  /** Number of cells of `cells` that hold `m`. */
  function CountIn(cells: seq<Cell>, m: Cell): (n: nat)
    ensures n <= |cells|
  {
    if |cells| == 0 then 0 else (if cells[0] == m then 1 else 0) + CountIn(cells[1..], m)
  }

  /** Number of cells of the board that hold `m`. */
  function Count(b: Board, m: Cell): nat
    requires Valid(b)
  {
    CountIn(b[0], m) + CountIn(b[1], m) + CountIn(b[2], m)
  }

  lemma {:induction false} CountInUpdate(cells: seq<Cell>, i: nat, v: Cell, m: Cell)
    requires i < |cells|
    ensures CountIn(cells[i := v], m)
            == CountIn(cells, m) - (if cells[i] == m then 1 else 0) + (if v == m then 1 else 0)
  {
    if i == 0 {
      assert cells[i := v][1..] == cells[1..];
    } else {
      assert cells[i := v][1..] == cells[1..][i - 1 := v];
      CountInUpdate(cells[1..], i - 1, v, m);
    }
  }

  lemma {:induction false} CountInPartition(cells: seq<Cell>)
    ensures CountIn(cells, Cross) + CountIn(cells, Zero) + CountIn(cells, Empty) == |cells|
  {
    if |cells| > 0 {
      CountInPartition(cells[1..]);
    }
  }

  /** Every one of the nine cells holds exactly one of the three values. */
  lemma CountPartition(b: Board)
    requires Valid(b)
    ensures Count(b, Cross) + Count(b, Zero) + Count(b, Empty) == 9
  {
    CountInPartition(b[0]);
    CountInPartition(b[1]);
    CountInPartition(b[2]);
  }

  /** An accepted move turns exactly one `Empty` cell into `val`. */
  lemma MoveCount(b: Board, x: int32, y: int32, val: Cell)
    requires Valid(b) && MakeMove(b, x, y, val).status == Success
    ensures forall m :: Count(MakeMove(b, x, y, val).board, m)
                        == Count(b, m) - (if m == Empty then 1 else 0) + (if m == val then 1 else 0)
  {
    var b' := MakeMove(b, x, y, val).board;
    assert b' == b[y := b[y][x := val]];
    forall m
      ensures Count(b', m) == Count(b, m) - (if m == Empty then 1 else 0) + (if m == val then 1 else 0)
    {
      CountInUpdate(b[y], x, val, m);
    }
  }

  // ---------------------------------------------------------------------------
  // Win detection, as the source scans the board

  /** The inner loop of `win_rows` and `win_cols`: every cell equals `v`. */
  function AllEqual(cells: seq<Cell>, v: Cell): (r: bool)
    ensures r <==> forall k :: 0 <= k < |cells| ==> cells[k] == v
  {
    |cells| == 0 || (cells[0] == v && AllEqual(cells[1..], v))
  }

  /** Column `x` read top to bottom, as `win_cols` walks the rows. */
  function ColumnCells(b: Board, x: Index): seq<Cell>
    requires Valid(b)
  {
    [b[0][x], b[1][x], b[2][x]]
  }

  /** The outer loop of `win_rows` from row `y` on: the mark of the first row
      whose cells all equal its first cell and are not `Empty`. */
  function RowsFrom(b: Board, y: nat): Cell
    requires Valid(b) && y <= 3
    decreases 3 - y
  {
    if y == 3 then Empty
    else
      var cval := b[y][0];
      if AllEqual(b[y], cval) && cval != Empty then cval else RowsFrom(b, y + 1)
  }

  /** `win_rows`: `Empty` when no row is won, else the mark of the first won
      row. */
  function WinRows(b: Board): (r: Cell)
    requires Valid(b)
    ensures r == Empty <==> forall y: Index :: !Won(b, Row(y))
    ensures r != Empty ==>
              exists y: Index :: LineWon(b, Row(y), r) && forall i: Index :: i < y ==> !Won(b, Row(i))
  {
    RowsFromFirstWon(b, 0);
    RowsFrom(b, 0)
  }

  /** The outer loop of `win_cols` from column `x` on. */
  function ColsFrom(b: Board, x: nat): Cell
    requires Valid(b) && x <= 3
    decreases 3 - x
  {
    if x == 3 then Empty
    else
      var curVal := b[0][x];
      if AllEqual(ColumnCells(b, x), curVal) && curVal != Empty then curVal else ColsFrom(b, x + 1)
  }

  /** `win_cols`: `Empty` when no column is won, else the mark of the first
      won column. */
  function WinCols(b: Board): (r: Cell)
    requires Valid(b)
    ensures r == Empty <==> forall x: Index :: !Won(b, Column(x))
    ensures r != Empty ==>
              exists x: Index :: LineWon(b, Column(x), r) && forall i: Index :: i < x ==> !Won(b, Column(i))
  {
    ColsFromFirstWon(b, 0);
    ColsFrom(b, 0)
  }

  /** One pass of the `win_rows` inner loop decides whether row `y` is won. */
  lemma RowScan(b: Board, y: Index)
    requires Valid(b)
    ensures (AllEqual(b[y], b[y][0]) && b[y][0] != Empty) <==> Won(b, Row(y))
  {
    assert LineCell(b, Row(y), 0) == b[y][0] && LineCell(b, Row(y), 1) == b[y][1]
        && LineCell(b, Row(y), 2) == b[y][2];
  }

  /** One pass of the `win_cols` inner loop decides whether column `x` is won. */
  lemma ColumnScan(b: Board, x: Index)
    requires Valid(b)
    ensures (AllEqual(ColumnCells(b, x), b[0][x]) && b[0][x] != Empty) <==> Won(b, Column(x))
  {
    assert LineCell(b, Column(x), 0) == b[0][x] && LineCell(b, Column(x), 1) == b[1][x]
        && LineCell(b, Column(x), 2) == b[2][x];
    assert ColumnCells(b, x)[1] == b[1][x] && ColumnCells(b, x)[2] == b[2][x];
  }

  /** The row scan from row `y` answers `Empty` exactly when none of the rows
      from `y` on is won, and otherwise the mark of the first won one. */
  lemma {:induction false} RowsFromFirstWon(b: Board, y: nat)
    requires Valid(b) && y <= 3
    ensures RowsFrom(b, y) == Empty <==> forall j: Index :: y <= j ==> !Won(b, Row(j))
    ensures RowsFrom(b, y) != Empty ==>
              exists j: Index :: y <= j && LineWon(b, Row(j), RowsFrom(b, y))
                                 && forall i: Index :: y <= i < j ==> !Won(b, Row(i))
    decreases 3 - y
  {
    if y < 3 {
      RowScan(b, y);
      if !Won(b, Row(y)) {
        RowsFromFirstWon(b, y + 1);
      }
    }
  }

  /** The column scan from column `x`, likewise. */
  lemma {:induction false} ColsFromFirstWon(b: Board, x: nat)
    requires Valid(b) && x <= 3
    ensures ColsFrom(b, x) == Empty <==> forall j: Index :: x <= j ==> !Won(b, Column(j))
    ensures ColsFrom(b, x) != Empty ==>
              exists j: Index :: x <= j && LineWon(b, Column(j), ColsFrom(b, x))
                                 && forall i: Index :: x <= i < j ==> !Won(b, Column(i))
    decreases 3 - x
  {
    if x < 3 {
      ColumnScan(b, x);
      if !Won(b, Column(x)) {
        ColsFromFirstWon(b, x + 1);
      }
    }
  }

  /** `win_diagonal`: the main diagonal first, then the anti-diagonal. */
  function WinDiagonal(b: Board): (r: Cell)
    requires Valid(b)
    ensures r == Empty <==> !Won(b, MainDiagonal) && !Won(b, AntiDiagonal)
    ensures r != Empty ==>
              LineWon(b, MainDiagonal, r) || (!Won(b, MainDiagonal) && LineWon(b, AntiDiagonal, r))
  {
    assert LineCell(b, MainDiagonal, 0) == b[0][0] && LineCell(b, MainDiagonal, 1) == b[1][1]
        && LineCell(b, MainDiagonal, 2) == b[2][2];
    assert LineCell(b, AntiDiagonal, 0) == b[0][2] && LineCell(b, AntiDiagonal, 1) == b[1][1]
        && LineCell(b, AntiDiagonal, 2) == b[2][0];
    if b[0][0] == b[1][1] && b[1][1] == b[2][2] && b[0][0] != Empty then
      b[0][0]
    else if b[0][2] == b[1][1] && b[1][1] == b[2][0] && b[0][2] != Empty then
      b[0][2]
    else
      Empty
  }

  /** The `if` chain of `check_win`: the first of the three answers that is
      not `Empty`. */
  function FirstNonEmpty(r1: Cell, r2: Cell, r3: Cell): Cell {
    if r1 != Empty then r1
    else if r2 != Empty then r2
    else if r3 != Empty then r3
    else Empty
  }

  /** `check_win`: columns take precedence over rows, rows over diagonals, so
      the answer is the mark of the first won line in `Rank` order. */
  function CheckWin(b: Board): (r: Cell)
    requires Valid(b)
    ensures FirstWonMark(b, r)
  {
    var r1 := WinCols(b);
    var r2 := WinRows(b);
    var r3 := WinDiagonal(b);
    ScansFindFirstWonMark(b);
    FirstNonEmpty(r1, r2, r3)
  }

  // ---------------------------------------------------------------------------
  // Win detection, stated independently of the scans

  /** The eight lines of the board. */
  datatype Line = Column(x: Index) | Row(y: Index) | MainDiagonal | AntiDiagonal

  /** The order in which `CheckWin` consults the lines: columns 0 to 2, rows
      0 to 2, the main diagonal, then the anti-diagonal. */
  function Rank(l: Line): nat {
    match l
    case Column(x) => x
    case Row(y) => 3 + y
    case MainDiagonal => 6
    case AntiDiagonal => 7
  }

  /** The `k`-th cell along a line. */
  function LineCell(b: Board, l: Line, k: Index): Cell
    requires Valid(b)
  {
    match l
    case Column(x) => GetItem(b, x, k)
    case Row(y) => GetItem(b, k, y)
    case MainDiagonal => GetItem(b, k, k)
    case AntiDiagonal => GetItem(b, 2 - k, k)
  }

  /** All three cells of `l` hold the mark `m`. */
  predicate LineWon(b: Board, l: Line, m: Cell)
    requires Valid(b)
  {
    m != Empty && LineCell(b, l, 0) == m && LineCell(b, l, 1) == m && LineCell(b, l, 2) == m
  }

  /** Some mark fills all of `l`. */
  predicate Won(b: Board, l: Line)
    requires Valid(b)
  {
    LineWon(b, l, LineCell(b, l, 0))
  }

  /** `m` fills some line. */
  ghost predicate WinsFor(b: Board, m: Cell)
    requires Valid(b)
  {
    exists l: Line :: LineWon(b, l, m)
  }

  /** `m` is what a search of the lines in `Rank` order finds: `Empty` when no
      line is won, and otherwise the mark filling a line before which no line
      is won. */
  ghost predicate FirstWonMark(b: Board, m: Cell)
    requires Valid(b)
  {
    && (m == Empty <==> forall l: Line :: !Won(b, l))
    && (m != Empty ==>
          exists l: Line :: LineWon(b, l, m) && forall l': Line :: Rank(l') < Rank(l) ==> !Won(b, l'))
  }

  /** Only one mark fits `FirstWonMark`: two lines that are both the first won
      line are the same line. */
  lemma FirstWonMarkUnique(b: Board, m: Cell, m': Cell)
    requires Valid(b) && FirstWonMark(b, m) && FirstWonMark(b, m')
    ensures m == m'
  {
    if m != Empty {
      var l: Line :| LineWon(b, l, m) && forall k: Line :: Rank(k) < Rank(l) ==> !Won(b, k);
      var l': Line :| LineWon(b, l', m') && forall k: Line :: Rank(k) < Rank(l') ==> !Won(b, k);
      assert Won(b, l) && Won(b, l');
      assert Rank(l) == Rank(l');
      RankInjective(l, l');
    }
  }

  /** Different lines come at different places in the order. */
  lemma RankInjective(l: Line, l': Line)
    requires Rank(l) == Rank(l')
    ensures l == l'
  {
  }

  /** The three scans and the `if` chain over their answers find the first won
      line. */
  lemma ScansFindFirstWonMark(b: Board)
    requires Valid(b)
    ensures FirstWonMark(b, FirstNonEmpty(WinCols(b), WinRows(b), WinDiagonal(b)))
  {
    var r1, r2, r3 := WinCols(b), WinRows(b), WinDiagonal(b);
    if r1 != Empty {
      var j: Index :| LineWon(b, Column(j), r1) && forall i: Index :: i < j ==> !Won(b, Column(i));
      forall l': Line | Rank(l') < Rank(Column(j)) ensures !Won(b, l') {
        assert l'.Column?;
      }
    } else if r2 != Empty {
      var j: Index :| LineWon(b, Row(j), r2) && forall i: Index :: i < j ==> !Won(b, Row(i));
      forall l': Line | Rank(l') < Rank(Row(j)) ensures !Won(b, l') {
        assert l'.Column? || l'.Row?;
      }
    } else if r3 != Empty {
      if LineWon(b, MainDiagonal, r3) {
        forall l': Line | Rank(l') < Rank(MainDiagonal) ensures !Won(b, l') {
          assert l'.Column? || l'.Row?;
        }
      } else {
        forall l': Line | Rank(l') < Rank(AntiDiagonal) ensures !Won(b, l') {
          assert l'.Column? || l'.Row? || l'.MainDiagonal?;
        }
      }
    } else {
      forall l: Line ensures !Won(b, l) {
        match l
        case Column(x) =>
        case Row(y) =>
        case MainDiagonal =>
        case AntiDiagonal =>
      }
    }
  }

  /** `CheckWin` answers `m` exactly when `m` is the first won line's mark (or
      `Empty` with no won line). */
  lemma CheckWinIsFirstWonMark(b: Board, m: Cell)
    requires Valid(b)
    ensures CheckWin(b) == m <==> FirstWonMark(b, m)
  {
    if FirstWonMark(b, m) {
      FirstWonMarkUnique(b, CheckWin(b), m);
    }
  }

  /** `CheckWin` as a cascade over the eight lines in `Rank` order: the mark
      of the first won line, or `Empty`. */
  lemma CheckWinCascade(b: Board)
    requires Valid(b)
    ensures CheckWin(b)
            == if Won(b, Column(0)) then LineCell(b, Column(0), 0)
               else if Won(b, Column(1)) then LineCell(b, Column(1), 0)
               else if Won(b, Column(2)) then LineCell(b, Column(2), 0)
               else if Won(b, Row(0)) then LineCell(b, Row(0), 0)
               else if Won(b, Row(1)) then LineCell(b, Row(1), 0)
               else if Won(b, Row(2)) then LineCell(b, Row(2), 0)
               else if Won(b, MainDiagonal) then LineCell(b, MainDiagonal, 0)
               else if Won(b, AntiDiagonal) then LineCell(b, AntiDiagonal, 0)
               else Empty
  {
    ColumnScan(b, 0);
    ColumnScan(b, 1);
    ColumnScan(b, 2);
    RowScan(b, 0);
    RowScan(b, 1);
    RowScan(b, 2);
    assert ColsFrom(b, 3) == Empty && RowsFrom(b, 3) == Empty;
    assert ColsFrom(b, 1) == if Won(b, Column(1)) then b[0][1] else ColsFrom(b, 2);
    assert RowsFrom(b, 1) == if Won(b, Row(1)) then b[1][0] else RowsFrom(b, 2);
  }

  /** A board none of whose eight lines is won has no winner. */
  lemma NoLineWon(b: Board)
    requires Valid(b)
    requires !Won(b, Column(0)) && !Won(b, Column(1)) && !Won(b, Column(2))
    requires !Won(b, Row(0)) && !Won(b, Row(1)) && !Won(b, Row(2))
    requires !Won(b, MainDiagonal) && !Won(b, AntiDiagonal)
    ensures CheckWin(b) == Empty
  {
    CheckWinCascade(b);
  }

  /** `CheckWin` names a mark that fills a line, and answers `Empty` only when
      neither mark fills one. */
  lemma CheckWinSound(b: Board)
    requires Valid(b)
    ensures CheckWin(b) != Empty ==> WinsFor(b, CheckWin(b))
    ensures CheckWin(b) == Empty <==> !WinsFor(b, Cross) && !WinsFor(b, Zero)
  {
    if CheckWin(b) == Empty {
      forall l: Line, m: Cell ensures !LineWon(b, l, m) {
        if LineWon(b, l, m) {
          assert LineCell(b, l, 0) == m;
          assert Won(b, l);
        }
      }
    } else {
      var l: Line :| LineWon(b, l, CheckWin(b));
      assert CheckWin(b) == Cross || CheckWin(b) == Zero;
    }
  }

  /** On a board where only one mark fills lines, the precedence order does
      not matter: `CheckWin` returns that mark. */
  lemma CheckWinSingleMark(b: Board, m: Cell)
    requires Valid(b) && WinsFor(b, m)
    requires forall l: Line, m': Cell :: LineWon(b, l, m') ==> m' == m
    ensures CheckWin(b) == m
  {
    CheckWinSound(b);
  }

  /** A fresh board is empty and nobody has won on it. */
  lemma NewBoardNoWinner()
    ensures Count(New(), Empty) == 9 && Count(New(), Cross) == 0 && Count(New(), Zero) == 0
    ensures CheckWin(New()) == Empty
  {
    var b := New();
    forall l: Line ensures !Won(b, l) {
      assert LineCell(b, l, 0) == Empty;
    }
  }

  /** After a move on a board where no line was won yet, any line that is won
      is won by the mark just placed. */
  lemma OnlyMoverCanWin(b: Board, x: int32, y: int32, val: Cell)
    requires Valid(b) && CheckWin(b) == Empty
    requires MakeMove(b, x, y, val).status == Success
    ensures forall l: Line, m: Cell :: LineWon(MakeMove(b, x, y, val).board, l, m) ==> m == val
  {
    var b' := MakeMove(b, x, y, val).board;
    forall l: Line, m: Cell | LineWon(b', l, m) ensures m == val {
      // A cell of `l` that holds `m != val` is not the one just written, so
      // it held `m` before, and `l` would already have been won.
      assert !Won(b, l);
      match l
      case Column(c) =>
      case Row(r) =>
      case MainDiagonal =>
      case AntiDiagonal =>
    }
  }
}

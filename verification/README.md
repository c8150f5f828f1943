# Tic-tac-toe board and turn loop, in Dafny

This project models the core of a two-player console tic-tac-toe program
written in Rust. The program keeps a 3x3 board (`Field`) of cells that are
`Cross`, `Zero` or `Empty`. It reads one line per turn. A line of the form
`d d` is a move: the first digit is the column `x` and the second the row
`y`. The move is placed for the current player, and the program then checks
whether a mark fills a row, a column or a diagonal.

- `field.dfy`, module `Field`: the cell and move-status types and the board,
  stored row by row (`b[y][x]`). It holds `New`, `MakeMove` and `GetItem`,
  and the win scans `RowsFrom`/`WinRows`, `ColsFrom`/`WinCols`, `WinDiagonal`
  and `CheckWin`, written the way the source loops over the board. An
  independent definition of the eight lines (`Line`, `LineWon`, `Won`,
  `WinsFor`) orders them by the precedence `CheckWin` uses (`Rank`), and the
  lemmas connect the scans to that definition.
- `input.dfy`, module `MoveInput`: the recogniser for an input line (exactly
  digit, space, digit, newline) and the parse into coordinates. `FormatMove`
  is its inverse, and the round trip is proved in both directions.
- `game.dfy`, module `Game`: one pass of the loop in `main` as a pure
  function `Step` from a `State` (board, player to move, move counter, running
  flag) and an input line to the next state and a `Report`. The `Report`
  records the messages the pass prints. `Run` repeats `Step` over a sequence
  of lines while the game runs. The invariant `Inv` holds initially and is
  kept by every pass of a running game.

The source stores each cell as `Option<CellStatus>`, but it only ever stores
present values and reads them as such. The model uses the three cell
values directly, so an unset cell cannot be written down. The shape predicate
`Field.Valid` (three rows of three cells) is what keeps every index in the
model in range.

The source ends the game with two independent tests after each pass: one for
a winner and one for `counter == 9`. A win with the ninth move therefore
prints both the victory message and the draw message;
`Game.WinOnLastMoveReportsBoth` shows a pass that reports both.

## Model

| member | source | states |
|---|---|---|
| `Field.CellsDetermineBoard` | main.rs:119-121 | two boards on which `GetItem` reads the same at every coordinate are equal, so the accessor sees the whole board |
| `Field.New` | main.rs:36-47 | a fresh board is three rows of three cells, every one `Empty` |
| `Field.NewBoardNoWinner` | main.rs:36-47 | a fresh board holds nine `Empty` cells and no marks, and `CheckWin` on it is `Empty` |
| `Field.MakeMove` | main.rs:109-118 | `LimitError` exactly when x or y lies outside 0..2; `CellValError` exactly when the cell is in range and occupied; `Success` exactly when it is in range and `Empty`; on an error the board is unchanged; on success the target cell holds the mark and every other cell is unchanged; an occupied cell is never overwritten |
| `Field.FreshBoardAcceptsAnyCell` | main.rs:109-118 | on a fresh board a move to any in-range cell succeeds and the cell then reads the mark |
| `Field.SecondMoveOnCellRejected` | main.rs:112-116 | the first move onto an empty cell succeeds; a second move onto the same cell is refused as occupied and the first mark stays |
| `Field.MoveCount` | main.rs:114-116 | an accepted move removes exactly one `Empty` cell and adds exactly one cell holding the mark, and leaves the count of every other value unchanged |
| `Field.CountPartition` | main.rs:17-19 | each of the nine cells holds exactly one of the three values |
| `Field.AllEqual` | main.rs:52-57 | the inner scan is true exactly when every cell equals the first cell's value |
| `Field.RowScan` | main.rs:50-60 | one pass of the row loop accepts row y exactly when that row is a won line |
| `Field.ColumnScan` | main.rs:66-76 | one pass of the column loop accepts column x exactly when that column is a won line |
| `Field.RowsFromFirstWon` | main.rs:50-62 | the row scan answers `Empty` exactly when no row is won; otherwise it answers the mark of the lowest-numbered won row |
| `Field.ColsFromFirstWon` | main.rs:66-78 | the column scan answers `Empty` exactly when no column is won; otherwise it answers the mark of the lowest-numbered won column |
| `Field.WinRows` | main.rs:48-63 | `win_rows` is `Empty` exactly when no row is won, and otherwise the mark of a won row with no won row above it |
| `Field.WinCols` | main.rs:64-79 | `win_cols` is `Empty` exactly when no column is won, and otherwise the mark of a won column with no won column left of it |
| `Field.WinDiagonal` | main.rs:80-95 | `Empty` exactly when neither diagonal is won; otherwise the main diagonal's mark if it is won, else the anti-diagonal's |
| `Field.CheckWin` | main.rs:96-108 | the answer is `Empty` exactly when no line is won; otherwise it is the mark of a won line with no won line before it in the order columns 0-2, rows 0-2, main diagonal, anti-diagonal |
| `Field.ScansFindFirstWonMark` | main.rs:96-108 | the if chain over the column, row and diagonal answers yields the first won line's mark in that order |
| `Field.FirstWonMarkUnique` | main.rs:96-108 | the first won line's mark is unique, so the contract of `CheckWin` determines its answer completely |
| `Field.CheckWinIsFirstWonMark` | main.rs:96-108 | `CheckWin` answers `m` if and only if `m` is the first won line's mark (`Empty` when no line is won) |
| `Field.CheckWinCascade` | main.rs:96-108 | `CheckWin` equals the first won line's mark, taking the eight lines one by one in precedence order, or `Empty` if none is won |
| `Field.NoLineWon` | main.rs:96-108 | a board on which none of the eight lines is won has no winner |
| `Field.CheckWinSound` | main.rs:96-108 | a non-`Empty` answer is a mark that fills some line; the answer is `Empty` exactly when neither `Cross` nor `Zero` fills a line |
| `Field.CheckWinSingleMark` | main.rs:96-108 | when only one mark fills any line, `CheckWin` returns that mark whatever the precedence order |
| `Field.OnlyMoverCanWin` | main.rs:114-116 | after an accepted move on a board with no won line, every won line holds the mark just placed |
| `MoveInput.ParseMove` | main.rs:159-174 | a line is accepted exactly when it is digit, space, digit, newline; the coordinates are the values of characters 0 and 2, each in 0..9 |
| `MoveInput.ParseFormat` | main.rs:159-174 | formatting two digits as a line and recognising it gives back the same two coordinates |
| `MoveInput.FormatParse` | main.rs:159-174 | every accepted line is exactly the line its two coordinates format to |
| `Game.Start` | main.rs:148-152 | the state before the first pass (fresh board, `Cross` to move, counter 0, running) satisfies the loop invariant |
| `Game.Toggle` | main.rs:179-183 | the next player is a mark, `Cross` or `Zero`, different from the current one |
| `Game.Step` | main.rs:160-213 | a format error exactly when the line is not a move; a move reports the status `MakeMove` gives; on `Success` the player toggles and the counter rises by one; on any error board, player and counter are unchanged; the reported victory is what `CheckWin` finds on the new board; the draw flag is set exactly when the counter is 9; the game keeps running only when it ran, no mark has won and there is no draw |
| `Game.StepReportsWinner` | main.rs:199-209 | a victory is reported for a mark exactly when that mark fills a line; none is reported when neither mark fills one |
| `Game.Run` | main.rs:155-214 | the loop leaves the board 3x3 and never lowers the counter; a stopped game stays as it is; a game that stops has a winner or nine moves |
| `Game.CounterCountsMarks` | main.rs:184 | under the invariant the counter equals the number of occupied cells, and 9 minus it equals the number of `Empty` cells |
| `Game.WinnerIsLastMover` | main.rs:175-209 | a pass that reports a victory accepted a move, the winner is the player who made it, and the other mark fills no line |
| `Game.MoveKeepsInv` | main.rs:175-184 | a move the board accepts from the player to move leads to a state satisfying the invariant: one more mark for the mover, the turn handed over, the counter one higher, and any winner is the mover |
| `Game.AcceptedMoveInv` | main.rs:175-213 | a pass that accepts a move keeps the invariant |
| `Game.RefusedLineInv` | main.rs:185-195 | a pass that accepts no move (occupied cell, out of range, bad format) keeps the invariant |
| `Game.StepInv` | main.rs:175-213 | every pass of a running game keeps the invariant: counts match the counter, `Cross` is to move exactly when the counter is even, a running game has no winner and fewer than nine moves, a stopped one has a winner or nine moves, and the two marks never both fill a line |
| `Game.RunInv` | main.rs:155-214 | any number of passes from a state satisfying the invariant ends in a state satisfying it |
| `Game.ReachableInv` | main.rs:147-215 | every state the loop reaches from the start satisfies the invariant |
| `Game.FormatErrorsChangeNothing` | main.rs:193-195 | the loop over any number of lines none of which is a move leaves board, player and counter as they were |
| `Game.RunSingle` | main.rs:155-214 | the loop over one line of a running game is one pass |
| `Game.RunAppend` | main.rs:155-214 | the loop over two batches of lines is the loop over the first and then over the second; a stopped game ignores further input |
| `Game.PlayFreeCell` | main.rs:160-213 | a pass playing a free cell places the mark there, hands the turn over, adds one to the counter, reports `Success`, and stops the game exactly on a winner or the ninth move |
| `Game.OpeningReachesLeftColumnPosition` | main.rs:147-215 | the four opening moves from the start lead to the left-column position |
| `Game.LeftColumnGame` | main.rs:147-215 | a whole game from the start in which `Cross` fills the left column with the fifth move ends stopped, with `Cross` the winner and counter 5 |
| `Game.LeftColumnWin` | main.rs:199-203 | from a position where `Cross` holds two cells of the left column, completing it ends the game with a `Cross` victory, no draw, and counter 5 |
| `Game.DrawGame` | main.rs:210-213 | from `DrawPosition`, filling the last free cell without completing a line ends the game with a draw and no victory |
| `Game.WinOnLastMoveReportsBoth` | main.rs:199-213 | from `LastMoveWinPosition`, a ninth move that completes a line reports the victory and the draw in the same pass |
| `Game.LeftColumnPositionInv` | main.rs:151-152 | the left-column example position is reached from the start and so satisfies the loop invariant |
| `Game.DrawPositionInv` | main.rs:151-152 | the draw example position is reached from the start and so satisfies the loop invariant |
| `Game.LastMoveWinPositionInv` | main.rs:151-152 | the last-move-win example position is reached from the start and so satisfies the loop invariant |
| `Game.TopRowOpeningReachesAfterTopRow3` | main.rs:147-215 | the three opening moves Cross top-left, Zero top-middle, Cross top-right lead from the start to the named three-move position |
| `Game.DrawTailReachesDrawPosition` | main.rs:155-214 | five further moves with no line completed lead from that position to the draw example position |
| `Game.DrawLinesReachDrawPosition` | main.rs:147-215 | the eight moves of the draw game lead from the start to the draw example position |
| `Game.LastMoveWinTailReachesLastMoveWinPosition` | main.rs:155-214 | five further moves with no line completed lead from that position to the last-move-win example position |
| `Game.LastMoveWinLinesReachLastMoveWinPosition` | main.rs:147-215 | the eight moves of the last-move-win game lead from the start to the last-move-win example position |
| `Game.DrawGameFromStart` | main.rs:147-215 | a whole game from the start that fills the board without completing a line ends stopped after nine moves with no winner |
| `Game.LastMoveWinGameFromStart` | main.rs:147-215 | a whole game from the start whose ninth move completes the main diagonal ends stopped after nine moves with `Cross` the winner |

## Left out

- Console output is left out: the prompt, the printed board (`print_field`) and the status messages. A pass returns a `Report` saying which messages it would print. `print_field` draws `Cross` as `X`, `Zero` as `0` and `Empty` as a space.
- Reading input is left out. `Run` takes the lines as a finite sequence. At end of input the source's buffer stays empty, so every later pass is a format error and the source loops forever; `Run` over a finite sequence stops when its lines run out. A line that is not valid UTF-8 leaves the buffer empty and makes only that pass a format error. An I/O error that leaves part of a line in the buffer is not modelled.
- The regular expression `^\d \d\n$` is replaced by an ASCII recogniser. In the Rust regex engine `\d` also matches non-ASCII decimal digits, which the source would then fail to parse and would panic on. That case is not modelled.
- The hand-written `Clone` of `Field`, and `check_win` consuming clones of the board, are plain value copies in this model.
- `get_item` (`Field.GetItem`) panics on an out-of-range coordinate. The model makes an in-range coordinate part of its argument type.
- The move counter is a 32-bit integer in the source. The model uses an unbounded natural; the invariant keeps it at most 9, so it cannot wrap.

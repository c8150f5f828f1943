/** The game loop of `main`: a state threaded through one pass per input
    line. A pass recognises the line, plays it for the current player, and
    then stops the game if a mark has won or if nine moves have been
    accepted. The two stop conditions are checked one after the other, not as
    alternatives, so a win on the ninth move reports both a victory and a
    draw. Console output is represented by the `Report` a pass returns. */
module Game {
  import opened Field
  import opened MoveInput

  /** The loop variables of `main`: the board, whose turn it is, how many
      moves have been accepted, and whether the loop goes on. */
  datatype State = State(board: Board, player: Cell, counter: nat, running: bool)

  /** What became of the line a pass read. */
  datatype Outcome = FormatError | Played(status: MoveStatus)

  /** The messages a pass prints besides the board: the outcome of its line, a
      victory message when `victory` is a mark, and a draw message when
      `draw` holds. */
  datatype Report = Report(outcome: Outcome, victory: Cell, draw: bool)

  datatype Turn = Turn(state: State, report: Report)

  /** An empty board, Cross to move, no move made, loop running: a state the
      loop invariant holds in. */
  function Start(): (s: State)
    ensures Inv(s)
  {
    NewBoardNoWinner();
    CheckWinSound(New());
    State(New(), Cross, 0, true)
  }

  /** Hand the turn to the other player. */
  function Toggle(p: Cell): (q: Cell)
    ensures q != Empty && q != p
  {
    if p == Cross then Zero else Cross
  }

  /** The end of every pass, whatever became of its line: `check_win` stops
      the loop on a winner, and a separate test stops it after nine accepted
      moves. */
  function EndPass(s: State, board: Board, player: Cell, counter: nat, outcome: Outcome): Turn
    requires Valid(board)
  {
    var victory := CheckWin(board);
    var draw := counter == 9;
    var running := if victory != Empty || draw then false else s.running;
    Turn(State(board, player, counter, running), Report(outcome, victory, draw))
  }

  /** One pass of the loop on the line `line`. */
  function Step(s: State, line: string): (t: Turn)
    requires Valid(s.board)
    ensures Valid(t.state.board)
    ensures t.report.outcome == FormatError <==> !Matches(line)
    ensures ParseMove(line).Move? ==>
              var mv := MakeMove(s.board, ParseMove(line).x, ParseMove(line).y, s.player);
              t.report.outcome == Played(mv.status) && t.state.board == mv.board
    ensures t.report.outcome == Played(Success) ==>
              t.state.player == Toggle(s.player) && t.state.counter == s.counter + 1
    ensures t.report.outcome != Played(Success) ==>
              t.state.board == s.board && t.state.player == s.player && t.state.counter == s.counter
    ensures t.report.victory == CheckWin(t.state.board)
    ensures t.report.draw <==> t.state.counter == 9
    ensures t.state.running <==> s.running && t.report.victory == Empty && !t.report.draw
  {
    match ParseMove(line)
    case BadFormat => EndPass(s, s.board, s.player, s.counter, FormatError)
    case Move(x, y) =>
      var mv := MakeMove(s.board, x, y, s.player);
      if mv.status == Success then EndPass(s, mv.board, Toggle(s.player), s.counter + 1, Played(Success))
      else EndPass(s, mv.board, s.player, s.counter, Played(mv.status))
  }

  /** The loop: passes over the lines in order while the game runs. */
  function Run(s: State, lines: seq<string>): (r: State)
    requires Valid(s.board)
    ensures Valid(r.board)
    ensures s.counter <= r.counter
    ensures !s.running || |lines| == 0 ==> r == s
    ensures s.running && !r.running ==> CheckWin(r.board) != Empty || r.counter == 9
    decreases |lines|
  {
    if !s.running || |lines| == 0 then s
    else Run(Step(s, lines[0]).state, lines[1..])
  }

  // ---------------------------------------------------------------------------
  // The loop invariant

  /** Cross moves on even counts and Zero on odd ones; the counter counts the
      marks on the board; a running game has neither a winner nor a full
      board; a stopped one has one or the other; and never do both marks
      fill a line. */
  ghost predicate Inv(s: State) {
    && Valid(s.board)
    && s.counter <= 9
    && Count(s.board, Cross) == (s.counter + 1) / 2
    && Count(s.board, Zero) == s.counter / 2
    && (s.player == Cross <==> s.counter % 2 == 0)
    && s.player != Empty
    && (s.running ==> CheckWin(s.board) == Empty && s.counter < 9)
    && (!s.running ==> CheckWin(s.board) != Empty || s.counter == 9)
    && !(WinsFor(s.board, Cross) && WinsFor(s.board, Zero))
  }

  /** Under the invariant the counter is the number of occupied cells. */
  lemma CounterCountsMarks(s: State)
    requires Inv(s)
    ensures Count(s.board, Cross) + Count(s.board, Zero) == s.counter
    ensures Count(s.board, Empty) == 9 - s.counter
  {
    CountPartition(s.board);
  }

  /** A pass reports a victory for a mark exactly when that mark fills a line
      of the board it leaves, and reports none when neither mark does. */
  lemma StepReportsWinner(s: State, line: string)
    requires Valid(s.board)
    ensures var t := Step(s, line);
            && (t.report.victory != Empty ==> WinsFor(t.state.board, t.report.victory))
            && (t.report.victory == Empty <==> !WinsFor(t.state.board, Cross) && !WinsFor(t.state.board, Zero))
  {
    CheckWinSound(Step(s, line).state.board);
  }

  /** A winner, if a pass produces one, is the player who just moved, and the
      other mark fills no line. */
  lemma WinnerIsLastMover(s: State, line: string)
    requires Inv(s) && s.running
    ensures var t := Step(s, line);
            t.report.victory != Empty ==>
              && t.report.victory == s.player
              && t.report.outcome == Played(Success)
              && !WinsFor(t.state.board, Toggle(s.player))
  {
    var t := Step(s, line);
    var p := ParseMove(line);
    CheckWinSound(t.state.board);
    if t.report.outcome == Played(Success) {
      OnlyMoverCanWin(s.board, p.x, p.y, s.player);
      if t.report.victory != Empty {
        var l: Line :| LineWon(t.state.board, l, t.report.victory);
      }
    } else {
      CheckWinSound(s.board);
    }
  }

  /** With `c` moves made, Cross has made `(c + 1) / 2` and Zero `c / 2`; one
      more move by the player whose turn it is keeps that so for `c + 1`. */
  lemma SharesAfterMove(c: nat, player: Cell, crosses: nat, zeros: nat, crosses': nat, zeros': nat)
    requires crosses == (c + 1) / 2 && zeros == c / 2
    requires player != Empty && (player == Cross <==> c % 2 == 0)
    requires crosses' == crosses + (if player == Cross then 1 else 0)
    requires zeros' == zeros + (if player == Zero then 1 else 0)
    ensures crosses' == (c + 2) / 2 && zeros' == (c + 1) / 2
  {
  }

  /** A move the board accepts from the player whose turn it is leads to a
      state satisfying the invariant: one more mark for the mover, the turn
      handed over, and any winner is the mover. */
  lemma MoveKeepsInv(s: State, x: int32, y: int32)
    requires Inv(s) && s.running && MakeMove(s.board, x, y, s.player).status == Success
    ensures var b' := MakeMove(s.board, x, y, s.player).board;
            Inv(State(b', Toggle(s.player), s.counter + 1, CheckWin(b') == Empty && s.counter + 1 != 9))
    ensures forall l: Line, m: Cell :: LineWon(MakeMove(s.board, x, y, s.player).board, l, m) ==> m == s.player
  {
    var b' := MakeMove(s.board, x, y, s.player).board;
    MoveCount(s.board, x, y, s.player);
    SharesAfterMove(s.counter, s.player, Count(s.board, Cross), Count(s.board, Zero),
                    Count(b', Cross), Count(b', Zero));
    OnlyMoverCanWin(s.board, x, y, s.player);
    CheckWinSound(b');
    assert !WinsFor(b', Toggle(s.player));
  }

  /** A pass that accepts a move keeps the invariant. */
  lemma AcceptedMoveInv(s: State, line: string)
    requires Inv(s) && s.running && Step(s, line).report.outcome == Played(Success)
    ensures Inv(Step(s, line).state)
  {
    var p := ParseMove(line);
    var b' := MakeMove(s.board, p.x, p.y, s.player).board;
    MoveKeepsInv(s, p.x, p.y);
    assert Step(s, line).state
        == State(b', Toggle(s.player), s.counter + 1, CheckWin(b') == Empty && s.counter + 1 != 9);
  }

  /** A pass that accepts no move leaves the board as it was, and with it the
      invariant. */
  lemma RefusedLineInv(s: State, line: string)
    requires Inv(s) && s.running && Step(s, line).report.outcome != Played(Success)
    ensures Inv(Step(s, line).state)
  {
    CheckWinSound(s.board);
  }

  /** Each pass of a running game keeps the invariant. */
  lemma StepInv(s: State, line: string)
    requires Inv(s) && s.running
    ensures Inv(Step(s, line).state)
  {
    if Step(s, line).report.outcome == Played(Success) {
      AcceptedMoveInv(s, line);
    } else {
      RefusedLineInv(s, line);
    }
  }

  lemma {:induction false} RunInv(s: State, lines: seq<string>)
    requires Inv(s)
    ensures Inv(Run(s, lines))
    decreases |lines|
  {
    if s.running && |lines| > 0 {
      StepInv(s, lines[0]);
      RunInv(Step(s, lines[0]).state, lines[1..]);
    }
  }

  /** Every state the loop reaches from the start satisfies the invariant. */
  lemma ReachableInv(lines: seq<string>)
    ensures Inv(Run(Start(), lines))
  {
    RunInv(Start(), lines);
  }

  /** The loop over lines none of which is a move leaves board, player and
      counter as they were, however many such lines there are. */
  lemma {:induction false} FormatErrorsChangeNothing(s: State, lines: seq<string>)
    requires Valid(s.board)
    requires forall i :: 0 <= i < |lines| ==> !Matches(lines[i])
    ensures var r := Run(s, lines);
            r.board == s.board && r.player == s.player && r.counter == s.counter
    decreases |lines|
  {
    if s.running && |lines| > 0 {
      FormatErrorsChangeNothing(Step(s, lines[0]).state, lines[1..]);
    }
  }

  /** The loop over a single line is a single pass, if the game runs. */
  lemma RunSingle(s: State, line: string)
    requires Valid(s.board) && s.running
    ensures Run(s, [line]) == Step(s, line).state
  {
    assert [line][1..] == [];
  }

  /** The loop over `a + b` is the loop over `a` followed by the loop over
      `b`: a stopped game ignores the rest of its input. */
  lemma {:induction false} RunAppend(s: State, a: seq<string>, b: seq<string>)
    requires Valid(s.board)
    ensures Run(s, a + b) == Run(Run(s, a), b)
    decreases |a|
  {
    if |a| == 0 {
      assert a + b == b;
    } else if s.running {
      assert (a + b)[0] == a[0] && (a + b)[1..] == a[1..] + b;
      RunAppend(Step(s, a[0]).state, a[1..], b);
    }
  }

  // ---------------------------------------------------------------------------
  // Example games

  /** The pass that plays a free cell: the mark goes in, the turn is handed
      over, the counter rises, and the game goes on only if the new board has
      no winner and the move was not the ninth. */
  lemma PlayFreeCell(s: State, x: Index, y: Index, b': Board)
    requires Valid(s.board) && GetItem(s.board, x, y) == Empty
    requires b' == s.board[y := s.board[y][x := s.player]]
    ensures Step(s, FormatMove(x, y))
            == Turn(State(b', Toggle(s.player), s.counter + 1,
                          s.running && CheckWin(b') == Empty && s.counter + 1 != 9),
                    Report(Played(Success), CheckWin(b'), s.counter + 1 == 9))
  {
    ParseFormat(x, y);
  }

  /** Cross at the top two cells of the left column and Zero at the top two
      of the middle one, Cross to move. */
  const LeftColumnPosition: State :=
    State([[Cross, Zero, Empty], [Cross, Zero, Empty], [Empty, Empty, Empty]], Cross, 4, true)

  /** Playing the bottom-left cell fills the left column with the fifth
      accepted move and ends the game with a victory for Cross. */
  lemma LeftColumnWin()
    ensures var t := Step(LeftColumnPosition, "0 2\n");
            t.report == Report(Played(Success), Cross, false)
            && !t.state.running && t.state.counter == 5
  {
    var s := LeftColumnPosition;
    var b' := s.board[2 := s.board[2][0 := Cross]];
    PlayFreeCell(s, 0, 2, b');
    CheckWinCascade(b');
  }

  /** The first four moves of a game: Cross at the top-left, Zero at the
      top-middle, Cross at the centre-left, Zero at the centre. */
  const LeftColumnOpening: seq<string> := ["0 0\n", "1 0\n", "0 1\n", "1 1\n"]

  /** The states after the first three moves of the opening; the fourth
      leads to `LeftColumnPosition`. */
  const AfterMove1: State :=
    State([[Cross, Empty, Empty], [Empty, Empty, Empty], [Empty, Empty, Empty]], Zero, 1, true)
  const AfterMove2: State :=
    State([[Cross, Zero, Empty], [Empty, Empty, Empty], [Empty, Empty, Empty]], Cross, 2, true)
  const AfterMove3: State :=
    State([[Cross, Zero, Empty], [Cross, Empty, Empty], [Empty, Empty, Empty]], Zero, 3, true)

  lemma OpeningMove1()
    ensures Step(Start(), "0 0\n").state == AfterMove1
  {
    var b, b' := Start().board, AfterMove1.board;
    assert b' == b[0 := b[0][0 := Cross]] by {
      assert b[0][0 := Cross] == b'[0];
    }
    NoLineWon(b');
    PlayFreeCell(Start(), 0, 0, b');
  }

  lemma OpeningMove2()
    ensures Step(AfterMove1, "1 0\n").state == AfterMove2
  {
    var b, b' := AfterMove1.board, AfterMove2.board;
    assert b' == b[0 := b[0][1 := Zero]] by {
      assert b[0][1 := Zero] == b'[0];
    }
    NoLineWon(b');
    PlayFreeCell(AfterMove1, 1, 0, b');
  }

  lemma OpeningMove3()
    ensures Step(AfterMove2, "0 1\n").state == AfterMove3
  {
    var b, b' := AfterMove2.board, AfterMove3.board;
    assert b' == b[1 := b[1][0 := Cross]] by {
      assert b[1][0 := Cross] == b'[1];
    }
    NoLineWon(b');
    PlayFreeCell(AfterMove2, 0, 1, b');
  }

  lemma OpeningMove4()
    ensures Step(AfterMove3, "1 1\n").state == LeftColumnPosition
  {
    var b, b' := AfterMove3.board, LeftColumnPosition.board;
    assert b' == b[1 := b[1][1 := Zero]] by {
      assert b[1][1 := Zero] == b'[1];
    }
    NoLineWon(b');
    PlayFreeCell(AfterMove3, 1, 1, b');
  }

  /** The opening leads from the start to `LeftColumnPosition`. */
  lemma OpeningReachesLeftColumnPosition()
    ensures Run(Start(), LeftColumnOpening) == LeftColumnPosition
  {
    OpeningMove1();
    OpeningMove2();
    OpeningMove3();
    OpeningMove4();
    var opening := LeftColumnOpening;
    assert opening[1..] == ["1 0\n", "0 1\n", "1 1\n"];
    assert opening[1..][1..] == ["0 1\n", "1 1\n"];
    assert opening[1..][1..][1..] == ["1 1\n"];
    assert opening[1..][1..][1..][1..] == [];
  }

  /** A whole game from the start: Cross fills the left column with the fifth
      move, and the game stops with Cross the winner. */
  lemma LeftColumnGame()
    ensures var r := Run(Start(), LeftColumnOpening + ["0 2\n"]);
            !r.running && CheckWin(r.board) == Cross && r.counter == 5
  {
    RunAppend(Start(), LeftColumnOpening, ["0 2\n"]);
    OpeningReachesLeftColumnPosition();
    RunSingle(LeftColumnPosition, "0 2\n");
    LeftColumnWin();
  }

  /** Eight moves and no filled line, Cross to move; only the bottom-right
      cell is free. */
  const DrawPosition: State :=
    State([[Cross, Zero, Cross], [Cross, Zero, Zero], [Zero, Cross, Empty]], Cross, 8, true)

  /** The last free cell ends the game in a draw and no victory is reported. */
  lemma DrawGame()
    ensures var t := Step(DrawPosition, "2 2\n");
            t.report == Report(Played(Success), Empty, true)
            && !t.state.running && t.state.counter == 9
  {
    var s := DrawPosition;
    var b' := s.board[2 := s.board[2][2 := Cross]];
    PlayFreeCell(s, 2, 2, b');
    CheckWinCascade(b');
  }

  /** Eight moves and no filled line, Cross to move; only the bottom-right
      cell is free and it completes the main diagonal. */
  const LastMoveWinPosition: State :=
    State([[Cross, Zero, Cross], [Zero, Cross, Zero], [Zero, Cross, Empty]], Cross, 8, true)

  /** The ninth move both wins and fills the board, and the pass reports the
      victory and the draw together. */
  lemma WinOnLastMoveReportsBoth()
    ensures var t := Step(LastMoveWinPosition, "2 2\n");
            t.report == Report(Played(Success), Cross, true)
            && !t.state.running && t.state.counter == 9
  {
    var s := LastMoveWinPosition;
    var b' := s.board[2 := s.board[2][2 := Cross]];
    PlayFreeCell(s, 2, 2, b');
    CheckWinCascade(b');
  }

  // The example positions are reached from the start, so the loop invariant
  // holds in them.

  /** `LeftColumnPosition` is reached from the start, so the invariant holds
      in it. */
  lemma LeftColumnPositionInv()
    ensures Inv(LeftColumnPosition)
  {
    ReachableInv(LeftColumnOpening);
    OpeningReachesLeftColumnPosition();
  }

  /** `DrawPosition` is reached from the start, so the invariant holds in it. */
  lemma DrawPositionInv()
    ensures Inv(DrawPosition)
  {
    ReachableInv(TopRowOpening + DrawTail);
    DrawLinesReachDrawPosition();
  }

  /** `LastMoveWinPosition` is reached from the start, so the invariant holds
      in it. */
  lemma LastMoveWinPositionInv()
    ensures Inv(LastMoveWinPosition)
  {
    ReachableInv(TopRowOpening + LastMoveWinTail);
    LastMoveWinLinesReachLastMoveWinPosition();
  }

  // ---------------------------------------------------------------------------
  // The eight-move positions, reached from the start

  /** After Cross at the top-left, Zero at the top-middle and Cross at the
      top-right. */
  const AfterTopRow3: State :=
    State([[Cross, Zero, Cross], [Empty, Empty, Empty], [Empty, Empty, Empty]], Zero, 3, true)

  lemma TopRowMove3()
    ensures Step(AfterMove2, "2 0\n").state == AfterTopRow3
  {
    var b, b' := AfterMove2.board, AfterTopRow3.board;
    assert b' == b[0 := b[0][2 := Cross]] by {
      assert b[0][2 := Cross] == b'[0];
    }
    NoLineWon(b');
    PlayFreeCell(AfterMove2, 2, 0, b');
  }

  /** The three moves that lead to `AfterTopRow3`. */
  const TopRowOpening: seq<string> := ["0 0\n", "1 0\n", "2 0\n"]

  lemma TopRowOpeningReachesAfterTopRow3()
    ensures Run(Start(), TopRowOpening) == AfterTopRow3
  {
    OpeningMove1();
    OpeningMove2();
    TopRowMove3();
    var tail := TopRowOpening;
    assert tail[1..] == ["1 0\n", "2 0\n"];
    assert tail[1..][1..] == ["2 0\n"];
    assert tail[1..][1..][1..] == [];
  }

  /** Zero at the centre, Cross at the centre-left, Zero at the centre-right,
      Cross at the bottom-middle, Zero at the bottom-left. */
  const DrawTail: seq<string> := ["1 1\n", "0 1\n", "2 1\n", "1 2\n", "0 2\n"]

  /** The positions between `AfterTopRow3` and `DrawPosition`. */
  const DrawAfter4: State :=
    State([[Cross, Zero, Cross], [Empty, Zero, Empty], [Empty, Empty, Empty]], Cross, 4, true)
  const DrawAfter5: State :=
    State([[Cross, Zero, Cross], [Cross, Zero, Empty], [Empty, Empty, Empty]], Zero, 5, true)
  const DrawAfter6: State :=
    State([[Cross, Zero, Cross], [Cross, Zero, Zero], [Empty, Empty, Empty]], Cross, 6, true)
  const DrawAfter7: State :=
    State([[Cross, Zero, Cross], [Cross, Zero, Zero], [Empty, Cross, Empty]], Zero, 7, true)

  lemma DrawMove4()
    ensures Step(AfterTopRow3, "1 1\n").state == DrawAfter4
  {
    var b, b' := AfterTopRow3.board, DrawAfter4.board;
    assert b' == b[1 := b[1][1 := Zero]] by {
      assert b[1][1 := Zero] == b'[1];
    }
    NoLineWon(b');
    PlayFreeCell(AfterTopRow3, 1, 1, b');
  }

  lemma DrawMove5()
    ensures Step(DrawAfter4, "0 1\n").state == DrawAfter5
  {
    var b, b' := DrawAfter4.board, DrawAfter5.board;
    assert b' == b[1 := b[1][0 := Cross]] by {
      assert b[1][0 := Cross] == b'[1];
    }
    NoLineWon(b');
    PlayFreeCell(DrawAfter4, 0, 1, b');
  }

  lemma DrawMove6()
    ensures Step(DrawAfter5, "2 1\n").state == DrawAfter6
  {
    var b, b' := DrawAfter5.board, DrawAfter6.board;
    assert b' == b[1 := b[1][2 := Zero]] by {
      assert b[1][2 := Zero] == b'[1];
    }
    NoLineWon(b');
    PlayFreeCell(DrawAfter5, 2, 1, b');
  }

  lemma DrawMove7()
    ensures Step(DrawAfter6, "1 2\n").state == DrawAfter7
  {
    var b, b' := DrawAfter6.board, DrawAfter7.board;
    assert b' == b[2 := b[2][1 := Cross]] by {
      assert b[2][1 := Cross] == b'[2];
    }
    NoLineWon(b');
    PlayFreeCell(DrawAfter6, 1, 2, b');
  }

  lemma DrawMove8()
    ensures Step(DrawAfter7, "0 2\n").state == DrawPosition
  {
    var b, b' := DrawAfter7.board, DrawPosition.board;
    assert b' == b[2 := b[2][0 := Zero]] by {
      assert b[2][0 := Zero] == b'[2];
    }
    NoLineWon(b');
    PlayFreeCell(DrawAfter7, 0, 2, b');
  }

  /** `DrawTail` leads from `AfterTopRow3` to `DrawPosition`. */
  lemma DrawTailReachesDrawPosition()
    ensures Run(AfterTopRow3, DrawTail) == DrawPosition
  {
    DrawMove4();
    DrawMove5();
    DrawMove6();
    DrawMove7();
    DrawMove8();
    var tail := DrawTail;
    assert tail[1..] == ["0 1\n", "2 1\n", "1 2\n", "0 2\n"];
    assert tail[1..][1..] == ["2 1\n", "1 2\n", "0 2\n"];
    assert tail[1..][1..][1..] == ["1 2\n", "0 2\n"];
    assert tail[1..][1..][1..][1..] == ["0 2\n"];
    assert tail[1..][1..][1..][1..][1..] == [];
  }

  /** The top-row opening followed by `DrawTail` leads from the start to
      `DrawPosition`. */
  lemma DrawLinesReachDrawPosition()
    ensures Run(Start(), TopRowOpening + DrawTail) == DrawPosition
  {
    TopRowOpeningReachesAfterTopRow3();
    DrawTailReachesDrawPosition();
    RunAppend(Start(), TopRowOpening, DrawTail);
  }

  /** Zero at the centre-left, Cross at the centre, Zero at the centre-right,
      Cross at the bottom-middle, Zero at the bottom-left. */
  const LastMoveWinTail: seq<string> := ["0 1\n", "1 1\n", "2 1\n", "1 2\n", "0 2\n"]

  /** The positions between `AfterTopRow3` and `LastMoveWinPosition`. */
  const LastMoveWinAfter4: State :=
    State([[Cross, Zero, Cross], [Zero, Empty, Empty], [Empty, Empty, Empty]], Cross, 4, true)
  const LastMoveWinAfter5: State :=
    State([[Cross, Zero, Cross], [Zero, Cross, Empty], [Empty, Empty, Empty]], Zero, 5, true)
  const LastMoveWinAfter6: State :=
    State([[Cross, Zero, Cross], [Zero, Cross, Zero], [Empty, Empty, Empty]], Cross, 6, true)
  const LastMoveWinAfter7: State :=
    State([[Cross, Zero, Cross], [Zero, Cross, Zero], [Empty, Cross, Empty]], Zero, 7, true)

  lemma LastMoveWinMove4()
    ensures Step(AfterTopRow3, "0 1\n").state == LastMoveWinAfter4
  {
    var b, b' := AfterTopRow3.board, LastMoveWinAfter4.board;
    assert b' == b[1 := b[1][0 := Zero]] by {
      assert b[1][0 := Zero] == b'[1];
    }
    NoLineWon(b');
    PlayFreeCell(AfterTopRow3, 0, 1, b');
  }

  lemma LastMoveWinMove5()
    ensures Step(LastMoveWinAfter4, "1 1\n").state == LastMoveWinAfter5
  {
    var b, b' := LastMoveWinAfter4.board, LastMoveWinAfter5.board;
    assert b' == b[1 := b[1][1 := Cross]] by {
      assert b[1][1 := Cross] == b'[1];
    }
    NoLineWon(b');
    PlayFreeCell(LastMoveWinAfter4, 1, 1, b');
  }

  lemma LastMoveWinMove6()
    ensures Step(LastMoveWinAfter5, "2 1\n").state == LastMoveWinAfter6
  {
    var b, b' := LastMoveWinAfter5.board, LastMoveWinAfter6.board;
    assert b' == b[1 := b[1][2 := Zero]] by {
      assert b[1][2 := Zero] == b'[1];
    }
    NoLineWon(b');
    PlayFreeCell(LastMoveWinAfter5, 2, 1, b');
  }

  lemma LastMoveWinMove7()
    ensures Step(LastMoveWinAfter6, "1 2\n").state == LastMoveWinAfter7
  {
    var b, b' := LastMoveWinAfter6.board, LastMoveWinAfter7.board;
    assert b' == b[2 := b[2][1 := Cross]] by {
      assert b[2][1 := Cross] == b'[2];
    }
    NoLineWon(b');
    PlayFreeCell(LastMoveWinAfter6, 1, 2, b');
  }

  lemma LastMoveWinMove8()
    ensures Step(LastMoveWinAfter7, "0 2\n").state == LastMoveWinPosition
  {
    var b, b' := LastMoveWinAfter7.board, LastMoveWinPosition.board;
    assert b' == b[2 := b[2][0 := Zero]] by {
      assert b[2][0 := Zero] == b'[2];
    }
    NoLineWon(b');
    PlayFreeCell(LastMoveWinAfter7, 0, 2, b');
  }

  /** `LastMoveWinTail` leads from `AfterTopRow3` to `LastMoveWinPosition`. */
  lemma LastMoveWinTailReachesLastMoveWinPosition()
    ensures Run(AfterTopRow3, LastMoveWinTail) == LastMoveWinPosition
  {
    LastMoveWinMove4();
    LastMoveWinMove5();
    LastMoveWinMove6();
    LastMoveWinMove7();
    LastMoveWinMove8();
    var tail := LastMoveWinTail;
    assert tail[1..] == ["1 1\n", "2 1\n", "1 2\n", "0 2\n"];
    assert tail[1..][1..] == ["2 1\n", "1 2\n", "0 2\n"];
    assert tail[1..][1..][1..] == ["1 2\n", "0 2\n"];
    assert tail[1..][1..][1..][1..] == ["0 2\n"];
    assert tail[1..][1..][1..][1..][1..] == [];
  }

  /** The top-row opening followed by `LastMoveWinTail` leads from the start to
      `LastMoveWinPosition`. */
  lemma LastMoveWinLinesReachLastMoveWinPosition()
    ensures Run(Start(), TopRowOpening + LastMoveWinTail) == LastMoveWinPosition
  {
    TopRowOpeningReachesAfterTopRow3();
    LastMoveWinTailReachesLastMoveWinPosition();
    RunAppend(Start(), TopRowOpening, LastMoveWinTail);
  }

  /** A whole game from the start that fills the board with no line: it stops
      after the ninth move with a draw and no winner. */
  lemma DrawGameFromStart()
    ensures var r := Run(Start(), TopRowOpening + DrawTail + ["2 2\n"]);
            !r.running && CheckWin(r.board) == Empty && r.counter == 9
  {
    RunAppend(Start(), TopRowOpening + DrawTail, ["2 2\n"]);
    DrawLinesReachDrawPosition();
    RunSingle(DrawPosition, "2 2\n");
    DrawGame();
  }

  /** A whole game from the start whose ninth move completes the main
      diagonal: it stops with Cross the winner after nine moves. */
  lemma LastMoveWinGameFromStart()
    ensures var r := Run(Start(), TopRowOpening + LastMoveWinTail + ["2 2\n"]);
            !r.running && CheckWin(r.board) == Cross && r.counter == 9
  {
    RunAppend(Start(), TopRowOpening + LastMoveWinTail, ["2 2\n"]);
    LastMoveWinLinesReachLastMoveWinPosition();
    RunSingle(LastMoveWinPosition, "2 2\n");
    WinOnLastMoveReportsBoth();
  }
}

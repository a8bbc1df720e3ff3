/** Concrete games played through Board.Move, and consequences of what
    make_move does not check (whose turn it is, whether the game is over,
    which player number it was given). */
module Scenarios {
  import opened Board

  /** A move onto a known landing row succeeds and writes exactly that cell. */
  lemma MoveLands(s: GameState, player: int, column: int, row: int)
    requires IsGrid(s.board) && IsLanding(s.board, column, row)
    ensures Move(s, player, column).success
    ensures Move(s, player, column).state.board == Place(s.board, row, column, player)
  {
    var lands := LandingRow(s.board, column);
    LandingUnique(s.board, column, lands.value, row);
  }

  /** The outcome of make_move depends only on the board, the player and the
      column: current_player, game_over and winner are never consulted, so a
      move out of turn or after the game is over is applied all the same. */
  lemma MoveIgnoresTurnAndOutcome(s: GameState, t: GameState, player: int, column: int)
    requires IsGrid(s.board) && t.board == s.board
    ensures Move(s, player, column).success == Move(t, player, column).success
    ensures Move(s, player, column).message == Move(t, player, column).message
    ensures Move(s, player, column).success ==>
              Move(s, player, column).state.board == Move(t, player, column).state.board &&
              Move(s, player, column).state.currentPlayer == Move(t, player, column).state.currentPlayer
  {
  }

  /** Filling a cell of one column leaves the landing row of every other column where it was. */
  lemma LandingElsewhere(g: Grid, h: Grid, row: int, col: int, p: int, col2: int, row2: int)
    requires IsGrid(g) && IsGrid(h) && Filled(g, h, row, col, p)
    requires IsLanding(g, col2, row2) && col2 != col
    ensures IsLanding(h, col2, row2)
  {
  }

  /** A mark dropped onto three marks of the same player in its column
      completes a vertical line: the move succeeds and records that player
      as the winner. */
  lemma StackedFourWins(s: GameState, player: int, column: int, row: int)
    requires IsGrid(s.board) && IsLanding(s.board, column, row) && row + 3 < Rows
    requires s.board[row + 1][column] == player && s.board[row + 2][column] == player
    requires s.board[row + 3][column] == player
    ensures Move(s, player, column).success
    ensures Move(s, player, column).state.gameOver && Move(s, player, column).state.winner == Some(player)
  {
    MoveLands(s, player, column, row);
    assert RunAt(Move(s, player, column).state.board, player, row, column, Vertical);
  }

  /** Filling the landing row of a column with a non-zero mark moves that
      column's landing row one up, when the cell above is empty. */
  lemma LandingAbove(g: Grid, h: Grid, row: int, col: int, p: int)
    requires IsGrid(g) && IsGrid(h) && IsLanding(g, col, row) && Filled(g, h, row, col, p)
    requires p != 0 && 0 < row && g[row - 1][col] == 0
    ensures IsLanding(h, col, row - 1)
  {
  }

  /** A drop into a column whose landing row is `row` (not the top row), on
      a cell whose upper neighbour is empty: the landing row moves one up. */
  lemma StackMove(s: GameState, player: int, column: int, row: int)
    requires IsGrid(s.board) && IsLanding(s.board, column, row)
    requires player != 0 && 0 < row && s.board[row - 1][column] == 0
    ensures Move(s, player, column).state.board == Place(s.board, row, column, player)
    ensures IsLanding(Move(s, player, column).state.board, column, row - 1)
  {
    MoveLands(s, player, column, row);
    LandingAbove(s.board, Move(s, player, column).state.board, row, column, player);
  }

  /** One move of a scripted game: player drops into column, whose landing
      row is `row`, while `other` is a second column whose landing row
      `otherRow` is left where it was. */
  lemma ScriptedMove(s: GameState, player: int, column: int, row: int, other: int, otherRow: int)
    requires IsGrid(s.board) && IsLanding(s.board, column, row) && IsLanding(s.board, other, otherRow)
    requires player != 0 && 0 < row && s.board[row - 1][column] == 0 && other != column
    ensures Move(s, player, column).state.board == Place(s.board, row, column, player)
    ensures IsLanding(Move(s, player, column).state.board, column, row - 1)
    ensures IsLanding(Move(s, player, column).state.board, other, otherRow)
  {
    MoveLands(s, player, column, row);
    var h := Move(s, player, column).state.board;
    LandingAbove(s.board, h, row, column, player);
    LandingElsewhere(s.board, h, row, column, player, other, otherRow);
  }

  /** The first six moves of the vertical-win game: player 1 has three marks
      at the bottom of column 3, player 2 three marks at the bottom of column 4. */
  lemma VerticalOpening()
    ensures var s1 := Move(InitialState(), 1, 3).state;
            var s2 := Move(s1, 2, 4).state;
            var s3 := Move(s2, 1, 3).state;
            var s4 := Move(s3, 2, 4).state;
            var s5 := Move(s4, 1, 3).state;
            var s6 := Move(s5, 2, 4).state;
            IsLanding(s6.board, 3, 2) && IsLanding(s6.board, 4, 2) &&
            s6.board[3][3] == 1 && s6.board[4][3] == 1 && s6.board[5][3] == 1
  {
    var s0 := InitialState();
    ScriptedMove(s0, 1, 3, 5, 4, 5);
    var s1 := Move(s0, 1, 3).state;
    assert s1.board[5][3] == 1;
    ScriptedMove(s1, 2, 4, 5, 3, 4);
    var s2 := Move(s1, 2, 4).state;
    assert s2.board[5][3] == 1;
    ScriptedMove(s2, 1, 3, 4, 4, 4);
    var s3 := Move(s2, 1, 3).state;
    assert s3.board[5][3] == 1 && s3.board[4][3] == 1;
    ScriptedMove(s3, 2, 4, 4, 3, 3);
    var s4 := Move(s3, 2, 4).state;
    assert s4.board[5][3] == 1 && s4.board[4][3] == 1;
    ScriptedMove(s4, 1, 3, 3, 4, 3);
    var s5 := Move(s4, 1, 3).state;
    assert s5.board[5][3] == 1 && s5.board[4][3] == 1 && s5.board[3][3] == 1;
    ScriptedMove(s5, 2, 4, 3, 3, 2);
  }

  /** Player 1 drops into column 3 four times, player 2 into column 4 in
      between: the fourth drop in column 3 makes a vertical line, game_over is
      set and player 1 is the winner. A further move by player 2 is still
      accepted: make_move does not reject moves once the game is over. */
  lemma VerticalWinScenario()
    ensures var s1 := Move(InitialState(), 1, 3).state;
            var s2 := Move(s1, 2, 4).state;
            var s3 := Move(s2, 1, 3).state;
            var s4 := Move(s3, 2, 4).state;
            var s5 := Move(s4, 1, 3).state;
            var s6 := Move(s5, 2, 4).state;
            var r7 := Move(s6, 1, 3);
            r7.success && r7.state.gameOver && r7.state.winner == Some(1) &&
            r7.state.currentPlayer == 2 && Move(r7.state, 2, 4).success
  {
    VerticalOpening();
    var s1 := Move(InitialState(), 1, 3).state;
    var s2 := Move(s1, 2, 4).state;
    var s3 := Move(s2, 1, 3).state;
    var s4 := Move(s3, 2, 4).state;
    var s5 := Move(s4, 1, 3).state;
    var s6 := Move(s5, 2, 4).state;
    StackedFourWins(s6, 1, 3, 2);
    var r7 := Move(s6, 1, 3);
    MoveLands(s6, 1, 3, 2);
    LandingElsewhere(s6.board, r7.state.board, 2, 3, 1, 4, 2);
    MoveLands(r7.state, 2, 4, 2);
  }

  /** Six drops fill column 3; the seventh is refused with "Column is full"
      and leaves the state as it was. */
  lemma FullColumnScenario()
    ensures var s1 := Move(InitialState(), 1, 3).state;
            var s2 := Move(s1, 2, 3).state;
            var s3 := Move(s2, 1, 3).state;
            var s4 := Move(s3, 2, 3).state;
            var s5 := Move(s4, 1, 3).state;
            var s6 := Move(s5, 2, 3).state;
            var r7 := Move(s6, 1, 3);
            !r7.success && r7.message == "Column is full" && r7.state == s6
  {
    var s0 := InitialState();
    StackMove(s0, 1, 3, 5);
    var s1 := Move(s0, 1, 3).state;
    StackMove(s1, 2, 3, 4);
    var s2 := Move(s1, 2, 3).state;
    StackMove(s2, 1, 3, 3);
    var s3 := Move(s2, 1, 3).state;
    StackMove(s3, 2, 3, 2);
    var s4 := Move(s3, 2, 3).state;
    StackMove(s4, 1, 3, 1);
    var s5 := Move(s4, 1, 3).state;
    MoveLands(s5, 2, 3, 0);
    var s6 := Move(s5, 2, 3).state;
    forall k | 0 <= k < Rows
      ensures s6.board[k][3] != 0
    {
      if k > 0 {
        assert s5.board[k][3] != 0;
      }
    }
  }

  /** player is never validated: on a fresh board a "move" by player 0 writes
      0 into an empty cell, check_winner finds four zeros in a row, and the
      game is recorded as over with winner 0. */
  lemma PlayerZeroWinsOnEmptyBoard(column: int)
    requires 0 <= column < Cols
    ensures var r := Move(InitialState(), 0, column);
            r.success && r.state.gameOver && r.state.winner == Some(0) && r.state.currentPlayer == 3
  {
    var s0 := InitialState();
    MoveLands(s0, 0, column, Rows - 1);
    var r := Move(s0, 0, column);
    assert RunAt(r.state.board, 0, 0, 0, Horizontal);
  }
}

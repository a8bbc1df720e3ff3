/** Connect4Server (server/server.py) as an object whose fields are the
    entries of its game_state dictionary: the board (a list of six rows that
    make_move updates), current_player, game_over and winner. Each method is
    proved against the pure model in module Board. */
module Server {
  import opened Board

  /** check_winner(board, player): the horizontal, vertical and diagonal
      scans in the order the server runs them, stopping at the first line of
      four. Every index it reads is inside the 6 x 7 board, and it only reads
      the board it is given. */
  method CheckWinner(board: Grid, player: int) returns (won: bool)
    requires IsGrid(board)
    ensures won == ScanWins(board, player)
    ensures won == HasFour(board, player)
  {
    ScanWinsIffHasFour(board, player);
    // Horizontal check
    for row := 0 to Rows
      invariant forall r, c :: 0 <= r < row && 0 <= c < 4 ==> !HorizontalHit(board, player, r, c)
    {
      for col := 0 to 4
        invariant forall c :: 0 <= c < col ==> !HorizontalHit(board, player, row, c)
      {
        if HorizontalHit(board, player, row, col) {
          return true;
        }
      }
    }
    // Vertical check
    for col := 0 to Cols
      invariant forall r, c :: 0 <= r < 3 && 0 <= c < col ==> !VerticalHit(board, player, r, c)
    {
      for row := 0 to 3
        invariant forall r :: 0 <= r < row ==> !VerticalHit(board, player, r, col)
      {
        if VerticalHit(board, player, row, col) {
          return true;
        }
      }
    }
    // Diagonal checks
    for row := 0 to 3
      invariant forall r, c :: 0 <= r < row && 0 <= c < 4 ==> !DownRightHit(board, player, r, c)
      invariant forall r, c :: 0 <= r < row && 0 <= c < 4 ==> !DownLeftHit(board, player, r, c)
    {
      for col := 0 to 4
        invariant forall c :: 0 <= c < col ==> !DownRightHit(board, player, row, c)
        invariant forall c :: 0 <= c < col ==> !DownLeftHit(board, player, row, c)
      {
        if DownRightHit(board, player, row, col) {
          return true;
        }
        if DownLeftHit(board, player, row, col) {
          return true;
        }
      }
    }
    return false;
  }

  class Connect4Server {
    var board: Grid
    var currentPlayer: int
    var gameOver: bool
    var winner: Option<int>

    /** game_state as a value. */
    ghost function State(): GameState
      reads this
    {
      GameState(board, currentPlayer, gameOver, winner)
    }

    /** The game state keeps the invariant Board.Consistent: a 6 x 7 board
        under gravity, game_over exactly when a winner is recorded, and a
        recorded non-zero winner with four in a row on the board. */
    ghost predicate Valid()
      reads this
    {
      Consistent(State())
    }

    /** A fresh server: an empty board, player 1 to move, no winner. */
    constructor ()
      ensures Valid()
      ensures State() == InitialState()
      ensures IsGrid(board) && forall r, c :: InGrid(r, c) ==> board[r][c] == 0
      ensures currentPlayer == 1 && !gameOver && winner == None
    {
      board := EmptyGrid();
      currentPlayer := 1;
      gameOver := false;
      winner := None;
      InitialConsistent();
    }

    /** make_move(player, column), run as one atomic step. */
    method MakeMove(player: int, column: int) returns (success: bool, message: string)
      requires Valid()
      modifies this
      ensures Valid()
      ensures var r := Move(old(State()), player, column);
        success == r.success && message == r.message && State() == r.state
      ensures success ==>
        exists row :: IsLanding(old(board), column, row) && Filled(old(board), board, row, column, player)
      ensures !success ==> State() == old(State())
    {
      MoveKeepsConsistent(State(), player, column);
      // Validate column
      if column < 0 || column >= Cols {
        return false, "Invalid column";
      }
      // Find the first empty row of the column, from the bottom up
      for row := Rows downto 0
        invariant forall k :: row <= k < Rows ==> board[k][column] != 0
        invariant State() == old(State())
      {
        if board[row][column] == 0 {
          assert IsLanding(board, column, row);
          ghost var lands := LandingRow(board, column);
          LandingUnique(board, column, lands.value, row);
          board := board[row := board[row][column := player]];
          // Check for winner
          var won := CheckWinner(board, player);
          if won {
            gameOver := true;
            winner := Some(player);
          }
          // Switch player
          currentPlayer := 3 - player;
          return true, "Move successful";
        }
      }
      return false, "Column is full";
    }
  }
}

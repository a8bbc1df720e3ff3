/** The Connect-Four game state kept by Connect4Server (server/server.py):
    a 6 x 7 grid of integer marks, 0 meaning empty and row 0 the top row,
    the win test of check_winner, and the effect of make_move on the whole
    game state, written as pure functions with the properties proved about them. */
module Board {

  datatype Option<+T> = None | Some(value: T)

  const Rows: int := 6
  const Cols: int := 7

  /** A board is a list of rows; a cell holds the number of the player who
      dropped there, or 0. Player numbers are not restricted by the server. */
  type Grid = seq<seq<int>>

  predicate InGrid(r: int, c: int) {
    0 <= r < Rows && 0 <= c < Cols
  }

  predicate IsGrid(g: Grid) {
    |g| == Rows && forall r :: 0 <= r < Rows ==> |g[r]| == Cols
  }

  /** The board of a fresh server: six rows of seven zeros. */
  function EmptyGrid(): (g: Grid)
    ensures IsGrid(g)
    ensures forall r, c :: InGrid(r, c) ==> g[r][c] == 0
  {
    seq(Rows, _ => seq(Cols, _ => 0))
  }

  /** Two boards with the same shape and the same cells are the same board. */
  lemma GridsEqual(g: Grid, h: Grid)
    requires IsGrid(g) && IsGrid(h)
    requires forall r, c :: InGrid(r, c) ==> g[r][c] == h[r][c]
    ensures g == h
  {
    forall r | 0 <= r < Rows
      ensures g[r] == h[r]
    {
      assert forall c :: 0 <= c < Cols ==> g[r][c] == h[r][c];
    }
  }

  // ---------------------------------------------------------------------
  // Four in a row: the geometric definition
  // ---------------------------------------------------------------------

  /** The four directions a winning line can run in (row 0 is the top). */
  datatype Direction = Horizontal | Vertical | DownRight | DownLeft

  /** Row of the i-th cell of a line that starts at row r. */
  function RowOf(r: int, d: Direction, i: int): int {
    if d == Horizontal then r else r + i
  }

  /** Column of the i-th cell of a line that starts at column c. */
  function ColOf(c: int, d: Direction, i: int): int {
    match d
    case Horizontal => c + i
    case Vertical => c
    case DownRight => c + i
    case DownLeft => c - i
  }

  /** The four cells of the line from (r, c) in direction d lie on the
      board and all hold p. */
  predicate RunAt(g: Grid, p: int, r: int, c: int, d: Direction)
    requires IsGrid(g)
  {
    forall i :: 0 <= i < 4 ==>
      InGrid(RowOf(r, d, i), ColOf(c, d, i)) && g[RowOf(r, d, i)][ColOf(c, d, i)] == p
  }

  /** Some horizontal, vertical or diagonal line of four cells holds p. */
  ghost predicate HasFour(g: Grid, p: int)
    requires IsGrid(g)
  {
    exists r, c, d :: RunAt(g, p, r, c, d)
  }

  // ---------------------------------------------------------------------
  // Four in a row: the scan check_winner performs
  // ---------------------------------------------------------------------

  /** The horizontal test of check_winner at anchor (r, c), c in 0..3. */
  predicate HorizontalHit(g: Grid, p: int, r: int, c: int)
    requires IsGrid(g) && 0 <= r < Rows && 0 <= c < 4
  {
    g[r][c] == p && g[r][c + 1] == p && g[r][c + 2] == p && g[r][c + 3] == p
  }

  /** The vertical test of check_winner at anchor (r, c), r in 0..2. */
  predicate VerticalHit(g: Grid, p: int, r: int, c: int)
    requires IsGrid(g) && 0 <= r < 3 && 0 <= c < Cols
  {
    g[r][c] == p && g[r + 1][c] == p && g[r + 2][c] == p && g[r + 3][c] == p
  }

  /** The down-right test of check_winner at anchor (r, c). */
  predicate DownRightHit(g: Grid, p: int, r: int, c: int)
    requires IsGrid(g) && 0 <= r < 3 && 0 <= c < 4
  {
    g[r][c] == p && g[r + 1][c + 1] == p && g[r + 2][c + 2] == p && g[r + 3][c + 3] == p
  }

  /** The down-left test of check_winner at anchor (r, c): it starts in
      column c + 3 and moves one column left per row. */
  predicate DownLeftHit(g: Grid, p: int, r: int, c: int)
    requires IsGrid(g) && 0 <= r < 3 && 0 <= c < 4
  {
    g[r][c + 3] == p && g[r + 1][c + 2] == p && g[r + 2][c + 1] == p && g[r + 3][c] == p
  }

  /** check_winner(board, p): one of its four tests succeeds at one of the
      anchors it visits. */
  predicate ScanWins(g: Grid, p: int)
    requires IsGrid(g)
  {
    (exists r, c :: 0 <= r < Rows && 0 <= c < 4 && HorizontalHit(g, p, r, c)) ||
    (exists r, c :: 0 <= r < 3 && 0 <= c < Cols && VerticalHit(g, p, r, c)) ||
    (exists r, c :: 0 <= r < 3 && 0 <= c < 4 && DownRightHit(g, p, r, c)) ||
    (exists r, c :: 0 <= r < 3 && 0 <= c < 4 && DownLeftHit(g, p, r, c))
  }

  /** Every test check_winner passes is a line of four on the board. */
  lemma ScanHitIsFour(g: Grid, p: int)
    requires IsGrid(g) && ScanWins(g, p)
    ensures HasFour(g, p)
  {
    if r, c :| 0 <= r < Rows && 0 <= c < 4 && HorizontalHit(g, p, r, c) {
      assert RunAt(g, p, r, c, Horizontal);
    } else if r, c :| 0 <= r < 3 && 0 <= c < Cols && VerticalHit(g, p, r, c) {
      assert RunAt(g, p, r, c, Vertical);
    } else if r, c :| 0 <= r < 3 && 0 <= c < 4 && DownRightHit(g, p, r, c) {
      assert RunAt(g, p, r, c, DownRight);
    } else {
      var r, c :| 0 <= r < 3 && 0 <= c < 4 && DownLeftHit(g, p, r, c);
      assert RunAt(g, p, r, c + 3, DownLeft);
    }
  }

  /** Every line of four on the board starts at an anchor check_winner
      visits, in the direction it tests there. */
  lemma FourIsScanHit(g: Grid, p: int)
    requires IsGrid(g) && HasFour(g, p)
    ensures ScanWins(g, p)
  {
    var r, c, d :| RunAt(g, p, r, c, d);
    assert InGrid(RowOf(r, d, 0), ColOf(c, d, 0)) && InGrid(RowOf(r, d, 3), ColOf(c, d, 3));
    assert g[RowOf(r, d, 1)][ColOf(c, d, 1)] == p && g[RowOf(r, d, 2)][ColOf(c, d, 2)] == p;
    match d
    case Horizontal =>
      assert HorizontalHit(g, p, r, c);
    case Vertical =>
      assert VerticalHit(g, p, r, c);
    case DownRight =>
      assert DownRightHit(g, p, r, c);
    case DownLeft =>
      assert DownLeftHit(g, p, r, c - 3);
  }

  /** The anchors check_winner visits cover every line of four on the board:
      its scan succeeds exactly when the board has four in a row. */
  lemma ScanWinsIffHasFour(g: Grid, p: int)
    requires IsGrid(g)
    ensures ScanWins(g, p) <==> HasFour(g, p)
  {
    if ScanWins(g, p) {
      ScanHitIsFour(g, p);
    }
    if HasFour(g, p) {
      FourIsScanHit(g, p);
    }
  }

  // ---------------------------------------------------------------------
  // Gravity and the landing row
  // ---------------------------------------------------------------------

  /** Every cell above an empty cell of the same column is empty. */
  ghost predicate Gravity(g: Grid)
    requires IsGrid(g)
  {
    forall r, k, c :: 0 <= k < r < Rows && 0 <= c < Cols && g[r][c] == 0 ==> g[k][c] == 0
  }

  /** No cell of the column is 0. */
  predicate ColumnFull(g: Grid, col: int)
    requires IsGrid(g) && 0 <= col < Cols
  {
    forall k :: 0 <= k < Rows ==> g[k][col] != 0
  }

  /** Under gravity a column is full exactly when its top cell is occupied,
      the test the polling client uses to pick a column. */
  lemma FullIffTopOccupied(g: Grid, col: int)
    requires IsGrid(g) && Gravity(g) && 0 <= col < Cols
    ensures ColumnFull(g, col) <==> g[0][col] != 0
  {
  }

  /** `row` is the bottom-most empty cell of the column: it is empty and
      every cell below it is occupied. */
  predicate IsLanding(g: Grid, col: int, row: int)
    requires IsGrid(g)
  {
    0 <= col < Cols && 0 <= row < Rows && g[row][col] == 0 &&
    forall k :: row < k < Rows ==> g[k][col] != 0
  }

  /** A column has at most one landing row. */
  lemma LandingUnique(g: Grid, col: int, row1: int, row2: int)
    requires IsGrid(g) && IsLanding(g, col, row1) && IsLanding(g, col, row2)
    ensures row1 == row2
  {
  }

  /** The search of make_move from `row` upwards (row 5 first, then 4, ...,
      then 0), when the cells below `row` are already known to be occupied. */
  function LandingFrom(g: Grid, col: int, row: int): (r: Option<int>)
    requires IsGrid(g) && 0 <= col < Cols && -1 <= row < Rows
    requires forall k :: row < k < Rows ==> g[k][col] != 0
    ensures r.Some? ==> IsLanding(g, col, r.value)
    ensures r.None? <==> ColumnFull(g, col)
    decreases row + 1
  {
    if row < 0 then None
    else if g[row][col] == 0 then Some(row)
    else LandingFrom(g, col, row - 1)
  }

  /** Where make_move drops a mark into `col`: its landing row, or None
      when the column is full. */
  function LandingRow(g: Grid, col: int): (r: Option<int>)
    requires IsGrid(g) && 0 <= col < Cols
    ensures r.Some? ==> IsLanding(g, col, r.value)
    ensures r.None? <==> ColumnFull(g, col)
  {
    LandingFrom(g, col, Rows - 1)
  }

  /** h is g with cell (row, col) set to p and every other cell as it was. */
  ghost predicate Filled(g: Grid, h: Grid, row: int, col: int, p: int)
    requires IsGrid(g) && IsGrid(h)
  {
    InGrid(row, col) && h[row][col] == p &&
    forall r, c :: InGrid(r, c) && (r != row || c != col) ==> h[r][c] == g[r][c]
  }

  /** The board after writing p into cell (row, col). */
  function Place(g: Grid, row: int, col: int, p: int): (h: Grid)
    requires IsGrid(g) && InGrid(row, col)
    ensures IsGrid(h) && Filled(g, h, row, col, p)
  {
    g[row := g[row][col := p]]
  }

  /** Dropping a mark onto its landing row keeps gravity, whatever the mark
      (a 0 written onto an empty cell leaves the board as it was). */
  lemma FillKeepsGravity(g: Grid, h: Grid, row: int, col: int, p: int)
    requires IsGrid(g) && IsGrid(h) && Gravity(g)
    requires IsLanding(g, col, row) && Filled(g, h, row, col, p)
    ensures Gravity(h)
  {
  }

  /** A line of a non-zero mark survives a fill of an empty cell. */
  lemma FillKeepsFour(g: Grid, h: Grid, row: int, col: int, p: int, w: int)
    requires IsGrid(g) && IsGrid(h) && Filled(g, h, row, col, p) && g[row][col] == 0
    requires w != 0 && HasFour(g, w)
    ensures HasFour(h, w)
  {
    var r, c, d :| RunAt(g, w, r, c, d);
    forall i | 0 <= i < 4
      ensures InGrid(RowOf(r, d, i), ColOf(c, d, i)) && h[RowOf(r, d, i)][ColOf(c, d, i)] == w
    {
      assert g[RowOf(r, d, i)][ColOf(c, d, i)] == w;
    }
    assert RunAt(h, w, r, c, d);
  }

  // ---------------------------------------------------------------------
  // The game state and make_move
  // ---------------------------------------------------------------------

  /** The dictionary game_state of Connect4Server. */
  datatype GameState = GameState(board: Grid, currentPlayer: int, gameOver: bool, winner: Option<int>)

  /** The state a fresh Connect4Server starts in. */
  function InitialState(): GameState {
    GameState(EmptyGrid(), 1, false, None)
  }

  /** What make_move returns: the (success, message) pair, and the state it leaves. */
  datatype MoveResult = MoveResult(success: bool, message: string, state: GameState)

  /** What make_move promises about its result r on state s: success exactly
      when the column is in range and not full; each refusal has its message
      and leaves the state as it was; a success writes the player's mark into
      the landing cell and nothing else, hands the turn to 3 - player, and
      records the player as winner exactly when the new board has four in a row. */
  ghost predicate MoveSpec(s: GameState, player: int, column: int, r: MoveResult)
    requires IsGrid(s.board)
  {
    IsGrid(r.state.board) &&
    (r.success <==> 0 <= column < Cols && !ColumnFull(s.board, column)) &&
    (!(0 <= column < Cols) ==> r.message == "Invalid column" && r.state == s) &&
    (0 <= column < Cols && ColumnFull(s.board, column) ==>
       r.message == "Column is full" && r.state == s) &&
    (r.success ==> r.message == "Move successful" && r.state.currentPlayer == 3 - player) &&
    (r.success ==>
       exists row :: IsLanding(s.board, column, row) && Filled(s.board, r.state.board, row, column, player)) &&
    (r.success ==>
       if HasFour(r.state.board, player)
       then r.state.gameOver && r.state.winner == Some(player)
       else r.state.gameOver == s.gameOver && r.state.winner == s.winner)
  }

  /** make_move(player, column) on state s. Neither whose turn it is nor
      whether the game is over is consulted, and player is not checked. */
  function Move(s: GameState, player: int, column: int): (r: MoveResult)
    requires IsGrid(s.board)
    ensures IsGrid(r.state.board)
    ensures MoveSpec(s, player, column, r)
  {
    if column < 0 || column >= Cols then
      MoveResult(false, "Invalid column", s)
    else
      match LandingRow(s.board, column)
      case None => MoveResult(false, "Column is full", s)
      case Some(row) =>
        var board := Place(s.board, row, column, player);
        var won := ScanWins(board, player);
        ScanWinsIffHasFour(board, player);
        MoveResult(true, "Move successful",
                   GameState(board, 3 - player, if won then true else s.gameOver,
                             if won then Some(player) else s.winner))
  }

  /** MoveSpec leaves no freedom: any result that meets it is the one Move
      computes, so the contract of Move describes make_move completely. */
  lemma MoveSpecDetermines(s: GameState, player: int, column: int, r: MoveResult)
    requires IsGrid(s.board) && MoveSpec(s, player, column, r)
    ensures r == Move(s, player, column)
  {
    var m := Move(s, player, column);
    if r.success {
      var row1 :| IsLanding(s.board, column, row1) && Filled(s.board, r.state.board, row1, column, player);
      var row2 :| IsLanding(s.board, column, row2) && Filled(s.board, m.state.board, row2, column, player);
      LandingUnique(s.board, column, row1, row2);
      GridsEqual(r.state.board, m.state.board);
    }
  }

  /** The invariant every reachable game state keeps: the board has the
      right shape and obeys gravity, the game is over exactly when a winner
      is recorded, and a recorded non-zero winner still has four in a row. */
  ghost predicate Consistent(s: GameState) {
    IsGrid(s.board) && Gravity(s.board) &&
    (s.gameOver <==> s.winner.Some?) &&
    (s.winner.Some? && s.winner.value != 0 ==> HasFour(s.board, s.winner.value))
  }

  /** A fresh server is consistent, and no player other than 0 has four in a row. */
  lemma InitialConsistent()
    ensures Consistent(InitialState())
    ensures forall p :: HasFour(InitialState().board, p) ==> p == 0
  {
    var g := InitialState().board;
    forall p | HasFour(g, p)
      ensures p == 0
    {
      var r, c, d :| RunAt(g, p, r, c, d);
      assert g[RowOf(r, d, 0)][ColOf(c, d, 0)] == p;
    }
  }

  /** Every call of make_move, successful or not, keeps the invariant. */
  lemma MoveKeepsConsistent(s: GameState, player: int, column: int)
    requires Consistent(s)
    ensures Consistent(Move(s, player, column).state)
  {
    var r := Move(s, player, column);
    if r.success {
      var row :| IsLanding(s.board, column, row) && Filled(s.board, r.state.board, row, column, player);
      FillKeepsGravity(s.board, r.state.board, row, column, player);
      if !HasFour(r.state.board, player) && s.winner.Some? && s.winner.value != 0 {
        FillKeepsFour(s.board, r.state.board, row, column, player, s.winner.value);
      }
    }
  }
}

# Connect-Four game server: board engine

This project models the board engine of a small Connect-Four server: the
class `Connect4Server` in `server/server.py`. The server keeps one game
state with four entries:

- a board of 6 rows by 7 columns, with 0 for an empty cell and row 0 at the top;
- the current player;
- a game-over flag;
- the winner.

`check_winner(board, player)` looks for four equal marks in a row,
horizontally, vertically or on either diagonal. `make_move(player, column)`
works in four steps:

1. It checks the column.
2. It drops the mark into the lowest empty cell of that column.
3. It records a win if the move made one.
4. It hands the turn to `3 - player`.

The project has three modules:

- `Board` (`board.dfy`) is the pure model.
  - A `Grid` is a list of rows.
  - `HasFour` is the geometric win condition: some line of four cells, in one of four directions, holds the player's mark.
  - `ScanWins` is the scan `check_winner` performs, anchor by anchor. It is proved equivalent to `HasFour`.
  - `LandingRow` is the row `make_move` writes.
  - `Move` is the whole effect of `make_move` on the game state.
  - `Consistent` is the invariant every reachable state keeps: gravity, "game over exactly when a winner is recorded", and "a recorded non-zero winner still has four in a row".
- `Server` (`server.dfy`) is the object. `Connect4Server` has one field per entry of the game state. The board is a `seq<seq<int>>` field that `MakeMove` reassigns. `CheckWinner` runs the three nested-loop scans of `check_winner`, proved equal to `ScanWins` and to `HasFour`. `MakeMove` is the descending search loop, proved to leave exactly the state `Board.Move` describes and to keep `Valid()`.
- `Scenarios` (`scenarios.dfy`) holds concrete games played through `Move`, plus lemmas that record what `make_move` does not check.

The model follows the code as written:

- `make_move` does not check whose turn it is.
- It does not reject moves after the game is over.
- It does not detect a draw.
- It does not validate `player`.
- It sets the current player from the mover's number, not from the stored current player.

`make_move` has no game-over error: a move after a win is accepted (`Scenarios.VerticalWinScenario`). `Scenarios.PlayerZeroWinsOnEmptyBoard` shows that a "move" by player 0 on a fresh board is recorded as a win for 0. The polling client treats a column as available when its top cell is empty (player2/client.py:37), while `make_move` scans every cell of the column; `Board.FullIffTopOccupied` proves that the two tests agree on every board that obeys gravity.

## Model

`Board.ScanWins` is the scan `check_winner` performs and `Board.InitialState` is the state `__init__` builds; their properties are the rows for `Board.ScanWinsIffHasFour` and `Server.CheckWinner`, and for `Board.InitialConsistent` and the constructor. `Board.MoveSpec` is the contract of `Board.Move`, written once so that `Board.MoveSpecDetermines` can speak about it.

| member | source | states |
|---|---|---|
| `Server.Connect4Server.constructor` | server/server.py:8-14 | a fresh server has a 6 x 7 board of zeros, current player 1, game not over, no winner, and satisfies the invariant |
| `Board.EmptyGrid` | server/server.py:10 | the initial board has 6 rows of 7 cells, every one of them 0 |
| `Board.InitialConsistent` | server/server.py:9-14 | the initial state obeys gravity, is not over and has no winner; on the empty board only player 0 has four in a row |
| `Board.ScanHitIsFour` | server/server.py:17-40 | every test of check_winner that succeeds (horizontal, vertical, down-right, down-left at its anchor) is a line of four cells holding the player's mark |
| `Board.FourIsScanHit` | server/server.py:17-40 | every line of four marks on the board, in any of the four directions, starts at an anchor check_winner tests in that direction |
| `Board.ScanWinsIffHasFour` | server/server.py:17-40 | check_winner's scan succeeds if and only if some horizontal, vertical or diagonal line of four cells all hold the player's mark |
| `Server.CheckWinner` | server/server.py:17-40 | the nested scan with early return gives true exactly when a line of four exists; every index it reads lies in rows 0..5 and columns 0..6; it only reads the board |
| `Board.FullIffTopOccupied` | player2/client.py:35-37 | on a board that obeys gravity, a column has no empty cell exactly when its top cell (row 0) is occupied |
| `Board.LandingFrom` | server/server.py:49-50 | searching upwards from a row whose lower neighbours are occupied finds the lowest empty cell of the column, or nothing exactly when the whole column is occupied |
| `Board.LandingRow` | server/server.py:48-51 | the row make_move writes is empty and every row below it in that column is occupied; there is none exactly when every cell of the column is non-zero |
| `Board.LandingUnique` | server/server.py:49-51 | a column has at most one such landing row |
| `Board.Place` | server/server.py:51 | writing the mark changes the landing cell to the player's number and no other cell |
| `Board.FillKeepsGravity` | server/server.py:49-51 | dropping any mark onto the landing row keeps "every cell above an empty cell is empty" |
| `Board.FillKeepsFour` | server/server.py:49-56 | a line of four of a non-zero mark survives a later drop, so a recorded winner keeps its line |
| `Board.Move` | server/server.py:42-62 | make_move succeeds exactly when the column is in [0, 7) and not full; "Invalid column" and "Column is full" leave the whole state unchanged; on success the message is "Move successful", exactly the landing cell changes and holds the player, the current player becomes 3 - player, and game over and winner become true and the player when the new board has four in a row, otherwise keep their values |
| `Board.MoveSpecDetermines` | server/server.py:42-62 | the contract of Move leaves no freedom: any result meeting it (success flag, message, board, next player, game over, winner) is the one make_move produces |
| `Board.MoveKeepsConsistent` | server/server.py:42-62 | every call of make_move, successful or not, keeps gravity, "game over exactly when a winner is recorded" and "a non-zero winner has four in a row" |
| `Server.Connect4Server.MakeMove` | server/server.py:42-62 | the method returns the (success, message) pair of Board.Move and leaves exactly the state Board.Move gives; on success exactly one cell, the landing cell, changes; on failure nothing changes; the invariant is kept |
| `Scenarios.MoveLands` | server/server.py:49-60 | a move into a column whose landing row is known succeeds and writes exactly that cell |
| `Scenarios.MoveIgnoresTurnAndOutcome` | server/server.py:42-62 | success, message, new board and next player do not depend on the stored current player, game-over flag or winner |
| `Scenarios.LandingElsewhere` | server/server.py:49-51 | a drop into one column leaves the landing row of every other column where it was |
| `Scenarios.LandingAbove` | server/server.py:49-51 | a non-zero drop moves the column's landing row one up when the cell above is empty |
| `Scenarios.StackedFourWins` | server/server.py:25-28 | a mark dropped onto three marks of the same player in its column wins the game for that player |
| `Scenarios.VerticalOpening` | server/server.py:42-62 | after six alternating drops into columns 3 and 4 from the empty board, both columns have landing row 2 and column 3 holds player 1 in rows 3 to 5 |
| `Scenarios.VerticalWinScenario` | server/server.py:42-62 | player 1's fourth drop in column 3 sets game over with winner 1 and hands the turn to 2; a further move by player 2 is still accepted |
| `Scenarios.FullColumnScenario` | server/server.py:49-62 | six drops fill column 3; the seventh returns "Column is full" and leaves the state unchanged |
| `Scenarios.PlayerZeroWinsOnEmptyBoard` | server/server.py:49-59 | a move by player 0 on a fresh board succeeds, records game over with winner 0 and sets the current player to 3 |

## Left out

- The Flask routes `handle_move` and `get_game_state` (server/server.py:66-81) and `app.run` are HTTP and JSON plumbing. The model has no requests, no JSON and no module-level server instance.
- The `threading.Lock` (server/server.py:15, 43) is concurrency. `MakeMove` is one sequential, atomic step.
- Request values that are not integers are not modelled; the model takes `player` and `column` as unbounded integers. In the code a float `player` is accepted as a mark: it is stored in the cell (server/server.py:51) and `3 - player` becomes the current player (server/server.py:59). A missing or non-numeric `player` is written to the board, and `game_over` and `winner` may be set (server/server.py:51-56), before `3 - player` raises a TypeError at server/server.py:59; that partly changed state stays once the lock is released. A non-integer or missing `column` fails at the comparison (server/server.py:45) or the list index (server/server.py:50) before anything changes.
- `Server.CheckWinner` reads the board it is given as a value. Aliasing between that board and the server's dictionary is not modelled: the source shares the one list, and the method only reads it.
- `player2/client.py` is an HTTP polling client with random column choice and sleeps. Only its top-cell availability test is related to the model, through `Board.FullIffTopOccupied`.
- `app.py` is a separate message endpoint with no game logic.
- Matchmaking, sessions, turn enforcement, game-over rejection, draw detection and the bot driver do not exist in the code. They are not modelled.

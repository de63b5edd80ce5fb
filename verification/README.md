# Othello rules engine in Dafny

This project models the rules engine of a two-player console Othello
(Reversi) game. The engine is the part of `othello.py` that:

- builds the starting 8x8 board
- lists a player's legal moves by scanning the board row by row
- applies a move by placing a stone and flipping every bracketed line of
  opponent stones
- decides whether a player can move and whether the game is over
- counts the stones of each colour

A board is an 8x8 grid of cells. A cell is `Empty` or holds a `Stone` of
`Black` or `White`. A move at an empty square is legal when, in at least one
of the eight compass directions, one or more opponent stones lie next to
the square and are followed by a stone of the mover. Those opponent stones
are the ones the move flips.

The model is split into five modules:

- `Grid` (`grid.dfy`): players, cells, positions, the direction table, the
  8x8 board as a subset type, the starting position, and the row-major index
  of a square.
- `Legality` (`legality.dfy`): the engine's ray walk, its per-direction
  capture test, the legal-move scan and `has_valid_move`. Each is stated next
  to an independent reference definition of a capture line (`Brackets`) and
  of a legal move (`LegalSpec`), and proved equivalent to it.
- `Moves` (`moves.dfy`): `apply_move`, run as the engine runs it, one
  direction after another on the board the earlier directions have already
  changed. It is proved equal to the simultaneous reference: the played
  square and exactly the bracketed squares turn to the mover, and nothing
  else changes.
- `Scoring` (`scoring.dfy`): `count_pieces` as row-by-row sums, its
  agreement with a row-major count, the count changes caused by a move, and
  `game_over`.
- `Opening` (`opening.dfy`): facts about the board `create_board` returns:
  the score, Black's four opening moves in scan order, and the effect of the
  opening at row 2, column 3.

Python's in-place mutation of the board is modelled by functions that return
the new board: `apply_move` returns the pair (accepted, board after).
Coordinates are unbounded integers, so off-board squares can be passed to
the engine and are rejected there, as in the source.

## Model

| member | source | states |
|---|---|---|
| Grid.CreateBoard | othello.py:19-27 | Every on-board square of the returned board holds its starting value (InitialValue): White on (3,3) and (4,4), Black on (3,4) and (4,3), every other square empty. |
| Grid.InBoundsIsScanned | othello.py:30-31 | A square passes the bounds test exactly when it is one of the 64 squares the row and column loops of valid_moves visit, so the scan and the bounds test agree on what the board is. |
| Grid.Opponent | othello.py:34-35 | The opponent of a player is never that player. |
| Grid.OpponentInvolution | othello.py:34-35 | Taking the opponent twice gives back the original player. |
| Grid.DirectionsTable | othello.py:10-14 | The direction table lists each of the eight directions exactly once, and its offsets are exactly the eight non-zero pairs over {-1, 0, 1}. |
| Grid.SetCell | othello.py:61 | Writing one on-board square sets that square and leaves every other square unchanged. |
| Grid.RaysDisjoint | othello.py:45-51 | Two rays from one square in different directions share no square, and each square of a ray has a single distance, so the directions of one move never compete for a square. |
| Grid.KeyRoundTrip | othello.py:41-42 | The row-major index of the nested row and column loops is a bijection between the 64 squares and 0..63. |
| Legality.RayEnd | othello.py:46-51 | The opponent-stone walk stops at the first square that is off the board or not an opponent stone, and every square it passed is an on-board opponent stone. |
| Legality.RayEndExact | othello.py:46-51 | A walk over exactly the squares k..m-1 of opponent stones stops at distance m. |
| Legality.CapturesIff | othello.py:45-53 | The per-direction test (the walk moved at least once and stopped on an own stone) holds exactly when a capture line exists in that direction, and that line is unique. |
| Legality.AnyCaptureIff | othello.py:45-54 | The loop over the direction table, which stops at the first capturing direction, succeeds exactly when some listed direction captures. |
| Legality.LegalIff | othello.py:41-54 | The engine's legality test (an empty on-board square from which some direction captures) agrees with the reference definition of a legal move. |
| Legality.MovesFrom | othello.py:41-54 | The scan from index k returns exactly the legal squares at or after k, in strictly increasing row-major order. |
| Legality.ValidMoves | othello.py:38-55 | Every listed move is an empty on-board square; the list is in row-major order and has no duplicates. |
| Legality.ValidMovesSpec | othello.py:38-55 | A square is listed by valid_moves exactly when it is a legal move by the reference definition. |
| Legality.HasValidMove | othello.py:76-77 | A player can move exactly when some square is a legal move for them. |
| Moves.Segment | othello.py:64-69 | The squares collected along a direction are exactly the squares at distances 1..m along that ray. |
| Moves.Paint | othello.py:71-72 | Flipping a list of squares gives each of them the mover's stone and leaves every other square unchanged. |
| Moves.FlipDir | othello.py:63-72 | One direction's pass flips exactly the walked opponent stones when the walk ended on an own stone, and changes nothing otherwise. |
| Moves.InLineLocal | othello.py:64-70 | What a direction flips depends only on the squares of its own ray. |
| Moves.FlipDirFrame | othello.py:63-72 | Flipping in one direction leaves the ray of every other direction from the same square unchanged. |
| Moves.FlipDirsEffect | othello.py:63-72 | Running the direction loop in order flips exactly the union of the lines each direction finds on the board as it was before the loop. |
| Moves.InLineIff | othello.py:63-72 | The squares the engine flips are exactly the bracketed squares of the reference definition. |
| Moves.BracketedIsOpponent | othello.py:66-72 | Every bracketed square is on the board and holds an opponent stone. |
| Moves.PlacedLines | othello.py:61-72 | Placing the mover's stone first does not change which squares any direction flips, and the played square is never bracketed. |
| Moves.ApplyMove | othello.py:58-73 | apply_move reports success exactly when the move is legal, and an illegal move leaves the board unchanged. |
| Moves.ApplyMoveEffect | othello.py:58-73 | After a legal move the played square and every bracketed square hold the mover's stone, and every other square is unchanged. |
| Moves.ApplyMoveChanges | othello.py:58-73 | A legal move changes exactly the played square and the bracketed squares, each flipped square goes from the opponent to the mover, and at least one square is flipped. |
| Scoring.CountFrom | othello.py:84-87 | Counting from index k sees at most 64 - k squares. |
| Scoring.CountPartition | othello.py:84-87 | Every square is counted exactly once, as Black, White or empty. |
| Scoring.RowTail | othello.py:85-86 | Counting the rest of row r from column c and then the later rows equals the row-major count from square (r, c). |
| Scoring.RowsCountIsCount | othello.py:85-86 | Summing per-row counts from row r on equals the row-major count from the start of row r. |
| Scoring.CountPieces | othello.py:84-87 | The per-row sums are the board-wide counts of each colour, and Black plus White plus the empty squares is 64. |
| Scoring.TurnedReaches | othello.py:63-72 | A square that turns from x to y is counted by the turned-square count. |
| Scoring.MoverCountFrom | othello.py:58-73 | From index k on, the mover's stones after a move are the old ones, plus the turned ones, plus the played square. |
| Scoring.CountAfterTurning | othello.py:58-73 | From index k on, the opponent's stones after a move are the old ones minus the turned ones. |
| Scoring.EmptyCountFrom | othello.py:58-73 | From index k on, the empty squares after a move are the old ones minus the played square. |
| Scoring.MoveCounts | othello.py:58-73 | A legal move flips F >= 1 stones, raises the mover's count by 1 + F, lowers the opponent's by F and the empty count by 1. |
| Scoring.GameOver | othello.py:80-81 | The game is over exactly when neither player has a legal move. |
| Scoring.FullBoardIsOver | othello.py:80-81 | A board with no empty square ends the game. |
| Scoring.NoLineWithoutColour | othello.py:45-53 | No capture line exists when one colour has no stone on the board. |
| Scoring.MissingColourIsOver | othello.py:80-81 | A board on which one colour has no stone ends the game, even with empty squares left. |
| Opening.CreateBoardIsInitial | othello.py:19-27 | create_board returns the starting position. |
| Opening.InitialLines | othello.py:41-54 | In the starting position Black's capture lines are exactly the four single-stone lines onto the centre. |
| Opening.InitialLegal | othello.py:38-55 | In the starting position Black's legal moves are exactly (2,3), (3,2), (4,5) and (5,4). |
| Opening.MovesFromSkip | othello.py:41-44 | The scan passes over a stretch of squares none of which is legal without listing anything. |
| Opening.MovesFromHit | othello.py:52-54 | The scan from a legal square lists that square first. |
| Opening.InitialScan | othello.py:38-55 | valid_moves for Black in the starting position is [(2,3), (3,2), (4,5), (5,4)], in that order. |
| Opening.InitialValidMoves | othello.py:38-55 | valid_moves for Black on the board create_board returns is [(2,3), (3,2), (4,5), (5,4)]. |
| Opening.InitialCounts | othello.py:84-87 | The starting position scores (2, 2) with 60 empty squares. |
| Opening.InitialScore | othello.py:84-87 | count_pieces on the board create_board returns is (2, 2), with 60 empty squares. |
| Opening.OpeningFlips | othello.py:63-72 | Black's opening at (2,3) brackets only the White stone at (3,3). |
| Opening.OpeningEffect | othello.py:58-73 | In the starting position Black's opening at (2,3) is accepted, turns (3,3) to Black and leaves the score at (4, 1). |
| Opening.OpeningMove | othello.py:58-73 | On the board create_board returns, Black's opening at (2,3) is accepted, turns (3,3) to Black and leaves the score at (4, 1). |

## Left out

- print_board and main (othello.py:90 onwards): console output and the
  input loop are I/O and are not modelled.
- Cells are a datatype, not the one-character strings ".", "B" and "W".
  Python's opponent maps any string other than "W" to "W", so passing "."
  would give "W". The model has no such input, because a player is always
  Black or White.
- The board is a value, so there is no aliasing. apply_move returns the new
  board instead of changing its argument, and the (bool, board) pair carries
  both of Python's results.
- The model does not address running time. Python's membership test of the
  move in the list valid_moves returns is modelled as membership in the same
  list.
- Concrete positions: only the starting position and Black's opening at
  (2,3) are worked out square by square. Other positions are covered by the
  general lemmas, not by concrete scans.

# Chess rules engine, modelled in Dafny

This project models the rules engine of a two-player chess program: the
`GameBoard` class that holds the game state and decides move legality, and
the `Piece` objects it stores. The game state is:

- an 8×8 grid of optional pieces;
- the side to move;
- the en-passant target square, with −1, −1 meaning "none";
- an append-only move history.

On this state the engine provides:

- a legality predicate for each piece type, plus the path-clearance walk
  used by the sliding pieces;
- attack and check detection;
- the simulate-and-restore test that rejects moves which leave the mover's
  own king in check;
- the one mutator, `movePiece`, which handles en-passant capture, castling,
  automatic promotion to a queen, the new en-passant target, the history
  and the turn;
- checkmate and stalemate detection by exhaustive search.

The rules follow Article 3 of the FIDE Laws of Chess. Promotion is always to
a queen, as in the program.

## Layout

- `pieces.dfy`, module `Pieces`:
  - the colours (an enum) and `Opponent`;
  - the six piece types with their notation letters and display symbols;
  - the `Piece` class. Its type and colour are `const`; row, column and the
    "has moved" flag are mutable fields.
- `rules.dfy`, module `Rules`: the engine's rules as functions over a value
  `Position`. A position is a grid of `Cell`s (empty, or a piece value giving
  type, colour and the has-moved flag), the side to move and the en-passant
  target. There is one function or predicate per engine routine: the path
  walk, the per-type move rules, castling, attacks, `findKing`, the move
  simulation, `isValidMove`, the end-of-game predicates, the effect of
  executing a move (`Apply`) and the initial position.
- `game_board.dfy`, module `Game`: the `GameBoard` class.
  - It holds an `array2<Piece?>`, the side to move, the en-passant fields and
    a `seq<MoveRecord>` history.
  - A ghost grid `cells` mirrors the array cell by cell. `Abs()` gives the
    current `Position`.
  - Every method runs the program's loops and array writes. Its contract ties
    the result, or the new state, to the matching `Rules` function of the old
    state.
  - The read-only queries (`isValidMove`, `hasLegalMoves`, `isCheckmate`,
    `isStalemate`) write to the array during simulation. They are proved to
    leave every cell, every field and every piece object exactly as they were
    (`Restored`).
- `properties.dfy`, module `RulesProperties`: what the rules amount to:
  - `findKing` returns the first king in scan order;
  - `isPathClear` holds exactly when every square strictly between the two
    ends is empty;
  - each piece type's movement rule, in closed form;
  - the castling preconditions;
  - the effects of executing a move, of an en-passant capture and of
    castling;
  - checkmate and stalemate exclude each other;
  - in the initial position neither king is in check.

## Model

| member | source | states |
|---|---|---|
| Pieces.Opponent | src/GameBoard.java:447-449 | the opponent of a colour is the other colour |
| Pieces.NotationIdentifiesType | src/Piece.java:7-12 | each notation letter is one of K, Q, R, B, N, P, and the letter determines the piece type |
| Pieces.SymbolIsWhiteIff | src/Piece.java:25-27 | the type's symbol for a colour is the white symbol exactly when the colour is white, and the black one exactly when it is black |
| Pieces.Piece.constructor | src/Piece.java:36-41 | a new piece has the given type, colour, row and column, and has not moved |
| Pieces.Piece.SetPosition | src/Piece.java:49-53 | row and column become the arguments and the piece is marked as moved |
| Pieces.Piece.SetHasMoved | src/Piece.java:55-57 | the flag becomes the argument; row and column are unchanged |
| Pieces.Piece.Symbol | src/Piece.java:59-61 | the symbol is the type's white symbol exactly when the piece is white, otherwise the black one |
| Pieces.Piece.NotationLetter | src/Piece.java:63-65 | the letter is one of K, Q, R, B, N, P and names exactly this piece's type |
| Pieces.Piece.Copy | src/Piece.java:70-74 | a fresh piece with the same type, colour, row, column and flag |
| Rules.EmptyGrid | src/GameBoard.java:10 | a new board has no piece on any square |
| Rules.InitialGrid | src/GameBoard.java:25-53 | the starting grid holds, on each square, the piece of the standard starting position |
| Rules.FindKingFrom | src/GameBoard.java:392-402 | a king found by the scan is on the board |
| Rules.SimulationUndone | src/GameBoard.java:327-338 | putting back the origin, the target and the en-passant victim after the simulation gives the original grid again |
| Rules.ValidMoveCanApply | src/GameBoard.java:81-106 | a valid move only indexes squares on the board: the en-passant victim's square exists and a castling king has a piece in its corner |
| Game.NoMoveAnywhere | src/GameBoard.java:371-387 | if no square holds a piece of that colour with a valid move, the side has no legal move |
| Game.GameBoard.constructor | src/GameBoard.java:18-20 | a new board is in the initial position, white to move, no en-passant target, empty history; the board and all its pieces are newly allocated |
| Game.GameBoard.InitializeBoard | src/GameBoard.java:25-53 | turns an empty board into the starting position, with every piece's own row and column set to its square |
| Game.GameBoard.SetUpBackRank | src/GameBoard.java:27-34 | places rook, knight, bishop, queen, king, bishop, knight, rook of one colour on a row, changing no other square |
| Game.GameBoard.SetUpPawns | src/GameBoard.java:36-38 | places eight unmoved pawns of one colour on a row, changing no other square |
| Game.GameBoard.GetPiece | src/GameBoard.java:55-58 | null off the board; on the board, the piece in that cell, whose own row and column are that square |
| Game.GameBoard.SetCell | src/GameBoard.java:108-109 | one board write: only that cell changes |
| Game.GameBoard.PlaceNewPiece | src/GameBoard.java:125 | a newly allocated, unmoved piece of the given type and colour is put on the square; no other cell changes |
| Game.GameBoard.Shift | src/GameBoard.java:108-111 | the piece leaves its origin, stands on the target and is marked as moved; no other cell changes |
| Game.GameBoard.IsPathClear | src/GameBoard.java:289-303 | the `while` walk returns the path-clearance walk of the grid (see PathClearIff) |
| Game.GameBoard.IsValidRookMove | src/GameBoard.java:230-233 | same row or column, with a clear path |
| Game.GameBoard.IsValidBishopMove | src/GameBoard.java:235-240 | equal nonzero row and column distance, with a clear path |
| Game.GameBoard.IsValidQueenMove | src/GameBoard.java:225-228 | a rook move or a bishop move |
| Game.GameBoard.IsValidPawnMove | src/GameBoard.java:248-284 | the pawn rule of the current position, including the en-passant target (see PawnRule) |
| Game.GameBoard.FindKing | src/GameBoard.java:392-402 | the nested scan returns the first king of the colour, or none (see FindKingFromSpec) |
| Game.GameBoard.CanPieceAttack | src/GameBoard.java:424-445 | the attack rule for the piece: pawns attack diagonally forward only, and kings never castle |
| Game.GameBoard.IsSquareAttacked | src/GameBoard.java:407-419 | true exactly when some piece of the attacking colour can attack the square |
| Game.GameBoard.IsInCheck | src/GameBoard.java:346-350 | the square of the first king of that colour is attacked by the opponent; false with no king |
| Game.GameBoard.CanCastle | src/GameBoard.java:197-223 | the castling test of the current position (see CastlingRequirements) |
| Game.GameBoard.CastlingGapEmpty | src/GameBoard.java:210-214 | true exactly when every square of the row between the two columns is empty |
| Game.GameBoard.CastlingPathSafe | src/GameBoard.java:217-220 | true exactly when no square of the row from the king's origin to its destination, both included, is attacked |
| Game.GameBoard.IsValidKingMove | src/GameBoard.java:180-195 | one step in any direction, or an unmoved king moving two columns along its row when castling is allowed (see KingRule) |
| Rules.OnBoard | src/GameBoard.java:451-453 | a square is on the board exactly when row and column are both in 0..7; its row-by-row index 8·row+col is then in 0..63 |
| Rules.KnightShape | src/GameBoard.java:242-246 | the row and column distances are (2, 1) or (1, 2); such a move has Chebyshev distance 2 and is never along a row, column or diagonal |
| Game.GameBoard.IsPieceMoveLegal | src/GameBoard.java:161-178 | dispatches to the rule of the piece's type |
| Game.GameBoard.WouldLeaveKingInCheck | src/GameBoard.java:308-341 | the answer is whether the mover's king is in check on the simulated grid; afterwards the board, every field and every piece are as before |
| Game.GameBoard.SimulateMove | src/GameBoard.java:310-325 | the grid becomes the simulated grid: en-passant victim removed, mover moved; the removed pawn is returned |
| Game.GameBoard.UndoMove | src/GameBoard.java:328-338 | the origin, the target and, when a pawn was removed, its square get back their saved pieces |
| Game.GameBoard.IsValidMove | src/GameBoard.java:141-156 | valid exactly when the origin holds a piece, the target holds no piece of the same colour, the piece's rule allows the move and the move does not leave its king in check; the state is left as it was |
| Game.GameBoard.IsCheckmate | src/GameBoard.java:355-358 | in check and no legal move; the state is left as it was |
| Game.GameBoard.IsStalemate | src/GameBoard.java:363-366 | not in check and no legal move; the state is left as it was |
| Game.GameBoard.HasLegalMoves | src/GameBoard.java:371-387 | true exactly when some piece of the colour has some valid move; the state is left as it was |
| Game.GameBoard.PieceHasMove | src/GameBoard.java:374-383 | true exactly when the piece on that square has a valid move to some square |
| Game.GameBoard.MovePiece | src/GameBoard.java:68-136 | accepted exactly when the origin holds a piece of the side to move and the move is valid. On acceptance the state is the executed move (see ApplyEffects) and the history has grown by the one record of this move; a promotion leaves a newly allocated queen on the target. Any piece added to the set of pieces is newly allocated. On rejection the board, turn, en-passant target and history are unchanged |
| Game.GameBoard.ExecuteMove | src/GameBoard.java:75-133 | the new position is the executed move, the record of the move is appended, and a promoted pawn is replaced by a newly allocated queen |
| Game.GameBoard.MoveOnBoard | src/GameBoard.java:75-111 | en-passant removal, castling rook relocation and the move of the piece, with the captured piece and the two flags as in the record |
| Game.GameBoard.CaptureEnPassant | src/GameBoard.java:81-89 | on a pawn's diagonal move to an empty en-passant target, the pawn behind the target is removed and returned as the captured piece |
| Game.GameBoard.MoveCastlingRook | src/GameBoard.java:91-106 | for a king moving two columns, the corner rook of the king's row moves from column 7 to column 5 (towards higher columns) or from column 0 to column 3 (towards lower columns), whatever the king's own column, and is marked as moved |
| Game.GameBoard.FinishMove | src/GameBoard.java:113-133 | the en-passant target is set after a pawn double step and unset otherwise; a pawn on its last row is replaced by a newly allocated queen; the record is appended and the turn passes |
| RulesProperties.FindKingFromSpec | src/GameBoard.java:392-402 | the scan from a square finds the first king of that colour at or after it in row-by-row order, and finds none exactly when there is none |
| RulesProperties.FindKingNone | src/GameBoard.java:392-402 | findKing finds nothing exactly when no king of that colour is on the grid |
| RulesProperties.FindKingFirst | src/GameBoard.java:392-402 | a found king is a king of that colour, and no such king comes before it in scan order |
| RulesProperties.NoKingNoCheck | src/GameBoard.java:346-350 | with no king of that colour on the grid, that colour is not in check |
| RulesProperties.InCheckOfOnlyKing | src/GameBoard.java:346-350 | with a single king of that colour, check holds exactly when the opponent attacks its square |
| RulesProperties.InsideLine | src/GameBoard.java:289-303 | a square strictly inside a line is on the board and nearer to the end |
| RulesProperties.StepStaysOnLine | src/GameBoard.java:290-300 | one step of the walk lands on the end or strictly inside the line, one square nearer the end |
| RulesProperties.SameDistanceSameSquare | src/GameBoard.java:289-303 | two squares inside the same line at the same distance from its end are the same square |
| RulesProperties.ClearFromEmpty | src/GameBoard.java:296-300 | when the walk gets through, every square inside the line from the walk's square on is empty |
| RulesProperties.ClearFromBlocked | src/GameBoard.java:296-300 | when the walk is stopped, some square inside the line is occupied |
| RulesProperties.PathClearIff | src/GameBoard.java:289-303 | the path is clear exactly when every square strictly between the two ends is empty |
| RulesProperties.BishopRule | src/GameBoard.java:235-240 | a bishop may move exactly along a diagonal, a positive distance, with nothing in between |
| RulesProperties.RookRule | src/GameBoard.java:230-233 | a rook may move exactly along its row or column with nothing in between |
| RulesProperties.QueenRule | src/GameBoard.java:225-228 | a queen may move exactly along a row, a column or a diagonal with nothing in between |
| RulesProperties.KnightRule | src/GameBoard.java:242-246 | a knight may move exactly when the distances are (2, 1) or (1, 2), whatever stands between |
| RulesProperties.KingRule | src/GameBoard.java:180-195 | a king may move exactly one square in any direction, or, unmoved, two columns along its row when castling is allowed |
| RulesProperties.PawnRule | src/GameBoard.java:248-284 | direction +1 for white and −1 for black. A single step needs an empty target. A double step needs the start row and both squares empty. A diagonal step needs an enemy piece or the en-passant target. No other pawn move is allowed |
| RulesProperties.ValidMoveTarget | src/GameBoard.java:145-147 | a valid move never stays put and never lands on a piece of the mover's colour |
| RulesProperties.CastlingRequirements | src/GameBoard.java:190-223 | a valid castling move has an unmoved king not in check, an unmoved rook in the corner, an empty gap between them, and no attacked square from the king's origin to its destination |
| RulesProperties.ApplyEffects | src/GameBoard.java:108-133 | after a valid move: the origin is empty; the target holds the moved mover, or a new unmoved queen of its colour for a pawn on its last row; the turn has passed; the en-passant target is the skipped square after a double step and unset otherwise; squares the move does not write are unchanged |
| RulesProperties.EnPassantEffects | src/GameBoard.java:81-89 | an en-passant capture lands on an empty square and removes the pawn on the row the mover leaves (toRow−1 for white, toRow+1 for black) |
| RulesProperties.CastlingEffects | src/GameBoard.java:91-111 | when king origin, king target, rook home and rook target are four distinct squares (every castling move except 2→0, 3→1, 3→5, 5→3 and 5→7), castling leaves the king on its target and the rook moved from 7 to 5 or from 0 to 3, both marked as moved, with both home squares empty |
| RulesProperties.AttackRule | src/GameBoard.java:424-445 | a queen, rook, bishop or knight attacks exactly the squares it may move to; a king attacks exactly its neighbours, and each of those is also a king move; a pawn attacks exactly the two squares diagonally forward |
| RulesProperties.GameEndExclusive | src/GameBoard.java:355-366 | checkmate and stalemate never both hold; each means no legal move; no legal move means one of them |
| RulesProperties.NoKingNoCheckmate | src/GameBoard.java:346-358 | a side without a king is never checkmated |
| RulesProperties.InitialKings | src/GameBoard.java:25-53 | the initial grid has exactly one king of each colour, white on (0, 4) and black on (7, 4), and findKing finds them |
| RulesProperties.InitialKingSquareSafe | src/GameBoard.java:25-53 | in the initial grid no piece attacks the king square of the other side |
| RulesProperties.InitialNotInCheck | src/GameBoard.java:346-350 | in the initial position neither side is in check |

## Left out

- `printBoard` (console output) and `Piece.toString` (a debugging string) are not modelled.
- The Swing and JavaFX front ends are not part of this model. They only call
  the engine's public methods.
- The second piece hierarchy (`Board`, `King`, `Queen`, `Pawn`, `Bishop`,
  `Knight`, `Move`) is not part of this model. No front end calls it, and its
  base class is not available.
- The getters (`getType`, `getColor`, `getRow`, `getCol`, `hasMoved`,
  `getCurrentTurn`) are plain field reads of the classes.
- Colours are strings in the program and an enum here. So `getOpponent` and
  the colour comparisons never see a string other than "white" or "black".
- Game.GameBoard.MovePiece and Game.GameBoard.IsValidMove require the
  destination to be on the board. The program does not check it. With an
  off-board destination the program either returns false, because the
  piece's shape test fails, or indexes outside the array, in `isPathClear`
  or in `wouldLeaveKingInCheck`, which raises an exception. The model
  excludes both behaviours. Every caller passes squares 0..7, including
  `hasLegalMoves`. An off-board origin is handled as in the program
  (rejected).
- MoveRecord entries are never read by the program. The model appends each
  record, but proves nothing about the records beyond their fields at append
  time.
- `initializeBoard`, `movePiece`, `wouldLeaveKingInCheck`, `canCastle` and
  `hasLegalMoves` are each split into several methods that run consecutive parts of the single
  program method, in the same order.
- Game.GameBoard.IsValidMove, HasLegalMoves, IsCheckmate, IsStalemate and
  WouldLeaveKingInCheck do not promise that the heap is untouched. They
  promise that every cell holds the same piece object as before, and that
  every field and every piece's row, column and flag are as before.
- RulesProperties.CastlingEffects is stated only when the king's origin and
  target and the rook's home and target are four distinct squares. Five
  two-column king moves break this:
  - 2→0 and 5→7: the king would land on the rook's home square. Neither is
    ever a valid move. That square holds the castling rook. If the rook is of
    the king's colour, the move is rejected as landing on its own piece. If
    it is an enemy rook, the castling path is attacked, because a rook counts
    as attacking its own square (the zero-length rook move);
  - 3→1: the rook lands on the king's origin;
  - 3→5 and 5→3: the rook lands on the king's target, and the king's write
    then overwrites it.

  The program's writes are still modelled exactly by `Rules.Apply` in these
  cases, but the two pieces do not end on the squares the lemma names.
- Piece objects are modelled without the program's garbage collection. A
  promoted pawn stays in the ghost set of pieces, but no cell refers to it.

# Ultimate-Chess engine core in Dafny

This project models the chess engine of Ultimate-Chess, a Java Swing chess game. It covers the
board of `Square` objects, the piece objects (`Piece`, `Pawn`, `Knight`, `Bishop`, `Rook`, `Queen`,
`King`), the move record (`Move`) and the game logic of `Board`:

- move generation;
- the look-ahead filter `handleChecks`;
- committing a player's or the computer's move;
- check and uncheck of Kings;
- evaluation;
- the fail-hard alpha-beta search;
- undo, the fifty-move draw and the end-of-game test.

The model follows the Java code closely, quirks included, with one exception: the King's moves use
corrected castling scans, so the two King.java scan bugs listed under "## Findings" are modelled
beside the code but do not run in the game (see the end of that section).

How the model is built:

- **Position and store.** A `Position` (module `Grid`) is an 8x8 grid of optional references into
  a store of piece values. Java object identity survives as the store index. Every piece object
  ever created stays in the store, so a captured piece, a promoted Pawn and the pieces of an earlier
  game remain addressable, off the grid.
- **Squares.** A `Square` never moves, so it is represented by its coordinates `Sq(row, col)`
  (`Square.equals` compares exactly these).
- **Per-class modules.** `Square.addPiece` / `removePiece`, `Piece.setPosition`, `King.check` /
  `uncheck` and `Rook.castle` are functions on positions and pieces. Each `getValue` and
  `generateMoves` lives in the module of its class.
- **Loops as methods.** The loops of the source are `while` loops in methods:
  - the ray casts, the King's castling scans and probes;
  - handleChecks, the check and uncheck scans;
  - evaluate, checkEndOfGame;
  - alphaBetaMax and alphaBetaMin.

  Each method is proved equal to a recursive specification function that walks the same squares in
  the same order. The properties the source promises are proved as lemmas about those functions.
- **The `Board` class.** The class `Chess.Board` holds the mutable game state as fields: the
  position, the move history, the captured pieces, the turn, the game mode, the end-of-game flags,
  the selection and the search's choices. Its methods modify those fields. `Board.Inv` keeps every
  reference pointing into the store.
- **Look-ahead is not an exact round trip.** `setPosition` rewrites pawn flags even in look-ahead
  mode, so a probe or a search step does not restore the position exactly. Two relations state what
  it does restore:
  - `Similar`: the same grid, every piece equal up to the two pawn flags.
  - `SameLayout`: the same grid, and the same kind, colour and square for every piece.

Colours are 0 (White, the bottom side, moving up) and 1 (Black). `turn` is 1 for White and -1 for
Black, as in the source.

## Model

| member | source | states |
|---|---|---|
| Pieces.NewPiece | src/Piece.java:42-60 | a new piece stands on its original square, unmoved, uncaptured, not in check, no threats; `onOppositeSide` holds exactly for a Pawn created on row 1 (src/Pawn.java:41-57) |
| Pieces.SetPosition | src/Piece.java:102-145 | setPosition moves the piece to (row, column) and keeps its kind, colour, captured flag, original square, side and check state |
| Pieces.NonPawnHasMoved | src/Piece.java:135-140 | a non-Pawn is marked moved exactly when it already was, or the move is committed (not look-ahead) and off its original square |
| Pieces.UnmovedPawnFlags | src/Piece.java:118-131 | an unmoved Pawn becomes en-passant-capturable exactly on its double-step rank, and its moved flag compares the target with the column held before the call |
| Pieces.MovedPawnFlags | src/Piece.java:118-131 | a moved Pawn is unmoved again exactly when put back on its start rank; its en passant flag stays |
| Pieces.PawnOldColumnQuirk | src/Piece.java:118-125 | the same-column test reads the old column: an unmoved Pawn moved sideways on its start rank stays unmoved, and one put back from a neighbouring column is marked moved |
| Pieces.CastleTarget | src/Rook.java:221-230 | castle moves a Rook on column 7 to column 5 and one on column 0 to column 3 in the same row; any other column leaves it alone |
| Grid.SetCell | src/Square.java:117-160 | writing one square changes that square only and keeps the store |
| Grid.SetPiece | src/Piece.java:102-145 | rewriting one piece object changes that store entry only |
| Grid.AddPiece | src/Square.java:117-148 | addPiece changes only its own square and only the added piece's store entry |
| Grid.RemovePiece | src/Square.java:155-160 | removePiece empties the square, hands back what it held and changes nothing else |
| Grid.AddPieceOutcome | src/Square.java:117-148 | the three outcomes of addPiece: an empty square takes the piece (after setPosition); a piece of the other colour is replaced and handed back; a piece of the same colour stays and the position is unchanged |
| Grid.RemoveThenAdd | src/Square.java:117-160 | adding back what removePiece handed back restores the square |
| Grid.KingQueriesExclusive | src/Square.java:179-216 | containsOpponentKing and containsOwnKing never hold together, and on a King square exactly one of them holds |
| Grid.SquareAtInverse | src/Rook.java:87-98 | the row-major scan order visits every square once: index k is square (k / 8, k % 8) |
| Grid.CoreSetPosition | src/Piece.java:102-145 | a look-ahead setPosition changes nothing but the coordinates and the two pawn flags |
| Grid.SimilarConsistent | src/Square.java:117-160 | positions that agree up to pawn flags agree on whether every piece stands on the square it records |
| Grid.LayoutConsistent | src/Square.java:117-160 | the same for positions with the same layout |
| Grid.OpenToLayout | src/Square.java:117-148 | whether addPiece would take a piece on a square depends only on the layout |
| Setup.StartPosition | src/Board.java:220-282 | newGame builds a valid position with 32 new objects appended to the store; earlier objects are kept |
| Setup.StartLayout | src/Board.java:252-279 | square by square: Black's back rank and Pawns on rows 0 and 1, White's on rows 7 and 6, in the back-rank order Rook, Knight, Bishop, Queen, King, Bishop, Knight, Rook; rows 2 to 5 empty |
| Setup.StartMirror | src/Board.java:252-279 | the two sides start as mirror images across the middle of the board, with opposite colours |
| Setup.StartFresh | src/Board.java:227-254 | no piece object of an earlier game stands on the new board |
| Pawns.PawnValue | src/Pawn.java:63-70 | getValue is the base value plus the table entry of the piece's square, mirrored by row for Black |
| Pawns.PawnMovesExact | src/Pawn.java:82-223 | generateMoves returns exactly the one-step square when empty, the two-step square for an unmoved Pawn through two empty squares, the forward diagonals holding an opponent, and, on the two-player screen, the diagonals beside an opponent Pawn that has just double-stepped |
| Pawns.PawnAdvance | src/Pawn.java:97-106 | the one-step square is offered exactly when on the board and empty; the two-step square only together with it, for an unmoved Pawn, onto an empty square |
| Pawns.PawnDiagonals | src/Pawn.java:109-150 | a diagonal is offered only as a capture of an opponent or, on the two-player screen, as an en passant capture |
| Pawns.PawnNoOwnCapture | src/Pawn.java:82-223 | outside the two-player screen a Pawn is never offered a square held by its own colour, nor its own square |
| Knights.KnightValue | src/Knight.java:44-49 | getValue is base plus table, mirrored for Black |
| Knights.JumpMoves | src/Knight.java:59-208 | the guarded appends of generateMoves return at most one square per offset |
| Knights.KnightMovesExact | src/Knight.java:59-208 | generateMoves returns exactly the on-board knight's-move squares that are empty or hold an opponent |
| Knights.KnightMovesDistinct | src/Knight.java:59-208 | no square is returned twice, so a Knight has at most eight moves |
| Bishops.BishopValue | src/Bishop.java:48-59 | getValue is base plus table, mirrored for Black |
| Bishops.GenerateBishopMoves | src/Bishop.java:68-180 | the four loops of generateMoves return the four diagonal rays in source order |
| Bishops.BishopMovesGeometry | src/Bishop.java:68-180 | every square returned is on a diagonal through the Bishop, at least one step away, and open to it |
| Rooks.RookValue | src/Rook.java:48-57 | getValue is base plus table, mirrored for Black |
| Rooks.FindCheckedKing | src/Rook.java:80-98 | the King scan of generateMoves finds the threat list of the first King of the Rook's colour that is in check |
| Rooks.CheckedKingFound | src/Rook.java:87-98 | the scan finds a threat list exactly when some King of the Rook's colour is in check, and that list is the first such King's |
| Rooks.GenerateRookMoves | src/Rook.java:66-208 | generateMoves is the cut-off followed by the four orthogonal rays in source order |
| Rooks.RookCutoff | src/Rook.java:100-104 | with one King of the Rook's colour checked from more than one square, the Rook has no move; with that King out of check, it has its four rays |
| Rooks.RookMovesGeometry | src/Rook.java:106-208 | every square returned shares exactly one of the Rook's row and column and is open to it |
| Queens.QueenValue | src/Queen.java:47-54 | getValue is base plus table, mirrored for Black |
| Queens.GenerateQueenMoves | src/Queen.java:64-299 | the eight loops of generateMoves return the eight rays in source order |
| Queens.QueenMovesGeometry | src/Queen.java:64-299 | every square returned shares the Queen's row, column or a diagonal, is not its own square and is open to it |
| Rays.CastRay | src/Bishop.java:79-103 | one ray loop steps from the piece while on the board and not blocked, and returns the ray |
| Rays.RayStopsAtFirstBlocker | src/Bishop.java:79-103 | a ray is the front of its line up to the first occupied square, which it includes exactly when that square holds an opponent |
| Rays.RayGeometry | src/Queen.java:64-299 | every ray square is open to the piece and k unit steps from it, for some k from 1 to 8 |
| Rays.RoomShrinks | src/Bishop.java:79-103 | each step of a ray loop leaves less room on the board, so the loop ends |
| Attacks.GenerateNonKingMoves | src/Piece.java:274 | the virtual generateMoves of a non-King dispatches on the piece's kind |
| Attacks.NonKingMovesOnBoard | src/Pawn.java:82-223 | every square a non-King generator returns is on the board and is not the piece's own square |
| Attacks.NonKingMovesOpen | src/Knight.java:59-208 | outside the two-player screen no non-King generator offers a square held by the mover's colour |
| Attacks.ThreatenSquareScan | src/Square.java:225-271 | threatenSquare returns true exactly when some square holds a piece of another colour, neither King nor Rook, whose moves reach the square |
| Attacks.ThreatenSquareAttackers | src/Square.java:234-257 | only a Pawn, Knight, Bishop or Queen of another colour can threaten a square, and every such piece whose moves reach it does |
| Attacks.CheckAttacker | src/Square.java:234-246 | the test applied to one square of the scan |
| Attacks.ThreatenRowScan | src/Square.java:230-260 | one row of the scan stops at the first attacker |
| Attacks.NonKingMovesSimilar | src/Knight.java:59-208 | Knights, Bishops, Rooks and Queens generate the same moves in positions that differ only in pawn flags |
| Kings.KingValue | src/King.java:50-57 | getValue is base plus table, mirrored for Black |
| Kings.AroundNeighbours | src/King.java:199-218 | the eight probe offsets are the eight neighbours, each once; the odd ones are the diagonals |
| Kings.Check | src/King.java:65-71 | check appends the threat square and puts the King in check, changing nothing else |
| Kings.KingSideScan | src/King.java:157-176 | the king-side loop from column 5 returns exactly the corrected king-side targets |
| Kings.KingSideSquare | src/King.java:157-176 | one column of the king-side loop: it stops, or the targets grow and the scan goes on |
| Kings.QueenSideScan | src/King.java:178-195 | the queen-side loop from column 3 down returns exactly the corrected queen-side targets |
| Kings.QueenSideSquare | src/King.java:178-195 | one column of the queen-side loop, as for the king side |
| Kings.QueenSideStep | src/King.java:178-195 | the scan's recursion from one column to the next, with the threat test computed |
| Kings.KingSideTargets | src/King.java:154-176 | every king-side target is column j - 1 for an unmoved Rook on a column j the scan reached, needs the King out of check, and is free for the King |
| Kings.QueenSideTargets | src/King.java:154-195 | every queen-side target is column j + 2 for an unmoved, unthreatened Rook on a column j the scan reached, needs the King out of check, and is free for the King |
| Kings.KingSideCastleOffered | src/King.java:157-176 | the usual king-side castle is offered: columns 5 and 6 empty and unthreatened, an unmoved Rook on column 7, the King not in check |
| Kings.QueenSideCastleOffered | src/King.java:178-195 | the usual queen-side castle is offered: columns 1 to 3 empty, column 3 unthreatened, an unmoved and unthreatened Rook on column 0, the King not in check |
| Kings.NearThreatScan | src/King.java:237-268 | the first loop of a probe finds an opponent King on a neighbour, or an opponent Pawn on a diagonal neighbour, exactly when there is one |
| Kings.FarThreatScan | src/King.java:272-300 | the second loop finds a piece of the other colour, neither King nor Pawn, whose moves reach the probed square, exactly when there is one |
| Kings.UnderThreatScan | src/King.java:237-300 | the threat test of a probe is the two loops in that order |
| Kings.CheckFarAttacker | src/King.java:272-300 | the test applied to one square of the second loop |
| Kings.FarRowScan | src/King.java:272-300 | one row of the second loop stops at the first attacker |
| Kings.ProbeNeighbour | src/King.java:207-312 | one probe: the King is put on the neighbour, its square emptied, the threat test run, the board restored |
| Kings.KingProbeStep | src/King.java:199-316 | one turn of the probe loop keeps a neighbour open to the King when no threat was found |
| Kings.KingProbesStep | src/King.java:199-316 | the probe loop is the verdict on one neighbour followed by the rest probed on the board that probe left |
| Kings.ProbeNeighbours | src/King.java:199-316 | the probe loop over the eight neighbours equals its specification |
| Kings.KingProbes | src/King.java:199-316 | the probes leave a valid position that differs only in pawn flags, with the King back on its square |
| Kings.KingProbesExact | src/King.java:199-316 | the probe loop keeps exactly the safe neighbours of the position it started from, in order: earlier probes never change a later verdict |
| Kings.SafeNeighboursMembers | src/King.java:207-305 | a kept neighbour is on the board, open to the King, and the King standing there is under no threat |
| Kings.GenerateKingMoves | src/King.java:141-320 | King.generateMoves is the castling scans for an unmoved King on column 4, then the probes |
| Kings.KingMoves | src/King.java:141-320 | the King's moves leave a valid position that differs only in pawn flags |
| Kings.KingMovesCharacter | src/King.java:141-320 | a square is a King move exactly when it is a castling target (for an unmoved King on column 4) or a safe neighbour |
| Kings.GenerateMoves | src/Piece.java:274 | the virtual generateMoves for any piece |
| Kings.MovesOf | src/Piece.java:274 | only a King's generateMoves can change the position, and only in pawn flags |
| Kings.MovesOpen | src/King.java:141-320 | outside the two-player screen every generated square is the piece's own or open to it |
| Kings.MovesOnBoard | src/King.java:141-320 | every generated square of every piece is on the board |
| Kings.UncheckScan | src/King.java:86-103 | the first loop of uncheck leaves a valid position that differs only in pawn flags |
| Kings.UncheckScanMembers | src/King.java:86-103 | the loop collects only threat squares: every empty one, and one held by a Knight, Bishop, Rook or Queen exactly when its moves miss the King |
| Kings.Uncheck | src/King.java:76-113 | uncheck of a King not in check changes nothing, and always leaves a valid position |
| Kings.UncheckKing | src/King.java:76-113 | the King after uncheck, in terms of the squares the scan collects |
| Kings.UncheckOutcome | src/King.java:76-113 | uncheck keeps a subsequence of a duplicate-free threat list: empty squares leave it, a Knight, Bishop, Rook or Queen stays exactly when it still reaches the King; the King stays in check exactly when something is left |
| Kings.UncheckLayout | src/King.java:76-113 | uncheck changes only the King's threat list and check flag |
| Kings.NoThreatWithoutOpponents | src/Square.java:225-271 | with no piece of another colour, no square is threatened |
| Kings.ProbeVerdictSimilar | src/King.java:207-305 | a probe decides the same in positions that differ only in pawn flags |
| Probes.Lift | src/Board.java:1507-1509 | the first half of a probe (addPiece(piece, true) on the target, then removePiece on the source) keeps the store size |
| Probes.Restore | src/Board.java:1552-1555 | the second half (empty the target, put the piece back, put back what was taken) keeps the store size |
| Probes.RoundTrip | src/King.java:223-312 | a whole probe keeps the store size |
| Probes.LiftOpen | src/Board.java:1507-1509 | with the target open, the piece stands on the target recording it, its square is empty, what stood on the target is handed back, nothing else moved |
| Probes.LiftBlocked | src/Square.java:142-147 | with the target held by the same colour, addPiece refuses and the probe only takes the piece off |
| Probes.RoundTripRestores | src/Board.java:1507-1555 | a probe leaves a valid position with the piece back on its square; a probe to an open square restores the grid and every recorded square; a probe onto a piece of the mover's own colour leaves that piece off the grid |
| Probes.RoundTripOpen | src/Board.java:1507-1555 | the round trip to an open square restores the grid, and the pieces up to pawn flags |
| Probes.RoundTripBlocked | src/Board.java:1507-1555 | the round trip to a blocked square or the piece's own square |
| Probes.RoundTripStore | src/Board.java:1507-1555 | only the probed piece and the captured one go through setPosition |
| Probes.RoundTripOccupants | src/Board.java:1507-1555 | a probe brings no piece onto the grid |
| Probes.AddValid | src/Square.java:117-148 | adding a piece that is off the grid keeps every piece on the square it records |
| Probes.PlaceValid | src/Square.java:122-127 | a piece added to an empty square stands there and records it |
| Probes.RemoveValid | src/Square.java:155-160 | emptying a square keeps every remaining piece on its recorded square |
| Probes.LiftedOffGrid | src/Board.java:1552-1555 | once the target is emptied, the probed piece is on no square |
| Probes.CapturedOffGrid | src/Board.java:1552-1555 | the piece a probe captured is on no square until it is put back |
| Legality.KingHits | src/Board.java:1540-1547 | the innermost loop counts the attacker's moves holding a King of the mover's colour; zero exactly when none does |
| Legality.AddKingHits | src/Board.java:1540-1547 | the loop adds the move to the refused list once per such square |
| Legality.ExposureAt | src/Board.java:1519-1549 | a square counts exactly when it holds a non-King of the other colour whose moves land on such a King |
| Legality.ExposureAtScan | src/Board.java:1519-1549 | the scan's test at one square |
| Legality.ExposureSquareScan | src/Board.java:1519-1549 | one square of the board scan |
| Legality.ExposureScan | src/Board.java:1519-1549 | the board scan for one probed move adds the move once for every hit of the first exposing piece |
| Legality.ExposureFromExists | src/Board.java:1519-1549 | the scan from a square counts something exactly when a square from there on holds an exposer |
| Legality.ExposureMeaning | src/Board.java:1519-1549 | the scan refuses the move exactly when some piece exposes the King |
| Legality.RefusedMoves | src/Board.java:1503-1556 | the probe loop refuses only generated moves and leaves the piece on its square |
| Legality.HandleChecks | src/Board.java:1492-1563 | handleChecks keeps a subsequence of the generated moves and leaves the piece on its square |
| Legality.KeepsFlagsSetPosition | src/Piece.java:102-145 | a look-ahead setPosition that touches no pawn flag changes only the coordinates |
| Legality.ProbeExact | src/Board.java:1507-1555 | a probe to an open square restores the board exactly when no pawn flag is rewritten |
| Legality.RefusedMovesExact | src/Board.java:1503-1556 | with every probe restoring the board, a move is refused exactly when, with the piece moved there, some piece exposes the King |
| Legality.HandleChecksExact | src/Board.java:1492-1563 | with every probe restoring the board, handleChecks keeps a move exactly when it was generated and no opposing non-King can then take a King of the mover's colour; the board is left as it was |
| Legality.RefusedMovesSimilar | src/Board.java:1503-1556 | when every move is open to the piece, the probes leave a position that differs only in pawn flags |
| Legality.HandleGeneratedSimilar | src/Board.java:1492-1563 | outside the two-player screen, handleChecks over generated moves leaves a position that differs only in pawn flags, and every kept move is still open |
| Moves.NewMove | src/Move.java:34-91 | a Move records its squares and pieces; pawnMoved holds exactly when a Pawn moved, pieceCaptured exactly when a piece was taken |
| Moves.UndoBoard | src/Move.java:102-105 | undo's board half keeps the store |
| Moves.UndoBoardSquares | src/Move.java:102-105 | after undo the source square holds the moved piece, recording it; the destination holds the captured piece or is empty; every other square is as it was |
| Moves.RemoveCapturedAsWritten | src/Move.java:109 | capturedPieces.remove removes at most one entry, and only entries of the list |
| Moves.Undo | src/Move.java:98-111 | Move.undo restores the board and drops at most one captured entry, and only when the move captured |
| Moves.RemoveCapturedMembers | src/Move.java:109 | the intended removal takes exactly the restored piece off a duplicate-free list and keeps the rest in order |
| Moves.RemoveCapturedAgrees | src/Move.java:109 | the removal as written agrees with the intended one unless another captured piece is equal by Piece.equals |
| Moves.RecaptureUndoDropsWrongPiece | src/Move.java:109 | two pieces captured on one square: as written, undo drops the earlier one and leaves the restored piece listed as captured |
| Play.CheckAlong | src/Board.java:675-683 | the check loop keeps the layout, and any King it hands back is an opponent King |
| Play.CheckAlongOutcome | src/Board.java:675-683 | an opponent King on one of the squares is put in check with the threat appended once per square; every other piece is unchanged |
| Play.CheckFrom | src/Board.java:1872-1879 | generateMoves of the moved piece, then the check loop, keeps the layout |
| Play.UncheckKingsFrom | src/Board.java:687-703 | the loop that unchecks the first two Kings keeps the position valid |
| Play.UncheckKingsFromLayout | src/Board.java:687-703 | the uncheck loop keeps the layout |
| Play.UncheckKings | src/Board.java:1884-1899 | unchecking the first two Kings keeps the layout |
| Play.UncheckKingsQuiet | src/Board.java:687-703 | when no King is in check, the uncheck loop changes nothing |
| Play.ClearSquare | src/Board.java:1724-1740 | one turn of the clearing loop changes at most pawn flags |
| Play.ClearEnPassantFrom | src/Board.java:1724-1740 | the clearing loop changes at most pawn flags |
| Play.ClearEnPassantOutcome | src/Board.java:1724-1740 | every Pawn on the grid not equal to the last moved piece loses its en passant flag, and every other piece is unchanged |
| Play.ClearSquareStep | src/Board.java:1724-1740 | one turn of the clearing loop, stated so the rest of the loop finishes the job |
| Play.MarkCaptured | src/Piece.java:171-173 | capture marks the handed-back piece captured and changes nothing else |
| Play.RemoveTakesOff | src/Square.java:155-160 | emptying a piece's square takes it off the grid |
| Play.CastleRook | src/Board.java:1785-1822 | the castling branch moves a Rook found in the corner beside the King's target, and otherwise changes nothing |
| Play.CastleRookOutcome | src/Board.java:641-659 | with the Rook in its corner and the square beside the King empty, the Rook moves there and records it, and no other square changes |
| Play.Promote | src/Board.java:1829-1866 | promotion empties the square and puts a new piece of the chosen kind and colour there; the Pawn stays in the store, off the grid |
| Play.PromotionKind | src/Board.java:1853-1865 | the dialog choice 0 gives a Queen, 1 a Knight, 2 a Bishop and anything else a Rook; never a Pawn or King |
| Play.CastleStepOnlyForJumps | src/Board.java:633-635 | with the corrected test no step to a neighbour castles, and a two-column step does |
| Play.WestStepCastlesAsWritten | src/Board.java:1793-1794 | as written, a King step one square west, or straight up or down, passes the castling test, and a westward step onto column 2 moves the Rook from column 0 to column 3 |
| Play.ComputerPromotionAsWritten | src/Board.java:664-670 | as written, a Pawn moved to row 7 becomes a Queen of colour 1, whatever its own colour; otherwise nothing changes |
| Play.ComputerPromotion | src/Board.java:664-670 | intended: a Pawn reaching row 0 or 7 becomes a Queen of its own colour |
| Play.WhitePawnNotPromotedAsWritten | src/Board.java:664-670 | as written, a White Pawn reaching row 0 stays a Pawn, while the intended promotion gives a White Queen |
| Play.EnPassantCapture | src/Board.java:1744-1772 | a Pawn moving onto an empty square empties the square behind it and hands back what stood there, off the grid; otherwise nothing happens |
| Play.Make | src/Board.java:869-870 | the make step puts the piece on the target and hands back what stood there, off the grid |
| Play.Unmake | src/Board.java:952-966 | the unmake step brings back at most the piece the make took |
| Play.Made | src/Board.java:869-907 | the position a search step examines is valid and brings no piece onto the grid |
| Play.MakeUnmakeLayout | src/Board.java:869-966 | make, then any examination that keeps the layout, then unmake gives back the original layout |
| Play.OwnRookTargetDropsKingAsWritten | src/Board.java:869-870 | as written, making the king-side target offered onto the King's own Rook leaves the King off the grid |
| Commit.Land | src/Board.java:622-629 | landing a piece changes only the target square, and any piece handed back was the one on the target |
| Commit.LandOutcome | src/Board.java:622-629 | landing on an open square: the piece stands there recording it, what stood there is handed back, marked captured and off the grid, and no other piece changes |
| Commit.LiftThenLand | src/Board.java:622-629 | lifting from one square and landing on another: the source is empty, the target holds the piece, what was captured is marked and off the grid |
| Commit.CastlePhase | src/Board.java:631-659 | the castling branch keeps the position valid |
| Commit.CastlePhaseOutcome | src/Board.java:631-659 | the castling branch leaves the King on its target; when the Rook follows, its corner is emptied and it stands beside the King |
| Commit.ComputerLayout | src/Board.java:617-670 | the board half of makeComputerMove keeps the position valid and only grows the store |
| Commit.ComputerPlacement | src/Board.java:617-703 | the checks and unchecks that follow keep the layout makeComputerMove produced |
| Commit.ComputerSteps | src/Board.java:617-670 | the computer's move is: empty the source, land, the castling branch (King moving more than one column), the promotion as written |
| Commit.ComputerMoveCaptures | src/Board.java:622-629 | the computer's move onto an open square hands back what stood there, marked captured and off the grid |
| Commit.ComputerMoveSquares | src/Board.java:617-670 | after the computer's move the source is empty and the target holds the piece, or a new Black Queen when a Pawn reached row 7 |
| Commit.ComputerMoveRest | src/Board.java:631-659 | apart from the source, the target and, when castling, the Rook's two squares, the board is unchanged |
| Commit.PlayerLift | src/Board.java:1719-1772 | the player's move empties the source; on the two-player screen it also clears en passant flags and takes an en passant victim, marked captured |
| Commit.PlayerLandLayout | src/Board.java:1777-1866 | the player's landing keeps the position valid and only grows the store |
| Commit.PlayerLand | src/Board.java:1777-1899 | the checks and unchecks that follow keep the layout of the landing |
| Commit.LandAndMark | src/Board.java:1777-1790 | landing and marking a King moved: the target holds the piece, the captured piece is marked and off the grid, nothing else changes |
| Commit.PlayerSteps | src/Board.java:1777-1866 | the player's landing is: land, mark a King moved, the castling branch by the as-written test, promotion by the dialog choice on row 0 or 7 |
| Commit.PlayerLandCaptures | src/Board.java:1777-1783 | the landing onto an open square hands back what stood there, marked captured and off the grid |
| Commit.PlayerLandSquares | src/Board.java:1777-1866 | after the landing the target holds the piece, or a new piece of the chosen kind in the Pawn's colour on row 0 or 7; a King is marked moved |
| Commit.PlayerLandRest | src/Board.java:1785-1822 | apart from the target and, when castling, the Rook's two squares, the board is unchanged |
| Commit.PromoteKeepsOff | src/Board.java:1829-1866 | a promotion leaves a piece that is off the grid off it, and its store entry unchanged |
| Evaluation.Signed | src/Board.java:819-834 | an empty square adds nothing, a White piece its value, a Black piece minus its value |
| Evaluation.Evaluate | src/Board.java:783-843 | evaluate gives -100000 on checkmate with turn -1, +100000 on checkmate with turn 1, and the material balance otherwise |
| Evaluation.MaterialRemove | src/Board.java:819-834 | removing a piece changes the score of every suffix of the scan by exactly that piece's signed value |
| Evaluation.SignedRemove | src/Board.java:819-834 | emptying a square zeroes its contribution and leaves every other square's |
| Evaluation.EvaluateRemove | src/Board.java:819-834 | a capture changes the score by exactly the captured piece's signed value |
| Evaluation.MaterialLayout | src/Board.java:819-834 | positions with the same layout score the same |
| Evaluation.SignedLayout | src/Board.java:819-834 | the same for one square |
| Rules.CanUndo | src/Board.java:1174-1195 | undo is allowed only with a history and no undo just made; against the computer only with two moves and the parity of the player's colour; in two-player exactly with a move and no undo just made; never outside a game |
| Rules.NoisyMoveBlocksDraw | src/Board.java:1202-1225 | a Pawn move or capture among the last hundred moves rules the fifty-move draw out |
| Rules.QuietMoveKeepsDraw | src/Board.java:1202-1225 | a quiet move keeps a drawable game drawable |
| Rules.InsufficientMeaning | src/Board.java:1336-1462 | the nested tests of checkEndOfGame recognise exactly K v K, K v K+N, K v K+B (either way round) and K+B v K+B, whatever order the scan found the pieces in |
| Rules.SideShape | src/Board.java:1336-1462 | each side's shape in a material draw, read off the list in either order |
| Rules.FirstKingFrom | src/Board.java:1281-1304 | the King found is a King of the colour to move |
| Rules.FirstKingExists | src/Board.java:1281-1304 | a King is found exactly when one of that colour is on the board |
| Rules.LegalMoves | src/Board.java:1264-1276 | the moves left by handleChecks are generated moves, on the board, and the piece stays on its square |
| Rules.MobilityFrom | src/Board.java:1264-1276 | the mobility loop keeps the position valid |
| Rules.EndOfGame | src/Board.java:1249-1478 | checkEndOfGame keeps the position valid |
| Rules.EndOfGameOutcomes | src/Board.java:1249-1478 | the game goes on exactly when the side to move can move and the material suffices; checkmate or stalemate only when it cannot move, decided by whether its first King is in check; a material draw only when it can move and no Pawn is left |
| Search.Better | src/Board.java:944-950 | the better of two scores for the side to move is one of them and at least as good as both |
| Search.FoldExtremum | src/Board.java:944-950 | the improved bound is at least as good as the start and every score, and is the start or one of the scores |
| Search.FoldAppend | src/Board.java:856-969 | the fold over more children continues from where it stood |
| Search.FoldBelowLimit | src/Board.java:920-950 | when no child reaches the fixed bound, neither does the improved bound |
| Search.FailHardBounds | src/Board.java:920-975 | the fail-hard result lies in the window [alpha, beta] |
| Search.FailHardClamps | src/Board.java:920-975 | the result is the best score clamped into the window: min(beta, max(alpha, scores)) for White, max(alpha, min(beta, scores)) for Black |
| Search.FoldMoves | src/Board.java:944-950 | the bound moves exactly when some child beat every earlier bound |
| Search.RunningStep | src/Board.java:944-950 | a child that does not cut keeps the search running with the better bound |
| Search.CutStep | src/Board.java:920-943 | a child that reaches the fixed bound ends the search with that bound |
| Search.RunningDone | src/Board.java:971-975 | a search that runs out of children returns its improved bound |
| Minimax.Pick | src/Board.java:920-950 | setting the side's choice leaves the other side's choice alone |
| Minimax.MakeChild | src/Board.java:869-907 | the make step of a child keeps the layout of the plain make and hands back the same captured piece |
| Minimax.UnmakeChild | src/Board.java:952-966 | the unmake step keeps the layout of the plain unmake |
| Minimax.SearchValue | src/Board.java:845-1114 | the search hands back a position with the original layout and choices that fit it; at depth 0 it is the evaluation and changes nothing |
| Minimax.SearchValueResult | src/Board.java:845-1114 | at positive depth: the fail-hard result over the children's scores in search order, in the window; the side's choice is a move of its own piece, made exactly when the result differs from the starting bound |
| Minimax.SearchRun | src/Board.java:856-969 | the pass over the rows keeps the loop invariant |
| Minimax.RowsFrom | src/Board.java:856-969 | the rows from one on keep the invariant |
| Minimax.ColsFrom | src/Board.java:858-969 | the squares of a row keep the invariant |
| Minimax.ColsFromStep | src/Board.java:858-969 | one column of the row loop |
| Minimax.SquareRun | src/Board.java:860-864 | one square keeps the invariant |
| Minimax.PieceRun | src/Board.java:862-969 | one piece's moves keep the invariant |
| Minimax.PieceRunSteps | src/Board.java:862-864 | a piece's run searches the moves handleChecks keeps, on the board it leaves |
| Minimax.MovesFrom | src/Board.java:866-969 | the moves of a piece keep the invariant |
| Minimax.MoveStep | src/Board.java:866-969 | one move appends the child's score; on a cut, the fixed bound is the fail-hard result and the move becomes the side's choice; otherwise the bound is the better one and the best move is the old one or this one |
| Minimax.ChildValue | src/Board.java:869-966 | a child keeps the layout |
| Minimax.ChildValueSteps | src/Board.java:869-966 | a child is the make step, the search one level down, then the unmake step |
| Minimax.SoundLayout | src/Board.java:856-969 | the loop invariant depends only on the layout of the starting board |
| Engine.ProbeMove | src/Board.java:1507-1555 | one probe adds the move as often as the scan finds the King taken, and leaves the round-trip position |
| Engine.ProbeStep | src/Board.java:1503-1556 | one turn of the probe loop |
| Engine.ProbeMoves | src/Board.java:1503-1556 | the probe loop equals its specification |
| Engine.RemoveAll | src/Board.java:1560-1561 | the removal loop removes each refused move once, in order |
| Engine.HandleChecksScan | src/Board.java:1492-1563 | handleChecks equals its specification |
| Engine.UncheckSquare | src/Board.java:687-703 | one square of the uncheck loop |
| Engine.UncheckRow | src/Board.java:687-703 | one row of the uncheck loop |
| Engine.UncheckFirstKings | src/Board.java:687-703 | the uncheck loop equals its specification |
| Engine.CheckSquare | src/Board.java:675-683 | one square of the check loop |
| Engine.CheckKings | src/Board.java:675-683 | the check loop equals its specification |
| Engine.CheckFromScan | src/Board.java:1872-1879 | generate then check equals its specification |
| Engine.ClearEnPassantScan | src/Board.java:1724-1740 | the clearing loop equals its specification |
| Engine.LiftPlayerPiece | src/Board.java:1719-1772 | the first half of the player's move equals PlayerLift: the piece is off the grid and a victim is marked captured |
| Engine.LandPlayerPiece | src/Board.java:1777-1899 | the second half equals PlayerLand, and what it hands back is the opponent piece that stood on the target |
| Engine.PlaceComputerPiece | src/Board.java:617-703 | the board half of makeComputerMove equals ComputerPlacement, and what it hands back stood on the target |
| Engine.EvaluateBoard | src/Board.java:783-843 | evaluate equals its specification |
| Engine.MakeMove | src/Board.java:869-907 | the make half of a child equals MakeChild |
| Engine.UnmakeMove | src/Board.java:952-966 | the unmake half equals UnmakeChild |
| Engine.SearchChild | src/Board.java:869-966 | one child equals ChildValue |
| Engine.SearchMove | src/Board.java:866-969 | one move equals MoveStep |
| Engine.SearchSquare | src/Board.java:860-864 | one square equals SquareRun |
| Engine.SearchPiece | src/Board.java:862-969 | one piece equals PieceRun |
| Engine.SearchColumn | src/Board.java:858-969 | one column of the row loop |
| Engine.SearchRow | src/Board.java:858-969 | one row equals ColsFrom |
| Engine.AlphaBeta | src/Board.java:845-1114 | alphaBetaMax and alphaBetaMin equal SearchValue |
| Engine.UndoLast | src/Board.java:1128-1134 | one pop takes the last move back when it is undoable, and otherwise changes nothing |
| Engine.UndoValid | src/Move.java:98-111 | taking back an undoable move keeps every piece on the square it records |
| Engine.LegalMovesScan | src/Board.java:1264-1276 | generate then handleChecks equals LegalMoves |
| Engine.MobilitySquare | src/Board.java:1264-1276 | one square of the mobility loop |
| Engine.MobilityScan | src/Board.java:1264-1276 | the mobility loop equals its specification |
| Engine.FirstKingScan | src/Board.java:1281-1304 | the King loop equals its specification |
| Engine.MaterialScan | src/Board.java:1306-1462 | the material loop and classification equal InsufficientMaterial |
| Engine.EndOfGameScan | src/Board.java:1249-1478 | checkEndOfGame equals its specification |
| Chess.SelectOn | src/Board.java:1677-1711 | a selectable piece becomes the selection with its handled moves on offer; anything else changes nothing |
| Chess.WithTaken | src/Board.java:1777-1783 | a captured piece is appended to the captured list |
| Chess.ComputerCommit | src/Board.java:617-713 | makeComputerMove keeps every reference valid and only grows the store |
| Chess.ComputerTurn | src/Board.java:749-781 | playComputer (Black searches when turn is -1, White otherwise) keeps every reference valid |
| Chess.ComputerTurnMove | src/Board.java:749-781 | the computer's turn plays at most one move, the search's own choice of a piece of the side; with no choice the history and captured list stay |
| Chess.PlayerMove | src/Board.java:1717-1907 | the commit of the player's move keeps every reference valid |
| Chess.Pop | src/Board.java:1128-1134 | one pop shortens the history exactly when the last move is undoable |
| Chess.TakeBack | src/Board.java:1128-1134 | undo takes back at most one move, two against the computer, from the end of the history |
| Chess.TakeBackMoves | src/Board.java:1128-1134 | the pops equal TakeBack |
| Chess.CommitComputerMove | src/Board.java:617-713 | makeComputerMove on values equals ComputerCommit |
| Chess.PlayComputerTurn | src/Board.java:749-781 | playComputer on values equals ComputerTurn |
| Chess.CommitPlayerMove | src/Board.java:1717-1907 | the player's move on values equals PlayerMove |
| Chess.AnswerPlayerMove | src/Board.java:2013-2174 | a player's move against the computer on values: PlayerMove's values, then ComputerTurn on them with the turn passed to the computer, every reference kept valid |
| Chess.Board.constructor | src/Board.java:135-212 | the main screen: no piece, no game mode, White to move, no history or captured pieces, no end of game, undo, draw or pending move, no search choices and no selection |
| Chess.Board.ClearGame | src/Board.java:227-245 | newGame's flags: White to move, no history, no captures, no end of game |
| Chess.Board.NewGame | src/Board.java:220-282 | the position is the starting position built on the old store, with the flags cleared; the selection and the game mode stay |
| Chess.Board.Evaluate | src/Board.java:783-843 | evaluate on the board's state |
| Chess.Board.CanDrawGame | src/Board.java:1202-1225 | canDrawGame on the board's state |
| Chess.Board.DrawGame | src/Board.java:1230-1240 | a drawable game ends as a declared draw; otherwise nothing changes |
| Chess.Board.HandleChecks | src/Board.java:1492-1563 | handleChecks on the board's position |
| Chess.Board.CheckEndOfGame | src/Board.java:1249-1478 | checkEndOfGame sets gameOver and endGameType on the board's position |
| Chess.Board.StartTwoPlayer | src/Board.java:1604-1610 | the two-player button starts a new game between two players: the starting position, White to move, no history, captured pieces, end of game, undo, draw, pending move or search choices; the selection stays as it was |
| Chess.Board.StartVsComputer | src/Board.java:1616-1664 | the difficulty and colour screens start a game against the computer with no end of game, undo, draw or pending move and the selection as it was; for White the starting position with White to move, no history, captured pieces or search choices; for Black the state is ComputerTurn from the starting position, and Black is to move |
| Chess.Board.SetGame | src/Board.java:104-109 | replaces the position, history and captured list |
| Chess.Board.SetSearch | src/Board.java:116-121 | replaces the position and the search's choices |
| Chess.Board.MakeComputerMove | src/Board.java:617-713 | makeComputerMove on the board's state equals ComputerCommit |
| Chess.Board.PlayComputer | src/Board.java:749-781 | the state becomes ComputerTurn's, the turn flips and playerMoveMade is cleared |
| Chess.Board.SetAfterTurn | src/Board.java:749-781 | the position, history, captured list and search choices playComputer replaces; every other field stays |
| Chess.Board.PassTurn | src/Board.java:774-779 | the turn passes and no player move is pending, the invariant kept |
| Chess.Board.SelectPiece | src/Board.java:1677-1711 | a selectable piece becomes the selection; any other click changes nothing |
| Chess.Board.MovePiece | src/Board.java:1717-1918 | a move is made exactly when the target is on offer and the source still holds the selection; then the state is PlayerMove's, the turn flips and playerMoveMade records play against the computer; otherwise the game is unchanged; the selection is cleared in every case |
| Chess.Board.SetAfterMove | src/Board.java:1904-1907 | the fields the player's move replaces |
| Chess.Board.ClearSelection | src/Board.java:1914-1918 | clears the selection and nothing else |
| Chess.Board.Click | src/Board.java:1667-2183 | with no game mode, or out of the player's turn against the computer, the position, selection and history stay; with no selection the click selects as SelectPiece states (the history, captured list and turn kept); with a selection a move refused leaves position, history, captured list and turn as they were, a two-player move gives PlayerMove's state with the turn passed, and a move against the computer gives ComputerTurn applied to PlayerMove's state with the turn back to the player; the selection is cleared after every move attempt |
| Chess.Board.MoveAndAnswer | src/Board.java:2013-2183 | against the computer, a move on offer is made and answered at once: the state is ComputerTurn applied to PlayerMove's state, the turn is the player's again, the move can be undone and the selection is cleared |
| Chess.Board.SetAfterAnswer | src/Board.java:2158-2174 | the fields the player's move and the computer's answer replace, with the turn and the game mode kept |
| Chess.Board.Undo | src/Board.java:1122-1166 | a refused undo changes nothing; otherwise TakeBack, the turn handed back in two-player play, the first two Kings unchecked and the end of game judged again |
| Chess.Board.SetAfterUndo | src/Board.java:1122-1166 | the fields undo replaces |

## Left out

- Painting, highlighting, animation (`moveAPiece`, `delay`), images, dialogs, statistics, the menu
  buttons and the frame (`ChessMain`) are left out: they are user interface, not engine.
- Piece.capture: only the captured flag is modelled; the display offsets are user interface.
- Move.toString and Piece.toString are left out (text for display).
- Chess.Board.Click: the promotion dialog's answer is a parameter (`choice`), so user input is not
  modelled.
- Chess.Board.Click: the vs-computer path answers a player's move at once. This folds the
  `playComputer` call at src/Board.java:2174 into the same click.
- Chess.Board: the static `turn` and `twoPlayerScreen` of the source are a field of the class and a
  parameter of the generators.
- Java `int` arithmetic is unbounded here. Integer.MIN_VALUE and Integer.MAX_VALUE are constants of
  the window. Scores never come near the bounds, so overflow is not modelled.
- Grid.AddPiece requires an occupied square when the added reference is null. In the source,
  `addPiece(null)` on an empty square throws a NullPointerException (setPosition on null,
  src/Square.java:125), so that path is not modelled.
- Pawns.PawnMoves skips a square off the board. This applies to the double step of an unmoved Pawn
  on row 1 moving up or row 6 moving down, and to the en passant target. In the source these
  indexes would throw an ArrayIndexOutOfBoundsException; in reachable games they do not occur.
- Commit.PlayerLift and Play.EnPassantCapture skip a passed square off the board. The source would
  index outside the array there.
- Chess.Board.Undo pops a move only when it is undoable. Undoable means the moved piece stands only
  on its destination and the captured piece is off the grid. The source pops one move, or two
  against the computer, unconditionally (src/Board.java:1128-1134). In reachable games the guard
  should always hold, but that game invariant is not proved, so this contract is weaker than the
  source there.
- Engine.UndoLast and Chess.Pop carry the same guard, for the same reason.
- Chess.Board.PlayComputer skips the move when the search chose none. In the source,
  `makeComputerMove(null, …)` throws a NullPointerException at src/Board.java:622, so the turn
  change after it never runs. The model still flips the turn.
- Chess.Board.MovePiece refuses the move (made is false) when the source square no longer holds the
  selected piece; the source moves the piece without checking. The case is reachable: the Undo and
  New Game buttons (src/Board.java:1928-1935 and 2191-2200) leave the selection and the moves on
  offer as they are. The model then clears the selection and changes nothing else. Chess.Board.Click
  applies the same test before Chess.Board.MoveAndAnswer against the computer.
- Look-ahead probes and search steps restore the position only up to pawn flags (Similar /
  SameLayout). The model states exactly that; it does not claim an exact restore.
- Legality.HandleChecksExact is stated for the case where every probe restores the board exactly.
  When a probe rewrites a pawn flag, only Legality.HandleChecks's subsequence property and
  Legality.HandleGeneratedSimilar are proved.
- Kings.UncheckOutcome describes threat squares that hold a Knight, Bishop, Rook or Queen, or are
  empty. Squares holding a King or Pawn are kept or dropped by whatever that piece's generateMoves
  returns, and are covered only by Kings.UncheckScanMembers.

## Findings

| source | as written | input that shows it | evidently intended | confidence | as-written member | corrected member |
|---|---|---|---|---|---|---|
| src/Move.java:109 | `capturedPieces.remove(pieceRemoved)` finds the entry through Piece.equals (row, column, captured flag) | two pieces captured on (3, 4); undoing the second capture | remove the restored piece itself | not executed | Moves.RecaptureUndoDropsWrongPiece | Moves.RemoveCapturedMembers |
| src/Board.java:1793-1794 | the player's King move castles when `to.col - from.col != Math.abs(1)` | King from (r, 3) to (r, 2) with a Rook on (r, 0): the Rook jumps to (r, 3) | castle only when the King moves more than one column | not executed | Play.WestStepCastlesAsWritten | Play.CastleStepOnlyForJumps |
| src/Board.java:664-670 | the computer promotes only a Pawn reaching row 7, always to a colour-1 Queen | the computer plays White and a White Pawn reaches row 0 | a Pawn reaching its last row becomes a Queen of its own colour | not executed | Play.WhitePawnNotPromotedAsWritten | Play.ComputerPromotion |
| src/King.java:182-188 | the queen-side scan offers column i + 2 without looking at it | King on (7, 4), unmoved Rook on (7, 3), own Bishop on (7, 5): column 5 is offered | a Rook offers column i + 2 only when that square is free for the King (the scan then goes on as before); a Rook whose target is not free ends the scan | not executed | Kings.QueenSideOffersOwnPieceAsWritten | Kings.QueenSideTargets |
| src/King.java:161-169 | the king-side scan offers column i - 1 without looking at it, so a second unmoved Rook behind the first offers the first Rook's square | King on (7, 4), unmoved Rooks on (7, 5) and (7, 6): (7, 5) is offered, and making it drops the King from the grid | a Rook offers column i - 1 only when that square is free for the King (the scan then goes on as before); a Rook whose target is not free ends the scan | not executed | Kings.KingSideOffersOwnRookAsWritten | Kings.KingSideTargets |

Where the model runs each version:

- Moves.Undo, and so the undo path, uses the removal as written.
- The player's path (Commit.PlayerLandLayout) uses the as-written castling test.
- The computer's path (Commit.ComputerLayout) uses the `|Δcol| > 1` test of src/Board.java:633-635
  and the promotion as written.
- Kings.KingMoves uses the corrected castling scans. Every use of the King's moves goes through it:
  Legality.HandleChecks, Rules.EndOfGame and Rules.MobilityFrom, Minimax.PieceRun and so the search,
  and Chess.Board.SelectPiece. These differ from src/King.java:157-195 exactly when an unmoved Rook
  (of either colour, since the source does not test the Rook's colour) stands on the King's row
  and its castling target is not free for the King. That takes a promoted Rook on columns 1-3 or 5-6.

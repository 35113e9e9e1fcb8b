/** Pawn: its score table, getValue and generateMoves. */
module Pawns {
  import opened Wrappers
  import opened Pieces
  import opened Grid
  import opened Scores

  const PawnBase := 100

  const PawnTable: seq<seq<int>> := [
    [0, 0, 0, 0, 0, 0, 0, 0],
    [50, 50, 50, 50, 50, 50, 50, 50],
    [10, 10, 20, 30, 30, 20, 10, 10],
    [5, 5, 10, 27, 27, 10, 5, 5],
    [0, 0, 0, 25, 25, 0, 0, 0],
    [5, -5, -10, 0, 0, -10, -5, 5],
    [5, 10, 10, -25, -25, 10, 10, 5],
    [0, 0, 0, 0, 0, 0, 0, 0]]

  /** Pawn.getValue */
  function PawnValue(p: Piece): (v: int)
    requires OnGrid(p)
    ensures p.color == White ==> v == PawnBase + PawnTable[p.row][p.column]
    ensures p.color != White ==> v == PawnBase + PawnTable[7 - p.row][p.column]
  {
    Score(PawnBase, PawnTable, p)
  }

  /** The row step of a pawn: down the board (+1) for one that started on
    * row 1, up the board (-1) otherwise. */
  function Forward(p: Piece): int
  {
    if p.onOppositeSide then 1 else -1
  }

  function OneStep(p: Piece): Sq
  {
    Sq(p.row + Forward(p), p.column)
  }

  function TwoStep(p: Piece): Sq
  {
    Sq(p.row + 2 * Forward(p), p.column)
  }

  /** The forward diagonal on one side (side is -1 for the lower column,
    * +1 for the higher). */
  function Diagonal(p: Piece, side: int): Sq
  {
    Sq(p.row + Forward(p), p.column + side)
  }

  predicate HoldsOpponent(pos: Position, t: Sq, p: Piece)
  {
    ContainsPiece(pos, t) && !IsSameColor(At(pos, t).value, p)
  }

  /** The same-row neighbour on that side is an opposite-coloured pawn that
    * has just made its double step. */
  predicate EnPassantVictim(pos: Position, p: Piece, side: int)
  {
    var n := Sq(p.row, p.column + side);
    InBounds(n) && ContainsPiece(pos, n) && At(pos, n).value.kind == Pawn &&
    !IsSameColor(At(pos, n).value, p) && At(pos, n).value.enPassantPossible
  }

  /** The single step onto an empty square, then the double step of an
    * unmoved pawn when that square is empty too. */
  function Advance(pos: Position, p: Piece): seq<Sq>
  {
    if InBounds(OneStep(p)) && !ContainsPiece(pos, OneStep(p)) then
      [OneStep(p)] +
      (if !p.hasMoved && InBounds(TwoStep(p)) && !ContainsPiece(pos, TwoStep(p)) then [TwoStep(p)] else [])
    else []
  }

  function Capture(pos: Position, p: Piece, side: int): seq<Sq>
  {
    if InBounds(Diagonal(p, side)) && HoldsOpponent(pos, Diagonal(p, side), p) then [Diagonal(p, side)] else []
  }

  function EnPassant(pos: Position, p: Piece, side: int): seq<Sq>
  {
    if EnPassantVictim(pos, p, side) && InBounds(Diagonal(p, side)) then [Diagonal(p, side)] else []
  }

  /** Pawn.generateMoves; en passant only in the two-player game. */
  function PawnMoves(pos: Position, p: Piece, twoPlayer: bool): seq<Sq>
  {
    Advance(pos, p) + Capture(pos, p, -1) + Capture(pos, p, 1) +
    (if twoPlayer then EnPassant(pos, p, -1) + EnPassant(pos, p, 1) else [])
  }

  /** The squares a pawn may reach, stated square by square. */
  predicate PawnReaches(pos: Position, p: Piece, twoPlayer: bool, t: Sq)
  {
    InBounds(t) &&
    ((t == OneStep(p) && !ContainsPiece(pos, t)) ||
     (t == TwoStep(p) && !p.hasMoved && InBounds(OneStep(p)) && !ContainsPiece(pos, OneStep(p)) &&
      !ContainsPiece(pos, t)) ||
     (t == Diagonal(p, -1) && (HoldsOpponent(pos, t, p) || (twoPlayer && EnPassantVictim(pos, p, -1)))) ||
     (t == Diagonal(p, 1) && (HoldsOpponent(pos, t, p) || (twoPlayer && EnPassantVictim(pos, p, 1)))))
  }

  /** generateMoves returns exactly the squares PawnReaches describes. */
  lemma PawnMovesExact(pos: Position, p: Piece, twoPlayer: bool, t: Sq)
    ensures t in PawnMoves(pos, p, twoPlayer) <==> PawnReaches(pos, p, twoPlayer, t)
  {
  }

  /** The one-step square is returned exactly when it is on the board and
    * empty; the two-step square only together with the one-step square, for
    * an unmoved pawn, onto an empty square. */
  lemma PawnAdvance(pos: Position, p: Piece, twoPlayer: bool)
    ensures OneStep(p) in PawnMoves(pos, p, twoPlayer) <==>
              InBounds(OneStep(p)) && !ContainsPiece(pos, OneStep(p))
    ensures TwoStep(p) in PawnMoves(pos, p, twoPlayer) ==>
              OneStep(p) in PawnMoves(pos, p, twoPlayer) && !p.hasMoved && !ContainsPiece(pos, TwoStep(p))
  {
    PawnMovesExact(pos, p, twoPlayer, OneStep(p));
    PawnMovesExact(pos, p, twoPlayer, TwoStep(p));
  }

  /** Outside the two-player game a diagonal square is returned only as the
    * capture of an opposite-coloured piece; in it, also as an en passant
    * capture beside an opposite-coloured pawn that has just double-stepped. */
  lemma PawnDiagonals(pos: Position, p: Piece, twoPlayer: bool, side: int)
    requires side == -1 || side == 1
    ensures Diagonal(p, side) in PawnMoves(pos, p, twoPlayer) ==>
              HoldsOpponent(pos, Diagonal(p, side), p) || (twoPlayer && EnPassantVictim(pos, p, side))
    ensures !twoPlayer && Diagonal(p, side) in PawnMoves(pos, p, twoPlayer) ==> HoldsOpponent(pos, Diagonal(p, side), p)
  {
    PawnMovesExact(pos, p, twoPlayer, Diagonal(p, side));
  }

  /** A pawn never lands on a piece of its own colour, except that en passant
    * targets are not inspected at all. */
  lemma PawnNoOwnCapture(pos: Position, p: Piece, t: Sq)
    requires t in PawnMoves(pos, p, false)
    ensures OpenTo(pos, t, p) && t != SquareOf(p)
  {
    PawnMovesExact(pos, p, false, t);
  }
}

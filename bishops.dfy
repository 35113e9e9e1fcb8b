/** Bishop: its score table, getValue and generateMoves. */
module Bishops {
  import opened Wrappers
  import opened Pieces
  import opened Grid
  import opened Scores
  import opened Rays

  const BishopBase := 350

  const BishopTable: seq<seq<int>> := [
    [-20, -10, -10, -10, -10, -10, -10, -20],
    [-10, 0, 0, 0, 0, 0, 0, -10],
    [-10, 0, 5, 10, 10, 5, 0, -10],
    [-10, 5, 5, 10, 10, 5, 5, -10],
    [-10, 0, 10, 10, 10, 10, 0, -10],
    [-10, 10, 10, 10, 10, 10, 10, -10],
    [-10, 5, 0, 0, 0, 0, 5, -10],
    [-20, -10, -40, -10, -10, -40, -10, -20]]

  /** Bishop.getValue */
  function BishopValue(p: Piece): (v: int)
    requires OnGrid(p)
    ensures p.color == White ==> v == BishopBase + BishopTable[p.row][p.column]
    ensures p.color != White ==> v == BishopBase + BishopTable[7 - p.row][p.column]
  {
    Score(BishopBase, BishopTable, p)
  }

  /** The four diagonal rays in the order generateMoves casts them. */
  function BishopMoves(pos: Position, p: Piece): seq<Sq>
  {
    Ray(pos, p, -1, 1) + Ray(pos, p, -1, -1) + Ray(pos, p, 1, -1) + Ray(pos, p, 1, 1)
  }

  /** Bishop.generateMoves */
  method GenerateBishopMoves(pos: Position, p: Piece) returns (moves: seq<Sq>)
    ensures moves == BishopMoves(pos, p)
  {
    var upRight := CastRay(pos, p, -1, 1);
    var upLeft := CastRay(pos, p, -1, -1);
    var downLeft := CastRay(pos, p, 1, -1);
    var downRight := CastRay(pos, p, 1, 1);
    moves := upRight + upLeft + downLeft + downRight;
  }

  /** Every returned square is on a diagonal through the bishop, not its own
    * square, on the board, and empty or held by the other colour. */
  lemma BishopMovesGeometry(pos: Position, p: Piece, t: Sq)
    requires t in BishopMoves(pos, p)
    ensures OpenTo(pos, t, p)
    ensures Abs(t.row - p.row) == Abs(t.col - p.column) >= 1
  {
    var dr, dc :| (dr, dc) in [(-1, 1), (-1, -1), (1, -1), (1, 1)] && t in Ray(pos, p, dr, dc);
    RayGeometry(pos, p, dr, dc, t);
  }
}

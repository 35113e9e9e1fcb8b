/** Rook: its score table, getValue, generateMoves (with the cut-off when its
  * King is checked from more than one square) and castle. */
module Rooks {
  import opened Wrappers
  import opened Pieces
  import opened Grid
  import opened Scores
  import opened Rays

  const RookBase := 500

  const RookTable: seq<seq<int>> := [
    [20, 20, 20, 20, 20, 20, 20, 20],
    [50, 50, 50, 50, 50, 50, 50, 50],
    [0, 0, 0, 0, 0, 0, 0, 0],
    [0, 0, 0, 0, 0, 0, 0, 0],
    [0, 0, 0, 0, 0, 0, 0, 0],
    [0, 0, 0, 0, 0, 0, 0, 0],
    [0, 0, 0, 0, 0, 0, 0, 0],
    [0, -20, -20, -20, -20, -20, -20, -20]]

  /** Rook.getValue */
  function RookValue(p: Piece): (v: int)
    requires OnGrid(p)
    ensures p.color == White ==> v == RookBase + RookTable[p.row][p.column]
    ensures p.color != White ==> v == RookBase + RookTable[7 - p.row][p.column]
  {
    Score(RookBase, RookTable, p)
  }

  /** The threat list of the first King of p's colour that is in check, in
    * the row-major scan from the k-th square on. */
  function CheckedKingThreats(pos: Position, p: Piece, k: nat): Option<seq<Sq>>
    decreases 64 - k, pos
  {
    if k >= 64 then None
    else if ContainsOwnKing(pos, SquareAt(k), p) && At(pos, SquareAt(k)).value.inCheck then
      Some(At(pos, SquareAt(k)).value.threatSquares)
    else CheckedKingThreats(pos, p, k + 1)
  }

  /** The King of the rook's colour is checked from more than one square. */
  predicate KingMultiplyChecked(pos: Position, p: Piece)
  {
    var threats := CheckedKingThreats(pos, p, 0);
    threats.Some? && |threats.value| > 1
  }

  /** The four orthogonal rays in the order generateMoves casts them. */
  function RookRays(pos: Position, p: Piece): seq<Sq>
  {
    Ray(pos, p, -1, 0) + Ray(pos, p, 1, 0) + Ray(pos, p, 0, -1) + Ray(pos, p, 0, 1)
  }

  function RookMoves(pos: Position, p: Piece): seq<Sq>
  {
    if KingMultiplyChecked(pos, p) then [] else RookRays(pos, p)
  }

  /** The scan of generateMoves for the rook's own King in check. */
  method FindCheckedKing(pos: Position, p: Piece) returns (threats: Option<seq<Sq>>)
    ensures threats == CheckedKingThreats(pos, p, 0)
  {
    threats := None;
    var found := false;
    var row := 0;
    while row < 8 && !found
      invariant 0 <= row <= 8
      invariant !found ==> threats.None? && CheckedKingThreats(pos, p, 0) == CheckedKingThreats(pos, p, 8 * row)
      invariant found ==> threats == CheckedKingThreats(pos, p, 0)
    {
      var col := 0;
      while col < 8 && !found
        invariant 0 <= col <= 8
        invariant !found ==> threats.None? && CheckedKingThreats(pos, p, 0) == CheckedKingThreats(pos, p, 8 * row + col)
        invariant found ==> threats == CheckedKingThreats(pos, p, 0)
      {
        var s := Sq(row, col);
        SquareAtIndex(row, col);
        if ContainsOwnKing(pos, s, p) {
          if At(pos, s).value.inCheck {
            found := true;
            threats := Some(At(pos, s).value.threatSquares);
          }
        }
        col := col + 1;
      }
      row := row + 1;
    }
  }

  /** Rook.generateMoves */
  method GenerateRookMoves(pos: Position, p: Piece) returns (moves: seq<Sq>)
    ensures moves == RookMoves(pos, p)
  {
    var threats := FindCheckedKing(pos, p);
    if threats.Some? && |threats.value| > 1 {
      return [];
    }
    var up := CastRay(pos, p, -1, 0);
    var down := CastRay(pos, p, 1, 0);
    var left := CastRay(pos, p, 0, -1);
    var right := CastRay(pos, p, 0, 1);
    moves := up + down + left + right;
  }

  /** The scan finds a threat list exactly when some King of the rook's colour
    * is in check, and then it is the list of the first such King. */
  lemma {:induction false} CheckedKingFound(pos: Position, p: Piece, k: nat)
    ensures CheckedKingThreats(pos, p, k).Some? <==>
              exists j | k <= j < 64 :: ContainsOwnKing(pos, SquareAt(j), p) && At(pos, SquareAt(j)).value.inCheck
    ensures CheckedKingThreats(pos, p, k).Some? ==>
              exists j | k <= j < 64 :: ContainsOwnKing(pos, SquareAt(j), p) && At(pos, SquareAt(j)).value.inCheck &&
                CheckedKingThreats(pos, p, k).value == At(pos, SquareAt(j)).value.threatSquares
    decreases 64 - k
  {
    if k < 64 {
      CheckedKingFound(pos, p, k + 1);
    }
  }

  /** With a single King of the rook's colour on the board, in check from
    * more than one square, the rook has no moves at all; when that King is
    * not in check the rook has its four rays. */
  lemma RookCutoff(pos: Position, p: Piece, j: nat)
    requires j < 64 && ContainsOwnKing(pos, SquareAt(j), p)
    requires forall i | 0 <= i < 64 && i != j :: !ContainsOwnKing(pos, SquareAt(i), p)
    ensures At(pos, SquareAt(j)).value.inCheck && |At(pos, SquareAt(j)).value.threatSquares| > 1 ==>
              RookMoves(pos, p) == []
    ensures !At(pos, SquareAt(j)).value.inCheck ==> RookMoves(pos, p) == RookRays(pos, p)
  {
    CheckedKingFound(pos, p, 0);
  }

  /** Every returned square shares the rook's row or its column, is not its
    * own square, is on the board, and is empty or held by the other colour. */
  lemma RookMovesGeometry(pos: Position, p: Piece, t: Sq)
    requires t in RookMoves(pos, p)
    ensures OpenTo(pos, t, p)
    ensures (t.row == p.row) != (t.col == p.column)
  {
    var dr, dc :| (dr, dc) in [(-1, 0), (1, 0), (0, -1), (0, 1)] && t in Ray(pos, p, dr, dc);
    RayGeometry(pos, p, dr, dc, t);
  }
}

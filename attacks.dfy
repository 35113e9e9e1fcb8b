/** The move generators of the pieces other than the King, dispatched on the
  * piece's kind, and Square.threatenSquare, which asks them whether a square
  * is attacked. */
module Attacks {
  import opened Wrappers
  import opened Pieces
  import opened Grid
  import opened Rays
  import opened Pawns
  import opened Knights
  import opened Bishops
  import opened Rooks
  import opened Queens

  /** generateMoves of a piece that is not a King. */
  function NonKingMoves(pos: Position, p: Piece, twoPlayer: bool): seq<Sq>
    requires p.kind != King
  {
    match p.kind
    case Pawn => PawnMoves(pos, p, twoPlayer)
    case Knight => KnightMoves(pos, p)
    case Bishop => BishopMoves(pos, p)
    case Rook => RookMoves(pos, p)
    case Queen => QueenMoves(pos, p)
  }

  /** The virtual call piece.generateMoves(board) for a piece that is not a King. */
  method GenerateNonKingMoves(pos: Position, p: Piece, twoPlayer: bool) returns (moves: seq<Sq>)
    requires p.kind != King
    ensures moves == NonKingMoves(pos, p, twoPlayer)
  {
    match p.kind
    case Pawn => moves := PawnMoves(pos, p, twoPlayer);
    case Knight => moves := KnightMoves(pos, p);
    case Bishop => moves := GenerateBishopMoves(pos, p);
    case Rook => moves := GenerateRookMoves(pos, p);
    case Queen => moves := GenerateQueenMoves(pos, p);
  }

  /** Every square a non-King generator returns is on the board and differs
    * from the piece's own square. */
  lemma NonKingMovesOnBoard(pos: Position, p: Piece, twoPlayer: bool, t: Sq)
    requires p.kind != King && t in NonKingMoves(pos, p, twoPlayer)
    ensures InBounds(t) && t != SquareOf(p)
  {
    match p.kind
    case Pawn => PawnMovesExact(pos, p, twoPlayer, t);
    case Knight => KnightMovesExact(pos, p, t);
    case Bishop => BishopMovesGeometry(pos, p, t);
    case Rook => RookMovesGeometry(pos, p, t);
    case Queen => QueenMovesGeometry(pos, p, t);
  }

  /** Outside the two-player screen (no en passant) a non-King generator
    * never offers a square held by a piece of the mover's own colour. */
  lemma NonKingMovesOpen(pos: Position, p: Piece, t: Sq)
    requires p.kind != King && t in NonKingMoves(pos, p, false)
    ensures OpenTo(pos, t, p)
  {
    match p.kind
    case Pawn => PawnNoOwnCapture(pos, p, t);
    case Knight => KnightMovesExact(pos, p, t);
    case Bishop => BishopMovesGeometry(pos, p, t);
    case Rook => RookMovesGeometry(pos, p, t);
    case Queen => QueenMovesGeometry(pos, p, t);
  }

  /** The piece on `from` is one threatenSquare consults against `team` (any
    * colour but team, neither King nor Rook) and its moves include s. */
  predicate AttackedFrom(pos: Position, from: Sq, s: Sq, team: int, twoPlayer: bool)
  {
    ContainsPiece(pos, from) && At(pos, from).value.color != team &&
    At(pos, from).value.kind != King && At(pos, from).value.kind != Rook &&
    s in NonKingMoves(pos, At(pos, from).value, twoPlayer)
  }

  /** Square.threatenSquare(team): some square holds such a piece. */
  predicate ThreatenSquare(pos: Position, s: Sq, team: int, twoPlayer: bool)
  {
    exists r, c | 0 <= r < 8 && 0 <= c < 8 :: AttackedFrom(pos, Sq(r, c), s, team, twoPlayer)
  }

  /** The test threatenSquare applies to one square of its scan. */
  method CheckAttacker(pos: Position, from: Sq, s: Sq, team: int, twoPlayer: bool) returns (attacks: bool)
    ensures attacks == AttackedFrom(pos, from, s, team, twoPlayer)
  {
    attacks := false;
    if ContainsPiece(pos, from) {
      var q := At(pos, from).value;
      if q.color != team {
        if (q.kind != King && q.kind != Rook) || q.color == team {
          var moves := GenerateNonKingMoves(pos, q, twoPlayer);
          attacks := s in moves;
        }
      }
    }
  }

  /** No square of the row holds a piece that threatens s. */
  predicate RowUnthreatening(pos: Position, row: int, s: Sq, team: int, twoPlayer: bool)
  {
    forall c | 0 <= c < 8 :: !AttackedFrom(pos, Sq(row, c), s, team, twoPlayer)
  }

  /** One row of the scan of threatenSquare, returning at the first attacker. */
  method ThreatenRowScan(pos: Position, row: int, s: Sq, team: int, twoPlayer: bool) returns (found: bool)
    ensures found <==> !RowUnthreatening(pos, row, s, team, twoPlayer)
  {
    var col := 0;
    while col < 8
      invariant 0 <= col <= 8
      invariant forall c | 0 <= c < col :: !AttackedFrom(pos, Sq(row, c), s, team, twoPlayer)
    {
      var attacks := CheckAttacker(pos, Sq(row, col), s, team, twoPlayer);
      if attacks {
        assert !RowUnthreatening(pos, row, s, team, twoPlayer) by {
          assert AttackedFrom(pos, Sq(row, col), s, team, twoPlayer);
        }
        return true;
      }
      col := col + 1;
    }
    return false;
  }

  /** The nested scan of threatenSquare, returning at the first attacker. */
  method ThreatenSquareScan(pos: Position, s: Sq, team: int, twoPlayer: bool) returns (threatened: bool)
    ensures threatened <==> exists r, c | 0 <= r < 8 && 0 <= c < 8 :: AttackedFrom(pos, Sq(r, c), s, team, twoPlayer)
  {
    var row := 0;
    while row < 8
      invariant 0 <= row <= 8
      invariant forall r | 0 <= r < row :: RowUnthreatening(pos, r, s, team, twoPlayer)
    {
      var found := ThreatenRowScan(pos, row, s, team, twoPlayer);
      if found {
        var c :| 0 <= c < 8 && AttackedFrom(pos, Sq(row, c), s, team, twoPlayer);
        return true;
      }
      row := row + 1;
    }
    forall r, c | 0 <= r < 8 && 0 <= c < 8
      ensures !AttackedFrom(pos, Sq(r, c), s, team, twoPlayer)
    {
      assert RowUnthreatening(pos, r, s, team, twoPlayer);
    }
    return false;
  }

  /** Kings and Rooks never count as attackers: a square is threatened only
    * through a Pawn, Knight, Bishop or Queen of another colour whose moves
    * reach it, and every such piece makes it threatened. */
  lemma ThreatenSquareAttackers(pos: Position, s: Sq, team: int, twoPlayer: bool)
    ensures ThreatenSquare(pos, s, team, twoPlayer) <==>
      exists r, c | 0 <= r < 8 && 0 <= c < 8 && ContainsPiece(pos, Sq(r, c)) ::
        At(pos, Sq(r, c)).value.kind in {Pawn, Knight, Bishop, Queen} &&
        At(pos, Sq(r, c)).value.color != team &&
        s in NonKingMoves(pos, At(pos, Sq(r, c)).value, twoPlayer)
  {
  }

  /** A ray depends only on what similar positions agree on. */
  lemma {:induction false} RayFromSimilar(a: Position, b: Position, p: Piece, s: Sq, dr: int, dc: int)
    requires Similar(a, b) && IsDirection(dr, dc)
    ensures RayFrom(a, p, s, dr, dc) == RayFrom(b, p, s, dr, dc)
    decreases Room(s, dr, dc)
  {
    SimilarAt(a, b, s);
    if InBounds(s) && !ContainsPiece(a, s) {
      RoomShrinks(s, dr, dc);
      RayFromSimilar(a, b, p, Next(s, dr, dc), dr, dc);
    }
  }

  lemma {:induction false} JumpMovesSimilar(a: Position, b: Position, p: Piece, js: seq<(int, int)>)
    requires Similar(a, b)
    ensures JumpMoves(a, p, js) == JumpMoves(b, p, js)
  {
    if js != [] {
      SimilarAt(a, b, Target(p, js[0]));
      JumpMovesSimilar(a, b, p, js[1..]);
    }
  }

  lemma {:induction false} CheckedKingThreatsSimilar(a: Position, b: Position, p: Piece, k: nat)
    requires Similar(a, b)
    ensures CheckedKingThreats(a, p, k) == CheckedKingThreats(b, p, k)
    decreases 64 - k
  {
    if k < 64 {
      SimilarAt(a, b, SquareAt(k));
      CheckedKingThreatsSimilar(a, b, p, k + 1);
    }
  }

  /** Knights, Bishops, Rooks and Queens generate the same moves in similar
    * positions: their moves never read a pawn flag. */
  lemma NonKingMovesSimilar(a: Position, b: Position, p: Piece, twoPlayer: bool)
    requires Similar(a, b) && p.kind != King && p.kind != Pawn
    ensures NonKingMoves(a, p, twoPlayer) == NonKingMoves(b, p, twoPlayer)
  {
    forall dr, dc | IsDirection(dr, dc)
      ensures Ray(a, p, dr, dc) == Ray(b, p, dr, dc)
    {
      RayFromSimilar(a, b, p, Next(SquareOf(p), dr, dc), dr, dc);
    }
    JumpMovesSimilar(a, b, p, Jumps);
    CheckedKingThreatsSimilar(a, b, p, 0);
  }
}

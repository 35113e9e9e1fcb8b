/** Board.evaluate: the material and position score of the board from
  * White's side (colour 0 counts positively), replaced by a fixed score once
  * the game has ended in checkmate. */
module Evaluation {
  import opened Wrappers
  import opened Pieces
  import opened Grid
  import opened Scores
  import opened Probes
  import opened Pawns
  import opened Knights
  import opened Bishops
  import opened Rooks
  import opened Queens
  import opened Kings

  /** The four values of Board.endGameType besides null. */
  datatype EndGame = Checkmate | Stalemate | DrawDeclared | DrawByMaterial

  const MateScore := 100000

  /** The virtual call piece.getValue(). */
  function Value(p: Piece): int
    requires OnGrid(p)
  {
    match p.kind
    case Pawn => PawnValue(p)
    case Knight => KnightValue(p)
    case Bishop => BishopValue(p)
    case Rook => RookValue(p)
    case Queen => QueenValue(p)
    case King => KingValue(p)
  }

  /** What the piece on s adds to the score: its value for colour 0, minus
    * its value otherwise, nothing for an empty square. */
  function Signed(pos: Position, s: Sq): (v: int)
    requires Valid(pos) && InBounds(s)
    ensures At(pos, s).None? ==> v == 0
    ensures At(pos, s).Some? && At(pos, s).value.color == White ==> v == Value(At(pos, s).value)
    ensures At(pos, s).Some? && At(pos, s).value.color != White ==> v == -Value(At(pos, s).value)
  {
    match At(pos, s)
    case None => 0
    case Some(p) =>
      assert p.row == s.row && p.column == s.col;
      if p.color == White then Value(p) else -Value(p)
  }

  /** The score of the squares from (row, col) on, in the row-major order
    * of the evaluate loop. */
  function MaterialFrom(pos: Position, row: int, col: int): int
    requires Valid(pos) && 0 <= row <= 8 && 0 <= col <= 8
    decreases 8 - row, 8 - col, pos
  {
    if row == 8 then 0
    else if col == 8 then MaterialFrom(pos, row + 1, 0)
    else Signed(pos, Sq(row, col)) + MaterialFrom(pos, row, col + 1)
  }

  function Material(pos: Position): int
    requires Valid(pos)
  {
    MaterialFrom(pos, 0, 0)
  }

  /** Board.evaluate: a checkmate is worth -100000 when turn is -1 and
    * +100000 when turn is 1; otherwise the material score. */
  function Evaluate(pos: Position, endGameType: Option<EndGame>, turn: int): (v: int)
    requires Valid(pos)
    ensures endGameType == Some(Checkmate) && turn == -1 ==> v == -MateScore
    ensures endGameType == Some(Checkmate) && turn == 1 ==> v == MateScore
    ensures endGameType != Some(Checkmate) || (turn != 1 && turn != -1) ==> v == Material(pos)
  {
    if endGameType == Some(Checkmate) && turn == -1 then -MateScore
    else if endGameType == Some(Checkmate) && turn == 1 then MateScore
    else Material(pos)
  }

  /** Taking one piece off the board changes the score by exactly what that
    * piece added to it: a capture of a Black piece raises it, of a White
    * piece lowers it. */
  lemma {:induction false} MaterialRemove(pos: Position, s: Sq, row: int, col: int)
    requires Valid(pos) && InBounds(s) && 0 <= row <= 8 && 0 <= col <= 8
    ensures Valid(RemovePiece(pos, s).0)
    ensures MaterialFrom(RemovePiece(pos, s).0, row, col) ==
            MaterialFrom(pos, row, col) - (if NotBefore(s.row, s.col, row, col) then Signed(pos, s) else 0)
    decreases 8 - row, 8 - col
  {
    RemoveValid(pos, s);
    if row < 8 && col == 8 {
      MaterialRemove(pos, s, row + 1, 0);
    } else if row < 8 {
      MaterialRemove(pos, s, row, col + 1);
      SignedRemove(pos, s, Sq(row, col));
    }
  }

  /** Emptying s zeroes its contribution and leaves every other square's. */
  lemma SignedRemove(pos: Position, s: Sq, t: Sq)
    requires Valid(pos) && InBounds(s) && InBounds(t)
    ensures Valid(RemovePiece(pos, s).0)
    ensures Signed(RemovePiece(pos, s).0, t) == if t == s then 0 else Signed(pos, t)
  {
    RemoveValid(pos, s);
    var q := RemovePiece(pos, s).0;
    if t != s {
      assert Cell(q, t) == Cell(pos, t);
      assert At(q, t) == At(pos, t);
    }
  }

  lemma EvaluateRemove(pos: Position, s: Sq)
    requires Valid(pos) && InBounds(s)
    ensures Valid(RemovePiece(pos, s).0)
    ensures Material(RemovePiece(pos, s).0) == Material(pos) - Signed(pos, s)
  {
    MaterialRemove(pos, s, 0, 0);
  }

  /** Evaluation reads only the grid and the recorded squares, kinds and
    * colours of the pieces on it, so a position with the same layout (look-
    * ahead probes, check and uncheck) scores the same. */
  lemma {:induction false} MaterialLayout(a: Position, b: Position, row: int, col: int)
    requires Valid(a) && SameLayout(a, b) && 0 <= row <= 8 && 0 <= col <= 8
    ensures Valid(b) && MaterialFrom(a, row, col) == MaterialFrom(b, row, col)
    decreases 8 - row, 8 - col
  {
    LayoutConsistent(a, b);
    if row < 8 && col == 8 {
      MaterialLayout(a, b, row + 1, 0);
    } else if row < 8 {
      MaterialLayout(a, b, row, col + 1);
      SignedLayout(a, b, Sq(row, col));
    }
  }

  lemma SignedLayout(a: Position, b: Position, t: Sq)
    requires Valid(a) && Valid(b) && SameLayout(a, b) && InBounds(t)
    ensures Signed(a, t) == Signed(b, t)
  {
    if At(a, t).Some? {
      var p, q := At(a, t).value, At(b, t).value;
      assert p.kind == q.kind && p.color == q.color && p.row == q.row && p.column == q.column;
      assert Value(p) == Value(q);
    }
  }
}

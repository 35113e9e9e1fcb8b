/** King: its score table, getValue, check and uncheck of its threat list,
  * and generateMoves (the castling scans and the probed adjacent squares).
  * The virtual generateMoves of every kind is dispatched here as well, since
  * uncheck calls it on whatever piece stands on a threat square. */
module Kings {
  import opened Wrappers
  import opened Pieces
  import opened Grid
  import opened Scores
  import opened Lists
  import opened Attacks
  import opened Probes

  const KingBase := 32676

  const KingTable: seq<seq<int>> := [
    [-100, -100, -100, -100, -100, -100, -100, -100],
    [-100, -100, -100, -100, -100, -100, -100, -100],
    [-100, -100, -100, -100, -100, -100, -100, -100],
    [-50, -50, -50, -50, -50, -50, -50, -50],
    [-10, 0, 10, 10, 10, 10, 0, -10],
    [-10, 10, 10, 10, 10, 10, 10, -10],
    [30, 25, 0, 0, 0, 0, 20, 20],
    [20, 10, 60, 10, 10, 0, 60, 20]]

  /** King.getValue */
  function KingValue(p: Piece): (v: int)
    requires OnGrid(p)
    ensures p.color == White ==> v == KingBase + KingTable[p.row][p.column]
    ensures p.color != White ==> v == KingBase + KingTable[7 - p.row][p.column]
  {
    Score(KingBase, KingTable, p)
  }

  /** CHECK_ROW and CHECK_COL: the eight neighbours, starting west and going
    * clockwise; the odd entries are the diagonals. */
  const CheckRow: seq<int> := [0, -1, -1, -1, 0, 1, 1, 1]
  const CheckCol: seq<int> := [-1, -1, 0, 1, 1, 1, 0, -1]

  function Around(s: Sq, a: int): Sq
    requires 0 <= a < 8
  {
    Sq(s.row + CheckRow[a], s.col + CheckCol[a])
  }

  /** The eight entries are exactly the eight neighbours, each once, and the
    * odd entries are exactly the diagonal ones. */
  lemma AroundNeighbours(s: Sq, a: int)
    requires 0 <= a < 8
    ensures Around(s, a) != s
    ensures -1 <= Around(s, a).row - s.row <= 1 && -1 <= Around(s, a).col - s.col <= 1
    ensures a % 2 == 1 <==> Around(s, a).row != s.row && Around(s, a).col != s.col
    ensures forall b | 0 <= b < 8 && b != a :: Around(s, b) != Around(s, a)
  {
  }

  /** King.check(threatSquare) */
  function Check(k: Piece, threat: Sq): (r: Piece)
    ensures r.inCheck && r.threatSquares == k.threatSquares + [threat]
    ensures r.(inCheck := k.inCheck, threatSquares := k.threatSquares) == k
  {
    k.(inCheck := true, threatSquares := k.threatSquares + [threat])
  }

  /** The square holds a Rook (of either colour) that has not moved. */
  predicate UnmovedRook(pos: Position, s: Sq)
  {
    ContainsPiece(pos, s) && At(pos, s).value.kind == Rook && !At(pos, s).value.hasMoved
  }

  /** A castling target the King may be offered: its own square, or a square
    * open to it. */
  predicate CastleTargetFree(pos: Position, t: Sq, king: Piece)
  {
    t == SquareOf(king) || OpenTo(pos, t, king)
  }

  /** The king-side castling scan from column i on; count is castleCheckCount
    * before the square. A rook on column i offers column i - 1, provided that
    * square is free for the King. */
  function KingSideCastles(pos: Position, king: Piece, row: int, i: int, count: int, twoPlayer: bool): seq<Sq>
    decreases 8 - i, pos
  {
    if i >= 8 then []
    else
      var s := Sq(row, i);
      if UnmovedRook(pos, s) && !king.inCheck && (count + 1 >= 2 || !ThreatenSquare(pos, s, king.color, twoPlayer)) &&
         CastleTargetFree(pos, Sq(row, i - 1), king) then
        [Sq(row, i - 1)] + KingSideCastles(pos, king, row, i + 1, count + 1, twoPlayer)
      else if ContainsPiece(pos, s) || ThreatenSquare(pos, s, king.color, twoPlayer) then []
      else KingSideCastles(pos, king, row, i + 1, count + 1, twoPlayer)
  }

  /** The queen-side castling scan from column i down. A rook on column i
    * offers column i + 2, provided that square is free for the King; a
    * threatened square stops the scan only next to the King. */
  function QueenSideCastles(pos: Position, king: Piece, row: int, i: int, count: int, twoPlayer: bool): seq<Sq>
    decreases i + 1, pos
  {
    if i < 0 then []
    else
      var s := Sq(row, i);
      if UnmovedRook(pos, s) && !king.inCheck && !ThreatenSquare(pos, s, king.color, twoPlayer) &&
         CastleTargetFree(pos, Sq(row, i + 2), king) then
        [Sq(row, i + 2)] + QueenSideCastles(pos, king, row, i - 1, count + 1, twoPlayer)
      else if ContainsPiece(pos, s) || (ThreatenSquare(pos, s, king.color, twoPlayer) && count + 1 < 2) then []
      else QueenSideCastles(pos, king, row, i - 1, count + 1, twoPlayer)
  }

  /** The queen-side scan as written: the square offered for a Rook on
    * column i is not inspected, so for a Rook next to the King (column 3)
    * it is column 5, which may hold a piece of the King's own colour. */
  function QueenSideCastlesAsWritten(pos: Position, king: Piece, row: int, i: int, count: int, twoPlayer: bool): seq<Sq>
    decreases i + 1, pos
  {
    if i < 0 then []
    else
      var s := Sq(row, i);
      if UnmovedRook(pos, s) && !king.inCheck && !ThreatenSquare(pos, s, king.color, twoPlayer) then
        [Sq(row, i + 2)] + QueenSideCastlesAsWritten(pos, king, row, i - 1, count + 1, twoPlayer)
      else if ContainsPiece(pos, s) || (ThreatenSquare(pos, s, king.color, twoPlayer) && count + 1 < 2) then []
      else QueenSideCastlesAsWritten(pos, king, row, i - 1, count + 1, twoPlayer)
  }

  /** The king-side scan as written: the square offered for a Rook on
    * column i is not inspected, and the scan goes on past the Rook, so a
    * second unmoved Rook on column 6 offers column 5, the first Rook's
    * square. */
  function KingSideCastlesAsWritten(pos: Position, king: Piece, row: int, i: int, count: int, twoPlayer: bool): seq<Sq>
    decreases 8 - i, pos
  {
    if i >= 8 then []
    else
      var s := Sq(row, i);
      if UnmovedRook(pos, s) && !king.inCheck && (count + 1 >= 2 || !ThreatenSquare(pos, s, king.color, twoPlayer)) then
        [Sq(row, i - 1)] + KingSideCastlesAsWritten(pos, king, row, i + 1, count + 1, twoPlayer)
      else if ContainsPiece(pos, s) || ThreatenSquare(pos, s, king.color, twoPlayer) then []
      else KingSideCastlesAsWritten(pos, king, row, i + 1, count + 1, twoPlayer)
  }

  /** The a-th neighbour of t holds an opponent King, or it is a diagonal
    * neighbour holding a Pawn of the other colour (whichever way it moves). */
  predicate NearThreatAt(pos: Position, t: Sq, king: Piece, a: int)
    requires 0 <= a < 8
  {
    var u := Around(t, a);
    InBounds(u) &&
    (ContainsOpponentKing(pos, u, king) ||
     (a % 2 == 1 && ContainsPiece(pos, u) && At(pos, u).value.kind == Pawn && !IsSameColor(At(pos, u).value, king)))
  }

  /** The piece on `from` is of the other colour, neither King nor Pawn, and
    * its moves include t. */
  predicate FarAttacker(pos: Position, from: Sq, t: Sq, king: Piece, twoPlayer: bool)
  {
    ContainsPiece(pos, from) && !IsSameColor(At(pos, from).value, king) &&
    At(pos, from).value.kind != King && At(pos, from).value.kind != Pawn &&
    t in NonKingMoves(pos, At(pos, from).value, twoPlayer)
  }

  /** underThreat of a probe, with the King standing on t. */
  predicate UnderThreat(pos: Position, t: Sq, king: Piece, twoPlayer: bool)
  {
    (exists a | 0 <= a < 8 :: NearThreatAt(pos, t, king, a)) ||
    (exists r, c | 0 <= r < 8 && 0 <= c < 8 :: FarAttacker(pos, Sq(r, c), t, king, twoPlayer))
  }

  /** The piece `id` stands on the square it records. */
  predicate Placed(pos: Position, id: nat)
  {
    id < |pos.store| && InBounds(SquareOf(pos.store[id])) && Cell(pos, SquareOf(pos.store[id])) == Some(id)
  }

  lemma PlacedFromCell(pos: Position, s: Sq)
    requires Valid(pos) && Cell(pos, s).Some?
    ensures InBounds(s) && Placed(pos, Cell(pos, s).value) && SquareOf(pos.store[Cell(pos, s).value]) == s
  {
    OnlyAt(pos, s, Cell(pos, s).value);
  }

  lemma PlacedSimilar(a: Position, b: Position, id: nat)
    requires Placed(a, id) && Similar(a, b)
    ensures Placed(b, id) && SquareOf(b.store[id]) == SquareOf(a.store[id])
  {
    assert Core(a.store[id]) == Core(b.store[id]);
  }

  /** The probe loop of generateMoves from neighbour a on: each neighbour that
    * is on the board and open to the King is probed, and kept when the King
    * standing there is not under threat. */
  function KingProbes(pos: Position, id: nat, origin: Sq, a: int, twoPlayer: bool): (r: (seq<Sq>, Position))
    requires Valid(pos) && InBounds(origin) && Cell(pos, origin) == Some(id) && 0 <= a <= 8
    ensures Valid(r.1) && Similar(pos, r.1) && Cell(r.1, origin) == Some(id)
    decreases 8 - a, pos
  {
    if a == 8 then ([], pos)
    else
      var t := Around(origin, a);
      if OpenTo(pos, t, pos.store[id]) then
        var safe := !UnderThreat(Lift(pos, origin, t, id).0, t, pos.store[id], twoPlayer);
        RoundTripRestores(pos, origin, t, id);
        var rest := KingProbes(RoundTrip(pos, origin, t, id), id, origin, a + 1, twoPlayer);
        ((if safe then [t] else []) + rest.0, rest.1)
      else
        KingProbes(pos, id, origin, a + 1, twoPlayer)
  }

  /** King.generateMoves: the castling targets (for an unmoved King on
    * column 4), then the probed neighbours; the position is handed on
    * because the probes rewrite pawn flags. */
  function KingMoves(pos: Position, id: nat, twoPlayer: bool): (r: (seq<Sq>, Position))
    requires Valid(pos) && Placed(pos, id)
    ensures Valid(r.1) && Similar(pos, r.1)
  {
    var king := pos.store[id];
    var origin := SquareOf(king);
    var castles :=
      if !king.hasMoved && king.column == 4 then
        KingSideCastles(pos, king, king.row, 5, 0, twoPlayer) + QueenSideCastles(pos, king, king.row, 3, 0, twoPlayer)
      else [];
    var (adjacent, q) := KingProbes(pos, id, origin, 0, twoPlayer);
    (castles + adjacent, q)
  }

  /** The virtual call piece.generateMoves(board) for the piece `id`. */
  function MovesOf(pos: Position, id: nat, twoPlayer: bool): (r: (seq<Sq>, Position))
    requires Valid(pos) && Placed(pos, id)
    ensures Valid(r.1) && Similar(pos, r.1)
    ensures pos.store[id].kind != King ==> r == (NonKingMoves(pos, pos.store[id], twoPlayer), pos)
  {
    if pos.store[id].kind == King then KingMoves(pos, id, twoPlayer)
    else (NonKingMoves(pos, pos.store[id], twoPlayer), pos)
  }

  /** The first loop of uncheck: the threat squares that are empty, or whose
    * occupant's moves miss the King's square. */
  function UncheckScan(pos: Position, kingSquare: Sq, threats: seq<Sq>, twoPlayer: bool): (r: (seq<Sq>, Position))
    requires Valid(pos)
    ensures Valid(r.1) && Similar(pos, r.1)
    decreases |threats|
  {
    if threats == [] then ([], pos)
    else
      var s := threats[0];
      if !ContainsPiece(pos, s) then
        var rest := UncheckScan(pos, kingSquare, threats[1..], twoPlayer);
        ([s] + rest.0, rest.1)
      else
        PlacedFromCell(pos, s);
        var (moves, q) := MovesOf(pos, Cell(pos, s).value, twoPlayer);
        var rest := UncheckScan(q, kingSquare, threats[1..], twoPlayer);
        ((if kingSquare in moves then [] else [s]) + rest.0, rest.1)
  }

  /** King.uncheck(board) for the King `id`: nothing when it is not in check;
    * otherwise the squares that no longer threaten it leave its list, and it
    * is out of check when the list is left empty. */
  function Uncheck(pos: Position, id: nat, twoPlayer: bool): (r: Position)
    requires Valid(pos) && id < |pos.store|
    ensures Valid(r) && |r.store| == |pos.store|
    ensures !pos.store[id].inCheck ==> r == pos
  {
    var king := pos.store[id];
    if !king.inCheck then pos
    else
      var (noThreats, q) := UncheckScan(pos, SquareOf(king), king.threatSquares, twoPlayer);
      var left := RemoveEach(q.store[id].threatSquares, noThreats);
      assert Core(pos.store[id]) == Core(q.store[id]);
      SetPiece(q, id, q.store[id].(threatSquares := left, inCheck := left != []))
  }

  lemma OpenToSimilar(a: Position, b: Position, t: Sq, p: Piece)
    requires Similar(a, b)
    ensures OpenTo(a, t, p) == OpenTo(b, t, p)
  {
    SimilarAt(a, b, t);
  }

  /** The threat test of a probe reads nothing that differs between similar
    * positions. */
  lemma UnderThreatSimilar(a: Position, b: Position, t: Sq, king: Piece, twoPlayer: bool)
    requires Similar(a, b)
    ensures UnderThreat(a, t, king, twoPlayer) == UnderThreat(b, t, king, twoPlayer)
  {
    forall n | 0 <= n < 8
      ensures NearThreatAt(a, t, king, n) == NearThreatAt(b, t, king, n)
    {
      SimilarAt(a, b, Around(t, n));
    }
    forall r, c | 0 <= r < 8 && 0 <= c < 8
      ensures FarAttacker(a, Sq(r, c), t, king, twoPlayer) == FarAttacker(b, Sq(r, c), t, king, twoPlayer)
    {
      SimilarAt(a, b, Sq(r, c));
      if ContainsPiece(a, Sq(r, c)) && At(a, Sq(r, c)).value.kind != King && At(a, Sq(r, c)).value.kind != Pawn {
        NonKingMovesSimilar(a, b, At(a, Sq(r, c)).value, twoPlayer);
      }
    }
  }

  /** A probe of u decides the same in similar positions. */
  lemma ProbeVerdictSimilar(pos: Position, q: Position, id: nat, origin: Sq, u: Sq, twoPlayer: bool)
    requires Valid(pos) && InBounds(origin) && InBounds(u) && Cell(pos, origin) == Some(id) && pos.store[id].kind == King
    requires Valid(q) && Similar(pos, q)
    ensures q.store[id] == pos.store[id]
    ensures OpenTo(q, u, q.store[id]) == OpenTo(pos, u, pos.store[id])
    ensures UnderThreat(Lift(q, origin, u, id).0, u, q.store[id], twoPlayer) ==
            UnderThreat(Lift(pos, origin, u, id).0, u, pos.store[id], twoPlayer)
  {
    assert Core(pos.store[id]) == Core(q.store[id]);
    OpenToSimilar(pos, q, u, pos.store[id]);
    LiftSimilar(pos, q, origin, u, id);
    UnderThreatSimilar(Lift(pos, origin, u, id).0, Lift(q, origin, u, id).0, u, pos.store[id], twoPlayer);
  }

  /** The probe verdict of generateMoves for the neighbour t, judged on the
    * position given to it: t is on the board, empty or held by the other
    * colour, and the King put there (with the piece it displaces off the
    * board and its own square empty) is under no threat. */
  predicate SafeNeighbour(pos: Position, id: nat, origin: Sq, t: Sq, twoPlayer: bool)
    requires WellFormed(pos) && InBounds(origin) && id < |pos.store|
  {
    OpenTo(pos, t, pos.store[id]) && !UnderThreat(Lift(pos, origin, t, id).0, t, pos.store[id], twoPlayer)
  }

  /** The safe neighbours of origin from the a-th on, in the probe order,
    * each judged on the same position. */
  function SafeNeighbours(pos: Position, id: nat, origin: Sq, a: int, twoPlayer: bool): seq<Sq>
    requires WellFormed(pos) && InBounds(origin) && id < |pos.store| && 0 <= a <= 8
    decreases 8 - a, pos
  {
    if a == 8 then []
    else
      (if SafeNeighbour(pos, id, origin, Around(origin, a), twoPlayer) then [Around(origin, a)] else []) +
      SafeNeighbours(pos, id, origin, a + 1, twoPlayer)
  }

  /** The probe loop keeps exactly the safe neighbours of the position it
    * started from, in order: earlier probes do not change the verdict of a
    * later one. */
  lemma {:induction false} KingProbesExact(pos: Position, q: Position, id: nat, origin: Sq, a: int, twoPlayer: bool)
    requires Valid(pos) && InBounds(origin) && Cell(pos, origin) == Some(id) && pos.store[id].kind == King
    requires Valid(q) && Similar(pos, q) && Cell(q, origin) == Some(id) && 0 <= a <= 8
    ensures KingProbes(q, id, origin, a, twoPlayer).0 == SafeNeighbours(pos, id, origin, a, twoPlayer)
    decreases 8 - a
  {
    if a < 8 {
      var u := Around(origin, a);
      if InBounds(u) {
        ProbeVerdictSimilar(pos, q, id, origin, u, twoPlayer);
      }
      if OpenTo(q, u, q.store[id]) {
        RoundTripRestores(q, origin, u, id);
        KingProbesExact(pos, RoundTrip(q, origin, u, id), id, origin, a + 1, twoPlayer);
      } else {
        KingProbesExact(pos, q, id, origin, a + 1, twoPlayer);
      }
    }
  }

  /** The probed moves are the safe neighbours: on the board, empty or held by
    * the other colour, and no threat to the King put there. */
  lemma {:induction false} SafeNeighboursMembers(pos: Position, id: nat, origin: Sq, a: int, twoPlayer: bool, t: Sq)
    requires WellFormed(pos) && InBounds(origin) && id < |pos.store| && 0 <= a <= 8
    ensures t in SafeNeighbours(pos, id, origin, a, twoPlayer) <==>
      exists b | a <= b < 8 :: t == Around(origin, b) && SafeNeighbour(pos, id, origin, t, twoPlayer)
    decreases 8 - a
  {
    if a < 8 {
      SafeNeighboursMembers(pos, id, origin, a + 1, twoPlayer, t);
    }
  }

  /** Every king-side castling target is column i - 1 of the King's row for an
    * unmoved Rook on a column i the scan reached, and needs the King out of
    * check. */
  lemma {:induction false} KingSideTargets(pos: Position, king: Piece, row: int, i: int, count: int, twoPlayer: bool, t: Sq)
    requires t in KingSideCastles(pos, king, row, i, count, twoPlayer)
    ensures !king.inCheck && t.row == row
    ensures exists j | i <= j < 8 :: t.col == j - 1 && UnmovedRook(pos, Sq(row, j))
    ensures CastleTargetFree(pos, t, king)
    decreases 8 - i
  {
    var s := Sq(row, i);
    if UnmovedRook(pos, s) && !king.inCheck && (count + 1 >= 2 || !ThreatenSquare(pos, s, king.color, twoPlayer)) &&
       CastleTargetFree(pos, Sq(row, i - 1), king) {
      if t == Sq(row, i - 1) {
        assert t.col == i - 1 && UnmovedRook(pos, Sq(row, i));
      } else {
        KingSideTargets(pos, king, row, i + 1, count + 1, twoPlayer, t);
      }
    } else if !(ContainsPiece(pos, s) || ThreatenSquare(pos, s, king.color, twoPlayer)) {
      KingSideTargets(pos, king, row, i + 1, count + 1, twoPlayer, t);
    }
  }

  /** Every queen-side castling target is column i + 2 for an unmoved Rook on
    * an unthreatened column i the scan reached, and needs the King out of
    * check. */
  lemma {:induction false} QueenSideTargets(pos: Position, king: Piece, row: int, i: int, count: int, twoPlayer: bool, t: Sq)
    requires t in QueenSideCastles(pos, king, row, i, count, twoPlayer)
    ensures !king.inCheck && t.row == row
    ensures exists j | 0 <= j <= i :: t.col == j + 2 && UnmovedRook(pos, Sq(row, j)) && !ThreatenSquare(pos, Sq(row, j), king.color, twoPlayer)
    ensures CastleTargetFree(pos, t, king)
    decreases i + 1
  {
    var s := Sq(row, i);
    if UnmovedRook(pos, s) && !king.inCheck && !ThreatenSquare(pos, s, king.color, twoPlayer) &&
       CastleTargetFree(pos, Sq(row, i + 2), king) {
      if t == Sq(row, i + 2) {
        assert t.col == i + 2 && UnmovedRook(pos, s) && !ThreatenSquare(pos, s, king.color, twoPlayer);
      } else {
        QueenSideTargets(pos, king, row, i - 1, count + 1, twoPlayer, t);
      }
    } else if !(ContainsPiece(pos, s) || (ThreatenSquare(pos, s, king.color, twoPlayer) && count + 1 < 2)) {
      QueenSideTargets(pos, king, row, i - 1, count + 1, twoPlayer, t);
    }
  }

  /** The usual king-side castle is offered: columns 5 and 6 empty and not
    * threatened, an unmoved Rook on column 7, the King not in check. Whether
    * the Rook's own square is threatened does not matter to the scan. */
  lemma KingSideCastleOffered(pos: Position, king: Piece, row: int, twoPlayer: bool)
    requires 0 <= row < 8 && !king.inCheck && UnmovedRook(pos, Sq(row, 7))
    requires !ContainsPiece(pos, Sq(row, 5)) && !ContainsPiece(pos, Sq(row, 6))
    requires !ThreatenSquare(pos, Sq(row, 5), king.color, twoPlayer)
    requires !ThreatenSquare(pos, Sq(row, 6), king.color, twoPlayer)
    ensures Sq(row, 6) in KingSideCastles(pos, king, row, 5, 0, twoPlayer)
  {
    assert KingSideCastles(pos, king, row, 7, 2, twoPlayer) == [Sq(row, 6)] + KingSideCastles(pos, king, row, 8, 3, twoPlayer);
    assert KingSideCastles(pos, king, row, 6, 1, twoPlayer) == KingSideCastles(pos, king, row, 7, 2, twoPlayer);
    assert KingSideCastles(pos, king, row, 5, 0, twoPlayer) == KingSideCastles(pos, king, row, 6, 1, twoPlayer);
  }

  /** The usual queen-side castle is offered: columns 1 to 3 empty, column 3
    * not threatened, an unmoved and unthreatened Rook on column 0, the King
    * not in check. Threats to columns 1 and 2 do not stop the scan. */
  lemma QueenSideCastleOffered(pos: Position, king: Piece, row: int, twoPlayer: bool)
    requires 0 <= row < 8 && !king.inCheck && UnmovedRook(pos, Sq(row, 0)) && !ThreatenSquare(pos, Sq(row, 0), king.color, twoPlayer)
    requires !ContainsPiece(pos, Sq(row, 3)) && !ContainsPiece(pos, Sq(row, 2)) && !ContainsPiece(pos, Sq(row, 1))
    requires !ThreatenSquare(pos, Sq(row, 3), king.color, twoPlayer)
    ensures Sq(row, 2) in QueenSideCastles(pos, king, row, 3, 0, twoPlayer)
  {
    assert QueenSideCastles(pos, king, row, 0, 3, twoPlayer) == [Sq(row, 2)] + QueenSideCastles(pos, king, row, -1, 4, twoPlayer);
    assert QueenSideCastles(pos, king, row, 1, 2, twoPlayer) == QueenSideCastles(pos, king, row, 0, 3, twoPlayer);
    assert QueenSideCastles(pos, king, row, 2, 1, twoPlayer) == QueenSideCastles(pos, king, row, 1, 2, twoPlayer);
    assert QueenSideCastles(pos, king, row, 3, 0, twoPlayer) == QueenSideCastles(pos, king, row, 2, 1, twoPlayer);
  }

  /** The King's moves are its castling targets (offered only while it is
    * unmoved on column 4) followed by its safe neighbours. */
  lemma KingMovesCharacter(pos: Position, id: nat, twoPlayer: bool, t: Sq)
    requires Valid(pos) && Placed(pos, id) && pos.store[id].kind == King
    ensures var k := pos.store[id];
      t in KingMoves(pos, id, twoPlayer).0 <==>
        (!k.hasMoved && k.column == 4 &&
         (t in KingSideCastles(pos, k, k.row, 5, 0, twoPlayer) || t in QueenSideCastles(pos, k, k.row, 3, 0, twoPlayer))) ||
        (exists b | 0 <= b < 8 :: t == Around(SquareOf(k), b) && SafeNeighbour(pos, id, SquareOf(k), t, twoPlayer))
  {
    var k := pos.store[id];
    KingProbesExact(pos, pos, id, SquareOf(k), 0, twoPlayer);
    SafeNeighboursMembers(pos, id, SquareOf(k), 0, twoPlayer, t);
  }

  /** Outside the two-player screen every square generateMoves returns is
    * the piece's own square or open to it: no generated move lands on a
    * piece of the mover's colour. */
  lemma MovesOpen(pos: Position, id: nat, t: Sq)
    requires Valid(pos) && Placed(pos, id) && t in MovesOf(pos, id, false).0
    ensures t == SquareOf(pos.store[id]) || OpenTo(pos, t, pos.store[id])
  {
    var k := pos.store[id];
    if k.kind == King {
      KingMovesCharacter(pos, id, false, t);
      if !k.hasMoved && k.column == 4 && t in KingSideCastles(pos, k, k.row, 5, 0, false) {
        KingSideTargets(pos, k, k.row, 5, 0, false, t);
      } else if !k.hasMoved && k.column == 4 && t in QueenSideCastles(pos, k, k.row, 3, 0, false) {
        QueenSideTargets(pos, k, k.row, 3, 0, false, t);
      }
    } else {
      NonKingMovesOpen(pos, k, t);
    }
  }

  /** The position of the castling counterexample: White's unmoved King on
    * (7, 4), an unmoved White Rook beside it on (7, 3) and a White Bishop on
    * (7, 5); nothing else. */
  function CastleCounterexample(): Position
  {
    var empty: seq<Option<nat>> := [None, None, None, None, None, None, None, None];
    Position(
      [empty, empty, empty, empty, empty, empty, empty,
       [None, None, None, Some(1), Some(0), Some(2), None, None]],
      [NewPiece(King, 7, 4, 0), NewPiece(Rook, 7, 3, 0), NewPiece(Bishop, 7, 5, 0)])
  }

  /** With every piece of one colour no square is threatened for that colour. */
  lemma NoThreatWithoutOpponents(pos: Position, s: Sq, team: int, twoPlayer: bool)
    requires WellFormed(pos) && forall j | 0 <= j < |pos.store| :: pos.store[j].color == team
    ensures !ThreatenSquare(pos, s, team, twoPlayer)
  {
    forall r, c | 0 <= r < 8 && 0 <= c < 8
      ensures !AttackedFrom(pos, Sq(r, c), s, team, twoPlayer)
    {
      assert Cell(pos, Sq(r, c)) == pos.cells[r][c];
    }
  }

  /** As written, the queen-side scan offers the King the square of its own
    * Bishop when an unmoved Rook stands beside it on column 3, and the
    * probe of that move by handleChecks drops the Bishop from the grid; the
    * corrected scan offers nothing there. */
  lemma QueenSideOffersOwnPieceAsWritten(twoPlayer: bool)
    ensures var pos := CastleCounterexample();
      Valid(pos) && Cell(pos, Sq(7, 5)) == Some(2) &&
      Sq(7, 5) in QueenSideCastlesAsWritten(pos, pos.store[0], 7, 3, 0, twoPlayer) &&
      !CastleTargetFree(pos, Sq(7, 5), pos.store[0]) &&
      Cell(RoundTrip(pos, Sq(7, 4), Sq(7, 5), 0), Sq(7, 5)).None? &&
      QueenSideCastles(pos, pos.store[0], 7, 3, 0, twoPlayer) == []
  {
    var pos := CastleCounterexample();
    var king := pos.store[0];
    assert WellFormed(pos);
    forall r, c | 0 <= r < 8 && 0 <= c < 8 && pos.cells[r][c].Some?
      ensures pos.store[pos.cells[r][c].value].row == r && pos.store[pos.cells[r][c].value].column == c
    {
      assert r == 7 && 3 <= c <= 5;
    }
    NoThreatWithoutOpponents(pos, Sq(7, 3), 0, twoPlayer);
    assert Cell(pos, Sq(7, 3)) == Some(1);
    assert UnmovedRook(pos, Sq(7, 3));
    assert QueenSideCastlesAsWritten(pos, king, 7, 3, 0, twoPlayer) ==
             [Sq(7, 5)] + QueenSideCastlesAsWritten(pos, king, 7, 2, 1, twoPlayer);
    assert !OpenTo(pos, Sq(7, 5), king);
    RoundTripRestores(pos, Sq(7, 4), Sq(7, 5), 0);
  }

  /** The position of the king-side counterexample: White's unmoved King on
    * (7, 4) and two unmoved White Rooks beside it on (7, 5) and (7, 6). */
  function TwoRooksCounterexample(): Position
  {
    var empty: seq<Option<nat>> := [None, None, None, None, None, None, None, None];
    Position(
      [empty, empty, empty, empty, empty, empty, empty,
       [None, None, None, None, Some(0), Some(1), Some(2), None]],
      [NewPiece(King, 7, 4, 0), NewPiece(Rook, 7, 5, 0), NewPiece(Rook, 7, 6, 0)])
  }

  /** As written, the king-side scan offers the King its own square for the
    * Rook on column 5 and then, for the Rook on column 6, column 5, where
    * its own Rook stands; the corrected scan stops at the second Rook. */
  lemma KingSideOffersOwnRookAsWritten(twoPlayer: bool)
    ensures var pos := TwoRooksCounterexample();
      Valid(pos) && Cell(pos, Sq(7, 5)) == Some(1) &&
      KingSideCastlesAsWritten(pos, pos.store[0], 7, 5, 0, twoPlayer) == [Sq(7, 4), Sq(7, 5)] &&
      !CastleTargetFree(pos, Sq(7, 5), pos.store[0]) &&
      KingSideCastles(pos, pos.store[0], 7, 5, 0, twoPlayer) == [Sq(7, 4)]
  {
    var pos := TwoRooksCounterexample();
    var king := pos.store[0];
    assert WellFormed(pos);
    forall r, c | 0 <= r < 8 && 0 <= c < 8 && pos.cells[r][c].Some?
      ensures pos.store[pos.cells[r][c].value].row == r && pos.store[pos.cells[r][c].value].column == c
    {
      assert r == 7 && 4 <= c <= 6;
    }
    NoThreatWithoutOpponents(pos, Sq(7, 5), 0, twoPlayer);
    NoThreatWithoutOpponents(pos, Sq(7, 7), 0, twoPlayer);
    assert Cell(pos, Sq(7, 5)) == Some(1) && Cell(pos, Sq(7, 6)) == Some(2) && Cell(pos, Sq(7, 7)) == None;
    assert UnmovedRook(pos, Sq(7, 5)) && UnmovedRook(pos, Sq(7, 6)) && !UnmovedRook(pos, Sq(7, 7));
    assert KingSideCastlesAsWritten(pos, king, 7, 7, 2, twoPlayer) == [];
    assert KingSideCastlesAsWritten(pos, king, 7, 6, 1, twoPlayer) == [Sq(7, 5)];
    assert KingSideCastlesAsWritten(pos, king, 7, 5, 0, twoPlayer) == [Sq(7, 4), Sq(7, 5)];
    assert !OpenTo(pos, Sq(7, 5), king);
    assert KingSideCastles(pos, king, 7, 6, 1, twoPlayer) == [];
    assert KingSideCastles(pos, king, 7, 5, 0, twoPlayer) == [Sq(7, 4)];
  }

  /** Every square any generateMoves returns is on the board. */
  lemma MovesOnBoard(pos: Position, id: nat, twoPlayer: bool, t: Sq)
    requires Valid(pos) && Placed(pos, id) && t in MovesOf(pos, id, twoPlayer).0
    ensures InBounds(t)
  {
    var k := pos.store[id];
    if k.kind == King {
      KingMovesCharacter(pos, id, twoPlayer, t);
      if !k.hasMoved && k.column == 4 && t in KingSideCastles(pos, k, k.row, 5, 0, twoPlayer) {
        KingSideTargets(pos, k, k.row, 5, 0, twoPlayer, t);
      } else if !k.hasMoved && k.column == 4 && t in QueenSideCastles(pos, k, k.row, 3, 0, twoPlayer) {
        QueenSideTargets(pos, k, k.row, 3, 0, twoPlayer, t);
      }
    } else {
      NonKingMovesOnBoard(pos, k, twoPlayer, t);
    }
  }

  /** What the scan of uncheck collects: only threat squares; every empty one;
    * and a square held by a Knight, Bishop, Rook or Queen exactly when that
    * piece's moves miss the King's square (whatever the earlier calls to
    * generateMoves did to pawn flags). */
  lemma {:induction false} UncheckScanMembers(pos: Position, q: Position, kingSquare: Sq, threats: seq<Sq>, twoPlayer: bool, s: Sq)
    requires Valid(pos) && Valid(q) && Similar(pos, q)
    ensures s in UncheckScan(q, kingSquare, threats, twoPlayer).0 ==> s in threats
    ensures s in threats && !ContainsPiece(pos, s) ==> s in UncheckScan(q, kingSquare, threats, twoPlayer).0
    ensures s in threats && ContainsPiece(pos, s) && At(pos, s).value.kind != King && At(pos, s).value.kind != Pawn ==>
              (s in UncheckScan(q, kingSquare, threats, twoPlayer).0 <==> kingSquare !in NonKingMoves(pos, At(pos, s).value, twoPlayer))
    decreases |threats|
  {
    if threats != [] {
      var h := threats[0];
      SimilarAt(pos, q, h);
      if ContainsPiece(q, h) {
        PlacedFromCell(q, h);
        var q' := MovesOf(q, Cell(q, h).value, twoPlayer).1;
        if At(q, h).value.kind != King && At(q, h).value.kind != Pawn {
          NonKingMovesSimilar(pos, q, At(pos, h).value, twoPlayer);
        }
        UncheckScanMembers(pos, q', kingSquare, threats[1..], twoPlayer, s);
      } else {
        UncheckScanMembers(pos, q, kingSquare, threats[1..], twoPlayer, s);
      }
      assert s in threats <==> s == h || s in threats[1..];
    }
  }

  /** The King after uncheck, in terms of the squares its scan collects. */
  lemma UncheckKing(pos: Position, id: nat, twoPlayer: bool)
    requires Valid(pos) && Placed(pos, id) && pos.store[id].kind == King && pos.store[id].inCheck
    ensures var k := pos.store[id];
      var left := RemoveEach(k.threatSquares, UncheckScan(pos, SquareOf(k), k.threatSquares, twoPlayer).0);
      Uncheck(pos, id, twoPlayer).store[id] == k.(threatSquares := left, inCheck := left != [])
  {
    var k := pos.store[id];
    var q := UncheckScan(pos, SquareOf(k), k.threatSquares, twoPlayer).1;
    assert Core(pos.store[id]) == Core(q.store[id]);
  }

  /** uncheck of a King in check with a duplicate-free threat list keeps a
    * subsequence of it: empty threat squares leave it, a square held by a
    * Knight, Bishop, Rook or Queen stays exactly when that piece still
    * reaches the King; the King stays in check exactly when something is
    * left, and nothing else about it changes. */
  lemma UncheckOutcome(pos: Position, id: nat, twoPlayer: bool)
    requires Valid(pos) && Placed(pos, id) && pos.store[id].kind == King && pos.store[id].inCheck
    requires NoDup(pos.store[id].threatSquares)
    ensures var k := pos.store[id]; var k' := Uncheck(pos, id, twoPlayer).store[id];
      IsSubsequence(k'.threatSquares, k.threatSquares) &&
      (k'.inCheck <==> k'.threatSquares != []) &&
      k'.(threatSquares := k.threatSquares, inCheck := k.inCheck) == k &&
      (forall s | s in k.threatSquares && !ContainsPiece(pos, s) :: s !in k'.threatSquares) &&
      (forall s | s in k.threatSquares && ContainsPiece(pos, s) && At(pos, s).value.kind != King && At(pos, s).value.kind != Pawn ::
         s in k'.threatSquares <==> SquareOf(k) in NonKingMoves(pos, At(pos, s).value, twoPlayer))
  {
    var k := pos.store[id];
    var noThreats := UncheckScan(pos, SquareOf(k), k.threatSquares, twoPlayer).0;
    var left := RemoveEach(k.threatSquares, noThreats);
    UncheckKing(pos, id, twoPlayer);
    RemoveEachSubsequence(k.threatSquares, noThreats);
    forall s | s in k.threatSquares
      ensures s in left <==> s !in noThreats
      ensures !ContainsPiece(pos, s) ==> s in noThreats
      ensures ContainsPiece(pos, s) && At(pos, s).value.kind != King && At(pos, s).value.kind != Pawn ==>
                (s in noThreats <==> SquareOf(k) !in NonKingMoves(pos, At(pos, s).value, twoPlayer))
    {
      RemoveEachMembers(k.threatSquares, noThreats, s);
      UncheckScanMembers(pos, pos, SquareOf(k), k.threatSquares, twoPlayer, s);
    }
  }

  /** uncheck rewrites only the threat list and the check flag of the King:
    * the grid and the kind, colour and square of every piece stay. */
  lemma UncheckLayout(pos: Position, id: nat, twoPlayer: bool)
    requires Valid(pos) && id < |pos.store|
    ensures SameLayout(pos, Uncheck(pos, id, twoPlayer))
  {
    var k := pos.store[id];
    if k.inCheck {
      var q := UncheckScan(pos, SquareOf(k), k.threatSquares, twoPlayer).1;
      SimilarLayout(pos, q);
    }
  }

  /** The first loop of the probe's threat test: the eight neighbours of t,
    * stopping at the first threat. */
  method NearThreatScan(pos: Position, t: Sq, king: Piece) returns (underThreat: bool)
    ensures underThreat <==> exists b | 0 <= b < 8 :: NearThreatAt(pos, t, king, b)
  {
    underThreat := false;
    var a := 0;
    while a < 8 && !underThreat
      invariant 0 <= a <= 8
      invariant underThreat <==> exists b | 0 <= b < a :: NearThreatAt(pos, t, king, b)
    {
      var u := Around(t, a);
      if InBounds(u) {
        if ContainsOpponentKing(pos, u, king) {
          underThreat := true;
        } else if a % 2 == 1 && ContainsPiece(pos, u) && At(pos, u).value.kind == Pawn && !IsSameColor(At(pos, u).value, king) {
          underThreat := true;
        }
      }
      assert underThreat == NearThreatAt(pos, t, king, a);
      a := a + 1;
    }
  }

  /** The test the second loop applies to one square. */
  method CheckFarAttacker(pos: Position, s: Sq, t: Sq, king: Piece, twoPlayer: bool) returns (attacks: bool)
    ensures attacks == FarAttacker(pos, s, t, king, twoPlayer)
  {
    attacks := false;
    if ContainsPiece(pos, s) && !IsSameColor(At(pos, s).value, king) &&
       At(pos, s).value.kind != King && At(pos, s).value.kind != Pawn {
      var possible := GenerateNonKingMoves(pos, At(pos, s).value, twoPlayer);
      attacks := t in possible;
    }
  }

  /** No square of the row holds a piece that reaches t the way the second
    * loop looks for. */
  predicate RowClear(pos: Position, row: int, t: Sq, king: Piece, twoPlayer: bool)
  {
    forall c | 0 <= c < 8 :: !FarAttacker(pos, Sq(row, c), t, king, twoPlayer)
  }

  /** One row of the second loop, stopping at the first attacker. */
  method FarRowScan(pos: Position, row: int, t: Sq, king: Piece, twoPlayer: bool) returns (found: bool)
    ensures found <==> !RowClear(pos, row, t, king, twoPlayer)
  {
    var col := 0;
    while col < 8
      invariant 0 <= col <= 8
      invariant forall c | 0 <= c < col :: !FarAttacker(pos, Sq(row, c), t, king, twoPlayer)
    {
      var attacks := CheckFarAttacker(pos, Sq(row, col), t, king, twoPlayer);
      if attacks {
        assert !RowClear(pos, row, t, king, twoPlayer) by {
          assert FarAttacker(pos, Sq(row, col), t, king, twoPlayer);
        }
        return true;
      }
      col := col + 1;
    }
    return false;
  }

  /** The second loop: every square of the board, stopping at the first
    * piece that is neither King nor Pawn, of the other colour, and reaches t. */
  method FarThreatScan(pos: Position, t: Sq, king: Piece, twoPlayer: bool) returns (underThreat: bool)
    ensures underThreat <==> exists r, c | 0 <= r < 8 && 0 <= c < 8 :: FarAttacker(pos, Sq(r, c), t, king, twoPlayer)
  {
    var row := 0;
    while row < 8
      invariant 0 <= row <= 8
      invariant forall r | 0 <= r < row :: RowClear(pos, r, t, king, twoPlayer)
    {
      var found := FarRowScan(pos, row, t, king, twoPlayer);
      if found {
        var c :| 0 <= c < 8 && FarAttacker(pos, Sq(row, c), t, king, twoPlayer);
        return true;
      }
      row := row + 1;
    }
    forall r, c | 0 <= r < 8 && 0 <= c < 8
      ensures !FarAttacker(pos, Sq(r, c), t, king, twoPlayer)
    {
      assert RowClear(pos, r, t, king, twoPlayer);
    }
    return false;
  }

  /** The probe's threat test: the neighbours first, then the whole board. */
  method UnderThreatScan(pos: Position, t: Sq, king: Piece, twoPlayer: bool) returns (underThreat: bool)
    ensures underThreat == UnderThreat(pos, t, king, twoPlayer)
  {
    underThreat := NearThreatScan(pos, t, king);
    if !underThreat {
      underThreat := FarThreatScan(pos, t, king, twoPlayer);
    }
  }

  /** One square of the king-side castling loop: either the scan stops here
    * (nothing more is offered) or the targets grow by what this square offers
    * and the scan goes on from the next column. */
  method KingSideSquare(pos: Position, king: Piece, row: int, i: int, count: int, twoPlayer: bool, targets: seq<Sq>)
    returns (targets': seq<Sq>, stop: bool)
    requires i < 8
    ensures stop ==> KingSideCastles(pos, king, row, i, count, twoPlayer) == [] && targets' == targets
    ensures !stop ==> targets' + KingSideCastles(pos, king, row, i + 1, count + 1, twoPlayer) ==
                      targets + KingSideCastles(pos, king, row, i, count, twoPlayer)
  {
    var s := Sq(row, i);
    var offered := false;
    if UnmovedRook(pos, s) && !king.inCheck && CastleTargetFree(pos, Sq(row, i - 1), king) {
      if count + 1 >= 2 {
        offered := true;
      } else {
        var threatened := ThreatenSquareScan(pos, s, king.color, twoPlayer);
        offered := !threatened;
      }
    }
    targets' := targets;
    stop := false;
    if offered {
      targets' := targets + [Sq(row, i - 1)];
      AppendAssociative(targets, [Sq(row, i - 1)], KingSideCastles(pos, king, row, i + 1, count + 1, twoPlayer));
    } else {
      stop := ContainsPiece(pos, s);
      if !stop {
        stop := ThreatenSquareScan(pos, s, king.color, twoPlayer);
      }
    }
  }

  /** The king-side castling loop of generateMoves, from column 5 to the
    * edge; a blocked or threatened square ends it. */
  method KingSideScan(pos: Position, king: Piece, row: int, twoPlayer: bool) returns (targets: seq<Sq>)
    ensures targets == KingSideCastles(pos, king, row, 5, 0, twoPlayer)
  {
    targets := [];
    AppendEmpty(KingSideCastles(pos, king, row, 5, 0, twoPlayer));
    var count := 0;
    var i := 5;
    while i < 8
      invariant 5 <= i <= 9
      invariant i < 8 ==> count == i - 5
      invariant targets + KingSideCastles(pos, king, row, i, count, twoPlayer) == KingSideCastles(pos, king, row, 5, 0, twoPlayer)
      decreases 9 - i
    {
      var stop;
      targets, stop := KingSideSquare(pos, king, row, i, count, twoPlayer, targets);
      count := count + 1;
      if stop {
        AppendEmpty(targets);
        i := 8;
      }
      i := i + 1;
    }
    AppendEmpty(targets);
  }

  /** One square of the queen-side scan, with the threat test computed. */
  lemma QueenSideStep(pos: Position, king: Piece, row: int, i: int, count: int, twoPlayer: bool, threatened: bool)
    requires i >= 0 && threatened == ThreatenSquare(pos, Sq(row, i), king.color, twoPlayer)
    ensures var rest := QueenSideCastles(pos, king, row, i - 1, count + 1, twoPlayer);
      QueenSideCastles(pos, king, row, i, count, twoPlayer) ==
        if UnmovedRook(pos, Sq(row, i)) && !king.inCheck && !threatened && CastleTargetFree(pos, Sq(row, i + 2), king)
        then [Sq(row, i + 2)] + rest
        else if ContainsPiece(pos, Sq(row, i)) || (threatened && count + 1 < 2) then []
        else rest
  {
  }

  /** One square of the queen-side castling loop, as for the king side. */
  method QueenSideSquare(pos: Position, king: Piece, row: int, i: int, count: int, twoPlayer: bool, targets: seq<Sq>)
    returns (targets': seq<Sq>, stop: bool)
    requires i >= 0
    ensures stop ==> QueenSideCastles(pos, king, row, i, count, twoPlayer) == [] && targets' == targets
    ensures !stop ==> targets' + QueenSideCastles(pos, king, row, i - 1, count + 1, twoPlayer) ==
                      targets + QueenSideCastles(pos, king, row, i, count, twoPlayer)
  {
    var s := Sq(row, i);
    var threatened := ThreatenSquareScan(pos, s, king.color, twoPlayer);
    QueenSideStep(pos, king, row, i, count, twoPlayer, threatened);
    targets' := targets;
    stop := false;
    if UnmovedRook(pos, s) && !king.inCheck && !threatened && CastleTargetFree(pos, Sq(row, i + 2), king) {
      targets' := targets + [Sq(row, i + 2)];
      AppendAssociative(targets, [Sq(row, i + 2)], QueenSideCastles(pos, king, row, i - 1, count + 1, twoPlayer));
    } else if ContainsPiece(pos, s) || (threatened && count + 1 < 2) {
      stop := true;
    }
  }

  /** The queen-side castling loop, from column 3 down to the edge; a
    * threatened square ends it only next to the King. */
  method QueenSideScan(pos: Position, king: Piece, row: int, twoPlayer: bool) returns (targets: seq<Sq>)
    ensures targets == QueenSideCastles(pos, king, row, 3, 0, twoPlayer)
  {
    targets := [];
    AppendEmpty(QueenSideCastles(pos, king, row, 3, 0, twoPlayer));
    var count := 0;
    var i := 3;
    while i >= 0
      invariant -2 <= i <= 3
      invariant i >= 0 ==> count == 3 - i
      invariant targets + QueenSideCastles(pos, king, row, i, count, twoPlayer) == QueenSideCastles(pos, king, row, 3, 0, twoPlayer)
      decreases i + 2
    {
      var stop;
      targets, stop := QueenSideSquare(pos, king, row, i, count, twoPlayer, targets);
      count := count + 1;
      if stop {
        AppendEmpty(targets);
        i := -1;
      }
      i := i - 1;
    }
    AppendEmpty(targets);
  }

  /** The probe of one neighbour t: the King is put on t (what stood there
    * handed back), its square is emptied, the threat test runs, and the
    * board is restored. */
  method ProbeNeighbour(pos: Position, id: nat, origin: Sq, t: Sq, twoPlayer: bool) returns (safe: bool, q: Position)
    requires Valid(pos) && InBounds(origin) && InBounds(t) && Cell(pos, origin) == Some(id)
    ensures safe == !UnderThreat(Lift(pos, origin, t, id).0, t, pos.store[id], twoPlayer)
    ensures q == RoundTrip(pos, origin, t, id)
  {
    var lifted := Lift(pos, origin, t, id);
    var threatened := UnderThreatScan(lifted.0, t, pos.store[id], twoPlayer);
    safe := !threatened;
    q := Restore(lifted.0, origin, t, id, lifted.1);
  }

  /** The probe loop from neighbour a on: the verdict on neighbour a, then
    * the rest probed on the board the probe left. */
  lemma KingProbesStep(pos: Position, id: nat, origin: Sq, a: int, twoPlayer: bool)
    requires Valid(pos) && InBounds(origin) && Cell(pos, origin) == Some(id) && 0 <= a < 8
    requires OpenTo(pos, Around(origin, a), pos.store[id])
    ensures var t := Around(origin, a);
      var q := RoundTrip(pos, origin, t, id);
      Valid(q) && Cell(q, origin) == Some(id) &&
      KingProbes(pos, id, origin, a, twoPlayer) ==
        ((if !UnderThreat(Lift(pos, origin, t, id).0, t, pos.store[id], twoPlayer) then [t] else []) +
           KingProbes(q, id, origin, a + 1, twoPlayer).0,
         KingProbes(q, id, origin, a + 1, twoPlayer).1)
  {
    RoundTripRestores(pos, origin, Around(origin, a), id);
  }

  /** One turn of the probe loop of generateMoves: a neighbour open to the
    * King is probed and kept when no threat was found. */
  method KingProbeStep(pos: Position, id: nat, origin: Sq, a: int, twoPlayer: bool, adjacent: seq<Sq>)
    returns (adjacent': seq<Sq>, q: Position)
    requires Valid(pos) && InBounds(origin) && Cell(pos, origin) == Some(id) && 0 <= a < 8
    ensures Valid(q) && Cell(q, origin) == Some(id)
    ensures adjacent' + KingProbes(q, id, origin, a + 1, twoPlayer).0 == adjacent + KingProbes(pos, id, origin, a, twoPlayer).0
    ensures KingProbes(q, id, origin, a + 1, twoPlayer).1 == KingProbes(pos, id, origin, a, twoPlayer).1
  {
    var t := Around(origin, a);
    adjacent', q := adjacent, pos;
    if OpenTo(pos, t, pos.store[id]) {
      KingProbesStep(pos, id, origin, a, twoPlayer);
      var safe;
      safe, q := ProbeNeighbour(pos, id, origin, t, twoPlayer);
      if safe {
        adjacent' := adjacent + [t];
        AppendAssociative(adjacent, [t], KingProbes(q, id, origin, a + 1, twoPlayer).0);
      } else {
        assert [] + KingProbes(q, id, origin, a + 1, twoPlayer).0 == KingProbes(q, id, origin, a + 1, twoPlayer).0;
      }
    }
  }

  /** The probe loop of generateMoves over the eight neighbours of the
    * King's square. */
  method ProbeNeighbours(pos: Position, id: nat, origin: Sq, twoPlayer: bool) returns (adjacent: seq<Sq>, q: Position)
    requires Valid(pos) && InBounds(origin) && Cell(pos, origin) == Some(id)
    ensures (adjacent, q) == KingProbes(pos, id, origin, 0, twoPlayer)
  {
    ghost var target := KingProbes(pos, id, origin, 0, twoPlayer);
    AppendEmpty(target.0);
    adjacent, q := [], pos;
    var a := 0;
    while a < 8
      invariant 0 <= a <= 8 && Valid(q) && Cell(q, origin) == Some(id)
      invariant adjacent + KingProbes(q, id, origin, a, twoPlayer).0 == target.0
      invariant KingProbes(q, id, origin, a, twoPlayer).1 == target.1
    {
      adjacent, q := KingProbeStep(q, id, origin, a, twoPlayer, adjacent);
      a := a + 1;
    }
    AppendEmpty(adjacent);
  }

  /** King.generateMoves: the castling scans (for an unmoved King on column
    * 4), then the probes of the neighbours. */
  method GenerateKingMoves(pos: Position, id: nat, twoPlayer: bool) returns (moves: seq<Sq>, q: Position)
    requires Valid(pos) && Placed(pos, id) && pos.store[id].kind == King
    ensures (moves, q) == KingMoves(pos, id, twoPlayer)
  {
    var king := pos.store[id];
    moves := [];
    if !king.hasMoved && king.column == 4 {
      var kingSide := KingSideScan(pos, king, king.row, twoPlayer);
      var queenSide := QueenSideScan(pos, king, king.row, twoPlayer);
      moves := kingSide + queenSide;
    }
    var adjacent;
    adjacent, q := ProbeNeighbours(pos, id, SquareOf(king), twoPlayer);
    moves := moves + adjacent;
  }

  /** The virtual call piece.generateMoves(board) for the piece `id`. */
  method GenerateMoves(pos: Position, id: nat, twoPlayer: bool) returns (moves: seq<Sq>, q: Position)
    requires Valid(pos) && Placed(pos, id)
    ensures (moves, q) == MovesOf(pos, id, twoPlayer)
  {
    if pos.store[id].kind == King {
      moves, q := GenerateKingMoves(pos, id, twoPlayer);
    } else {
      moves := GenerateNonKingMoves(pos, pos.store[id], twoPlayer);
      q := pos;
    }
  }
}

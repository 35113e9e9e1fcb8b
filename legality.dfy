/** Board.handleChecks: every move of a selected piece is tried on the board
  * (the probe of the Probes module) and the moves after which some opposing
  * piece other than a King reaches a King of the mover's colour are removed
  * from the list. */
module Legality {
  import opened Wrappers
  import opened Pieces
  import opened Grid
  import opened Lists
  import opened Attacks
  import opened Probes
  import opened Kings

  /** The innermost loop of handleChecks: the number of squares among an
    * attacker's moves that hold a King of the mover's colour (the move is
    * added to the refused list once for each). */
  function KingHits(pos: Position, moves: seq<Sq>, mover: Piece): (n: nat)
    ensures n <= |moves|
    ensures n == 0 <==> forall u | u in moves :: !ContainsOwnKing(pos, u, mover)
  {
    if moves == [] then 0
    else
      assert forall u | u in moves :: u == moves[0] || u in moves[1..];
      (if ContainsOwnKing(pos, moves[0], mover) then 1 else 0) + KingHits(pos, moves[1..], mover)
  }

  /** The piece on s would take a King of the mover's colour: it is not a
    * King, it is of the other colour, and one of its moves lands on such a
    * King. */
  predicate Exposer(pos: Position, s: Sq, mover: Piece, twoPlayer: bool)
  {
    ContainsPiece(pos, s) && At(pos, s).value.kind != King && !IsSameColor(At(pos, s).value, mover) &&
    exists u | u in NonKingMoves(pos, At(pos, s).value, twoPlayer) :: ContainsOwnKing(pos, u, mover)
  }

  /** Some square of the board holds an exposer. */
  predicate Exposes(pos: Position, mover: Piece, twoPlayer: bool)
  {
    exists r, c | 0 <= r < 8 && 0 <= c < 8 :: Exposer(pos, Sq(r, c), mover, twoPlayer)
  }

  /** What the scan of handleChecks counts at the square s: the King hits of
    * the piece there when it is not a King and of the other colour. */
  function ExposureAt(pos: Position, s: Sq, mover: Piece, twoPlayer: bool): (n: nat)
    ensures n > 0 <==> Exposer(pos, s, mover, twoPlayer)
  {
    if ContainsPiece(pos, s) && At(pos, s).value.kind != King && !IsSameColor(At(pos, s).value, mover) then
      KingHits(pos, NonKingMoves(pos, At(pos, s).value, twoPlayer), mover)
    else 0
  }

  /** The row-major scan of handleChecks from square (row, col) on,
    * stopping at the first piece whose moves land on the mover's King: how
    * many times the move is refused. Column 8 stands for the end of a row. */
  function ExposureFrom(pos: Position, mover: Piece, twoPlayer: bool, row: int, col: int): nat
    requires 0 <= row <= 8 && 0 <= col <= 8
    decreases 8 - row, 8 - col, pos
  {
    if row == 8 then 0
    else if col == 8 then ExposureFrom(pos, mover, twoPlayer, row + 1, 0)
    else
      var n := ExposureAt(pos, Sq(row, col), mover, twoPlayer);
      if n > 0 then n else ExposureFrom(pos, mover, twoPlayer, row, col + 1)
  }

  /** The scan from (row, col) counts something exactly when a square from
    * there on holds an exposer. */
  lemma {:induction false} ExposureFromExists(pos: Position, mover: Piece, twoPlayer: bool, row: int, col: int)
    requires 0 <= row <= 8 && 0 <= col <= 8
    ensures ExposureFrom(pos, mover, twoPlayer, row, col) > 0 <==>
              exists r, c | 0 <= r < 8 && 0 <= c < 8 && NotBefore(r, c, row, col) :: Exposer(pos, Sq(r, c), mover, twoPlayer)
    decreases 8 - row, 8 - col
  {
    if row < 8 && col == 8 {
      ExposureFromExists(pos, mover, twoPlayer, row + 1, 0);
      assert forall r, c | 0 <= r < 8 && 0 <= c < 8 :: NotBefore(r, c, row, col) == NotBefore(r, c, row + 1, 0);
    } else if row < 8 {
      ExposureFromExists(pos, mover, twoPlayer, row, col + 1);
      if ExposureAt(pos, Sq(row, col), mover, twoPlayer) > 0 {
        assert NotBefore(row, col, row, col);
      } else {
        assert forall r, c | 0 <= r < 8 && 0 <= c < 8 && (r, c) != (row, col) ::
          NotBefore(r, c, row, col) == NotBefore(r, c, row, col + 1);
      }
    }
  }

  /** The scan refuses the move exactly when some piece exposes the King. */
  lemma ExposureMeaning(pos: Position, mover: Piece, twoPlayer: bool)
    ensures ExposureFrom(pos, mover, twoPlayer, 0, 0) > 0 <==> Exposes(pos, mover, twoPlayer)
  {
    ExposureFromExists(pos, mover, twoPlayer, 0, 0);
  }

  function Repeat(t: Sq, n: nat): (r: seq<Sq>)
    ensures |r| == n && forall u | u in r :: u == t
  {
    if n == 0 then [] else [t] + Repeat(t, n - 1)
  }

  /** The loop of handleChecks over the generated moves: each is probed and
    * added to the refused list as often as the scan finds the King taken;
    * the board each probe leaves behind is handed to the next. */
  function RefusedMoves(pos: Position, source: Sq, id: nat, moves: seq<Sq>, twoPlayer: bool): (r: (seq<Sq>, Position))
    requires Valid(pos) && InBounds(source) && Cell(pos, source) == Some(id)
    requires forall i | 0 <= i < |moves| :: InBounds(moves[i])
    ensures Valid(r.1) && Cell(r.1, source) == Some(id) && |r.1.store| == |pos.store|
    ensures r.1.store[id].kind == pos.store[id].kind && r.1.store[id].color == pos.store[id].color
    ensures forall u | u in r.0 :: u in moves
    decreases |moves|
  {
    if moves == [] then ([], pos)
    else
      var t := moves[0];
      var (p, removed) := Lift(pos, source, t, id);
      var n := ExposureFrom(p, pos.store[id], twoPlayer, 0, 0);
      RoundTripRestores(pos, source, t, id);
      var rest := RefusedMoves(Restore(p, source, t, id, removed), source, id, moves[1..], twoPlayer);
      assert forall u | u in Repeat(t, n) + rest.0 :: u in moves by {
        assert forall u | u in rest.0 :: u in moves[1..];
      }
      (Repeat(t, n) + rest.0, rest.1)
  }

  /** handleChecks: the generated moves without the refused ones, and the
    * board the probes leave behind. */
  function HandleChecks(pos: Position, source: Sq, id: nat, moves: seq<Sq>, twoPlayer: bool): (r: (seq<Sq>, Position))
    requires Valid(pos) && InBounds(source) && Cell(pos, source) == Some(id)
    requires forall i | 0 <= i < |moves| :: InBounds(moves[i])
    ensures Valid(r.1) && Cell(r.1, source) == Some(id) && |r.1.store| == |pos.store|
    ensures r.1.store[id].kind == pos.store[id].kind && r.1.store[id].color == pos.store[id].color
    ensures IsSubsequence(r.0, moves)
  {
    var (refused, q) := RefusedMoves(pos, source, id, moves, twoPlayer);
    RemoveEachSubsequence(moves, refused);
    (RemoveEach(moves, refused), q)
  }

  /** setPosition with lookAhead changes only the coordinates of a piece
    * other than a Pawn, and of a moved Pawn that does not land on its start
    * rank. */
  predicate KeepsFlags(p: Piece, row: int)
  {
    p.kind != Pawn || (p.hasMoved && row != StartRank(p))
  }

  lemma KeepsFlagsSetPosition(p: Piece, row: int, column: int)
    requires KeepsFlags(p, row)
    ensures SetPosition(p, row, column, true) == p.(row := row, column := column)
  {
  }

  /** A probe to an open square restores the board exactly when neither the
    * mover nor the piece on the target has a pawn flag the two setPosition
    * calls would rewrite. */
  lemma ProbeExact(pos: Position, source: Sq, t: Sq, id: nat)
    requires Valid(pos) && InBounds(source) && InBounds(t) && Cell(pos, source) == Some(id)
    requires t != source && OpenTo(pos, t, pos.store[id])
    requires KeepsFlags(pos.store[id], t.row) && KeepsFlags(pos.store[id], source.row)
    requires ContainsPiece(pos, t) ==> KeepsFlags(At(pos, t).value, t.row)
    ensures RoundTrip(pos, source, t, id) == pos
  {
    var k := pos.store[id];
    var q := RoundTrip(pos, source, t, id);
    OnlyAt(pos, source, id);
    RoundTripOpen(pos, source, t, id);
    RoundTripStore(pos, source, t, id);
    forall j | 0 <= j < |pos.store|
      ensures q.store[j] == pos.store[j]
    {
      if j == id {
        KeepsFlagsSetPosition(k, t.row, t.col);
        KeepsFlagsSetPosition(k.(row := t.row, column := t.col), source.row, source.col);
      } else if Some(j) == Cell(pos, t) {
        OnlyAt(pos, t, j);
        KeepsFlagsSetPosition(pos.store[j], t.row, t.col);
      }
    }
    assert q.store == pos.store;
  }

  lemma {:induction false} RefusedMovesExact(pos: Position, source: Sq, id: nat, moves: seq<Sq>, twoPlayer: bool, t: Sq)
    requires Valid(pos) && InBounds(source) && Cell(pos, source) == Some(id)
    requires forall u | u in moves :: InBounds(u)
    requires forall i | 0 <= i < |moves| :: RoundTrip(pos, source, moves[i], id) == pos
    ensures RefusedMoves(pos, source, id, moves, twoPlayer).1 == pos
    ensures t in RefusedMoves(pos, source, id, moves, twoPlayer).0 <==>
              t in moves && ExposureFrom(Lift(pos, source, t, id).0, pos.store[id], twoPlayer, 0, 0) > 0
    decreases |moves|
  {
    if moves != [] {
      var u := moves[0];
      var (p, removed) := Lift(pos, source, u, id);
      assert Restore(p, source, u, id, removed) == pos;
      RefusedMovesExact(pos, source, id, moves[1..], twoPlayer, t);
      assert t in moves <==> t == u || t in moves[1..];
    }
  }

  /** When every probe restores the board exactly, handleChecks keeps a move
    * of a duplicate-free list exactly when, with the piece moved there, no
    * opposing piece other than a King can take a King of its colour; the
    * board is left as it was. */
  lemma HandleChecksExact(pos: Position, source: Sq, id: nat, moves: seq<Sq>, twoPlayer: bool, t: Sq)
    requires Valid(pos) && InBounds(source) && Cell(pos, source) == Some(id)
    requires forall u | u in moves :: InBounds(u)
    requires forall i | 0 <= i < |moves| :: RoundTrip(pos, source, moves[i], id) == pos
    requires NoDup(moves)
    ensures HandleChecks(pos, source, id, moves, twoPlayer).1 == pos
    ensures t in HandleChecks(pos, source, id, moves, twoPlayer).0 <==>
              t in moves && !Exposes(Lift(pos, source, t, id).0, pos.store[id], twoPlayer)
  {
    var refused := RefusedMoves(pos, source, id, moves, twoPlayer).0;
    RefusedMovesExact(pos, source, id, moves, twoPlayer, t);
    RemoveEachMembers(moves, refused, t);
    assert HandleChecks(pos, source, id, moves, twoPlayer).0 == RemoveEach(moves, refused);
    if t in moves {
      ExposureMeaning(Lift(pos, source, t, id).0, pos.store[id], twoPlayer);
    }
  }

  /** When every move is open to the piece (or is its own square), the probes
    * leave a board similar to the one they started from. */
  lemma {:induction false} RefusedMovesSimilar(pos: Position, source: Sq, id: nat, moves: seq<Sq>, twoPlayer: bool)
    requires Valid(pos) && InBounds(source) && Cell(pos, source) == Some(id)
    requires forall i | 0 <= i < |moves| :: InBounds(moves[i])
    requires forall i | 0 <= i < |moves| :: moves[i] == source || OpenTo(pos, moves[i], pos.store[id])
    ensures Similar(pos, RefusedMoves(pos, source, id, moves, twoPlayer).1)
    decreases |moves|
  {
    if moves != [] {
      var u := moves[0];
      RoundTripRestores(pos, source, u, id);
      var q := RoundTrip(pos, source, u, id);
      forall i | 0 <= i < |moves[1..]|
        ensures moves[1..][i] == source || OpenTo(q, moves[1..][i], q.store[id])
      {
        assert moves[1..][i] == moves[i + 1];
        assert Core(q.store[id]) == Core(pos.store[id]);
        OpenToSimilar(pos, q, moves[i + 1], pos.store[id]);
      }
      RefusedMovesSimilar(q, source, id, moves[1..], twoPlayer);
      SimilarTransitive(pos, q, RefusedMoves(q, source, id, moves[1..], twoPlayer).1);
    }
  }

  /** Outside the two-player screen handleChecks over what generateMoves
    * returned probes only squares open to the piece (or its own), so the
    * position it leaves is similar to the one generation started from
    * (occupancy and every recorded square are as they were), and every move
    * it keeps is still open to the piece there. */
  lemma HandleGeneratedSimilar(pos: Position, id: nat)
    requires Valid(pos) && Placed(pos, id)
    ensures var (moves, q) := MovesOf(pos, id, false);
      var source := SquareOf(pos.store[id]);
      (forall i | 0 <= i < |moves| :: InBounds(moves[i])) && Cell(q, source) == Some(id) &&
      var (legal, h) := HandleChecks(q, source, id, moves, false);
      Similar(pos, h) && forall u | u in legal :: InBounds(u) && (u == source || OpenTo(h, u, pos.store[id]))
  {
    var (moves, q) := MovesOf(pos, id, false);
    var source := SquareOf(pos.store[id]);
    forall i | 0 <= i < |moves|
      ensures InBounds(moves[i]) && (moves[i] == source || OpenTo(q, moves[i], q.store[id]))
    {
      MovesOnBoard(pos, id, false, moves[i]);
      MovesOpen(pos, id, moves[i]);
      assert Core(q.store[id]) == Core(pos.store[id]);
      OpenToSimilar(pos, q, moves[i], pos.store[id]);
    }
    RefusedMovesSimilar(q, source, id, moves, false);
    var (legal, h) := HandleChecks(q, source, id, moves, false);
    SimilarTransitive(pos, q, h);
    forall u | u in legal
      ensures InBounds(u) && (u == source || OpenTo(h, u, pos.store[id]))
    {
      SubsequenceMembers(legal, moves, u);
      MovesOnBoard(pos, id, false, u);
      MovesOpen(pos, id, u);
      OpenToSimilar(pos, h, u, pos.store[id]);
    }
  }

  /** Counting from position j of the moves: the square there, then the rest. */
  lemma KingHitsStep(pos: Position, moves: seq<Sq>, mover: Piece, j: int)
    requires 0 <= j < |moves|
    ensures KingHits(pos, moves[j..], mover) ==
              (if ContainsOwnKing(pos, moves[j], mover) then 1 else 0) + KingHits(pos, moves[j + 1..], mover)
  {
    assert moves[j..][0] == moves[j] && moves[j..][1..] == moves[j + 1..];
  }

  lemma {:induction false} RepeatSnoc(t: Sq, n: nat)
    ensures Repeat(t, n) + [t] == Repeat(t, n + 1)
  {
    if n > 0 {
      RepeatSnoc(t, n - 1);
      assert Repeat(t, n) + [t] == [t] + (Repeat(t, n - 1) + [t]);
    }
  }

  /** The innermost loop of handleChecks: the move is added to the refused
    * list once for every square among an attacker's moves that holds a King
    * of the mover's colour. */
  method AddKingHits(pos: Position, moves: seq<Sq>, mover: Piece, move: Sq) returns (added: seq<Sq>)
    ensures added == Repeat(move, KingHits(pos, moves, mover))
  {
    added := [];
    var j := 0;
    assert moves[0..] == moves;
    while j < |moves|
      invariant 0 <= j <= |moves|
      invariant added == Repeat(move, |added|)
      invariant |added| + KingHits(pos, moves[j..], mover) == KingHits(pos, moves, mover)
    {
      KingHitsStep(pos, moves, mover, j);
      if ContainsOwnKing(pos, moves[j], mover) {
        RepeatSnoc(move, |added|);
        added := added + [move];
      }
      j := j + 1;
    }
    assert moves[j..] == [];
  }

  /** The test the board scan of handleChecks applies to one square. */
  method ExposureAtScan(pos: Position, s: Sq, mover: Piece, move: Sq, twoPlayer: bool) returns (added: seq<Sq>)
    ensures added == Repeat(move, ExposureAt(pos, s, mover, twoPlayer))
  {
    added := [];
    if ContainsPiece(pos, s) && At(pos, s).value.kind != King && !IsSameColor(At(pos, s).value, mover) {
      var next := GenerateNonKingMoves(pos, At(pos, s).value, twoPlayer);
      added := AddKingHits(pos, next, mover, move);
    }
  }

  /** One square of the board scan of handleChecks: nothing is added when
    * the count passes over the square, and otherwise what is added is the
    * count from here on. */
  method ExposureSquareScan(pos: Position, mover: Piece, move: Sq, twoPlayer: bool, row: int, col: int)
    returns (added: seq<Sq>)
    requires 0 <= row < 8 && 0 <= col < 8
    ensures added == [] ==>
      ExposureFrom(pos, mover, twoPlayer, row, col) == ExposureFrom(pos, mover, twoPlayer, row, col + 1)
    ensures added != [] ==> added == Repeat(move, ExposureFrom(pos, mover, twoPlayer, row, col))
  {
    added := ExposureAtScan(pos, Sq(row, col), mover, move, twoPlayer);
  }

  /** The board scan of handleChecks for one probed move, stopping at the
    * first piece whose moves land on the mover's King: what it adds to the
    * refused list. */
  method ExposureScan(pos: Position, mover: Piece, move: Sq, twoPlayer: bool) returns (added: seq<Sq>)
    ensures added == Repeat(move, ExposureFrom(pos, mover, twoPlayer, 0, 0))
  {
    added := [];
    ghost var n := ExposureFrom(pos, mover, twoPlayer, 0, 0);
    var putsKingInCheck := false;
    var row := 0;
    while row < 8 && !putsKingInCheck
      invariant 0 <= row <= 8
      invariant !putsKingInCheck ==> added == [] && ExposureFrom(pos, mover, twoPlayer, row, 0) == n
      invariant putsKingInCheck ==> added == Repeat(move, n)
    {
      var col := 0;
      while col < 8 && !putsKingInCheck
        invariant 0 <= col <= 8
        invariant !putsKingInCheck ==> added == [] && ExposureFrom(pos, mover, twoPlayer, row, col) == n
        invariant putsKingInCheck ==> added == Repeat(move, n)
      {
        added := ExposureSquareScan(pos, mover, move, twoPlayer, row, col);
        putsKingInCheck := added != [];
        col := col + 1;
      }
      row := row + 1;
    }
  }
}

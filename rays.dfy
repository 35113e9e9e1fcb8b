/** The ray casts of Bishop, Rook and Queen: from the square next to the piece
  * in one direction, collect squares until the edge of the board or the first
  * occupied square, which is collected only when it holds the other colour. */
module Rays {
  import opened Wrappers
  import opened Pieces
  import opened Grid

  /** One of the eight unit steps. */
  predicate IsDirection(dr: int, dc: int)
  {
    -1 <= dr <= 1 && -1 <= dc <= 1 && (dr != 0 || dc != 0)
  }

  function Next(s: Sq, dr: int, dc: int): Sq
  {
    Sq(s.row + dr, s.col + dc)
  }

  /** How many more steps fit on the board from s. */
  function Room(s: Sq, dr: int, dc: int): nat
  {
    if !InBounds(s) then 0
    else if dr > 0 then 8 - s.row
    else if dr < 0 then s.row + 1
    else if dc > 0 then 8 - s.col
    else s.col + 1
  }

  lemma RoomShrinks(s: Sq, dr: int, dc: int)
    requires IsDirection(dr, dc) && InBounds(s)
    ensures Room(Next(s, dr, dc), dr, dc) < Room(s, dr, dc)
  {
  }

  /** The displacement of k steps along one coordinate of a unit step. */
  function Offset(d: int, k: int): int
  {
    if d == 0 then 0 else if d > 0 then k else -k
  }

  /** Every square of the board from s onwards in one direction. */
  function Line(s: Sq, dr: int, dc: int): seq<Sq>
    requires IsDirection(dr, dc)
    decreases Room(s, dr, dc)
  {
    if !InBounds(s) then []
    else
      RoomShrinks(s, dr, dc);
      [s] + Line(Next(s, dr, dc), dr, dc)
  }

  /** The squares collected from s onwards by one ray loop of the source. */
  function RayFrom(pos: Position, p: Piece, s: Sq, dr: int, dc: int): seq<Sq>
    requires IsDirection(dr, dc)
    decreases Room(s, dr, dc), pos
  {
    if !InBounds(s) then []
    else if !ContainsPiece(pos, s) then
      RoomShrinks(s, dr, dc);
      [s] + RayFrom(pos, p, Next(s, dr, dc), dr, dc)
    else if !IsSameColor(At(pos, s).value, p) then [s]
    else []
  }

  /** The ray of piece p in direction (dr, dc). */
  function Ray(pos: Position, p: Piece, dr: int, dc: int): seq<Sq>
    requires IsDirection(dr, dc)
  {
    RayFrom(pos, p, Next(SquareOf(p), dr, dc), dr, dc)
  }

  /** One ray loop of generateMoves: step while on the board and not blocked. */
  method CastRay(pos: Position, p: Piece, dr: int, dc: int) returns (moves: seq<Sq>)
    requires IsDirection(dr, dc)
    ensures moves == Ray(pos, p, dr, dc)
  {
    var s := Next(SquareOf(p), dr, dc);
    var blocked := false;
    moves := [];
    while InBounds(s) && !blocked
      invariant !blocked ==> moves + RayFrom(pos, p, s, dr, dc) == Ray(pos, p, dr, dc)
      invariant blocked ==> moves == Ray(pos, p, dr, dc)
      decreases Room(s, dr, dc)
    {
      RoomShrinks(s, dr, dc);
      if !ContainsPiece(pos, s) || !IsSameColor(At(pos, s).value, p) {
        moves := moves + [s];
        if ContainsPiece(pos, s) {
          blocked := true;
        }
      } else {
        blocked := true;
      }
      s := Next(s, dr, dc);
    }
  }

  /** The k-th square of a line is k unit steps away from its first. */
  lemma {:induction false} LineAt(s: Sq, dr: int, dc: int, k: nat)
    requires IsDirection(dr, dc) && k < |Line(s, dr, dc)|
    ensures Line(s, dr, dc)[k] == Sq(s.row + Offset(dr, k), s.col + Offset(dc, k))
    decreases Room(s, dr, dc)
  {
    if k > 0 {
      RoomShrinks(s, dr, dc);
      LineAt(Next(s, dr, dc), dr, dc, k - 1);
    }
  }

  /** A ray is a front segment of its line. */
  lemma {:induction false} RayPrefix(pos: Position, p: Piece, s: Sq, dr: int, dc: int)
    requires IsDirection(dr, dc)
    ensures |RayFrom(pos, p, s, dr, dc)| <= |Line(s, dr, dc)|
    ensures RayFrom(pos, p, s, dr, dc) == Line(s, dr, dc)[..|RayFrom(pos, p, s, dr, dc)|]
    decreases Room(s, dr, dc)
  {
    if InBounds(s) {
      RoomShrinks(s, dr, dc);
      RayPrefix(pos, p, Next(s, dr, dc), dr, dc);
    }
  }

  /** With no occupied square on the line, the ray is the whole line. */
  lemma {:induction false} RayWhole(pos: Position, p: Piece, s: Sq, dr: int, dc: int)
    requires IsDirection(dr, dc)
    requires forall k | 0 <= k < |Line(s, dr, dc)| :: !ContainsPiece(pos, Line(s, dr, dc)[k])
    ensures RayFrom(pos, p, s, dr, dc) == Line(s, dr, dc)
    decreases Room(s, dr, dc)
  {
    if InBounds(s) {
      RoomShrinks(s, dr, dc);
      var n := Next(s, dr, dc);
      var line, tail := Line(s, dr, dc), Line(n, dr, dc);
      assert line == [s] + tail;
      assert !ContainsPiece(pos, line[0]);
      forall k | 0 <= k < |tail| ensures !ContainsPiece(pos, tail[k]) {
        assert tail[k] == line[k + 1];
      }
      RayWhole(pos, p, n, dr, dc);
    }
  }

  /** The ray ends at the first occupied square k of the line: just before
    * it when it holds the mover's colour, just after it otherwise. */
  lemma {:induction false} RayBlocked(pos: Position, p: Piece, s: Sq, dr: int, dc: int, k: nat)
    requires IsDirection(dr, dc) && k < |Line(s, dr, dc)| && ContainsPiece(pos, Line(s, dr, dc)[k])
    requires forall j | 0 <= j < k :: !ContainsPiece(pos, Line(s, dr, dc)[j])
    ensures |RayFrom(pos, p, s, dr, dc)| ==
              if IsSameColor(At(pos, Line(s, dr, dc)[k]).value, p) then k else k + 1
    decreases k
  {
    RoomShrinks(s, dr, dc);
    var n := Next(s, dr, dc);
    var line, tail := Line(s, dr, dc), Line(n, dr, dc);
    assert line == [s] + tail;
    if k > 0 {
      assert !ContainsPiece(pos, line[0]);
      assert tail[k - 1] == line[k];
      forall j | 0 <= j < k - 1 ensures !ContainsPiece(pos, tail[j]) {
        assert tail[j] == line[j + 1];
      }
      RayBlocked(pos, p, n, dr, dc, k - 1);
    }
  }

  /** A ray is the front of its line up to the first occupied square, which
    * belongs to the ray exactly when it holds the other colour; with no
    * occupied square the ray is the whole line. */
  lemma RayStopsAtFirstBlocker(pos: Position, p: Piece, s: Sq, dr: int, dc: int)
    requires IsDirection(dr, dc)
    ensures var ray, line := RayFrom(pos, p, s, dr, dc), Line(s, dr, dc);
      |ray| <= |line| && ray == line[..|ray|]
    ensures var ray, line := RayFrom(pos, p, s, dr, dc), Line(s, dr, dc);
      (forall k | 0 <= k < |line| :: !ContainsPiece(pos, line[k])) ==> ray == line
    ensures var ray, line := RayFrom(pos, p, s, dr, dc), Line(s, dr, dc);
      forall k | 0 <= k < |line| && ContainsPiece(pos, line[k]) && (forall j | 0 <= j < k :: !ContainsPiece(pos, line[j])) ::
        |ray| == if IsSameColor(At(pos, line[k]).value, p) then k else k + 1
  {
    RayPrefix(pos, p, s, dr, dc);
    var line := Line(s, dr, dc);
    if forall k | 0 <= k < |line| :: !ContainsPiece(pos, line[k]) {
      RayWhole(pos, p, s, dr, dc);
    }
    forall k | 0 <= k < |line| && ContainsPiece(pos, line[k]) && (forall j | 0 <= j < k :: !ContainsPiece(pos, line[j]))
      ensures |RayFrom(pos, p, s, dr, dc)| == if IsSameColor(At(pos, line[k]).value, p) then k else k + 1
    {
      RayBlocked(pos, p, s, dr, dc, k);
    }
  }

  /** Every square of a ray is on the board, open to the piece, and some
    * number of unit steps (at least one) away from the piece's own square. */
  lemma RayGeometry(pos: Position, p: Piece, dr: int, dc: int, t: Sq)
    requires IsDirection(dr, dc) && t in Ray(pos, p, dr, dc)
    ensures OpenTo(pos, t, p)
    ensures exists k :: 1 <= k <= 8 && t == Sq(p.row + Offset(dr, k), p.column + Offset(dc, k))
  {
    var i :| 0 <= i < |Ray(pos, p, dr, dc)| && Ray(pos, p, dr, dc)[i] == t;
    RaySquare(pos, p, dr, dc, i);
  }

  lemma RaySquare(pos: Position, p: Piece, dr: int, dc: int, i: nat)
    requires IsDirection(dr, dc) && i < |Ray(pos, p, dr, dc)|
    ensures OpenTo(pos, Ray(pos, p, dr, dc)[i], p) && i + 1 <= 8
    ensures Ray(pos, p, dr, dc)[i] == Sq(p.row + Offset(dr, i + 1), p.column + Offset(dc, i + 1))
  {
    var start := Next(SquareOf(p), dr, dc);
    RayAt(pos, p, start, dr, dc, i);
    LineAt(start, dr, dc, i);
  }

  /** The i-th square of a ray is the i-th square of its line, and is open to
    * the piece. */
  lemma {:induction false} RayAt(pos: Position, p: Piece, s: Sq, dr: int, dc: int, i: nat)
    requires IsDirection(dr, dc) && i < |RayFrom(pos, p, s, dr, dc)|
    ensures i < |Line(s, dr, dc)| && RayFrom(pos, p, s, dr, dc)[i] == Line(s, dr, dc)[i]
    ensures OpenTo(pos, RayFrom(pos, p, s, dr, dc)[i], p)
    ensures i < Room(s, dr, dc) <= 8
    decreases Room(s, dr, dc)
  {
    RoomShrinks(s, dr, dc);
    if i > 0 {
      RayAt(pos, p, Next(s, dr, dc), dr, dc, i - 1);
    }
  }
}

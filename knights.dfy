/** Knight: its score table, getValue and generateMoves. */
module Knights {
  import opened Wrappers
  import opened Pieces
  import opened Grid
  import opened Scores
  import opened Lists

  const KnightBase := 320

  const KnightTable: seq<seq<int>> := [
    [-50, -40, -30, -20, -20, -30, -40, -50],
    [-50, 0, 0, 0, 0, 0, 0, -10],
    [-10, 0, 5, 10, 10, 5, 0, -50],
    [-50, 5, 5, 10, 10, 5, 5, -50],
    [-50, 0, 40, 40, 40, 10, 0, -50],
    [-50, 10, 40, 40, 40, 40, 10, -50],
    [-50, 5, 0, 0, 0, 0, 5, -50],
    [-50, -10, -40, -10, -10, -40, -10, -50]]

  /** Knight.getValue */
  function KnightValue(p: Piece): (v: int)
    requires OnGrid(p)
    ensures p.color == White ==> v == KnightBase + KnightTable[p.row][p.column]
    ensures p.color != White ==> v == KnightBase + KnightTable[7 - p.row][p.column]
  {
    Score(KnightBase, KnightTable, p)
  }

  /** The eight offsets in the order generateMoves tries them. */
  const Jumps: seq<(int, int)> := [(2, 1), (2, -1), (1, 2), (1, -2), (-1, 2), (-1, -2), (-2, 1), (-2, -1)]

  function Target(p: Piece, j: (int, int)): Sq
  {
    Sq(p.row + j.0, p.column + j.1)
  }

  /** The guarded appends of generateMoves for the offsets js, in order. */
  function JumpMoves(pos: Position, p: Piece, js: seq<(int, int)>): (r: seq<Sq>)
    ensures |r| <= |js|
  {
    if js == [] then []
    else
      (if OpenTo(pos, Target(p, js[0]), p) then [Target(p, js[0])] else []) + JumpMoves(pos, p, js[1..])
  }

  /** Knight.generateMoves */
  function KnightMoves(pos: Position, p: Piece): seq<Sq>
  {
    JumpMoves(pos, p, Jumps)
  }

  /** A knight's move: one square along one axis and two along the other. */
  predicate KnightJump(from: Sq, t: Sq)
  {
    (Abs(t.row - from.row) == 1 && Abs(t.col - from.col) == 2) ||
    (Abs(t.row - from.row) == 2 && Abs(t.col - from.col) == 1)
  }

  lemma {:induction false} JumpMovesMembers(pos: Position, p: Piece, js: seq<(int, int)>, t: Sq)
    ensures t in JumpMoves(pos, p, js) <==>
              (exists i | 0 <= i < |js| :: t == Target(p, js[i])) && OpenTo(pos, t, p)
  {
    if js != [] {
      JumpMovesMembers(pos, p, js[1..], t);
      if exists i | 0 <= i < |js| :: t == Target(p, js[i]) {
        var i :| 0 <= i < |js| && t == Target(p, js[i]);
        if i > 0 {
          assert t == Target(p, js[1..][i - 1]);
        }
      }
      if exists i | 0 <= i < |js[1..]| :: t == Target(p, js[1..][i]) {
        var i :| 0 <= i < |js[1..]| && t == Target(p, js[1..][i]);
        assert t == Target(p, js[i + 1]);
      }
    }
  }

  lemma {:induction false} JumpMovesNoDup(pos: Position, p: Piece, js: seq<(int, int)>)
    requires NoDup(js)
    ensures NoDup(JumpMoves(pos, p, js))
  {
    if js != [] {
      assert NoDup(js[1..]) by {
        forall i, j | 0 <= i < j < |js[1..]| ensures js[1..][i] != js[1..][j] {
          assert js[1..][i] == js[i + 1] && js[1..][j] == js[j + 1];
        }
      }
      JumpMovesNoDup(pos, p, js[1..]);
      var rest := JumpMoves(pos, p, js[1..]);
      JumpMovesMembers(pos, p, js[1..], Target(p, js[0]));
      forall i | 0 <= i < |js[1..]| ensures Target(p, js[0]) != Target(p, js[1..][i]) {
        assert js[1..][i] == js[i + 1];
      }
      var head := if OpenTo(pos, Target(p, js[0]), p) then [Target(p, js[0])] else [];
      var r := head + rest;
      forall a, b | 0 <= a < b < |r| ensures r[a] != r[b] {
        if head != [] && a == 0 {
          assert r[b] == rest[b - 1];
        } else if head != [] {
          assert r[a] == rest[a - 1] && r[b] == rest[b - 1];
        }
      }
    }
  }

  /** generateMoves returns exactly the on-board knight's-move squares that
    * are empty or hold the other colour. */
  lemma KnightMovesExact(pos: Position, p: Piece, t: Sq)
    ensures t in KnightMoves(pos, p) <==> KnightJump(SquareOf(p), t) && OpenTo(pos, t, p)
  {
    JumpMovesMembers(pos, p, Jumps, t);
    if KnightJump(SquareOf(p), t) {
      var dr, dc := t.row - p.row, t.col - p.column;
      var i := if (dr, dc) == (2, 1) then 0 else if (dr, dc) == (2, -1) then 1
        else if (dr, dc) == (1, 2) then 2 else if (dr, dc) == (1, -2) then 3
        else if (dr, dc) == (-1, 2) then 4 else if (dr, dc) == (-1, -2) then 5
        else if (dr, dc) == (-2, 1) then 6 else 7;
      assert t == Target(p, Jumps[i]);
    }
  }

  /** No square is returned twice, so a knight has at most eight moves. */
  lemma KnightMovesDistinct(pos: Position, p: Piece)
    ensures NoDup(KnightMoves(pos, p)) && |KnightMoves(pos, p)| <= 8
  {
    JumpMovesNoDup(pos, p, Jumps);
  }
}

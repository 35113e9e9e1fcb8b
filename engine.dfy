/** The loops of Board.java, as methods on position values: handleChecks,
  * the check and uncheck scans that follow a move, the two halves of the
  * player's move and the computer's move, evaluate, and the alpha-beta
  * search. Each is proved against the function that specifies it, or
  * states outright what it keeps; the Board class calls them on its
  * position. */
module Engine {
  import opened Wrappers
  import opened Pieces
  import opened Grid
  import opened Lists
  import opened Probes
  import opened Kings
  import opened Moves
  import opened Evaluation
  import opened Legality
  import opened Rules
  import opened Setup
  import opened Play
  import opened Commit
  import opened Search
  import opened Minimax

  /** Integer.MIN_VALUE and Integer.MAX_VALUE, the window playComputer opens. */
  const MinInt := -0x8000_0000
  const MaxInt := 0x7fff_ffff

  /** The move can be taken back without a piece landing on two squares:
    * the moved piece stands on no square but its destination, and the
    * captured piece, if any, is another piece and off the grid. */
  predicate Undoable(pos: Position, m: Move)
    requires WellFormed(pos) && MoveFits(pos, m)
  {
    (forall r, c | 0 <= r < 8 && 0 <= c < 8 && Sq(r, c) != m.to :: pos.cells[r][c] != Some(m.pieceMoved)) &&
    (m.pieceRemoved.Some? ==> m.pieceRemoved.value != m.pieceMoved && OffGrid(pos, m.pieceRemoved.value))
  }

  /** Taking back an undoable move keeps every piece on at most one square,
    * recording it. */
  lemma UndoValid(pos: Position, m: Move)
    requires Valid(pos) && MoveFits(pos, m) && Undoable(pos, m)
    ensures Valid(UndoBoard(pos, m))
  {
    var p1 := RemovePiece(pos, m.to).0;
    RemoveValid(pos, m.to);
    forall r, c | 0 <= r < 8 && 0 <= c < 8 ensures p1.cells[r][c] != Some(m.pieceMoved) {
      assert Cell(p1, Sq(r, c)) == p1.cells[r][c];
    }
    AddValid(p1, m.from, m.pieceMoved, false);
    var p2 := AddPiece(p1, m.from, Some(m.pieceMoved), false).0;
    if m.pieceRemoved.Some? {
      var x := m.pieceRemoved.value;
      forall r, c | 0 <= r < 8 && 0 <= c < 8 ensures p2.cells[r][c] != Some(x) {
        assert Cell(p2, Sq(r, c)) == p2.cells[r][c];
        assert Cell(pos, Sq(r, c)) == pos.cells[r][c];
        AddPieceOutcome(p1, m.from, Some(m.pieceMoved), false);
      }
      AddValid(p2, m.to, x, false);
    }
  }

  /** Some Pawn stands on a square before (row, col + 1) exactly when one
    * stands before (row, col) or on (row, col). */
  lemma PawnBeforeStep(pos: Position, row: int, col: int)
    requires 0 <= row < 8 && 0 <= col < 8
    ensures PawnBefore(pos, row, col + 1) <==>
              PawnBefore(pos, row, col) || (ContainsPiece(pos, Sq(row, col)) && At(pos, Sq(row, col)).value.kind == Pawn)
  {
    if PawnBefore(pos, row, col + 1) {
      var r, c :| 0 <= r < 8 && 0 <= c < 8 && !NotBefore(r, c, row, col + 1) &&
                  ContainsPiece(pos, Sq(r, c)) && At(pos, Sq(r, c)).value.kind == Pawn;
      if (r, c) != (row, col) {
        assert !NotBefore(r, c, row, col);
      }
    }
    if ContainsPiece(pos, Sq(row, col)) && At(pos, Sq(row, col)).value.kind == Pawn {
      assert !NotBefore(row, col, row, col + 1);
    }
    if PawnBefore(pos, row, col) {
      var r, c :| 0 <= r < 8 && 0 <= c < 8 && !NotBefore(r, c, row, col) &&
                  ContainsPiece(pos, Sq(r, c)) && At(pos, Sq(r, c)).value.kind == Pawn;
      assert !NotBefore(r, c, row, col + 1);
    }
  }

  /** One step of the probing loop of handleChecks: the first move's
    * verdict, then the rest probed on the position the probe left. */
  lemma RefusedMovesStep(pos: Position, source: Sq, id: nat, moves: seq<Sq>, twoPlayer: bool)
    requires Valid(pos) && InBounds(source) && Cell(pos, source) == Some(id)
    requires forall i | 0 <= i < |moves| :: InBounds(moves[i])
    requires moves != []
    ensures Valid(RoundTrip(pos, source, moves[0], id)) && Cell(RoundTrip(pos, source, moves[0], id), source) == Some(id)
    ensures RefusedMoves(pos, source, id, moves, twoPlayer) ==
              (Repeat(moves[0], ExposureFrom(Lift(pos, source, moves[0], id).0, pos.store[id], twoPlayer, 0, 0)) +
               RefusedMoves(RoundTrip(pos, source, moves[0], id), source, id, moves[1..], twoPlayer).0,
               RefusedMoves(RoundTrip(pos, source, moves[0], id), source, id, moves[1..], twoPlayer).1)
  {
    RoundTripRestores(pos, source, moves[0], id);
  }

  /** Nothing left to probe. */
  lemma RefusedMovesDone(pos: Position, source: Sq, id: nat, moves: seq<Sq>, twoPlayer: bool)
    requires Valid(pos) && InBounds(source) && Cell(pos, source) == Some(id) && moves == []
    ensures RefusedMoves(pos, source, id, moves, twoPlayer) == ([], pos)
  {
  }

  /** The body of the probing loop of handleChecks for one move: the piece
    * is put on the move's square, the board is scanned for attacks on its
    * King, and the board is restored. */
  method ProbeMove(pos: Position, source: Sq, id: nat, move: Sq, twoPlayer: bool) returns (added: seq<Sq>, q: Position)
    requires Valid(pos) && InBounds(source) && InBounds(move) && Cell(pos, source) == Some(id)
    ensures added == Repeat(move, ExposureFrom(Lift(pos, source, move, id).0, pos.store[id], twoPlayer, 0, 0))
    ensures q == RoundTrip(pos, source, move, id)
  {
    var lifted := Lift(pos, source, move, id);
    added := ExposureScan(lifted.0, pos.store[id], move, twoPlayer);
    q := Restore(lifted.0, source, move, id, lifted.1);
  }

  /** One turn of the probing loop of handleChecks, stated as the step
    * from the moves still to probe to the ones after the first: the
    * refused list so far grows by the first move's verdict. */
  method ProbeStep(board: Position, source: Sq, id: nat, refused: seq<Sq>, rest: seq<Sq>, twoPlayer: bool)
    returns (refused': seq<Sq>, next: Position)
    requires Valid(board) && InBounds(source) && Cell(board, source) == Some(id)
    requires forall i | 0 <= i < |rest| :: InBounds(rest[i])
    requires rest != []
    ensures Valid(next) && Cell(next, source) == Some(id)
    ensures refused' + RefusedMoves(next, source, id, rest[1..], twoPlayer).0 == refused + RefusedMoves(board, source, id, rest, twoPlayer).0
    ensures RefusedMoves(next, source, id, rest[1..], twoPlayer).1 == RefusedMoves(board, source, id, rest, twoPlayer).1
  {
    RefusedMovesStep(board, source, id, rest, twoPlayer);
    var added;
    added, next := ProbeMove(board, source, id, rest[0], twoPlayer);
    refused' := refused + added;
    AppendAssociative(refused, added, RefusedMoves(next, source, id, rest[1..], twoPlayer).0);
  }

  /** The probing loop of handleChecks: the refused moves, in the order the
    * probes refuse them, and the board the probes leave behind. */
  method ProbeMoves(pos: Position, source: Sq, id: nat, generated: seq<Sq>, twoPlayer: bool)
    returns (notPossible: seq<Sq>, board: Position)
    requires Valid(pos) && InBounds(source) && Cell(pos, source) == Some(id)
    requires forall i | 0 <= i < |generated| :: InBounds(generated[i])
    ensures (notPossible, board) == RefusedMoves(pos, source, id, generated, twoPlayer)
  {
    ghost var target := RefusedMoves(pos, source, id, generated, twoPlayer);
    AppendEmpty(target.0);
    board := pos;
    notPossible := [];
    var rest := generated;
    while rest != []
      invariant Valid(board) && Cell(board, source) == Some(id)
      invariant forall i | 0 <= i < |rest| :: InBounds(rest[i])
      invariant notPossible + RefusedMoves(board, source, id, rest, twoPlayer).0 == target.0
      invariant RefusedMoves(board, source, id, rest, twoPlayer).1 == target.1
      decreases |rest|
    {
      notPossible, board := ProbeStep(board, source, id, notPossible, rest, twoPlayer);
      rest := rest[1..];
    }
    RefusedMovesDone(board, source, id, rest, twoPlayer);
    AppendEmpty(notPossible);
  }

  /** The last loop of handleChecks: movesGenerated.remove(next) for every
    * refused move, in the order they were refused. */
  method RemoveAll(generated: seq<Sq>, refused: seq<Sq>) returns (legal: seq<Sq>)
    ensures legal == RemoveEach(generated, refused)
  {
    legal := generated;
    var j := 0;
    while j < |refused|
      invariant 0 <= j <= |refused|
      invariant RemoveEach(legal, refused[j..]) == RemoveEach(generated, refused)
    {
      assert refused[j..][0] == refused[j] && refused[j..][1..] == refused[j + 1..];
      legal := RemoveFirst(legal, refused[j]);
      j := j + 1;
    }
  }

  lemma UncheckKingsDone(pos: Position, row: int, count: int, twoPlayer: bool)
    requires Valid(pos) && 0 <= row <= 8 && (row == 8 || count >= 2)
    ensures UncheckKingsFrom(pos, row, 0, count, twoPlayer) == pos
  {
  }

  /** One square of the loop that unchecks the first two Kings: a King
    * found there is unchecked and counted. */
  method UncheckSquare(pos: Position, row: int, col: int, count: int, twoPlayer: bool) returns (r: Position, count': int)
    requires Valid(pos) && 0 <= row < 8 && 0 <= col < 8 && count < 2
    ensures Valid(r)
    ensures UncheckKingsFrom(r, row, col + 1, count', twoPlayer) == UncheckKingsFrom(pos, row, col, count, twoPlayer)
  {
    r, count' := pos, count;
    var s := Sq(row, col);
    if ContainsPiece(pos, s) && At(pos, s).value.kind == King {
      r := Uncheck(pos, Cell(pos, s).value, twoPlayer);
      count' := count + 1;
    }
  }

  /** The end of a row: the scan goes on with the next one. */
  lemma UncheckRowDone(pos: Position, row: int, col: int, count: int, twoPlayer: bool)
    requires Valid(pos) && 0 <= row < 8 && 0 <= col <= 8 && (col == 8 || count >= 2)
    ensures UncheckKingsFrom(pos, row, col, count, twoPlayer) == UncheckKingsFrom(pos, row + 1, 0, count, twoPlayer)
  {
  }

  /** One row of the loop that unchecks the first two Kings of the board. */
  method UncheckRow(pos: Position, row: int, count: int, twoPlayer: bool) returns (r: Position, count': int)
    requires Valid(pos) && 0 <= row < 8
    ensures Valid(r)
    ensures UncheckKingsFrom(r, row + 1, 0, count', twoPlayer) == UncheckKingsFrom(pos, row, 0, count, twoPlayer)
  {
    ghost var target := UncheckKingsFrom(pos, row, 0, count, twoPlayer);
    r, count' := pos, count;
    var col := 0;
    while col < 8 && count' < 2
      invariant 0 <= col <= 8 && Valid(r)
      invariant UncheckKingsFrom(r, row, col, count', twoPlayer) == target
    {
      r, count' := UncheckSquare(r, row, col, count', twoPlayer);
      col := col + 1;
    }
    UncheckRowDone(r, row, col, count', twoPlayer);
  }

  /** The loop that unchecks the first two Kings of the board, row by row. */
  method UncheckFirstKings(pos: Position, twoPlayer: bool) returns (r: Position)
    requires Valid(pos)
    ensures r == UncheckKings(pos, twoPlayer)
  {
    ghost var target := UncheckKingsFrom(pos, 0, 0, 0, twoPlayer);
    r := pos;
    var kingsChecked := 0;
    var row := 0;
    while row < 8 && kingsChecked < 2
      invariant 0 <= row <= 8 && Valid(r)
      invariant UncheckKingsFrom(r, row, 0, kingsChecked, twoPlayer) == target
    {
      r, kingsChecked := UncheckRow(r, row, kingsChecked, twoPlayer);
      row := row + 1;
    }
    UncheckKingsDone(r, row, kingsChecked, twoPlayer);
  }

  /** The check loop over ms is the check of its first square followed
    * by the loop over the rest. */
  lemma CheckAlongStep(pos: Position, ms: seq<Sq>, mover: Piece, threat: Sq)
    requires Valid(pos) && ms != []
    ensures Valid(CheckAlong(pos, [ms[0]], mover, threat).0)
    ensures var (q, k) := CheckAlong(pos, [ms[0]], mover, threat);
            var (q2, k2) := CheckAlong(q, ms[1..], mover, threat);
            CheckAlong(pos, ms, mover, threat) == (q2, if k2.Some? then k2 else k)
  {
    assert [ms[0]][1..] == [];
  }

  lemma CheckAlongDone(pos: Position, ms: seq<Sq>, mover: Piece, threat: Sq)
    requires Valid(pos) && ms == []
    ensures CheckAlong(pos, ms, mover, threat) == (pos, None)
  {
  }

  /** One square of the check loop: a King of the other colour than the
    * mover standing on u is checked with the square threat. */
  method CheckSquare(pos: Position, u: Sq, mover: Piece, threat: Sq) returns (q: Position, checked: Option<nat>)
    requires Valid(pos)
    ensures Valid(q)
    ensures CheckAlong(pos, [u], mover, threat) == (q, checked)
  {
    q, checked := pos, None;
    if ContainsOpponentKing(pos, u, mover) {
      var id := Cell(pos, u).value;
      q := SetPiece(pos, id, Check(pos.store[id], threat));
      LayoutConsistent(pos, q);
      checked := Some(id);
    }
  }

  /** The check loop over the moves ms of the piece just moved (or put
    * back), handing back the last King checked. */
  method CheckKings(pos: Position, ms: seq<Sq>, mover: Piece, threat: Sq) returns (q: Position, kingChecked: Option<nat>)
    requires Valid(pos)
    ensures (q, kingChecked) == CheckAlong(pos, ms, mover, threat)
  {
    ghost var target := CheckAlong(pos, ms, mover, threat);
    q, kingChecked := pos, None;
    var i := 0;
    while i < |ms|
      invariant 0 <= i <= |ms| && Valid(q)
      invariant CheckAlong(q, ms[i..], mover, threat).0 == target.0
      invariant (if CheckAlong(q, ms[i..], mover, threat).1.Some? then CheckAlong(q, ms[i..], mover, threat).1
                 else kingChecked) == target.1
    {
      CheckAlongStep(q, ms[i..], mover, threat);
      assert ms[i..][1..] == ms[i + 1..];
      var checked;
      q, checked := CheckSquare(q, ms[i], mover, threat);
      if checked.Some? {
        kingChecked := checked;
      }
      i := i + 1;
    }
    CheckAlongDone(q, ms[i..], mover, threat);
  }

  /** generateMoves of the piece on s followed by the check loop over its
    * moves; nothing happens when s is empty. */
  method CheckFromScan(pos: Position, s: Sq, mover: Piece, threat: Sq, twoPlayer: bool) returns (q: Position, kingChecked: Option<nat>)
    requires Valid(pos)
    ensures (q, kingChecked) == CheckFrom(pos, s, mover, threat, twoPlayer)
  {
    if Cell(pos, s).None? {
      return pos, None;
    }
    PlacedFromCell(pos, s);
    var moves, p := GenerateMoves(pos, Cell(pos, s).value, twoPlayer);
    q, kingChecked := CheckKings(p, moves, mover, threat);
  }

  /** The loop of the player's move that clears the en passant flag of every
    * Pawn but the piece last moved, square by square. */
  method ClearEnPassantScan(pos: Position, last: Piece) returns (r: Position)
    requires Valid(pos)
    ensures r == ClearEnPassantFrom(pos, last, 0, 0)
  {
    ghost var target := ClearEnPassantFrom(pos, last, 0, 0);
    r := pos;
    var row := 0;
    while row < 8
      invariant 0 <= row <= 8 && Valid(r)
      invariant ClearEnPassantFrom(r, last, row, 0) == target
    {
      var col := 0;
      while col < 8
        invariant 0 <= col <= 8 && Valid(r)
        invariant ClearEnPassantFrom(r, last, row, col) == target
      {
        var q := ClearSquare(r, last, Sq(row, col));
        SimilarConsistent(r, q);
        r := q;
        col := col + 1;
      }
      row := row + 1;
    }
  }

  /** The first half of the player's move of the piece `id` from from to to,
    * step by step (see PlayerLift). */
  method LiftPlayerPiece(pos: Position, from: Sq, to: Sq, id: nat, last: Option<nat>, twoPlayer: bool)
    returns (q: Position, victim: Option<nat>)
    requires Valid(pos) && InBounds(from) && Cell(pos, from) == Some(id)
    requires last.Some? ==> last.value < |pos.store|
    ensures (q, victim) == PlayerLift(pos, from, to, id, last, twoPlayer)
    ensures Valid(q) && |q.store| == |pos.store| && OffGrid(q, id)
    ensures victim.Some? ==> victim.value < |q.store| && q.store[victim.value].isCaptured && OffGrid(q, victim.value)
    ensures !twoPlayer ==> q == RemovePiece(pos, from).0 && victim.None?
  {
    RemoveValid(pos, from);
    q := RemovePiece(pos, from).0;
    victim := None;
    if twoPlayer {
      if last.Some? {
        q := ClearEnPassantScan(q, q.store[last.value]);
      }
      var taken := EnPassantCapture(q, to, pos.store[id]);
      q, victim := taken.0, taken.1;
      q := MarkCaptured(q, victim);
    }
  }

  /** The second half of the player's move, step by step (see PlayerLand):
    * the piece `id`, off the grid, is added to to and what it captures is
    * marked captured; a King is marked moved and, when the castling test as
    * written holds, brings its Rook along; a Pawn ending on row 0 or 7 is
    * replaced by the piece of the promotion choice; the opponent Kings the
    * moved piece now reaches are checked and the first two Kings of the
    * board unchecked. Hands back the captured piece: the opponent piece that
    * stood on to. */
  method LandPlayerPiece(pos: Position, from: Sq, to: Sq, id: nat, choice: int, twoPlayer: bool)
    returns (q: Position, captured: Option<nat>)
    requires Valid(pos) && InBounds(to) && id < |pos.store| && OffGrid(pos, id)
    ensures (q, captured) == PlayerLand(pos, from, to, id, choice, twoPlayer)
    ensures Valid(q) && |q.store| >= |pos.store|
    ensures captured.Some? ==> captured == Cell(pos, to) && captured.value < |pos.store| &&
                               !IsSameColor(pos.store[captured.value], pos.store[id])
  {
    var mover := pos.store[id];
    var landed := Land(pos, to, id);
    q, captured := landed.0, landed.1;
    if mover.kind == King {
      var p2 := SetPiece(q, id, q.store[id].(hasMoved := true));
      LayoutConsistent(q, p2);
      q := p2;
    }
    q := CastlePhase(q, to, id, CastleStepAsWritten(from, to));
    if mover.kind == Pawn && (q.store[id].row == 0 || q.store[id].row == 7) {
      q := Promote(q, to, PromotionKind(choice), mover.color);
    }
    var checked;
    q, checked := CheckFromScan(q, to, mover, to, twoPlayer);
    q := UncheckFirstKings(q, twoPlayer);
  }

  /** The board half of makeComputerMove for the piece `id` standing on
    * from, step by step (see ComputerPlacement): from is emptied, the piece
    * is added to to (lookAhead false) and what it captures is marked
    * captured; a King moving more than one column brings its Rook along; a
    * Pawn reaching row 7 is promoted to a Black Queen (the promotion test as
    * written); the opponent Kings the piece on to now reaches are checked,
    * and the first two Kings of the board are unchecked. Hands back the
    * captured piece. */
  method PlaceComputerPiece(pos: Position, from: Sq, to: Sq, id: nat, twoPlayer: bool) returns (q: Position, captured: Option<nat>)
    requires Valid(pos) && InBounds(from) && InBounds(to) && Cell(pos, from) == Some(id)
    ensures (q, captured) == ComputerPlacement(pos, from, to, twoPlayer)
    ensures Valid(q) && |q.store| >= |pos.store|
    ensures captured.Some? ==> from != to && captured == Cell(pos, to) && captured.value < |pos.store| &&
                               !IsSameColor(pos.store[captured.value], pos.store[id])
  {
    var mover := pos.store[id];
    RemoveValid(pos, from);
    RemoveTakesOff(pos, from);
    q := RemovePiece(pos, from).0;
    var landed := Land(q, to, id);
    q, captured := landed.0, landed.1;
    q := CastlePhase(q, to, id, CastleStep(from, to));
    q := ComputerPromotionAsWritten(q, to, mover);
    if ContainsPiece(q, to) {
      var checked;
      q, checked := CheckFromScan(q, to, At(q, to).value, to, twoPlayer);
    }
    q := UncheckFirstKings(q, twoPlayer);
  }

  /** evaluate: the material balance (White's pieces count for, Black's
    * against), replaced by the mate score when the game is a checkmate. */
  method EvaluateBoard(pos: Position, endGameType: Option<EndGame>, turn: int) returns (score: int)
    requires Valid(pos)
    ensures score == Evaluate(pos, endGameType, turn)
  {
    score := 0;
    var row := 0;
    while row < 8
      invariant 0 <= row <= 8
      invariant score + MaterialFrom(pos, row, 0) == Material(pos)
    {
      var col := 0;
      while col < 8
        invariant 0 <= col <= 8
        invariant score + MaterialFrom(pos, row, col) == Material(pos)
      {
        score := score + Signed(pos, Sq(row, col));
        col := col + 1;
      }
      assert MaterialFrom(pos, row, 8) == MaterialFrom(pos, row + 1, 0);
      row := row + 1;
    }
    if endGameType == Some(Checkmate) && turn == -1 {
      score := -MateScore;
    } else if endGameType == Some(Checkmate) && turn == 1 {
      score := MateScore;
    }
  }

  /** handleChecks: every generated move is probed (the piece put on the
    * target, its square emptied), the move is refused once for every
    * attack on a King of its colour the scan finds, the board is restored,
    * and the refused moves are removed from the list. */
  method HandleChecksScan(pos: Position, source: Sq, id: nat, generated: seq<Sq>, twoPlayer: bool)
    returns (legal: seq<Sq>, board: Position)
    requires Valid(pos) && InBounds(source) && Cell(pos, source) == Some(id)
    requires forall i | 0 <= i < |generated| :: InBounds(generated[i])
    ensures (legal, board) == HandleChecks(pos, source, id, generated, twoPlayer)
  {
    var notPossible;
    notPossible, board := ProbeMoves(pos, source, id, generated, twoPlayer);
    legal := RemoveAll(generated, notPossible);
  }

  /** The first half of a child of the search, step by step (see
    * MakeChild). */
  method MakeMove(pos: Position, source: Sq, move: Sq) returns (q: Position, removed: Option<nat>, kingChecked: Option<nat>)
    requires Valid(pos) && InBounds(source) && InBounds(move) && Cell(pos, source).Some?
    ensures (q, removed, kingChecked) == MakeChild(pos, source, move)
    ensures Valid(q) && |q.store| == |pos.store|
  {
    var made := Make(pos, source, move);
    var p1 := made.0;
    removed := made.1;
    var p2;
    p2, kingChecked := CheckFromScan(p1, move, At(p1, move).value, move, false);
    q := UncheckFirstKings(p2, false);
  }

  /** The second half, step by step (see UnmakeChild). */
  method UnmakeMove(pos: Position, source: Sq, move: Sq, removed: Option<nat>, kingChecked: Option<nat>)
    returns (q: Position)
    requires Valid(pos) && InBounds(source) && InBounds(move)
    requires removed.Some? ==> removed.value < |pos.store| && OffGrid(pos, removed.value)
    requires kingChecked.Some? ==> kingChecked.value < |pos.store|
    ensures q == UnmakeChild(pos, source, move, removed, kingChecked)
  {
    q := Unmake(pos, source, move, removed);
    if kingChecked.Some? {
      q := Uncheck(q, kingChecked.value, false);
    }
    if Cell(q, source).Some? {
      var checked;
      q, checked := CheckFromScan(q, source, At(q, source).value, move, false);
    }
  }

  /** The other side searching one level down (see SearchValue). */
  method SearchBelow(pos: Position, white: bool, alpha: int, beta: int, depth: nat,
                     endGameType: Option<EndGame>, turn: int, picks: Picks)
    returns (score: int, q: Position, picks': Picks)
    requires Valid(pos) && PicksFit(pos, picks) && depth > 0
    ensures (score, q, picks') == SearchValue(pos, !white, alpha, beta, depth - 1, endGameType, turn, picks)
    decreases depth, 0
  {
    score, q, picks' := AlphaBeta(pos, !white, alpha, beta, depth - 1, endGameType, turn, picks);
  }

  /** One child of alphaBetaMax/alphaBetaMin: the move made, the other side
    * searching one level down, the move taken back (see ChildValue). */
  method SearchChild(pos: Position, source: Sq, move: Sq, white: bool, alpha: int, beta: int, depth: nat,
                     endGameType: Option<EndGame>, turn: int, picks: Picks)
    returns (score: int, q: Position, picks': Picks)
    requires Valid(pos) && InBounds(source) && InBounds(move) && Cell(pos, source).Some? && depth > 0
    requires move == source || OpenTo(pos, move, At(pos, source).value)
    requires PicksFit(pos, picks)
    ensures (score, q, picks') == ChildValue(pos, source, move, white, alpha, beta, depth, endGameType, turn, picks)
    decreases depth, 1
  {
    var p, removed, kingChecked := MakeMove(pos, source, move);
    var s, mid, picks'' := SearchBelow(p, white, alpha, beta, depth, endGameType, turn, picks);
    var made, child := (p, removed, kingChecked), (s, mid, picks'');
    ChildValueSteps(pos, source, move, white, alpha, beta, depth, endGameType, turn, picks, made, child);
    q := UnmakeMove(child.1, source, move, made.1, made.2);
    score, picks' := child.0, child.2;
  }

  /** One move of the piece `id` on source in the loop of alphaBetaMax or
    * alphaBetaMin (see MoveStep): the child's score either reaches the
    * fixed bound (the move becomes the side's choice and the search stops)
    * or, when it beats the bound, becomes the new bound with the move as the
    * best so far. */
  method SearchMove(run: Run, source: Sq, id: nat, move: Sq, white: bool, alpha: int, beta: int, depth: nat,
                    endGameType: Option<EndGame>, turn: int)
    returns (run': Run)
    requires Valid(run.board) && InBounds(source) && InBounds(move) && Cell(run.board, source) == Some(id) && depth > 0
    requires move == source || OpenTo(run.board, move, run.board.store[id])
    requires PicksFit(run.board, run.picks) && ChoiceFits(run.board, run.best)
    requires Running(white, alpha, beta, run.scores, run.bound) && Progress(white, alpha, beta, run.bound, run.best)
    ensures run' == MoveStep(run, source, id, move, white, alpha, beta, depth, endGameType, turn)
    decreases depth, 2
  {
    var a, b := if white then run.bound else alpha, if white then beta else run.bound;
    var score, board', picks' := SearchChild(run.board, source, move, white, a, b, depth, endGameType, turn, run.picks);
    var choice := Some(Choice(Some(id), source, move));
    if Cuts(white, score, Limit(white, alpha, beta)) {
      run' := Run(board', Pick(white, picks', choice), run.bound, run.best, true, run.scores + [score]);
    } else if (white && score > run.bound) || (!white && score < run.bound) {
      run' := Run(board', picks', score, choice, false, run.scores + [score]);
    } else {
      run' := Run(board', picks', run.bound, run.best, false, run.scores + [score]);
    }
  }

  /** The square s in the loop of alphaBetaMax or alphaBetaMin (see
    * SquareRun): when it holds a piece of the searching side, that piece's
    * moves are searched. */
  method SearchSquare(run: Run, s: Sq, white: bool, alpha: int, beta: int, depth: nat,
                      endGameType: Option<EndGame>, turn: int)
    returns (run': Run)
    requires InBounds(s) && depth > 0 && !run.cut && Sound(run.board, run, white, alpha, beta)
    ensures run' == SquareRun(run, s, white, alpha, beta, depth, endGameType, turn)
    decreases depth, 4
  {
    var board := run.board;
    if Cell(board, s).None? || board.store[Cell(board, s).value].color != SideColor(white) {
      return run;
    }
    run' := SearchPiece(run, s, Cell(board, s).value, white, alpha, beta, depth, endGameType, turn);
  }

  /** The piece `id` of the searching side on s (see PieceRun): its moves
    * are generated, passed through handleChecks, and searched one by one
    * until one cuts the search off. */
  method SearchPiece(run: Run, s: Sq, id: nat, white: bool, alpha: int, beta: int, depth: nat,
                     endGameType: Option<EndGame>, turn: int)
    returns (run': Run)
    requires InBounds(s) && depth > 0 && !run.cut && Sound(run.board, run, white, alpha, beta)
    requires Cell(run.board, s) == Some(id) && run.board.store[id].color == SideColor(white)
    ensures run' == PieceRun(run, s, id, white, alpha, beta, depth, endGameType, turn)
    decreases depth, 3
  {
    var board := run.board;
    PlacedFromCell(board, s);
    HandleGeneratedSimilar(board, id);
    var moves, q := GenerateMoves(board, id, false);
    var legal, h := HandleChecksScan(q, s, id, moves, false);
    PieceRunSteps(run, s, white, alpha, beta, depth, endGameType, turn, id, (moves, q), (legal, h));
    run' := run.(board := h);
    ghost var target := MovesFrom(board, run', s, id, legal, 0, white, alpha, beta, depth, endGameType, turn);
    var i := 0;
    while i < |legal| && !run'.cut
      invariant 0 <= i <= |legal| && Sound(board, run', white, alpha, beta)
      invariant MovesFrom(board, run', s, id, legal, i, white, alpha, beta, depth, endGameType, turn) == target
      decreases |legal| - i
    {
      MoveOnRun(board, run', s, id, legal, i, white, alpha, beta);
      var next := SearchMove(run', s, id, legal[i], white, alpha, beta, depth, endGameType, turn);
      MoveStepSound(board, run', s, id, legal[i], white, alpha, beta, depth, endGameType, turn, next);
      MovesFromStep(board, run', s, id, legal, i, white, alpha, beta, depth, endGameType, turn, next);
      run' := next;
      i := i + 1;
    }
    MovesFromDone(board, run', s, id, legal, i, white, alpha, beta, depth, endGameType, turn);
  }

  /** The square in column col of the row, within the loop of one row (see
    * ColsFrom): the search goes on from the run the square leaves behind. */
  method SearchColumn(ghost origin: Position, run: Run, row: int, col: int, white: bool, alpha: int, beta: int,
                      depth: nat, endGameType: Option<EndGame>, turn: int)
    returns (next: Run)
    requires 0 <= row < 8 && 0 <= col < 8 && depth > 0 && !run.cut && Sound(origin, run, white, alpha, beta)
    ensures Sound(origin, next, white, alpha, beta)
    ensures ColsFrom(origin, run, row, col, white, alpha, beta, depth, endGameType, turn) ==
            ColsFrom(origin, next, row, col + 1, white, alpha, beta, depth, endGameType, turn)
    decreases depth, 5
  {
    SoundLayout(run.board, origin, run, white, alpha, beta);
    next := SearchSquare(run, Sq(row, col), white, alpha, beta, depth, endGameType, turn);
    ColsFromStep(origin, run, row, col, white, alpha, beta, depth, endGameType, turn, next);
  }

  /** One row of the loop of alphaBetaMax or alphaBetaMin, column by column,
    * until a move cuts the search off (see ColsFrom). */
  method SearchRow(ghost origin: Position, run: Run, row: int, white: bool, alpha: int, beta: int, depth: nat,
                   endGameType: Option<EndGame>, turn: int)
    returns (run': Run)
    requires 0 <= row < 8 && depth > 0 && Sound(origin, run, white, alpha, beta)
    ensures run' == ColsFrom(origin, run, row, 0, white, alpha, beta, depth, endGameType, turn)
    decreases depth, 6
  {
    ghost var target := ColsFrom(origin, run, row, 0, white, alpha, beta, depth, endGameType, turn);
    run' := run;
    var col := 0;
    while col < 8 && !run'.cut
      invariant 0 <= col <= 8 && Sound(origin, run', white, alpha, beta)
      invariant ColsFrom(origin, run', row, col, white, alpha, beta, depth, endGameType, turn) == target
    {
      run' := SearchColumn(origin, run', row, col, white, alpha, beta, depth, endGameType, turn);
      col := col + 1;
    }
  }

  /** alphaBetaMax (white) and alphaBetaMin (not white), fail-hard (see
    * SearchValue). At depth 0 the position is evaluated. Otherwise every
    * move of every piece of the side is searched, square by square; the
    * first child whose score reaches the fixed bound (beta for White, alpha
    * for Black) ends the search with that bound and becomes the side's
    * choice, and otherwise the improved bound is returned with the best move
    * that improved it (none when nothing did). */
  method AlphaBeta(pos: Position, white: bool, alpha: int, beta: int, depth: nat,
                   endGameType: Option<EndGame>, turn: int, picks: Picks)
    returns (score: int, q: Position, picks': Picks)
    requires Valid(pos) && PicksFit(pos, picks)
    ensures (score, q, picks') == SearchValue(pos, white, alpha, beta, depth, endGameType, turn, picks)
    decreases depth, 7
  {
    if depth == 0 {
      score := EvaluateBoard(pos, endGameType, turn);
      return score, pos, picks;
    }
    ghost var target := SearchRun(pos, white, alpha, beta, depth, endGameType, turn, picks);
    var run := Run(pos, picks, Bound(white, alpha, beta), None, false, []);
    var row := 0;
    while row < 8 && !run.cut
      invariant 0 <= row <= 8 && Sound(pos, run, white, alpha, beta)
      invariant RowsFrom(pos, run, row, white, alpha, beta, depth, endGameType, turn) == target
    {
      run := SearchRow(pos, run, row, white, alpha, beta, depth, endGameType, turn);
      row := row + 1;
    }
    if run.cut {
      score, q, picks' := Limit(white, alpha, beta), run.board, run.picks;
    } else {
      score, q, picks' := run.bound, run.board, Pick(white, run.picks, run.best);
    }
  }

  /** One pass of the loop of undo: the last move is popped off the history
    * and taken back, when it can be. */
  method UndoLast(pos: Position, captured: seq<nat>, moves: seq<Move>)
    returns (pos': Position, captured': seq<nat>, moves': seq<Move>, done: bool)
    requires Valid(pos) && forall i | 0 <= i < |moves| :: MoveFits(pos, moves[i])
    requires forall i | 0 <= i < |captured| :: captured[i] < |pos.store|
    ensures Valid(pos') && |pos'.store| == |pos.store| && forall i | 0 <= i < |moves'| :: MoveFits(pos', moves'[i])
    ensures forall i | 0 <= i < |captured'| :: captured'[i] < |pos'.store|
    ensures done <==> |moves| > 0 && Undoable(pos, moves[|moves| - 1])
    ensures done ==> (pos', captured') == Undo(pos, captured, moves[|moves| - 1]) && moves' == moves[..|moves| - 1]
    ensures !done ==> pos' == pos && captured' == captured && moves' == moves
  {
    pos', captured', moves', done := pos, captured, moves, false;
    if |moves| > 0 && Undoable(pos, moves[|moves| - 1]) {
      var m := moves[|moves| - 1];
      UndoValid(pos, m);
      var undone := Undo(pos, captured, m);
      pos', captured' := undone.0, undone.1;
      moves' := moves[..|moves| - 1];
      done := true;
      assert forall i | 0 <= i < |moves'| :: moves'[i] == moves[i];
      forall i | 0 <= i < |captured'| ensures captured'[i] < |pos'.store| {
        assert captured'[i] in captured';
      }
    }
  }

  /** generateMoves followed by handleChecks for the piece on s. */
  method LegalMovesScan(pos: Position, s: Sq, twoPlayer: bool) returns (legal: seq<Sq>, q: Position)
    requires Valid(pos) && Cell(pos, s).Some?
    ensures (legal, q) == LegalMoves(pos, s, twoPlayer)
  {
    PlacedFromCell(pos, s);
    var id := Cell(pos, s).value;
    var moves, p := GenerateMoves(pos, id, twoPlayer);
    forall t | t in moves ensures InBounds(t) {
      MovesOnBoard(pos, id, twoPlayer, t);
    }
    legal, q := HandleChecksScan(p, s, id, moves, twoPlayer);
  }

  /** One square of the first loop of checkEndOfGame: a piece of the colour
    * to move has its moves generated and filtered by handleChecks; the scan
    * stops once one of them has a move left. */
  method MobilitySquare(pos: Position, color: int, row: int, col: int, twoPlayer: bool)
    returns (found: bool, q: Position)
    requires Valid(pos) && 0 <= row < 8 && 0 <= col < 8
    ensures Valid(q)
    ensures found ==> MobilityFrom(pos, color, row, col, twoPlayer) == (true, q)
    ensures !found ==> MobilityFrom(q, color, row, col + 1, twoPlayer) == MobilityFrom(pos, color, row, col, twoPlayer)
  {
    var s := Sq(row, col);
    q := pos;
    found := false;
    if ContainsPiece(pos, s) && At(pos, s).value.color == color {
      var legal;
      legal, q := LegalMovesScan(pos, s, twoPlayer);
      found := legal != [];
    }
  }

  /** The first loop of checkEndOfGame: whether some piece of the colour to
    * move has a legal move, and the board the probes leave behind. */
  method MobilityScan(pos: Position, color: int, twoPlayer: bool) returns (canMove: bool, q: Position)
    requires Valid(pos)
    ensures (canMove, q) == MobilityFrom(pos, color, 0, 0, twoPlayer)
  {
    ghost var target := MobilityFrom(pos, color, 0, 0, twoPlayer);
    q := pos;
    canMove := false;
    var row := 0;
    while row < 8 && !canMove
      invariant 0 <= row <= 8 && Valid(q)
      invariant !canMove ==> MobilityFrom(q, color, row, 0, twoPlayer) == target
      invariant canMove ==> (canMove, q) == target
    {
      var col := 0;
      while col < 8 && !canMove
        invariant 0 <= col <= 8 && Valid(q)
        invariant !canMove ==> MobilityFrom(q, color, row, col, twoPlayer) == target
        invariant canMove ==> (canMove, q) == target
      {
        canMove, q := MobilitySquare(q, color, row, col, twoPlayer);
        col := col + 1;
      }
      row := row + 1;
    }
  }

  /** The second loop of checkEndOfGame: the first King of the colour to
    * move, in row-major order. */
  method FirstKingScan(pos: Position, color: int) returns (king: Option<nat>)
    requires WellFormed(pos)
    ensures king == FirstKingFrom(pos, color, 0, 0)
  {
    ghost var target := FirstKingFrom(pos, color, 0, 0);
    king := None;
    var row := 0;
    while row < 8 && king.None?
      invariant 0 <= row <= 8
      invariant king.None? ==> FirstKingFrom(pos, color, row, 0) == target
      invariant king.Some? ==> king == target
    {
      var col := 0;
      while col < 8 && king.None?
        invariant 0 <= col <= 8
        invariant king.None? ==> FirstKingFrom(pos, color, row, col) == target
        invariant king.Some? ==> king == target
      {
        if KingOfColorAt(pos, Sq(row, col), color) {
          king := Cell(pos, Sq(row, col));
        }
        col := col + 1;
      }
      row := row + 1;
    }
  }

  /** A Pawn before the end of one row is a Pawn before the start of the next. */
  lemma PawnBeforeRow(pos: Position, row: int)
    ensures PawnBefore(pos, row, 8) <==> PawnBefore(pos, row + 1, 0)
  {
    assert forall r, c | 0 <= r < 8 && 0 <= c < 8 :: NotBefore(r, c, row, 8) == NotBefore(r, c, row + 1, 0);
  }

  /** A Pawn before some square is a Pawn on the board. */
  lemma PawnBeforeAll(pos: Position, row: int, col: int)
    requires row < 8 && PawnBefore(pos, row, col)
    ensures PawnBefore(pos, 8, 0)
  {
    var r, c :| 0 <= r < 8 && 0 <= c < 8 && !NotBefore(r, c, row, col) &&
                ContainsPiece(pos, Sq(r, c)) && At(pos, Sq(r, c)).value.kind == Pawn;
    assert !NotBefore(r, c, 8, 0);
  }

  /** The third loop of checkEndOfGame and the classification after it: the
    * scan stops at the first Pawn and otherwise lists the kinds of the White
    * and of the Black pieces in board order. */
  method MaterialScan(pos: Position) returns (insufficient: bool)
    ensures insufficient == InsufficientMaterial(pos)
  {
    insufficient := true;
    var white: seq<Kind> := [];
    var black: seq<Kind> := [];
    var row := 0;
    while row < 8 && insufficient
      invariant 0 <= row <= 8
      invariant insufficient ==> !PawnBefore(pos, row, 0)
      invariant !insufficient ==> PawnBefore(pos, 8, 0)
      invariant insufficient ==> white == SideKinds(pos, row, 0, true) && black == SideKinds(pos, row, 0, false)
    {
      var col := 0;
      while col < 8 && insufficient
        invariant 0 <= col <= 8
        invariant insufficient ==> !PawnBefore(pos, row, col)
        invariant !insufficient ==> PawnBefore(pos, 8, 0)
        invariant insufficient ==> white == SideKinds(pos, row, col, true) && black == SideKinds(pos, row, col, false)
      {
        var s := Sq(row, col);
        PawnBeforeStep(pos, row, col);
        if ContainsPiece(pos, s) && At(pos, s).value.kind == Pawn {
          insufficient := false;
          PawnBeforeAll(pos, row, col + 1);
        } else if ContainsPiece(pos, s) {
          if At(pos, s).value.color == White {
            white := white + [At(pos, s).value.kind];
          } else {
            black := black + [At(pos, s).value.kind];
          }
        }
        col := col + 1;
      }
      PawnBeforeRow(pos, row);
      row := row + 1;
    }
    insufficient := insufficient && InsufficientLists(white, black);
  }

  /** checkEndOfGame: the new gameOver flag, the new endGameType and the
    * board the probes leave behind. */
  method EndOfGameScan(pos: Position, turn: int, endGameType: Option<EndGame>, twoPlayer: bool)
    returns (over: bool, kind: Option<EndGame>, q: Position)
    requires Valid(pos)
    ensures (over, kind, q) == EndOfGame(pos, turn, endGameType, twoPlayer)
  {
    var color := TurnColor(turn);
    var canMove;
    canMove, q := MobilityScan(pos, color, twoPlayer);
    if !canMove {
      over := true;
      var king := FirstKingScan(q, color);
      if king.Some? {
        kind := Some(if q.store[king.value].inCheck then Checkmate else Stalemate);
      } else {
        kind := endGameType;
      }
      return;
    }
    var insufficient := MaterialScan(q);
    if insufficient {
      over, kind := true, Some(DrawByMaterial);
    } else {
      over, kind := false, None;
    }
  }
}

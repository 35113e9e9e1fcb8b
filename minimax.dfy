/** The alpha-beta search of Board.alphaBetaMax and Board.alphaBetaMin as
  * functions on positions: the value of a position at a depth, the pass
  * over the rows, the columns of a row, the moves of a square and one child.
  * The Engine methods that run the search with loops are proved equal to
  * these functions, and the contracts here state what the search returns:
  * the fail-hard result over the scores of the children it searched, the
  * layout handed back unchanged, and a playable choice. */
module Minimax {
  import opened Wrappers
  import opened Pieces
  import opened Grid
  import opened Probes
  import opened Kings
  import opened Evaluation
  import opened Legality
  import opened Play
  import opened Search

  /** A move chosen by the search: the piece, its square and the target. */
  datatype Choice = Choice(piece: Option<nat>, source: Sq, target: Sq)

  /** A choice names squares on the board and, if any, a piece of the
    * store. */
  predicate ChoiceFits(pos: Position, c: Option<Choice>)
  {
    c.Some? ==> InBounds(c.value.source) && InBounds(c.value.target) &&
                (c.value.piece.Some? ==> c.value.piece.value < |pos.store|)
  }

  /** maxiBest and miniBest: the moves the two halves of the search last
    * chose. */
  datatype Picks = Picks(maxi: Option<Choice>, mini: Option<Choice>)

  /** Both choices fit the position. */
  predicate PicksFit(pos: Position, picks: Picks)
  {
    ChoiceFits(pos, picks.maxi) && ChoiceFits(pos, picks.mini)
  }

  /** The choice of the side searching: maxiBest for White, miniBest for Black. */
  function Own(white: bool, picks: Picks): Option<Choice>
  {
    if white then picks.maxi else picks.mini
  }

  /** The choice of the side searching replaced; the other side's kept. */
  function Pick(white: bool, picks: Picks, c: Option<Choice>): (r: Picks)
    ensures Own(white, r) == c && Own(!white, r) == Own(!white, picks)
  {
    if white then picks.(maxi := c) else picks.(mini := c)
  }

  /** Colour 0 searches for White (alphaBetaMax), colour 1 for Black. */
  function SideColor(white: bool): int
  {
    if white then 0 else 1
  }

  /** A choice the board can play: a piece of the given colour on the source
    * square, and a target on the board. */
  predicate Playable(pos: Position, c: Choice, color: int)
  {
    c.piece.Some? && InBounds(c.source) && InBounds(c.target) &&
    Cell(pos, c.source) == c.piece && c.piece.value < |pos.store| && pos.store[c.piece.value].color == color
  }

  /** What a search with no cut-off so far keeps about its best move: the
    * improved bound is never worse than the starting one, and a move was
    * chosen exactly when the bound moved. */
  predicate Progress(white: bool, alpha: int, beta: int, bound: int, best: Option<Choice>)
  {
    (if white then bound >= alpha else bound <= beta) &&
    (best.Some? <==> bound != Bound(white, alpha, beta))
  }

  /** The state the loops of the search carry: the board, the choices of
    * both sides, the bound being improved, the best move so far, whether a
    * child cut the search off, and the scores of the children searched so
    * far, in order. */
  datatype Run = Run(board: Position, picks: Picks, bound: int, best: Option<Choice>, cut: bool, scores: seq<int>)

  /** What the loops keep, relative to the board origin they started from:
    * the layout is origin's; while no child cut the search off, the bound
    * is the fold of the scores and the best move, if any, is a move of the
    * side on origin; after a cut-off, the fixed bound is the fail-hard
    * result and the side's choice is such a move. */
  predicate Sound(origin: Position, run: Run, white: bool, alpha: int, beta: int)
  {
    Valid(run.board) && SameLayout(origin, run.board) && PicksFit(run.board, run.picks) &&
    ChoiceFits(run.board, run.best) &&
    (!run.cut ==> Running(white, alpha, beta, run.scores, run.bound) && Progress(white, alpha, beta, run.bound, run.best) &&
                  (run.best.Some? ==> Playable(origin, run.best.value, SideColor(white)))) &&
    (run.cut ==> FailHard(white, alpha, beta, run.scores, Limit(white, alpha, beta)) &&
                 Own(white, run.picks).Some? && Playable(origin, Own(white, run.picks).value, SideColor(white)))
  }

  /** What Sound says depends only on the layout of its origin. */
  lemma SoundLayout(a: Position, b: Position, run: Run, white: bool, alpha: int, beta: int)
    requires SameLayout(a, b) && Sound(b, run, white, alpha, beta)
    ensures Sound(a, run, white, alpha, beta)
  {
    LayoutTransitive(a, b, run.board);
  }

  /** The make step of a child: the piece on source is put on move (what
    * stood there handed back), the Kings it now attacks are checked (the
    * last one handed back) and the first two Kings unchecked. */
  function MakeChild(pos: Position, source: Sq, move: Sq): (r: (Position, Option<nat>, Option<nat>))
    requires Valid(pos) && InBounds(source) && InBounds(move) && Cell(pos, source).Some?
    ensures Valid(r.0) && SameLayout(Make(pos, source, move).0, r.0) && r.1 == Make(pos, source, move).1
    ensures r.2.Some? ==> r.2.value < |pos.store|
  {
    var (p1, removed) := Make(pos, source, move);
    var (p2, kingChecked) := CheckFrom(p1, move, At(p1, move).value, move, false);
    LayoutTransitive(p1, p2, UncheckKings(p2, false));
    (UncheckKings(p2, false), removed, kingChecked)
  }

  /** The unmake step: the piece goes back from move to source, what it took
    * is put back, the King it checked is unchecked, and the Kings it
    * attacks from source are checked again with move as the threat square. */
  function UnmakeChild(pos: Position, source: Sq, move: Sq, removed: Option<nat>, kingChecked: Option<nat>): (r: Position)
    requires Valid(pos) && InBounds(source) && InBounds(move)
    requires removed.Some? ==> removed.value < |pos.store| && OffGrid(pos, removed.value)
    requires kingChecked.Some? ==> kingChecked.value < |pos.store|
    ensures Valid(r) && SameLayout(Unmake(pos, source, move, removed), r)
  {
    var p1 := Unmake(pos, source, move, removed);
    var p2 := if kingChecked.Some? then Uncheck(p1, kingChecked.value, false) else p1;
    assert SameLayout(p1, p2) by {
      if kingChecked.Some? {
        UncheckLayout(p1, kingChecked.value, false);
      }
    }
    if Cell(p2, source).Some? then
      var r := CheckFrom(p2, source, At(p2, source).value, move, false).0;
      LayoutTransitive(p1, p2, r);
      r
    else p2
  }

  /** The value of a position for the side to move (White when white) at a
    * depth, with the window [alpha, beta]: at depth 0 the evaluation;
    * otherwise the fail-hard result of the search over every move of every
    * piece of the side, square by square. Hands back the board and the
    * choices: the side's choice is the move that cut the search off or the
    * best move that improved the bound (none when nothing did). The layout
    * comes back as it was, and the result lies in the window. */
  function SearchValue(pos: Position, white: bool, alpha: int, beta: int, depth: nat,
                       endGameType: Option<EndGame>, turn: int, picks: Picks): (r: (int, Position, Picks))
    requires Valid(pos) && PicksFit(pos, picks)
    ensures Valid(r.1) && SameLayout(pos, r.1) && PicksFit(r.1, r.2)
    ensures depth == 0 ==> r == (Evaluate(pos, endGameType, turn), pos, picks)
    decreases depth, 8, 0
  {
    if depth == 0 then (Evaluate(pos, endGameType, turn), pos, picks)
    else
      var run := SearchRun(pos, white, alpha, beta, depth, endGameType, turn, picks);
      if run.cut then (Limit(white, alpha, beta), run.board, run.picks)
      else (run.bound, run.board, Pick(white, run.picks, run.best))
  }

  /** What the search at a positive depth returns: the fail-hard result
    * over the scores of the children it searched, in order (the fixed bound
    * when the last child reached it, the improved bound otherwise), which
    * lies in the window; the side's choice, a move of a piece of the side on
    * the board, made exactly when the result is not the starting bound; and
    * the other side's choice still fitting the board. */
  lemma SearchValueResult(pos: Position, white: bool, alpha: int, beta: int, depth: nat,
                          endGameType: Option<EndGame>, turn: int, picks: Picks)
    requires Valid(pos) && PicksFit(pos, picks) && depth > 0
    ensures var r := SearchValue(pos, white, alpha, beta, depth, endGameType, turn, picks);
      FailHard(white, alpha, beta, SearchRun(pos, white, alpha, beta, depth, endGameType, turn, picks).scores, r.0) &&
      (alpha <= beta ==> alpha <= r.0 <= beta) &&
      (Own(white, r.2).None? ==> r.0 == Bound(white, alpha, beta)) &&
      (Own(white, r.2).Some? ==> Playable(pos, Own(white, r.2).value, SideColor(white))) &&
      (Own(!white, r.2).Some? ==> ChoiceFits(pos, Own(!white, r.2)))
  {
    var run := SearchRun(pos, white, alpha, beta, depth, endGameType, turn, picks);
    var score := SearchValue(pos, white, alpha, beta, depth, endGameType, turn, picks).0;
    if alpha <= beta {
      FailHardBounds(white, alpha, beta, run.scores, score);
    }
  }

  /** The pass of the search at a positive depth over the eight rows, from
    * the bound the side improves, no best move and no scores. */
  function SearchRun(pos: Position, white: bool, alpha: int, beta: int, depth: nat,
                     endGameType: Option<EndGame>, turn: int, picks: Picks): (r: Run)
    requires Valid(pos) && PicksFit(pos, picks) && depth > 0
    ensures Sound(pos, r, white, alpha, beta)
    decreases depth, 7, 0
  {
    RowsFrom(pos, Run(pos, picks, Bound(white, alpha, beta), None, false, []), 0, white, alpha, beta, depth, endGameType, turn)
  }

  /** The rows from row on, until a child cuts the search off. */
  function RowsFrom(origin: Position, run: Run, row: int, white: bool, alpha: int, beta: int, depth: nat,
                    endGameType: Option<EndGame>, turn: int): (r: Run)
    requires 0 <= row <= 8 && depth > 0 && Sound(origin, run, white, alpha, beta)
    ensures Sound(origin, r, white, alpha, beta)
    decreases depth, 6, 8 - row
  {
    if row == 8 || run.cut then run
    else RowsFrom(origin, ColsFrom(origin, run, row, 0, white, alpha, beta, depth, endGameType, turn), row + 1,
                  white, alpha, beta, depth, endGameType, turn)
  }

  /** The squares of a row from column col on, until a child cuts the
    * search off. */
  function ColsFrom(origin: Position, run: Run, row: int, col: int, white: bool, alpha: int, beta: int, depth: nat,
                    endGameType: Option<EndGame>, turn: int): (r: Run)
    requires 0 <= row < 8 && 0 <= col <= 8 && depth > 0 && Sound(origin, run, white, alpha, beta)
    ensures Sound(origin, r, white, alpha, beta)
    decreases depth, 5, 8 - col
  {
    if col == 8 || run.cut then run
    else
      SoundLayout(run.board, origin, run, white, alpha, beta);
      var next := SquareRun(run, Sq(row, col), white, alpha, beta, depth, endGameType, turn);
      SoundLayout(origin, run.board, next, white, alpha, beta);
      ColsFrom(origin, next, row, col + 1, white, alpha, beta, depth, endGameType, turn)
  }

  /** One column of ColsFrom: a search still running on a square in the
    * row goes on from the run SquareRun leaves behind. */
  lemma ColsFromStep(origin: Position, run: Run, row: int, col: int, white: bool, alpha: int, beta: int, depth: nat,
                     endGameType: Option<EndGame>, turn: int, next: Run)
    requires 0 <= row < 8 && 0 <= col < 8 && depth > 0 && !run.cut && Sound(origin, run, white, alpha, beta)
    requires Sound(run.board, run, white, alpha, beta)
    requires next == SquareRun(run, Sq(row, col), white, alpha, beta, depth, endGameType, turn)
    ensures Sound(origin, next, white, alpha, beta)
    ensures ColsFrom(origin, run, row, col, white, alpha, beta, depth, endGameType, turn) ==
            ColsFrom(origin, next, row, col + 1, white, alpha, beta, depth, endGameType, turn)
  {
    SoundLayout(origin, run.board, next, white, alpha, beta);
  }

  /** The square s: when it holds a piece of the side, that piece's moves
    * are searched (PieceRun); otherwise nothing happens. */
  function SquareRun(run: Run, s: Sq, white: bool, alpha: int, beta: int, depth: nat,
                     endGameType: Option<EndGame>, turn: int): (r: Run)
    requires InBounds(s) && depth > 0 && !run.cut && Sound(run.board, run, white, alpha, beta)
    ensures Sound(run.board, r, white, alpha, beta)
    decreases depth, 4, 0
  {
    var board := run.board;
    if Cell(board, s).None? || board.store[Cell(board, s).value].color != SideColor(white) then run
    else PieceRun(run, s, Cell(board, s).value, white, alpha, beta, depth, endGameType, turn)
  }

  /** The piece `id` of the side on s: its moves are generated and passed
    * through handleChecks, and the legal ones are searched one by one. */
  function PieceRun(run: Run, s: Sq, id: nat, white: bool, alpha: int, beta: int, depth: nat,
                    endGameType: Option<EndGame>, turn: int): (r: Run)
    requires InBounds(s) && depth > 0 && !run.cut && Sound(run.board, run, white, alpha, beta)
    requires Cell(run.board, s) == Some(id) && run.board.store[id].color == SideColor(white)
    ensures Sound(run.board, r, white, alpha, beta)
    decreases depth, 3, 0
  {
    var board := run.board;
    PlacedFromCell(board, s);
    HandleGeneratedSimilar(board, id);
    var (moves, q) := MovesOf(board, id, false);
    var (legal, h) := HandleChecks(q, s, id, moves, false);
    SimilarLayout(board, h);
    LayoutTransitive(board, board, h);
    forall u | u in legal ensures InBounds(u) && (u == s || OpenTo(board, u, board.store[id])) {
      OpenToLayout(board, h, u, board.store[id]);
    }
    MovesFrom(board, run.(board := h), s, id, legal, 0, white, alpha, beta, depth, endGameType, turn)
  }

  /** The legal moves of the piece `id` on s from the i-th on, until one
    * cuts the search off. */
  function MovesFrom(origin: Position, run: Run, s: Sq, id: nat, legal: seq<Sq>, i: int, white: bool, alpha: int, beta: int,
                     depth: nat, endGameType: Option<EndGame>, turn: int): (r: Run)
    requires 0 <= i <= |legal| && depth > 0 && Sound(origin, run, white, alpha, beta)
    requires Valid(origin) && InBounds(s) && Cell(origin, s) == Some(id) && id < |origin.store|
    requires origin.store[id].color == SideColor(white)
    requires forall u | u in legal :: InBounds(u) && (u == s || OpenTo(origin, u, origin.store[id]))
    ensures Sound(origin, r, white, alpha, beta)
    decreases depth, 2, |legal| - i
  {
    if i == |legal| || run.cut then run
    else
      MoveOnRun(origin, run, s, id, legal, i, white, alpha, beta);
      var next := MoveStep(run, s, id, legal[i], white, alpha, beta, depth, endGameType, turn);
      LayoutTransitive(origin, run.board, next.board);
      MovesFrom(origin, next, s, id, legal, i + 1, white, alpha, beta, depth, endGameType, turn)
  }

  /** One move of the piece `id` on source: the child is searched with the
    * window narrowed to the bound so far; its score either reaches the
    * fixed bound (the move becomes the side's choice and the search stops)
    * or, when it beats the bound, becomes the new bound with the move as the
    * best so far. The child's score is appended to the scores. */
  function MoveStep(run: Run, source: Sq, id: nat, move: Sq, white: bool, alpha: int, beta: int, depth: nat,
                    endGameType: Option<EndGame>, turn: int): (r: Run)
    requires Valid(run.board) && InBounds(source) && InBounds(move) && Cell(run.board, source) == Some(id) && depth > 0
    requires move == source || OpenTo(run.board, move, run.board.store[id])
    requires PicksFit(run.board, run.picks) && ChoiceFits(run.board, run.best)
    requires Running(white, alpha, beta, run.scores, run.bound) && Progress(white, alpha, beta, run.bound, run.best)
    ensures Valid(r.board) && SameLayout(run.board, r.board) && PicksFit(r.board, r.picks) && ChoiceFits(r.board, r.best)
    ensures |r.scores| == |run.scores| + 1 && r.scores[..|run.scores|] == run.scores
    ensures !r.cut ==> Running(white, alpha, beta, r.scores, r.bound) && Progress(white, alpha, beta, r.bound, r.best)
    ensures !r.cut ==> r.best == run.best || r.best == Some(Choice(Some(id), source, move))
    ensures r.cut ==> FailHard(white, alpha, beta, r.scores, Limit(white, alpha, beta)) &&
                      Own(white, r.picks) == Some(Choice(Some(id), source, move))
    decreases depth, 1, 0
  {
    var a, b := if white then run.bound else alpha, if white then beta else run.bound;
    var (score, board', picks') := ChildValue(run.board, source, move, white, a, b, depth, endGameType, turn, run.picks);
    var choice := Some(Choice(Some(id), source, move));
    if Cuts(white, score, Limit(white, alpha, beta)) then
      CutStep(white, alpha, beta, run.scores, run.bound, score);
      Run(board', Pick(white, picks', choice), run.bound, run.best, true, run.scores + [score])
    else
      RunningStep(white, alpha, beta, run.scores, run.bound, score);
      if (white && score > run.bound) || (!white && score < run.bound) then
        Run(board', picks', score, choice, false, run.scores + [score])
      else Run(board', picks', run.bound, run.best, false, run.scores + [score])
  }

  /** One child: the move made, the other side searching one level down
    * with the given window, the move taken back. When the move was open to
    * the piece, the layout comes back as it was. */
  function ChildValue(pos: Position, source: Sq, move: Sq, white: bool, alpha: int, beta: int, depth: nat,
                      endGameType: Option<EndGame>, turn: int, picks: Picks): (r: (int, Position, Picks))
    requires Valid(pos) && InBounds(source) && InBounds(move) && Cell(pos, source).Some? && depth > 0
    requires move == source || OpenTo(pos, move, At(pos, source).value)
    requires PicksFit(pos, picks)
    ensures Valid(r.1) && SameLayout(pos, r.1) && PicksFit(r.1, r.2)
    decreases depth, 0, 0
  {
    var made := MakeChild(pos, source, move);
    var child := SearchValue(made.0, !white, alpha, beta, depth - 1, endGameType, turn, picks);
    LayoutTransitive(Make(pos, source, move).0, made.0, child.1);
    MakeUnmakeLayout(pos, source, move, child.1);
    var q := UnmakeChild(child.1, source, move, made.1, made.2);
    LayoutTransitive(pos, Unmake(child.1, source, move, made.1), q);
    (child.0, q, child.2)
  }

  /** A child's value is the make step, the search one level down and the
    * unmake step, in that order. */
  lemma ChildValueSteps(pos: Position, source: Sq, move: Sq, white: bool, alpha: int, beta: int, depth: nat,
                        endGameType: Option<EndGame>, turn: int, picks: Picks,
                        made: (Position, Option<nat>, Option<nat>), child: (int, Position, Picks))
    requires Valid(pos) && InBounds(source) && InBounds(move) && Cell(pos, source).Some? && depth > 0
    requires move == source || OpenTo(pos, move, At(pos, source).value)
    requires PicksFit(pos, picks)
    requires made == MakeChild(pos, source, move)
    requires child == SearchValue(made.0, !white, alpha, beta, depth - 1, endGameType, turn, picks)
    ensures made.1.Some? ==> made.1.value < |child.1.store| && OffGrid(child.1, made.1.value)
    ensures made.2.Some? ==> made.2.value < |child.1.store|
    ensures ChildValue(pos, source, move, white, alpha, beta, depth, endGameType, turn, picks) ==
              (child.0, UnmakeChild(child.1, source, move, made.1, made.2), child.2)
  {
    LayoutTransitive(Make(pos, source, move).0, made.0, child.1);
    MakeUnmakeLayout(pos, source, move, child.1);
  }

  /** The piece of the side on s: its run is the loop over
    * the legal moves handleChecks keeps, from the board handleChecks hands
    * back. */
  lemma PieceRunSteps(run: Run, s: Sq, white: bool, alpha: int, beta: int, depth: nat,
                      endGameType: Option<EndGame>, turn: int, id: nat, generated: (seq<Sq>, Position),
                      handled: (seq<Sq>, Position))
    requires InBounds(s) && depth > 0 && !run.cut && Sound(run.board, run, white, alpha, beta)
    requires Cell(run.board, s) == Some(id) && run.board.store[id].color == SideColor(white)
    requires Placed(run.board, id) && generated == MovesOf(run.board, id, false)
    requires Cell(generated.1, s) == Some(id) && forall i | 0 <= i < |generated.0| :: InBounds(generated.0[i])
    requires handled == HandleChecks(generated.1, s, id, generated.0, false)
    ensures Sound(run.board, run.(board := handled.1), white, alpha, beta)
    ensures forall u | u in handled.0 :: InBounds(u) && (u == s || OpenTo(run.board, u, run.board.store[id]))
    ensures PieceRun(run, s, id, white, alpha, beta, depth, endGameType, turn) ==
              MovesFrom(run.board, run.(board := handled.1), s, id, handled.0, 0, white, alpha, beta, depth, endGameType, turn)
  {
    var board := run.board;
    PlacedFromCell(board, s);
    HandleGeneratedSimilar(board, id);
    SimilarLayout(board, handled.1);
    forall u | u in handled.0 ensures InBounds(u) && (u == s || OpenTo(board, u, board.store[id])) {
      OpenToLayout(board, handled.1, u, board.store[id]);
    }
  }

  /** A legal move of the piece on s stays open to it on every board of
    * the loop, whose layout is that of the board the loop started from. */
  lemma MoveOnRun(origin: Position, run: Run, s: Sq, id: nat, legal: seq<Sq>, i: int, white: bool, alpha: int,
                  beta: int)
    requires 0 <= i < |legal| && Sound(origin, run, white, alpha, beta)
    requires Valid(origin) && InBounds(s) && Cell(origin, s) == Some(id) && id < |origin.store|
    requires forall u | u in legal :: InBounds(u) && (u == s || OpenTo(origin, u, origin.store[id]))
    ensures Cell(run.board, s) == Some(id) && InBounds(legal[i])
    ensures legal[i] == s || OpenTo(run.board, legal[i], run.board.store[id])
  {
    var move := legal[i];
    assert move in legal;
    OpenToLayout(origin, run.board, move, origin.store[id]);
  }

  /** One move's step keeps what the loop keeps. */
  lemma MoveStepSound(origin: Position, run: Run, s: Sq, id: nat, move: Sq, white: bool, alpha: int,
                      beta: int, depth: nat, endGameType: Option<EndGame>, turn: int, next: Run)
    requires !run.cut && depth > 0 && Sound(origin, run, white, alpha, beta)
    requires Valid(origin) && InBounds(s) && Cell(origin, s) == Some(id) && id < |origin.store|
    requires origin.store[id].color == SideColor(white)
    requires Cell(run.board, s) == Some(id) && InBounds(move)
    requires move == s || OpenTo(run.board, move, run.board.store[id])
    requires next == MoveStep(run, s, id, move, white, alpha, beta, depth, endGameType, turn)
    ensures Sound(origin, next, white, alpha, beta)
  {
    LayoutTransitive(origin, run.board, next.board);
  }

  /** One pass of the loop over the legal moves: the loop from the i-th move
    * is the loop from the next one after the i-th move's step. */
  lemma MovesFromStep(origin: Position, run: Run, s: Sq, id: nat, legal: seq<Sq>, i: int, white: bool, alpha: int,
                      beta: int, depth: nat, endGameType: Option<EndGame>, turn: int, next: Run)
    requires 0 <= i < |legal| && !run.cut && depth > 0 && Sound(origin, run, white, alpha, beta)
    requires Valid(origin) && InBounds(s) && Cell(origin, s) == Some(id) && id < |origin.store|
    requires origin.store[id].color == SideColor(white)
    requires forall u | u in legal :: InBounds(u) && (u == s || OpenTo(origin, u, origin.store[id]))
    requires Cell(run.board, s) == Some(id) && InBounds(legal[i])
    requires legal[i] == s || OpenTo(run.board, legal[i], run.board.store[id])
    requires next == MoveStep(run, s, id, legal[i], white, alpha, beta, depth, endGameType, turn)
    requires Sound(origin, next, white, alpha, beta)
    ensures MovesFrom(origin, run, s, id, legal, i, white, alpha, beta, depth, endGameType, turn) ==
      MovesFrom(origin, next, s, id, legal, i + 1, white, alpha, beta, depth, endGameType, turn)
  {
  }

  /** The loop over the legal moves ends when they are all searched or one
    * cut the search off, with the run as it stands. */
  lemma MovesFromDone(origin: Position, run: Run, s: Sq, id: nat, legal: seq<Sq>, i: int, white: bool, alpha: int,
                      beta: int, depth: nat, endGameType: Option<EndGame>, turn: int)
    requires 0 <= i <= |legal| && depth > 0 && Sound(origin, run, white, alpha, beta)
    requires Valid(origin) && InBounds(s) && Cell(origin, s) == Some(id) && id < |origin.store|
    requires origin.store[id].color == SideColor(white)
    requires forall u | u in legal :: InBounds(u) && (u == s || OpenTo(origin, u, origin.store[id]))
    requires i == |legal| || run.cut
    ensures MovesFrom(origin, run, s, id, legal, i, white, alpha, beta, depth, endGameType, turn) == run
  {
  }
}

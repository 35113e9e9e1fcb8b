/** What Board.alphaBetaMax and Board.alphaBetaMin compute from the scores of
  * the children they search, in the order searched. White (colour 0)
  * maximises and raises alpha while beta stays put; Black minimises and
  * lowers beta while alpha stays put. A child whose score reaches the fixed
  * bound stops the search (fail-hard: the fixed bound is returned);
  * otherwise the improved bound is returned. */
module Search {

  /** The bound the side improves: alpha for White, beta for Black. */
  function Bound(white: bool, alpha: int, beta: int): int
  {
    if white then alpha else beta
  }

  /** The bound that cuts the search off: beta for White, alpha for Black. */
  function Limit(white: bool, alpha: int, beta: int): int
  {
    if white then beta else alpha
  }

  /** score >= beta in alphaBetaMax, score <= alpha in alphaBetaMin. */
  predicate Cuts(white: bool, score: int, limit: int)
  {
    if white then score >= limit else score <= limit
  }

  /** The better of two scores for the side to move. */
  function Better(white: bool, a: int, b: int): (r: int)
    ensures white ==> r >= a && r >= b
    ensures !white ==> r <= a && r <= b
    ensures r == a || r == b
  {
    if white then (if b > a then b else a) else (if b < a then b else a)
  }

  /** The improved bound after the given scores: each score that beats the
    * bound replaces it. */
  function Fold(white: bool, bound: int, scores: seq<int>): int
    decreases |scores|
  {
    if scores == [] then bound
    else Better(white, Fold(white, bound, scores[..|scores| - 1]), scores[|scores| - 1])
  }

  /** No score reached the fixed bound. */
  predicate NoCut(white: bool, limit: int, scores: seq<int>)
  {
    forall i | 0 <= i < |scores| :: !Cuts(white, scores[i], limit)
  }

  /** The result of a search at positive depth whose children scored
    * `scores`: either the last child cut the search off and the fixed bound
    * is returned, or none did and the improved bound is returned. */
  predicate FailHard(white: bool, alpha: int, beta: int, scores: seq<int>, r: int)
  {
    var limit := Limit(white, alpha, beta);
    (|scores| > 0 && NoCut(white, limit, scores[..|scores| - 1]) && Cuts(white, scores[|scores| - 1], limit) &&
     r == limit) ||
    (NoCut(white, limit, scores) && r == Fold(white, Bound(white, alpha, beta), scores))
  }

  /** The improved bound is at least as good as the starting bound and every
    * score, and it is the starting bound or one of the scores. */
  lemma {:induction false} FoldExtremum(white: bool, bound: int, scores: seq<int>)
    ensures white ==> Fold(white, bound, scores) >= bound
    ensures !white ==> Fold(white, bound, scores) <= bound
    ensures forall i | 0 <= i < |scores| ::
              if white then Fold(white, bound, scores) >= scores[i] else Fold(white, bound, scores) <= scores[i]
    ensures Fold(white, bound, scores) == bound || exists i | 0 <= i < |scores| :: Fold(white, bound, scores) == scores[i]
    decreases |scores|
  {
    if scores != [] {
      var init := scores[..|scores| - 1];
      FoldExtremum(white, bound, init);
      assert forall i | 0 <= i < |init| :: scores[i] == init[i];
      if Fold(white, bound, init) != bound {
        var k :| 0 <= k < |init| && Fold(white, bound, init) == init[k];
        assert scores[k] == init[k];
      }
    }
  }

  /** Appending scores continues the fold from where it stood. */
  lemma {:induction false} FoldAppend(white: bool, bound: int, a: seq<int>, b: seq<int>)
    ensures Fold(white, bound, a + b) == Fold(white, Fold(white, bound, a), b)
    decreases |b|
  {
    if b == [] {
      assert a + b == a;
    } else {
      var b' := b[..|b| - 1];
      assert (a + b)[..|a + b| - 1] == a + b';
      assert (a + b)[|a + b| - 1] == b[|b| - 1];
      FoldAppend(white, bound, a, b');
    }
  }

  /** When every score stays short of the fixed bound, so does the improved
    * bound (given a window with alpha <= beta). */
  lemma {:induction false} FoldBelowLimit(white: bool, alpha: int, beta: int, scores: seq<int>)
    requires alpha <= beta && NoCut(white, Limit(white, alpha, beta), scores)
    ensures white ==> Fold(white, alpha, scores) <= beta
    ensures !white ==> Fold(white, beta, scores) >= alpha
    decreases |scores|
  {
    if scores != [] {
      var init := scores[..|scores| - 1];
      assert forall i | 0 <= i < |init| :: init[i] == scores[i];
      FoldBelowLimit(white, alpha, beta, init);
      assert !Cuts(white, scores[|scores| - 1], Limit(white, alpha, beta));
    }
  }

  /** The fail-hard result lies inside the window [alpha, beta]. */
  lemma FailHardBounds(white: bool, alpha: int, beta: int, scores: seq<int>, r: int)
    requires alpha <= beta && FailHard(white, alpha, beta, scores, r)
    ensures alpha <= r <= beta
  {
    var limit := Limit(white, alpha, beta);
    if NoCut(white, limit, scores) && r == Fold(white, Bound(white, alpha, beta), scores) {
      FoldExtremum(white, Bound(white, alpha, beta), scores);
      FoldBelowLimit(white, alpha, beta, scores);
    }
  }

  /** The fail-hard result is the best score the side found, clamped into the
    * window [alpha, beta]: White's result is min(beta, max(alpha, scores)),
    * Black's is max(alpha, min(beta, scores)). */
  lemma FailHardClamps(white: bool, alpha: int, beta: int, scores: seq<int>, r: int)
    requires alpha <= beta && FailHard(white, alpha, beta, scores, r)
    ensures white ==> r == (if Fold(true, alpha, scores) > beta then beta else Fold(true, alpha, scores))
    ensures !white ==> r == (if Fold(false, beta, scores) < alpha then alpha else Fold(false, beta, scores))
  {
    var limit := Limit(white, alpha, beta);
    var bound := Bound(white, alpha, beta);
    if NoCut(white, limit, scores) && r == Fold(white, bound, scores) {
      FoldBelowLimit(white, alpha, beta, scores);
    } else {
      FoldExtremum(white, bound, scores);
      assert Cuts(white, scores[|scores| - 1], limit);
    }
  }

  /** A search that is not cut off returns a score strictly better than its
    * starting bound exactly when some child's score beat every earlier
    * bound, that is, when the fold moved. */
  lemma FoldMoves(white: bool, bound: int, scores: seq<int>)
    ensures Fold(white, bound, scores) != bound <==>
              exists i | 0 <= i < |scores| :: if white then scores[i] > bound else scores[i] < bound
  {
    FoldExtremum(white, bound, scores);
  }

  /** The search is still running after `scores`: no child reached the fixed
    * bound, and `bound` is the improved bound. */
  predicate Running(white: bool, alpha: int, beta: int, scores: seq<int>, bound: int)
  {
    NoCut(white, Limit(white, alpha, beta), scores) && bound == Fold(white, Bound(white, alpha, beta), scores)
  }

  /** A child that does not reach the fixed bound keeps the search running,
    * with the better of the bound and its score as the new bound. */
  lemma RunningStep(white: bool, alpha: int, beta: int, scores: seq<int>, bound: int, s: int)
    requires Running(white, alpha, beta, scores, bound) && !Cuts(white, s, Limit(white, alpha, beta))
    ensures Running(white, alpha, beta, scores + [s], Better(white, bound, s))
  {
    assert (scores + [s])[..|scores|] == scores;
  }

  /** A child that reaches the fixed bound ends the search with that bound. */
  lemma CutStep(white: bool, alpha: int, beta: int, scores: seq<int>, bound: int, s: int)
    requires Running(white, alpha, beta, scores, bound) && Cuts(white, s, Limit(white, alpha, beta))
    ensures FailHard(white, alpha, beta, scores + [s], Limit(white, alpha, beta))
  {
    assert (scores + [s])[..|scores|] == scores;
  }

  /** A search that runs out of children returns its improved bound. */
  lemma RunningDone(white: bool, alpha: int, beta: int, scores: seq<int>, bound: int)
    requires Running(white, alpha, beta, scores, bound)
    ensures FailHard(white, alpha, beta, scores, bound)
  {
  }
}

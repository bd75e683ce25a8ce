/**
 * The pieces of the location game on [0,1] with reputations that every
 * player-count variant shares: the verdict, the capture width delta, the
 * quadratic relocation cost, the payoff of each deviation a verifier tries,
 * and the menu of deviations itself.
 *
 * A profile X lists the candidate locations in ascending order and R the
 * (sorted) reputation anchors, player i being located at X[i] with anchor R[i].
 * A player moving to x pays c * (x - r)^2, r being its own anchor.
 */
module Game {

  /** Outcome of one evaluation: the candidate is an equilibrium or it is not. */
  datatype Verdict = Eq | NoEq

  datatype Option<T> = None | Some(value: T)

  /** Capture width delta = 1/(4c) of the quadratic cost c * d^2. */
  function Delta(c: real): (d: real)
    requires c > 0.0
    ensures d > 0.0
    ensures 4.0 * c * d == 1.0
  {
    1.0 / (4.0 * c)
  }

  /** A costlier relocation gives a narrower capture width. */
  lemma DeltaDecreasing(c1: real, c2: real)
    requires 0.0 < c1 < c2
    ensures Delta(c2) < Delta(c1)
  {
    var d1, d2 := Delta(c1), Delta(c2);
    assert (c2 - c1) * d2 > 0.0;
    assert 4.0 * c1 * d2 < 4.0 * c1 * d1;
    assert c1 * (d1 - d2) > 0.0;
  }

  /** Every reputation lies in the unit interval. */
  predicate InUnit(R: seq<real>) {
    forall i :: 0 <= i < |R| ==> 0.0 <= R[i] <= 1.0
  }

  /** Relocation cost of a player with anchor r standing at x. */
  function Cost(c: real, x: real, r: real): real {
    c * ((x - r) * (x - r))
  }

  // ---- Deviations: what a player anchored at r earns by moving away -----

  /** Moving to just left of the leftmost position X[0]: it captures [0, X[0]]. */
  function LeftEndJump(X: seq<real>, r: real, c: real): real
    requires |X| > 0
  {
    X[0] - Cost(c, X[0], r)
  }

  /** Moving to just right of the rightmost position: it captures [X[n-1], 1]. */
  function RightEndJump(X: seq<real>, r: real, c: real): real
    requires |X| > 0
  {
    (1.0 - X[|X| - 1]) - Cost(c, X[|X| - 1], r)
  }

  /** Moving alone into the gap between X[j] and X[j+1], at cost measured at X[j]. */
  function RightGapJump(X: seq<real>, j: int, r: real, c: real): real
    requires 0 <= j < |X| - 1
  {
    (X[j + 1] - X[j]) / 2.0 - Cost(c, X[j], r)
  }

  /** Moving alone into the gap between X[j-1] and X[j], at cost measured at X[j]. */
  function LeftGapJump(X: seq<real>, j: int, r: real, c: real): real
    requires 0 < j < |X|
  {
    (X[j] - X[j - 1]) / 2.0 - Cost(c, X[j], r)
  }

  /** Some non-empty gap (X[j], X[j+1]) with lo <= j < hi pays strictly more than payoff. */
  ghost predicate RightGapBeats(X: seq<real>, lo: int, hi: int, r: real, c: real, payoff: real)
    requires 0 <= lo <= hi <= |X| - 1
  {
    exists j :: lo <= j < hi && X[j] != X[j + 1] && RightGapJump(X, j, r, c) > payoff
  }

  /** Some non-empty gap (X[j-1], X[j]) with lo <= j < hi pays strictly more than payoff. */
  ghost predicate LeftGapBeats(X: seq<real>, lo: int, hi: int, r: real, c: real, payoff: real)
    requires 1 <= lo <= hi <= |X|
  {
    exists j :: lo <= j < hi && X[j] != X[j - 1] && LeftGapJump(X, j, r, c) > payoff
  }

  // ---- Current payoffs ----------------------------------------------------

  /** Left peripheral player alone at X[0]: half-way to X[1], minus its cost. */
  function LeftLonePayoff(X: seq<real>, r: real, c: real): real
    requires |X| >= 2
  {
    (X[0] + X[1]) / 2.0 - Cost(c, X[0], r)
  }

  /** One of the two players sharing X[0] = X[1]: half of [0, (X[0]+X[2])/2], minus its cost. */
  function LeftPairPayoff(X: seq<real>, r: real, c: real): real
    requires |X| >= 3
  {
    (X[0] + X[2]) / 4.0 - Cost(c, X[0], r)
  }

  /** Right peripheral player alone at X[n-1]. */
  function RightLonePayoff(X: seq<real>, r: real, c: real): real
    requires |X| >= 2
  {
    var n := |X|;
    (1.0 - (X[n - 1] + X[n - 2]) / 2.0) - Cost(c, X[n - 1], r)
  }

  /** One of the two players sharing X[n-2] = X[n-1]. */
  function RightPairPayoff(X: seq<real>, r: real, c: real): real
    requires |X| >= 3
  {
    var n := |X|;
    (0.5 - (X[n - 1] + X[n - 3]) / 4.0) - Cost(c, X[n - 1], r)
  }

  /** Interior player alone at X[p], standing on its own anchor: no cost term. */
  function InteriorPayoff(X: seq<real>, p: int): real
    requires 0 < p < |X| - 1
  {
    (X[p + 1] - X[p - 1]) / 2.0
  }

  // ---- The menu of deviations ----------------------------------------------

  /** A lone left peripheral player gains by jumping past the right end or into a gap to its right. */
  ghost predicate LeftLoneDeviates(X: seq<real>, r: real, c: real)
    requires |X| >= 2
  {
    var payoff := LeftLonePayoff(X, r, c);
    RightEndJump(X, r, c) > payoff || RightGapBeats(X, 1, |X| - 1, r, c, payoff)
  }

  /** A member of the left pair gains by jumping past the right end or into a gap right of X[2]. */
  ghost predicate LeftPairDeviates(X: seq<real>, r: real, c: real)
    requires |X| >= 3
  {
    var payoff := LeftPairPayoff(X, r, c);
    RightEndJump(X, r, c) > payoff || RightGapBeats(X, 2, |X| - 1, r, c, payoff)
  }

  /** A lone right peripheral player gains by jumping past the left end or into a gap to its left. */
  ghost predicate RightLoneDeviates(X: seq<real>, r: real, c: real)
    requires |X| >= 2
  {
    var payoff := RightLonePayoff(X, r, c);
    LeftEndJump(X, r, c) > payoff || LeftGapBeats(X, 1, |X| - 1, r, c, payoff)
  }

  /** A member of the right pair gains by jumping past the left end or into a gap left of X[n-3]. */
  ghost predicate RightPairDeviates(X: seq<real>, r: real, c: real)
    requires |X| >= 3
  {
    var payoff := RightPairPayoff(X, r, c);
    LeftEndJump(X, r, c) > payoff || LeftGapBeats(X, 1, |X| - 2, r, c, payoff)
  }

  /** The left end: one lone player, or a pair whose members are tried each with its own anchor. */
  ghost predicate LeftEndDeviates(X: seq<real>, R: seq<real>, c: real)
    requires |X| == |R| >= 3
  {
    if X[0] != X[1] then LeftLoneDeviates(X, R[0], c)
    else LeftPairDeviates(X, R[0], c) || LeftPairDeviates(X, R[1], c)
  }

  /** The right end, mirrored. */
  ghost predicate RightEndDeviates(X: seq<real>, R: seq<real>, c: real)
    requires |X| == |R| >= 3
  {
    var n := |X|;
    if X[n - 1] != X[n - 2] then RightLoneDeviates(X, R[n - 1], c)
    else RightPairDeviates(X, R[n - 1], c) || RightPairDeviates(X, R[n - 2], c)
  }

  /** Interior player p, when alone, gains by moving to either end or into any other gap. */
  ghost predicate InteriorDeviates(X: seq<real>, R: seq<real>, c: real, p: int)
    requires |X| == |R| && 0 < p < |X| - 1
  {
    var payoff := InteriorPayoff(X, p);
    && X[p - 1] != X[p]
    && X[p] != X[p + 1]
    && (|| LeftEndJump(X, R[p], c) > payoff
        || RightEndJump(X, R[p], c) > payoff
        || LeftGapBeats(X, 1, p, R[p], c, payoff)
        || RightGapBeats(X, p + 1, |X| - 1, R[p], c, payoff))
  }

  /** Some enumerated unilateral deviation is strictly profitable. */
  ghost predicate SomeDeviation(X: seq<real>, R: seq<real>, c: real)
    requires |X| == |R| >= 3
  {
    || LeftEndDeviates(X, R, c)
    || RightEndDeviates(X, R, c)
    || exists p :: 0 < p < |X| - 1 && InteriorDeviates(X, R, c, p)
  }

  /**
   * A boundary pair placed where clustering is not sustainable: the left pair
   * outside [R[1], R[0] + d], the right pair outside [R[n-1] - d, R[n-2]].
   */
  predicate ClusterInconsistent(X: seq<real>, R: seq<real>, d: real)
    requires |X| == |R| >= 2
  {
    var n := |X|;
    || (X[0] == X[1] && (X[0] < R[1] || X[0] > R[0] + d))
    || (X[n - 2] == X[n - 1] && (X[n - 1] < R[n - 1] - d || R[n - 2] < X[n - 1]))
  }

  // ---- The gap scans the verifiers run ------------------------------------

  /** Tries the gaps (X[j], X[j+1]) for j = lo .. hi-1, skipping empty ones, until one beats payoff. */
  method ScanRightGaps(X: seq<real>, lo: int, hi: int, r: real, c: real, payoff: real)
    returns (beaten: bool)
    requires 0 <= lo <= hi <= |X| - 1
    ensures beaten == RightGapBeats(X, lo, hi, r, c, payoff)
  {
    for j := lo to hi
      invariant forall k :: lo <= k < j ==> !(X[k] != X[k + 1] && RightGapJump(X, k, r, c) > payoff)
    {
      if X[j] == X[j + 1] {
        continue;
      }
      if RightGapJump(X, j, r, c) > payoff {
        return true;
      }
    }
    return false;
  }

  /** Tries the gaps (X[j-1], X[j]) for j = lo .. hi-1, skipping empty ones, until one beats payoff. */
  method ScanLeftGaps(X: seq<real>, lo: int, hi: int, r: real, c: real, payoff: real)
    returns (beaten: bool)
    requires 1 <= lo <= hi <= |X|
    ensures beaten == LeftGapBeats(X, lo, hi, r, c, payoff)
  {
    for j := lo to hi
      invariant forall k :: lo <= k < j ==> !(X[k] != X[k - 1] && LeftGapJump(X, k, r, c) > payoff)
    {
      if X[j] == X[j - 1] {
        continue;
      }
      if LeftGapJump(X, j, r, c) > payoff {
        return true;
      }
    }
    return false;
  }
}

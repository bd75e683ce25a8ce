/**
 * The game with exactly two players, with one cost coefficient shared by both
 * players or with one coefficient per player.  Here the verdict is a closed
 * condition: in the close case a condition on 1/2, in the far case two
 * strict no-profitable-jump inequalities on the candidate [R[0] + d1, R[1] - d2].
 */
module TwoPlayers {
  import opened Sorting
  import opened Game

  /**
   * The candidate of the far case: both players move inward by their own capture
   * width. When the anchors are at least d1 + d2 apart, each player ends strictly
   * inside the anchors and the two do not cross.
   */
  function FarCandidate2(S: seq<real>, d1: real, d2: real): (X: seq<real>)
    requires |S| == 2
    ensures |X| == 2 && X[0] - S[0] == d1 && S[1] - X[1] == d2
    ensures d1 > 0.0 && d2 > 0.0 && S[1] - S[0] >= d1 + d2 ==> S[0] < X[0] <= X[1] < S[1]
  {
    [S[0] + d1, S[1] - d2]
  }

  /** Player 1 (anchor S[0], cost c1) earns strictly more at X[0] than by jumping right of X[1]. */
  predicate Player1Stays(X: seq<real>, S: seq<real>, c1: real)
    requires |X| == |S| == 2
  {
    RightEndJump(X, S[0], c1) < LeftLonePayoff(X, S[0], c1)
  }

  /** Player 2 (anchor S[1], cost c2) earns strictly more at X[1] than by jumping left of X[0]. */
  predicate Player2Stays(X: seq<real>, S: seq<real>, c2: real)
    requires |X| == |S| == 2
  {
    LeftEndJump(X, S[1], c2) < RightLonePayoff(X, S[1], c2)
  }

  /** Verdict on the sorted profile S with a single cost c. */
  ghost function CandidateVerdict2(S: seq<real>, c: real): Verdict
    requires |S| == 2 && c > 0.0
  {
    var d := Delta(c);
    if S[1] - S[0] < 2.0 * d then
      if S[1] - d < 0.5 < S[0] + d then Eq else NoEq
    else
      var X := FarCandidate2(S, d, d);
      if Player1Stays(X, S, c) && Player2Stays(X, S, c) then Eq else NoEq
  }

  /** Verdict on the sorted profile S with costs c1 for player 1 and c2 for player 2. */
  ghost function CandidateVerdict2Asym(S: seq<real>, c1: real, c2: real): Verdict
    requires |S| == 2 && c1 > 0.0 && c2 > 0.0
  {
    var d1, d2 := Delta(c1), Delta(c2);
    if S[1] - S[0] < d1 + d2 then
      if S[1] - d2 < 0.5 < S[0] + d1 then Eq else NoEq
    else
      var X := FarCandidate2(S, d1, d2);
      if Player1Stays(X, S, c1) && Player2Stays(X, S, c2) then Eq else NoEq
  }

  ghost function Verdict2(R: seq<real>, c: real): Verdict
    requires |R| == 2 && c > 0.0
  {
    CandidateVerdict2(Sort(R), c)
  }

  ghost function Verdict2Asym(R: seq<real>, c1: real, c2: real): Verdict
    requires |R| == 2 && c1 > 0.0 && c2 > 0.0
  {
    CandidateVerdict2Asym(Sort(R), c1, c2)
  }

  /** Sorts R and decides the close case directly or the far case on the two-slot candidate. */
  method Equilibrium2Players(R: seq<real>, c: real) returns (v: Verdict)
    requires |R| == 2 && c > 0.0
    ensures v == Verdict2(R, c)
  {
    var S := Sort(R);
    var d := Delta(c);
    var a := new real[2](_ => 0.0);
    if S[1] - S[0] < 2.0 * d {
      if S[1] - d < 0.5 && 0.5 < S[0] + d {
        return Eq;
      } else {
        return NoEq;
      }
    } else {
      a[0] := S[0] + d;
      a[1] := S[1] - d;
      var X := a[..];
      assert X == FarCandidate2(S, d, d);
      if RightEndJump(X, S[0], c) < LeftLonePayoff(X, S[0], c)
         && LeftEndJump(X, S[1], c) < RightLonePayoff(X, S[1], c)
      {
        return Eq;
      } else {
        return NoEq;
      }
    }
  }

  /** The same decision with a capture width per player. */
  method Equilibrium2PlayersAsym(R: seq<real>, c1: real, c2: real) returns (v: Verdict)
    requires |R| == 2 && c1 > 0.0 && c2 > 0.0
    ensures v == Verdict2Asym(R, c1, c2)
  {
    var S := Sort(R);
    var d1 := Delta(c1);
    var d2 := Delta(c2);
    var a := new real[2](_ => 0.0);
    if S[1] - S[0] < d1 + d2 {
      if S[1] - d2 < 0.5 && 0.5 < S[0] + d1 {
        return Eq;
      } else {
        return NoEq;
      }
    } else {
      a[0] := S[0] + d1;
      a[1] := S[1] - d2;
      var X := a[..];
      assert X == FarCandidate2(S, d1, d2);
      if RightEndJump(X, S[0], c1) < LeftLonePayoff(X, S[0], c1)
         && LeftEndJump(X, S[1], c2) < RightLonePayoff(X, S[1], c2)
      {
        return Eq;
      } else {
        return NoEq;
      }
    }
  }

  // ---- Properties -------------------------------------------------------------------

  /** In the far case the two players stay ordered: X[0] <= X[1]. */
  lemma FarCandidate2Ordered(S: seq<real>, c1: real, c2: real)
    requires |S| == 2 && c1 > 0.0 && c2 > 0.0
    requires S[1] - S[0] >= Delta(c1) + Delta(c2)
    ensures Sorted(FarCandidate2(S, Delta(c1), Delta(c2)))
  {
  }

  /**
   * In the far case a tie is a rejection: when jumping past the rival pays player 1
   * exactly what it earns at X[0], the verdict is NoEq.
   */
  lemma FarTieRejected2(S: seq<real>, c: real)
    requires |S| == 2 && c > 0.0
    requires S[1] - S[0] >= 2.0 * Delta(c)
    requires var X := FarCandidate2(S, Delta(c), Delta(c));
      RightEndJump(X, S[0], c) == LeftLonePayoff(X, S[0], c)
    ensures CandidateVerdict2(S, c) == NoEq
  {
  }

  /** With one cost for both players the asymmetric verifier gives the symmetric verdict. */
  lemma AsymWithEqualCosts(R: seq<real>, c: real)
    requires |R| == 2 && c > 0.0
    ensures Verdict2Asym(R, c, c) == Verdict2(R, c)
  {
  }

  /** Reordering the input never changes the verdict, for either variant. */
  lemma Verdict2Permutation(R1: seq<real>, R2: seq<real>, c1: real, c2: real)
    requires |R1| == 2 && c1 > 0.0 && c2 > 0.0
    requires multiset(R1) == multiset(R2)
    ensures |R2| == 2
    ensures Verdict2(R1, c1) == Verdict2(R2, c1)
    ensures Verdict2Asym(R1, c1, c2) == Verdict2Asym(R2, c1, c2)
  {
    assert |R2| == |multiset(R2)| == 2;
    SortDependsOnMultiset(R1, R2);
  }

  /** Equal reputations 1/2 with c = 1: the close case, and an equilibrium. */
  lemma CoLocatedAtHalf2()
    ensures Verdict2([0.5, 0.5], 1.0) == Eq
  {
    SortOfSorted([0.5, 0.5]);
  }

  /** Reputations 0 and 1 with c = 1: the far case with candidate [1/4, 3/4], and an equilibrium. */
  lemma OppositeEnds2()
    ensures FarCandidate2([0.0, 1.0], Delta(1.0), Delta(1.0)) == [0.25, 0.75]
    ensures Verdict2([0.0, 1.0], 1.0) == Eq
  {
    SortOfSorted([0.0, 1.0]);
    assert Delta(1.0) == 0.25;
  }
}

/**
 * The general game with n >= 5 players: the equilibrium candidate builder
 * and the verifier that tests the candidate against the menu of unilateral
 * deviations.
 */
module NPlayers {
  import opened Sorting
  import opened Game

  // ---- Candidate --------------------------------------------------------------

  /**
   * The profile after the two boundary rules, starting from all zeros: the left
   * player moves inward by d unless that would reach R[1], in which case the two
   * leftmost players share R[2]/3; mirrored on the right with (2 + R[n-3])/3.
   */
  function BoundaryN(R: seq<real>, d: real): (B: seq<real>)
    requires |R| >= 5
    ensures |B| == |R|
  {
    var n := |R|;
    var zero := seq(n, _ => 0.0);
    var left :=
      if R[0] + d < R[1] then zero[0 := R[0] + d]
      else zero[0 := R[2] / 3.0][1 := R[2] / 3.0];
    if R[n - 1] - d > R[n - 2] then left[n - 1 := R[n - 1] - d]
    else left[n - 1 := (2.0 + R[n - 3]) / 3.0][n - 2 := (2.0 + R[n - 3]) / 3.0]
  }

  /** Every non-peripheral slot still holding the sentinel 0 gets its player's reputation. */
  function FillInterior(B: seq<real>, R: seq<real>): (X: seq<real>)
    requires |B| == |R|
    ensures |X| == |B|
  {
    seq(|B|, k requires 0 <= k < |B| => if 0 < k < |B| - 1 && B[k] == 0.0 then R[k] else B[k])
  }

  /** The unique equilibrium candidate for the sorted profile R and cost c. */
  function CandidateN(R: seq<real>, c: real): (X: seq<real>)
    requires |R| >= 5 && c > 0.0
    ensures |X| == |R|
  {
    FillInterior(BoundaryN(R, Delta(c)), R)
  }

  /** Builds the candidate in an array of zeros, boundary slots first, then the interior. */
  method EqCandidateNPlayers(R: seq<real>, c: real) returns (X: seq<real>)
    requires |R| >= 5 && c > 0.0
    ensures X == CandidateN(R, c)
  {
    var n := |R|;
    var a := new real[n](_ => 0.0);
    var d := Delta(c);
    if R[0] + d < R[1] {
      a[0] := R[0] + d;
    } else {
      a[0] := R[2] / 3.0;
      a[1] := R[2] / 3.0;
    }
    if R[n - 1] - d > R[n - 2] {
      a[n - 1] := R[n - 1] - d;
    } else {
      a[n - 1] := (2.0 + R[n - 3]) / 3.0;
      a[n - 2] := (2.0 + R[n - 3]) / 3.0;
    }
    ghost var B := a[..];
    assert B == BoundaryN(R, d);
    for i := 1 to n - 1
      invariant forall k :: 0 <= k < n ==> a[k] == (if 0 < k < i && B[k] == 0.0 then R[k] else B[k])
    {
      if a[i] == 0.0 {
        a[i] := R[i];
      }
    }
    X := a[..];
  }

  /** Left boundary rule, including the sentinel's effect on slot 1. */
  lemma CandidateNLeft(R: seq<real>, c: real)
    requires |R| >= 5 && c > 0.0
    ensures var X, d := CandidateN(R, c), Delta(c);
      && (R[0] + d < R[1] ==> X[0] == R[0] + d && X[1] == R[1])
      && (R[0] + d >= R[1] ==>
            X[0] == R[2] / 3.0 && X[1] == if R[2] == 0.0 then R[1] else R[2] / 3.0)
  {
  }

  /** Right boundary rule, the mirror image of the left one. */
  lemma CandidateNRight(R: seq<real>, c: real)
    requires |R| >= 5 && c > 0.0
    ensures var X, d, n := CandidateN(R, c), Delta(c), |R|;
      && (R[n - 1] - d > R[n - 2] ==> X[n - 1] == R[n - 1] - d && X[n - 2] == R[n - 2])
      && (R[n - 1] - d <= R[n - 2] ==>
            && X[n - 1] == (2.0 + R[n - 3]) / 3.0
            && X[n - 2] == if R[n - 3] == -2.0 then R[n - 2] else (2.0 + R[n - 3]) / 3.0)
  {
  }

  /** Players 2 .. n-3 stand on their own reputation. */
  lemma CandidateNInterior(R: seq<real>, c: real)
    requires |R| >= 5 && c > 0.0
    ensures forall i :: 2 <= i <= |R| - 3 ==> CandidateN(R, c)[i] == R[i]
  {
  }

  /** For a sorted profile in [0,1] a boundary cluster really puts both players on the cluster value. */
  lemma CandidateNClusters(R: seq<real>, c: real)
    requires |R| >= 5 && c > 0.0
    requires Sorted(R) && InUnit(R)
    ensures var X, d, n := CandidateN(R, c), Delta(c), |R|;
      && (R[0] + d >= R[1] ==> X[0] == X[1] == R[2] / 3.0)
      && (R[n - 1] - d <= R[n - 2] ==> X[n - 2] == X[n - 1] == (2.0 + R[n - 3]) / 3.0)
  {
    CandidateNLeft(R, c);
    CandidateNRight(R, c);
  }

  /** For a sorted profile in [0,1] the candidate is non-decreasing. */
  lemma CandidateNNondecreasing(R: seq<real>, c: real)
    requires |R| >= 5 && c > 0.0
    requires Sorted(R) && InUnit(R)
    ensures Sorted(CandidateN(R, c))
  {
    var X, d, n := CandidateN(R, c), Delta(c), |R|;
    CandidateNLeft(R, c);
    CandidateNRight(R, c);
    CandidateNInterior(R, c);
    CandidateNClusters(R, c);
    forall i | 0 <= i < n - 1 ensures X[i] <= X[i + 1] {
      assert R[i] <= R[i + 1];
      if i == 0 {
        assert X[0] <= X[1];
      } else if i == n - 2 {
        assert X[n - 2] <= X[n - 1];
      } else if i == 1 {
        assert X[1] <= R[2] <= X[2];
      } else if i == n - 3 {
        assert X[n - 3] == R[n - 3] <= X[n - 2];
      }
    }
    AdjacentSortedIsSorted(X);
  }

  // ---- Verdict ------------------------------------------------------------------

  /** Verdict on the candidate built from S: rejected by a cluster check or by a profitable deviation. */
  ghost function CandidateVerdictN(S: seq<real>, c: real): Verdict
    requires |S| >= 5 && c > 0.0
  {
    var X := CandidateN(S, c);
    if ClusterInconsistent(X, S, Delta(c)) || SomeDeviation(X, S, c) then NoEq else Eq
  }

  /** Verdict for a reputation profile given in any order. */
  ghost function VerdictN(R: seq<real>, c: real): Verdict
    requires |R| >= 5 && c > 0.0
  {
    CandidateVerdictN(Sort(R), c)
  }

  /** Deviations of player 1 when alone, or of players 1 and 2 when paired. */
  method CheckLeftEndN(X: seq<real>, S: seq<real>, c: real) returns (deviates: bool)
    requires |X| == |S| >= 5
    ensures deviates == LeftEndDeviates(X, S, c)
  {
    var n := |X|;
    var payoff: real;
    if X[0] != X[1] {
      payoff := LeftLonePayoff(X, S[0], c);
      if RightEndJump(X, S[0], c) > payoff {
        return true;
      }
      deviates := ScanRightGaps(X, 1, n - 1, S[0], c, payoff);
    } else {
      payoff := LeftPairPayoff(X, S[0], c);
      if RightEndJump(X, S[0], c) > payoff {
        return true;
      }
      deviates := ScanRightGaps(X, 2, n - 1, S[0], c, payoff);
      if deviates {
        return true;
      }
      payoff := LeftPairPayoff(X, S[1], c);
      if RightEndJump(X, S[1], c) > payoff {
        return true;
      }
      deviates := ScanRightGaps(X, 2, n - 1, S[1], c, payoff);
    }
  }

  /** Deviations of player n when alone, or of players n and n-1 when paired. */
  method CheckRightEndN(X: seq<real>, S: seq<real>, c: real) returns (deviates: bool)
    requires |X| == |S| >= 5
    ensures deviates == RightEndDeviates(X, S, c)
  {
    var n := |X|;
    var payoff: real;
    if X[n - 1] != X[n - 2] {
      payoff := RightLonePayoff(X, S[n - 1], c);
      if LeftEndJump(X, S[n - 1], c) > payoff {
        return true;
      }
      deviates := ScanLeftGaps(X, 1, n - 1, S[n - 1], c, payoff);
    } else {
      payoff := RightPairPayoff(X, S[n - 1], c);
      if LeftEndJump(X, S[n - 1], c) > payoff {
        return true;
      }
      deviates := ScanLeftGaps(X, 1, n - 2, S[n - 1], c, payoff);
      if deviates {
        return true;
      }
      payoff := RightPairPayoff(X, S[n - 2], c);
      if LeftEndJump(X, S[n - 2], c) > payoff {
        return true;
      }
      deviates := ScanLeftGaps(X, 1, n - 2, S[n - 2], c, payoff);
    }
  }

  /** Deviations of every unpaired player p with 0 < p < n-1. */
  method CheckInteriorN(X: seq<real>, S: seq<real>, c: real) returns (deviates: bool)
    requires |X| == |S| >= 5
    ensures deviates == exists p :: 0 < p < |X| - 1 && InteriorDeviates(X, S, c, p)
  {
    var n := |X|;
    for p := 1 to n - 1
      invariant forall q :: 0 < q < p ==> !InteriorDeviates(X, S, c, q)
    {
      if X[p - 1] == X[p] || X[p] == X[p + 1] {
        continue;
      }
      var payoff := InteriorPayoff(X, p);
      var beaten := LeftEndJump(X, S[p], c) > payoff;
      if !beaten {
        beaten := RightEndJump(X, S[p], c) > payoff;
      }
      if !beaten {
        beaten := ScanLeftGaps(X, 1, p, S[p], c, payoff);
      }
      if !beaten {
        beaten := ScanRightGaps(X, p + 1, n - 1, S[p], c, payoff);
      }
      if beaten {
        assert InteriorDeviates(X, S, c, p);
        return true;
      }
    }
    return false;
  }

  /**
   * Sorts R, builds the candidate, runs the two cluster checks and then every
   * deviation of the menu, returning NoEq at the first one that strictly pays.
   */
  method EquilibriumNPlayers(R: seq<real>, c: real) returns (v: Verdict)
    requires |R| >= 5 && c > 0.0
    ensures v == VerdictN(R, c)
  {
    var S := Sort(R);
    var X := EqCandidateNPlayers(S, c);
    var n := |X|;
    var d := Delta(c);

    if X[0] == X[1] {
      if X[0] < S[1] || X[0] > S[0] + d {
        return NoEq;
      }
    }
    if X[n - 2] == X[n - 1] {
      if X[n - 1] < S[n - 1] - d || S[n - 2] < X[n - 1] {
        return NoEq;
      }
    }
    var deviates := CheckLeftEndN(X, S, c);
    if deviates {
      return NoEq;
    }
    deviates := CheckRightEndN(X, S, c);
    if deviates {
      return NoEq;
    }
    deviates := CheckInteriorN(X, S, c);
    if deviates {
      return NoEq;
    }
    return Eq;
  }

  // ---- Properties of the verdict -------------------------------------------------

  /** A boundary pair outside its sustainable range is rejected whatever the deviations pay. */
  lemma ClusterCheckRejectsN(R: seq<real>, c: real)
    requires |R| >= 5 && c > 0.0
    requires ClusterInconsistent(CandidateN(Sort(R), c), Sort(R), Delta(c))
    ensures VerdictN(R, c) == NoEq
  {
  }

  /** Only the multiset of reputations matters: reordering the input never changes the verdict. */
  lemma VerdictNPermutation(R1: seq<real>, R2: seq<real>, c: real)
    requires |R1| >= 5 && c > 0.0
    requires multiset(R1) == multiset(R2)
    ensures |R2| == |R1| && VerdictN(R1, c) == VerdictN(R2, c)
  {
    assert |R2| == |multiset(R2)| == |R1|;
    SortDependsOnMultiset(R1, R2);
  }

  /** On an input that is already sorted the verdict is the candidate's own verdict. */
  lemma VerdictNOfSorted(R: seq<real>, c: real)
    requires |R| >= 5 && c > 0.0 && Sorted(R)
    ensures VerdictN(R, c) == CandidateVerdictN(R, c)
  {
    SortOfSorted(R);
  }
}

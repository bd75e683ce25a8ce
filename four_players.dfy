/**
 * The game with exactly four players: a four-branch candidate builder and a
 * verifier whose deviation checks are the general menu unrolled for n = 4,
 * preceded by a short cut for the doubly clustered candidate.
 */
module FourPlayers {
  import opened Sorting
  import opened Game

  /** Which boundary pairs form: neither, the left one, the right one, or both. */
  datatype Shape = Separated | LeftPair | RightPair | BothPairs

  /** Branch selection of the builder: the left pair forms when R[0] + d reaches R[1], the right one when R[3] - d reaches R[2]. */
  function Shape4(R: seq<real>, d: real): Shape
    requires |R| == 4
  {
    if R[0] + d < R[1] && R[3] - d > R[2] then Separated
    else if R[0] + d >= R[1] && R[3] - d > R[2] then LeftPair
    else if R[0] + d < R[1] && R[3] - d <= R[2] then RightPair
    else BothPairs
  }

  /** The candidate of the doubly clustered branch. */
  const DoubleCluster: seq<real> := [0.25, 0.25, 0.75, 0.75]

  /** The unique equilibrium candidate for the sorted profile R and cost c. */
  function Candidate4(R: seq<real>, c: real): (X: seq<real>)
    requires |R| == 4 && c > 0.0
    ensures |X| == 4
  {
    var d := Delta(c);
    match Shape4(R, d)
    case Separated => [R[0] + d, R[1], R[2], R[3] - d]
    case LeftPair => [R[2] / 3.0, R[2] / 3.0, R[2], R[3] - d]
    case RightPair => [R[0] + d, R[1], (R[1] + 2.0) / 3.0, (R[1] + 2.0) / 3.0]
    case BothPairs => DoubleCluster
  }

  /** Builds the candidate in an array of four zeros, one branch writing all four slots. */
  method EqCandidate4Players(R: seq<real>, c: real) returns (X: seq<real>)
    requires |R| == 4 && c > 0.0
    ensures X == Candidate4(R, c)
  {
    var a := new real[4](_ => 0.0);
    var d := Delta(c);
    if R[0] + d < R[1] && R[3] - d > R[2] {
      a[0] := R[0] + d;
      a[1] := R[1];
      a[2] := R[2];
      a[3] := R[3] - d;
    } else if R[0] + d >= R[1] && R[3] - d > R[2] {
      a[0] := R[2] / 3.0;
      a[1] := R[2] / 3.0;
      a[2] := R[2];
      a[3] := R[3] - d;
    } else if R[0] + d < R[1] && R[3] - d <= R[2] {
      a[0] := R[0] + d;
      a[1] := R[1];
      a[2] := (R[1] + 2.0) / 3.0;
      a[3] := (R[1] + 2.0) / 3.0;
    } else {
      // here R[0] + d >= R[1] and R[3] - d <= R[2]
      a[0] := 0.25;
      a[1] := 0.25;
      a[2] := 0.75;
      a[3] := 0.75;
    }
    X := a[..];
  }

  /** The four branch conditions are mutually exclusive and cover every input: each holds exactly when its shape is chosen. */
  lemma Shape4Exact(R: seq<real>, d: real)
    requires |R| == 4
    ensures Shape4(R, d) == Separated <==> R[0] + d < R[1] && R[3] - d > R[2]
    ensures Shape4(R, d) == LeftPair <==> R[0] + d >= R[1] && R[3] - d > R[2]
    ensures Shape4(R, d) == RightPair <==> R[0] + d < R[1] && R[3] - d <= R[2]
    ensures Shape4(R, d) == BothPairs <==> R[0] + d >= R[1] && R[3] - d <= R[2]
  {
  }

  /** The candidate is the constant doubly clustered profile exactly when both pairs form. */
  lemma Candidate4IsDoubleCluster(R: seq<real>, c: real)
    requires |R| == 4 && c > 0.0
    ensures Candidate4(R, c) == DoubleCluster <==> Shape4(R, Delta(c)) == BothPairs
  {
    var X, d := Candidate4(R, c), Delta(c);
    match Shape4(R, d)
    case Separated =>
      assert X[0] == R[0] + d < R[1] == X[1];
    case LeftPair =>
      assert X[2] == R[2] < R[3] - d == X[3];
    case RightPair =>
      assert X[0] == R[0] + d < R[1] == X[1];
    case BothPairs =>
  }

  /** For a sorted profile in [0,1] the candidate is non-decreasing. */
  lemma Candidate4Nondecreasing(R: seq<real>, c: real)
    requires |R| == 4 && c > 0.0
    requires Sorted(R) && InUnit(R)
    ensures Sorted(Candidate4(R, c))
  {
    var X := Candidate4(R, c);
    assert R[0] <= R[1] <= R[2] <= R[3];
    assert AdjacentSorted(X);
    AdjacentSortedIsSorted(X);
  }

  // ---- Verdict ------------------------------------------------------------------

  /** Cluster checks first, then the doubly clustered short cut, then the menu of deviations. */
  ghost function CandidateVerdict4(S: seq<real>, c: real): Verdict
    requires |S| == 4 && c > 0.0
  {
    var X := Candidate4(S, c);
    if ClusterInconsistent(X, S, Delta(c)) then NoEq
    else if X == DoubleCluster then Eq
    else if SomeDeviation(X, S, c) then NoEq
    else Eq
  }

  /** Verdict for a reputation profile given in any order. */
  ghost function Verdict4(R: seq<real>, c: real): Verdict
    requires |R| == 4 && c > 0.0
  {
    CandidateVerdict4(Sort(R), c)
  }

  /** Deviations of player 1 alone (a loop over the two gaps to its right) or of players 1 and 2 paired. */
  method CheckLeftEnd4(X: seq<real>, S: seq<real>, c: real) returns (deviates: bool)
    requires |X| == |S| == 4
    ensures deviates == LeftEndDeviates(X, S, c)
  {
    var payoff: real;
    if X[0] != X[1] {
      payoff := LeftLonePayoff(X, S[0], c);
      if RightEndJump(X, S[0], c) > payoff {
        return true;
      }
      deviates := ScanRightGaps(X, 1, 3, S[0], c, payoff);
    } else {
      payoff := LeftPairPayoff(X, S[0], c);
      if RightEndJump(X, S[0], c) > payoff {
        return true;
      }
      if X[2] != X[3] && RightGapJump(X, 2, S[0], c) > payoff {
        return true;
      }
      payoff := LeftPairPayoff(X, S[1], c);
      if RightEndJump(X, S[1], c) > payoff {
        return true;
      }
      if X[2] != X[3] && RightGapJump(X, 2, S[1], c) > payoff {
        return true;
      }
      deviates := false;
    }
  }

  /** Deviations of player 4 alone (a loop over the two gaps to its left) or of players 4 and 3 paired. */
  method CheckRightEnd4(X: seq<real>, S: seq<real>, c: real) returns (deviates: bool)
    requires |X| == |S| == 4
    ensures deviates == RightEndDeviates(X, S, c)
  {
    var payoff: real;
    if X[3] != X[2] {
      payoff := RightLonePayoff(X, S[3], c);
      if LeftEndJump(X, S[3], c) > payoff {
        return true;
      }
      deviates := ScanLeftGaps(X, 1, 3, S[3], c, payoff);
    } else {
      payoff := RightPairPayoff(X, S[3], c);
      if LeftEndJump(X, S[3], c) > payoff {
        return true;
      }
      if X[1] != X[0] && LeftGapJump(X, 1, S[3], c) > payoff {
        return true;
      }
      payoff := RightPairPayoff(X, S[2], c);
      if LeftEndJump(X, S[2], c) > payoff {
        return true;
      }
      if X[1] != X[0] && LeftGapJump(X, 1, S[2], c) > payoff {
        return true;
      }
      deviates := false;
    }
  }

  /** Deviations of players 2 and 3 when unpaired. */
  method CheckInterior4(X: seq<real>, S: seq<real>, c: real) returns (deviates: bool)
    requires |X| == |S| == 4
    ensures deviates == exists p :: 0 < p < 3 && InteriorDeviates(X, S, c, p)
  {
    for p := 1 to 3
      invariant forall q :: 0 < q < p ==> !InteriorDeviates(X, S, c, q)
    {
      if X[p - 1] == X[p] || X[p] == X[p + 1] {
        continue;
      }
      var payoff := InteriorPayoff(X, p);
      var beaten := LeftEndJump(X, S[p], c) > payoff;
      if !beaten {
        beaten := RightEndJump(X, S[p], c) > payoff;
      }
      if !beaten {
        beaten := ScanLeftGaps(X, 1, p, S[p], c, payoff);
      }
      if !beaten {
        beaten := ScanRightGaps(X, p + 1, 3, S[p], c, payoff);
      }
      if beaten {
        assert InteriorDeviates(X, S, c, p);
        return true;
      }
    }
    return false;
  }

  /** Sorts R, builds the candidate, and runs the cluster checks, the short cut and the deviations. */
  method Equilibrium4Players(R: seq<real>, c: real) returns (v: Verdict)
    requires |R| == 4 && c > 0.0
    ensures v == Verdict4(R, c)
  {
    var S := Sort(R);
    var X := EqCandidate4Players(S, c);
    var d := Delta(c);

    if X[0] == X[1] {
      if X[0] < S[1] || X[0] > S[0] + d {
        return NoEq;
      }
    }
    if X[2] == X[3] {
      if X[3] < S[3] - d || S[2] < X[3] {
        return NoEq;
      }
    }
    if X == [0.25, 0.25, 0.75, 0.75] {
      return Eq;
    }
    var deviates := CheckLeftEnd4(X, S, c);
    if deviates {
      return NoEq;
    }
    deviates := CheckRightEnd4(X, S, c);
    if deviates {
      return NoEq;
    }
    deviates := CheckInterior4(X, S, c);
    if deviates {
      return NoEq;
    }
    return Eq;
  }

  // ---- Properties of the verdict -------------------------------------------------

  /**
   * When both pairs form, no deviation is examined: the verdict is Eq exactly when
   * R[1] <= 1/4 <= R[0] + d and R[3] - d <= 3/4 <= R[2].
   */
  lemma BothPairsVerdict4(S: seq<real>, c: real)
    requires |S| == 4 && c > 0.0
    requires Shape4(S, Delta(c)) == BothPairs
    ensures CandidateVerdict4(S, c) == Eq <==>
      S[1] <= 0.25 <= S[0] + Delta(c) && S[3] - Delta(c) <= 0.75 <= S[2]
  {
  }

  /** Reordering the input never changes the verdict. */
  lemma Verdict4Permutation(R1: seq<real>, R2: seq<real>, c: real)
    requires |R1| == 4 && c > 0.0
    requires multiset(R1) == multiset(R2)
    ensures |R2| == 4 && Verdict4(R1, c) == Verdict4(R2, c)
  {
    assert |R2| == |multiset(R2)| == 4;
    SortDependsOnMultiset(R1, R2);
  }
}

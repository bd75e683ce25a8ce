/**
 * The game with exactly three players: a builder that either produces the
 * candidate or announces that none exists, and a straight-line verifier whose
 * checks are the general menu of deviations written out for n = 3.
 */
module ThreePlayers {
  import opened Sorting
  import opened Game

  /**
   * The unique equilibrium candidate for the sorted profile R and cost c, or None
   * when the left player cannot stay left of R[1] and the right player cannot stay
   * right of it either.
   */
  function Candidate3(R: seq<real>, c: real): (X: Option<seq<real>>)
    requires |R| == 3 && c > 0.0
    ensures X.Some? ==> |X.value| == 3
  {
    var d := Delta(c);
    if R[0] + d < R[1] && R[2] - d > R[1] then Some([R[0] + d, R[1], R[2] - d])
    else if R[0] + d >= R[1] && R[2] - d > R[1] then
      Some([(R[2] - d) / 3.0, (R[2] - d) / 3.0, R[2] - d])
    else if R[2] - d <= R[1] && R[0] + d < R[1] then
      Some([R[0] + d, (R[0] + d + 2.0) / 3.0, (R[0] + d + 2.0) / 3.0])
    else None
  }

  /** Builds the candidate in an array of three zeros, or reports that there is none. */
  method EqCandidate3Players(R: seq<real>, c: real) returns (X: Option<seq<real>>)
    requires |R| == 3 && c > 0.0
    ensures X == Candidate3(R, c)
  {
    var a := new real[3](_ => 0.0);
    var d := Delta(c);
    if R[0] + d < R[1] && R[2] - d > R[1] {
      a[0] := R[0] + d;
      a[1] := R[1];
      a[2] := R[2] - d;
    } else if R[0] + d >= R[1] && R[2] - d > R[1] {
      a[0] := (R[2] - d) / 3.0;
      a[1] := (R[2] - d) / 3.0;
      a[2] := R[2] - d;
    } else if R[2] - d <= R[1] && R[0] + d < R[1] {
      a[0] := R[0] + d;
      a[1] := (R[0] + d + 2.0) / 3.0;
      a[2] := (R[0] + d + 2.0) / 3.0;
    } else {
      return None;
    }
    assert a[..] == [a[0], a[1], a[2]];
    return Some(a[..]);
  }

  /** There is no candidate exactly when R[0] + d >= R[1] and R[2] - d <= R[1]. */
  lemma Candidate3None(R: seq<real>, c: real)
    requires |R| == 3 && c > 0.0
    ensures Candidate3(R, c).None? <==> R[0] + Delta(c) >= R[1] && R[2] - Delta(c) <= R[1]
  {
  }

  /** For a sorted profile in [0,1] every candidate that is produced is non-decreasing. */
  lemma Candidate3Nondecreasing(R: seq<real>, c: real)
    requires |R| == 3 && c > 0.0
    requires Sorted(R) && InUnit(R)
    requires Candidate3(R, c).Some?
    ensures Sorted(Candidate3(R, c).value)
  {
    var X := Candidate3(R, c).value;
    assert R[0] <= R[1] <= R[2];
    assert AdjacentSorted(X);
    AdjacentSortedIsSorted(X);
  }

  // ---- Verdict ------------------------------------------------------------------

  /** No candidate means no equilibrium; otherwise the cluster checks, then the menu of deviations. */
  ghost function CandidateVerdict3(S: seq<real>, c: real): Verdict
    requires |S| == 3 && c > 0.0
  {
    match Candidate3(S, c)
    case None => NoEq
    case Some(X) =>
      if ClusterInconsistent(X, S, Delta(c)) || SomeDeviation(X, S, c) then NoEq else Eq
  }

  /** Verdict for a reputation profile given in any order. */
  ghost function Verdict3(R: seq<real>, c: real): Verdict
    requires |R| == 3 && c > 0.0
  {
    CandidateVerdict3(Sort(R), c)
  }

  /** Sorts R, builds the candidate, and runs the cluster and deviation checks one after another. */
  method Equilibrium3Players(R: seq<real>, c: real) returns (v: Verdict)
    requires |R| == 3 && c > 0.0
    ensures v == Verdict3(R, c)
  {
    var S := Sort(R);
    var candidate := EqCandidate3Players(S, c);
    if candidate.None? {
      return NoEq;
    }
    var X := candidate.value;
    var d := Delta(c);

    if X[0] == X[1] {
      if X[0] < S[1] || X[0] > S[0] + d {
        return NoEq;
      }
    }
    if X[1] == X[2] {
      if X[2] < S[2] - d || S[1] < X[2] {
        return NoEq;
      }
    }

    var payoff: real;
    // player 1, alone or paired with player 2
    if X[0] != X[1] {
      payoff := LeftLonePayoff(X, S[0], c);
      if RightEndJump(X, S[0], c) > payoff {
        return NoEq;
      }
      if X[1] != X[2] && RightGapJump(X, 1, S[0], c) > payoff {
        return NoEq;
      }
    } else {
      payoff := LeftPairPayoff(X, S[0], c);
      if RightEndJump(X, S[0], c) > payoff {
        return NoEq;
      }
      payoff := LeftPairPayoff(X, S[1], c);
      if RightEndJump(X, S[1], c) > payoff {
        return NoEq;
      }
    }
    assert !LeftEndDeviates(X, S, c);

    // player 3, alone or paired with player 2
    if X[2] != X[1] {
      payoff := RightLonePayoff(X, S[2], c);
      if LeftEndJump(X, S[2], c) > payoff {
        return NoEq;
      }
      if X[1] != X[0] && LeftGapJump(X, 1, S[2], c) > payoff {
        return NoEq;
      }
    } else {
      payoff := RightPairPayoff(X, S[2], c);
      if LeftEndJump(X, S[2], c) > payoff {
        return NoEq;
      }
      payoff := RightPairPayoff(X, S[1], c);
      if LeftEndJump(X, S[1], c) > payoff {
        return NoEq;
      }
    }
    assert !RightEndDeviates(X, S, c);

    // player 2, when unpaired
    if X[0] != X[1] && X[1] != X[2] {
      payoff := InteriorPayoff(X, 1);
      if LeftEndJump(X, S[1], c) > payoff {
        assert InteriorDeviates(X, S, c, 1);
        return NoEq;
      }
      if RightEndJump(X, S[1], c) > payoff {
        assert InteriorDeviates(X, S, c, 1);
        return NoEq;
      }
    }
    assert !InteriorDeviates(X, S, c, 1);
    return Eq;
  }

  // ---- Properties of the verdict -------------------------------------------------

  /** When the builder finds no candidate the verifier answers NoEq. */
  lemma NoCandidateNoEq3(R: seq<real>, c: real)
    requires |R| == 3 && c > 0.0
    requires Candidate3(Sort(R), c).None?
    ensures Verdict3(R, c) == NoEq
  {
  }

  /** Three equal reputations never give an equilibrium, whatever the cost. */
  lemma EqualReputations3(r: real, c: real)
    requires c > 0.0
    ensures Candidate3([r, r, r], c).None?
    ensures Verdict3([r, r, r], c) == NoEq
  {
    var R := [r, r, r];
    assert Sorted(R);
    SortOfSorted(R);
    Candidate3None(R, c);
    assert Candidate3(R, c).None?;
    assert Verdict3(R, c) == CandidateVerdict3(R, c);
  }

  /** Reordering the input never changes the verdict. */
  lemma Verdict3Permutation(R1: seq<real>, R2: seq<real>, c: real)
    requires |R1| == 3 && c > 0.0
    requires multiset(R1) == multiset(R2)
    ensures |R2| == 3 && Verdict3(R1, c) == Verdict3(R2, c)
  {
    assert |R2| == |multiset(R2)| == 3;
    SortDependsOnMultiset(R1, R2);
  }
}

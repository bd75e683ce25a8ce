# Location games with reputation: equilibrium construction and verification

This project models the engine of the one-dimensional location game with
reputations. n players locate on [0,1]. Each player has a fixed reputation
anchor r, and relocating to x costs c·(x − r)². For a reputation profile R and a
cost c > 0 the engine:

1. sorts R,
2. builds the one conjectured equilibrium profile X (the *candidate*), using the
   capture width δ = 1/(4c),
3. rejects the candidate when a boundary pair (two players sharing a place) lies
   outside the range where sharing is sustainable,
4. tries a finite menu of unilateral deviations for every player and answers
   `NoEq` as soon as one of them is strictly profitable, and `Eq` otherwise.

The repository has one variant of this engine per player count: n = 2 (also with
one cost per player), n = 3, n = 4, and a general one for n ≥ 5. Each is modelled
in its own module, in the shape the source gives it.

- `Sorting`: an insertion sort over `seq<real>`. It stands for the library sort all
  verifiers apply first. The module proves that the result is sorted, that it is a
  permutation of the input, and that it depends only on the input's multiset.
- `Game`: what all variants share. This is the `Verdict` datatype, `Delta`, the
  cost, the payoff terms and the menu of deviations. The menu is written once,
  declaratively, as predicates (`SomeDeviation`, `ClusterInconsistent`). It also
  holds the two gap scans (`ScanRightGaps`, `ScanLeftGaps`). These are the inner
  `for j` loops, with their `continue` on empty gaps and their early exit.
- `NPlayers`, `FourPlayers`, `ThreePlayers`, `TwoPlayers`: one module per source file.
  - Each candidate builder is a method. It fills an array of zeros in place, as the
    source does, and is proved equal to a candidate function.
  - Each verifier is a method with the source's branches, loops and early returns.
    It is proved equal to a verdict function: `NoEq` iff a cluster check fails or
    some deviation of the menu pays strictly more than the current payoff.
  - Lemmas about these functions state the source's guarantees: the boundary rules,
    which branch fires, the ordering of the candidate, the cluster short cuts,
    order independence, and concrete cases.

The unrolled deviation checks of the 3- and 4-player files are exactly the general
menu taken at n = 3 and n = 4. The 4-player file adds the short cut that accepts
the doubly clustered candidate. The 3- and 4-player verifier methods are proved
against the same `SomeDeviation` predicate as the n-player one, so the model also
shows that the three copies agree.

All quantities are Dafny `real`, so every `+ - * /` and every equality test is
exact. All index accesses of the source are proved in bounds under the stated
sizes: |R| = 2, 3, 4, or |R| ≥ 5 for the general engine, as its documentation
says.

## Behaviour of the code worth noting

- Ties in the 2-player variants reject. Both 2-player verifiers accept only when
  both no-jump inequalities hold strictly (`<`), unlike the 3-, 4- and n-player
  verifiers, which reject only on `>`. So a tie there gives `NoEq`
  (`TwoPlayers.FarTieRejected2`).
- The cluster check rejects a left pair when X[0] < R[1] or X[0] > R[0] + δ, and a
  right pair when X[n−1] < R[n−1] − δ or R[n−2] < X[n−1]. The lower bound on the
  left is the second player's anchor R[1] and the upper bound on the right is
  R[n−2]; the model uses exactly these bounds (`NPlayers.ClusterCheckRejectsN`).
- An unpaired interior player's own payoff is (X[p+1] − X[p−1])/2, with no cost
  term, while every deviation it is compared with carries its cost.
- With three equal reputations the 3-player builder finds no candidate, so the
  verdict is `NoEq` for every c. None of its clustering branches applies
  (`ThreePlayers.EqualReputations3`).
- The general builder detects interior slots by the sentinel value 0. If the left
  cluster value R[2]/3 is 0, slot 1 is overwritten with R[1]. The model keeps this
  (`NPlayers.CandidateNLeft`) and proves that for sorted inputs in [0,1] it makes no
  difference (`NPlayers.CandidateNClusters`).

## Model

| member | source | states |
|---|---|---|
| `Game.Delta` | location_games_with_reputation_n_players.py:43-60 | for c > 0 the capture width d is strictly positive and 4·c·d = 1, i.e. d = 1/(4c); the four files carry identical copies of this function |
| `Game.DeltaDecreasing` | location_games_with_reputation_n_players.py:43-60 | δ is strictly decreasing in c: c1 < c2 gives δ(c2) < δ(c1) |
| `Game.ScanRightGaps` | location_games_with_reputation_n_players.py:161-166 | the `for j` loop over gaps (X[j], X[j+1]), skipping empty gaps: answers true iff some non-empty gap with lo ≤ j < hi pays strictly more than the payoff; the same member stands for the 4-player loop at location_games_with_reputation_4_players.py:173-178 |
| `Game.ScanLeftGaps` | location_games_with_reputation_n_players.py:210-215 | the mirrored loop over gaps (X[j−1], X[j]): true iff some non-empty gap with lo ≤ j < hi pays strictly more than the payoff; the same member stands for the 4-player loop at location_games_with_reputation_4_players.py:214-220 |
| `Sorting.Sort` | location_games_with_reputation_n_players.py:136 | the sorted copy of R: the same length, the same multiset of values, ascending |
| `Sorting.SortDependsOnMultiset` | location_games_with_reputation_n_players.py:136-137 | two inputs with the same multiset sort to the same profile, so nothing after sorting can see the input order |
| `Sorting.SortOfSorted` | location_games_with_reputation_n_players.py:136-137 | sorting an already sorted profile changes nothing |
| `NPlayers.CandidateN` | location_games_with_reputation_n_players.py:84-110 | the candidate has the same length as R |
| `NPlayers.EqCandidateNPlayers` | location_games_with_reputation_n_players.py:84-110 | the array filling of the source (zeros, left rule, right rule, then the sentinel loop over slots 1..n−2) yields exactly the candidate |
| `NPlayers.CandidateNLeft` | location_games_with_reputation_n_players.py:90-95 | if R[0]+δ < R[1] then X[0] = R[0]+δ and X[1] = R[1]; otherwise X[0] = R[2]/3 and X[1] = R[2]/3, unless that value is the sentinel 0, in which case X[1] = R[1] |
| `NPlayers.CandidateNRight` | location_games_with_reputation_n_players.py:97-102 | if R[n−1]−δ > R[n−2] then X[n−1] = R[n−1]−δ and X[n−2] = R[n−2]; otherwise X[n−1] = (2+R[n−3])/3 and X[n−2] = the same value, with the same sentinel exception |
| `NPlayers.CandidateNInterior` | location_games_with_reputation_n_players.py:104-108 | X[i] = R[i] for every 2 ≤ i ≤ n−3 |
| `NPlayers.CandidateNClusters` | location_games_with_reputation_n_players.py:90-108 | for sorted R in [0,1] a cluster holds both players: X[0] = X[1] = R[2]/3 on the left, X[n−2] = X[n−1] = (2+R[n−3])/3 on the right |
| `NPlayers.CandidateNNondecreasing` | location_games_with_reputation_n_players.py:90-108 | for sorted R in [0,1] and n ≥ 5 the candidate is non-decreasing |
| `NPlayers.CheckLeftEndN` | location_games_with_reputation_n_players.py:152-199 | true iff player 1 alone gains by jumping past player n or into a gap right of X[1], or either member of the left pair (each with its own anchor in the cost, payoff divided by 4) gains by jumping past player n or into a gap right of X[2] |
| `NPlayers.CheckRightEndN` | location_games_with_reputation_n_players.py:201-250 | the mirror image for player n alone and for each member of the right pair |
| `NPlayers.CheckInteriorN` | location_games_with_reputation_n_players.py:252-284 | true iff some unpaired player 0 < p < n−1, with payoff (X[p+1]−X[p−1])/2, strictly gains by jumping to either end or into a non-empty gap on either side |
| `NPlayers.EquilibriumNPlayers` | location_games_with_reputation_n_players.py:136-286 | the verdict is NoEq iff a cluster check fails or some enumerated deviation pays strictly more than the current payoff, all computed on the sorted profile; Eq iff none of the strict inequalities holds |
| `NPlayers.ClusterCheckRejectsN` | location_games_with_reputation_n_players.py:144-150 | a left pair with X[0] < R[1] or X[0] > R[0]+δ, or a right pair with X[n−1] < R[n−1]−δ or R[n−2] < X[n−1], gives NoEq whatever the deviations pay |
| `NPlayers.VerdictNPermutation` | location_games_with_reputation_n_players.py:136 | two inputs with the same multiset of reputations get the same verdict |
| `NPlayers.VerdictNOfSorted` | location_games_with_reputation_n_players.py:136-139 | on an already sorted input the verdict is that of the candidate built from the input itself |
| `FourPlayers.Candidate4` | location_games_with_reputation_4_players.py:91-119 | the candidate has four slots |
| `FourPlayers.EqCandidate4Players` | location_games_with_reputation_4_players.py:91-119 | the branch-by-branch array writes yield the candidate: [R0+δ, R1, R2, R3−δ], [R2/3, R2/3, R2, R3−δ], [R0+δ, R1, (R1+2)/3, (R1+2)/3] or [0.25, 0.25, 0.75, 0.75] |
| `FourPlayers.Shape4Exact` | location_games_with_reputation_4_players.py:95-117 | each builder branch is taken exactly when its own condition holds, so the four conditions are mutually exclusive and exhaustive |
| `FourPlayers.Candidate4IsDoubleCluster` | location_games_with_reputation_4_players.py:113-117 | the candidate equals [0.25, 0.25, 0.75, 0.75] iff the doubly clustered branch fires; no other branch can produce it by coincidence |
| `FourPlayers.Candidate4Nondecreasing` | location_games_with_reputation_4_players.py:95-117 | for sorted R in [0,1] the candidate is non-decreasing |
| `FourPlayers.CheckLeftEnd4` | location_games_with_reputation_4_players.py:164-203 | the unrolled checks of player 1 alone, or of each member of the left pair, coincide with the general menu at n = 4 |
| `FourPlayers.CheckRightEnd4` | location_games_with_reputation_4_players.py:205-245 | the same for player 4 alone, or for each member of the right pair |
| `FourPlayers.CheckInterior4` | location_games_with_reputation_4_players.py:247-279 | true iff player 2 or player 3, when unpaired, strictly gains by one of its enumerated deviations |
| `FourPlayers.Equilibrium4Players` | location_games_with_reputation_4_players.py:146-281 | NoEq iff a cluster check fails, or the candidate is not [0.25, 0.25, 0.75, 0.75] and some enumerated deviation pays strictly more |
| `FourPlayers.BothPairsVerdict4` | location_games_with_reputation_4_players.py:152-161 | when both pairs form no deviation is tried: the verdict is Eq iff R1 ≤ 1/4 ≤ R0+δ and R3−δ ≤ 3/4 ≤ R2 |
| `FourPlayers.Verdict4Permutation` | location_games_with_reputation_4_players.py:146-149 | the verdict is invariant under reordering R |
| `ThreePlayers.Candidate3` | location_games_with_reputation_3_players.py:87-109 | a candidate that is produced has three slots |
| `ThreePlayers.EqCandidate3Players` | location_games_with_reputation_3_players.py:87-109 | the array writes yield [R0+δ, R1, R2−δ], [(R2−δ)/3, (R2−δ)/3, R2−δ] or [R0+δ, (R0+δ+2)/3, (R0+δ+2)/3], or report no candidate |
| `ThreePlayers.Candidate3None` | location_games_with_reputation_3_players.py:91-107 | there is no candidate exactly when R0+δ ≥ R1 and R2−δ ≤ R1 |
| `ThreePlayers.Candidate3Nondecreasing` | location_games_with_reputation_3_players.py:91-104 | for sorted R in [0,1] every candidate that is produced is non-decreasing |
| `ThreePlayers.Equilibrium3Players` | location_games_with_reputation_3_players.py:138-236 | NoEq iff there is no candidate, a cluster check fails, or some enumerated deviation pays strictly more; the middle player is examined only when unpaired, against the two end jumps |
| `ThreePlayers.NoCandidateNoEq3` | location_games_with_reputation_3_players.py:141-144 | when the builder finds no candidate the verdict is NoEq |
| `ThreePlayers.EqualReputations3` | location_games_with_reputation_3_players.py:91-107 | three equal reputations give no candidate and the verdict NoEq, for every c > 0 |
| `ThreePlayers.Verdict3Permutation` | location_games_with_reputation_3_players.py:138-141 | the verdict is invariant under reordering R |
| `TwoPlayers.FarCandidate2` | location_games_with_reputation_2_players.py:119-120 | each player moves inward from its anchor by its own capture width; when the anchors are at least d1+d2 apart (d1, d2 > 0), R0 < X[0] ≤ X[1] < R1: both players end strictly between the anchors without crossing |
| `TwoPlayers.Equilibrium2Players` | location_games_with_reputation_2_players.py:101-128 | on the sorted profile: if R1−R0 < 2δ, Eq iff R1−δ < 1/2 < R0+δ; otherwise X = [R0+δ, R1−δ] and Eq iff both strict no-profitable-jump inequalities hold |
| `TwoPlayers.Equilibrium2PlayersAsym` | location_games_with_reputation_2_players.py:293-322 | the same with δ1 = 1/(4c1) and δ2 = 1/(4c2): the close case iff R1−R0 < δ1+δ2, with Eq iff R1−δ2 < 1/2 < R0+δ1; otherwise X = [R0+δ1, R1−δ2], where each player's inequality uses its own cost |
| `TwoPlayers.FarCandidate2Ordered` | location_games_with_reputation_2_players.py:313-314 | in the far case the candidate is ordered, X[0] ≤ X[1] |
| `TwoPlayers.FarTieRejected2` | location_games_with_reputation_2_players.py:122-128 | in the far case, a jump that pays player 1 exactly its current payoff already gives NoEq (the 2-player test is strict `<`) |
| `TwoPlayers.AsymWithEqualCosts` | location_games_with_reputation_2_players.py:302-322 | with c1 = c2 = c the asymmetric verifier returns the verdict of the symmetric one |
| `TwoPlayers.Verdict2Permutation` | location_games_with_reputation_2_players.py:101 | both 2-player verdicts are invariant under swapping the reputations |
| `TwoPlayers.CoLocatedAtHalf2` | location_games_with_reputation_2_players.py:109-114 | R = [0.5, 0.5], c = 1 takes the close case and gives Eq |
| `TwoPlayers.OppositeEnds2` | location_games_with_reputation_2_players.py:117-128 | R = [0, 1], c = 1 gives the candidate [0.25, 0.75] and Eq |

## Left out

- `probability_Eq_*` in all four files is left out: it samples reputations with
  `random.random` / `random.uniform`, and its result is statistical.
- `c_to_probability_*` and `Eq_plot_*` are left out: they sweep c and plot with matplotlib.
- IEEE floating point is not modelled: every quantity is an exact `real`, so the
  equality tests `X[i] == X[j]` and `X == [0.25, 0.25, 0.75, 0.75]` are exact.
- The claim that `Eq` is a Nash equilibrium against every continuous deviation is not
  modelled. The code checks a finite menu, and the model proves what the code checks.
- Python's `sorted` is a library call. `Sorting.Sort`, an insertion sort proved
  sorted and a permutation, stands in for it.
- The deviation checks of each peripheral player and the loop over interior
  players are separate methods (`CheckLeftEndN`, `CheckRightEndN`, `CheckInteriorN`
  and their 4-player versions). This keeps each proof small; every early
  `return "No Eq"` of the source is an early `return true` there.
  - The order in which checks run is not observable in the result, so the verdict
    functions state only which checks fire, not in what order.
  - In the interior loop, the successive tests of one player are chained through one
    boolean. The result is the same as with successive early returns.
- Invalid costs (c ≤ 0), wrong lengths and n < 5 for the general engine are caller
  duties in the source and appear as preconditions. Entries outside [0,1] are
  allowed; only the ordering lemmas require them.

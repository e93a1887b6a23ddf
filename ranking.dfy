/**
 * The ranking recurrence of `iterate` (index.js:151-205) as functions over exact reals:
 * one sweep visits the vertices in ascending id order and overwrites each score at once,
 * so a vertex reads the new scores of the vertices before it and the old scores of the
 * vertices after it (a Gauss-Seidel sweep). The sums run over the neighbour ids in
 * ascending order, as `for ... in` enumerates integer keys.
 */
module Ranking {

  /** The edge table `E`: `E[i][j]` is the weight stored for the ordered pair `(i, j)`. */
  type Edges = map<nat, map<nat, real>>

  function Abs(x: real): real
  {
    if x < 0.0 then -x else x
  }

  predicate NonNegativeWeights(E: Edges)
  {
    forall i, j :: i in E && j in E[i] ==> E[i][j] >= 0.0
  }

  /** The weights of `row` under the keys `0 .. m-1`, added in ascending key order. */
  function RowSum(row: map<nat, real>, m: nat): (r: real)
    ensures (forall k :: k in row ==> row[k] >= 0.0) ==> r >= 0.0
  {
    if m == 0 then 0.0 else RowSum(row, m - 1) + (if m - 1 in row then row[m - 1] else 0.0)
  }

  /**
   * `summedOutWeight` for vertex `j` (index.js:170-175): it starts at 1, not 0, and adds
   * the weight of every edge leaving `j`.
   */
  function OutWeight(E: Edges, j: nat, n: nat): real
  {
    1.0 + (if j in E then RowSum(E[j], n) else 0.0)
  }

  /** Every division of the sweep has a non-zero divisor. */
  predicate DivisorsNonZero(E: Edges, n: nat)
  {
    forall j :: j in E ==> OutWeight(E, j, n) != 0.0
  }

  /**
   * `summedNeighbors` for vertex `i` over the neighbours `j < m` (index.js:160-180): the
   * weight used for neighbour `j` is `E[i][j]`, the one stored under `i`.
   */
  function NeighbourSum(E: Edges, i: nat, n: nat, s: seq<real>, m: nat): real
    requires m <= |s|
    requires DivisorsNonZero(E, n)
  {
    if m == 0 then 0.0
    else
      NeighbourSum(E, i, n, s, m - 1)
      + (if i in E && m - 1 in E[i] then E[i][m - 1] / OutWeight(E, m - 1, n) * s[m - 1] else 0.0)
  }

  /** `score_1` of index.js:182: the new score of vertex `i` given the current scores `s`. */
  function Update(E: Edges, n: nat, d: real, s: seq<real>, i: nat): real
    requires n <= |s|
    requires DivisorsNonZero(E, n)
  {
    (1.0 - d) + d * NeighbourSum(E, i, n, s, n)
  }

  /** The scores after the first `m` vertices of a sweep have been visited and overwritten. */
  function Steps(E: Edges, n: nat, d: real, s: seq<real>, m: nat): (r: seq<real>)
    requires |s| == n && m <= n
    requires DivisorsNonZero(E, n)
    ensures |r| == n
  {
    if m == 0 then s
    else
      var p := Steps(E, n, d, s, m - 1);
      p[m - 1 := Update(E, n, d, p, m - 1)]
  }

  /** The scores after one full sweep. */
  function Sweep(E: Edges, n: nat, d: real, s: seq<real>): (r: seq<real>)
    requires |s| == n
    requires DivisorsNonZero(E, n)
  {
    Steps(E, n, d, s, n)
  }

  /** A vertex not yet visited still holds its score from before the sweep. */
  lemma {:induction false} StepsLeaveLaterVertices(E: Edges, n: nat, d: real, s: seq<real>, m: nat, k: nat)
    requires |s| == n && m <= k < n
    requires DivisorsNonZero(E, n)
    ensures Steps(E, n, d, s, m)[k] == s[k]
  {
    if m > 0 {
      StepsLeaveLaterVertices(E, n, d, s, m - 1, k);
    }
  }

  /** A vertex already visited keeps the score it was given for the rest of the sweep. */
  lemma {:induction false} StepsFreezeEarlierVertices(E: Edges, n: nat, d: real, s: seq<real>, m: nat, k: nat)
    requires |s| == n && k < m <= n
    requires DivisorsNonZero(E, n)
    ensures Steps(E, n, d, s, m)[k] == Steps(E, n, d, s, k + 1)[k]
  {
    if m > k + 1 {
      StepsFreezeEarlierVertices(E, n, d, s, m - 1, k);
    }
  }

  /**
   * Visiting vertex `m` midway through a sweep: it still holds its old score, and writing
   * the recurrence's value there gives the next stage, whose entry `m` is final.
   */
  lemma {:induction false} StepVisit(E: Edges, n: nat, d: real, s: seq<real>, m: nat, summed: real, v: real)
    requires |s| == n && m < n
    requires DivisorsNonZero(E, n)
    requires summed == NeighbourSum(E, m, n, Steps(E, n, d, s, m), n)
    requires v == (1.0 - d) + d * summed
    ensures Steps(E, n, d, s, m)[m] == s[m]
    ensures Steps(E, n, d, s, m)[m := v] == Steps(E, n, d, s, m + 1)
    ensures v == Sweep(E, n, d, s)[m]
  {
    StepsLeaveLaterVertices(E, n, d, s, m, m);
    StepsFreezeEarlierVertices(E, n, d, s, n, m);
    var p := Steps(E, n, d, s, m);
    assert Update(E, n, d, p, m) == v;
    assert Steps(E, n, d, s, m + 1) == p[m := v];
  }

  /** Midway through a sweep the scores are the new ones up to `m` and the old ones after. */
  lemma StepsAreNewThenOld(E: Edges, n: nat, d: real, s: seq<real>, m: nat)
    requires |s| == n && m <= n
    requires DivisorsNonZero(E, n)
    ensures Steps(E, n, d, s, m) == Sweep(E, n, d, s)[..m] + s[m..]
  {
    var p := Steps(E, n, d, s, m);
    var q := Sweep(E, n, d, s)[..m] + s[m..];
    forall k | 0 <= k < n ensures p[k] == q[k] {
      if k < m {
        StepsFreezeEarlierVertices(E, n, d, s, m, k);
        StepsFreezeEarlierVertices(E, n, d, s, n, k);
      } else {
        StepsLeaveLaterVertices(E, n, d, s, m, k);
      }
    }
  }

  /**
   * The in-place update order (index.js:153-185): the new score of vertex `i` is the
   * recurrence applied to the new scores of the vertices before `i` and the old scores
   * of `i` and the vertices after it.
   */
  lemma SweepReadsUpdatedScores(E: Edges, n: nat, d: real, s: seq<real>, i: nat)
    requires |s| == n && i < n
    requires DivisorsNonZero(E, n)
    ensures Sweep(E, n, d, s)[i] == Update(E, n, d, Sweep(E, n, d, s)[..i] + s[i..], i)
  {
    StepsAreNewThenOld(E, n, d, s, i);
    StepsFreezeEarlierVertices(E, n, d, s, n, i);
  }

  /** With nonnegative weights and scores every term of the neighbour sum is nonnegative. */
  lemma {:induction false} NeighbourSumNonNegative(E: Edges, i: nat, n: nat, s: seq<real>, m: nat)
    requires m <= |s|
    requires NonNegativeWeights(E)
    requires forall k :: 0 <= k < |s| ==> s[k] >= 0.0
    ensures DivisorsNonZero(E, n) && NeighbourSum(E, i, n, s, m) >= 0.0
  {
    if m > 0 {
      NeighbourSumNonNegative(E, i, n, s, m - 1);
      if i in E && m - 1 in E[i] {
        var w := E[i][m - 1];
        var o := OutWeight(E, m - 1, n);
        assert o >= 1.0;
        assert w / o >= 0.0;
        assert w / o * s[m - 1] >= 0.0;
      }
    }
  }

  /**
   * With nonnegative weights, nonnegative scores and `0 <= d <= 1`, every score after a
   * sweep is at least `1 - d`.
   */
  lemma SweepScoresAtLeastBase(E: Edges, n: nat, d: real, s: seq<real>)
    requires |s| == n && 0.0 <= d <= 1.0
    requires NonNegativeWeights(E)
    requires forall k :: 0 <= k < n ==> s[k] >= 0.0
    ensures DivisorsNonZero(E, n)
    ensures forall k :: 0 <= k < n ==> Sweep(E, n, d, s)[k] >= 1.0 - d
  {
    NeighbourSumNonNegative(E, 0, n, s, 0);
    StepsBounded(E, n, d, s, n);
  }

  lemma ProductNonNegative(a: real, b: real)
    requires a >= 0.0 && b >= 0.0
    ensures a * b >= 0.0
  {
  }

  lemma {:induction false} StepsBounded(E: Edges, n: nat, d: real, s: seq<real>, m: nat)
    requires |s| == n && m <= n && 0.0 <= d <= 1.0
    requires NonNegativeWeights(E) && DivisorsNonZero(E, n)
    requires forall k :: 0 <= k < n ==> s[k] >= 0.0
    ensures forall k :: 0 <= k < n ==> Steps(E, n, d, s, m)[k] >= 0.0
    ensures forall k :: 0 <= k < m ==> Steps(E, n, d, s, m)[k] >= 1.0 - d
  {
    if m > 0 {
      StepsBounded(E, n, d, s, m - 1);
      var p := Steps(E, n, d, s, m - 1);
      NeighbourSumNonNegative(E, m - 1, n, p, n);
      ProductNonNegative(d, NeighbourSum(E, m - 1, n, p, n));
    }
  }

  /** A vertex with no edge list, such as the one vertex of a one-sentence graph, gets exactly `1 - d`. */
  lemma {:induction false} NoNeighboursGivesBase(E: Edges, n: nat, d: real, s: seq<real>, i: nat, m: nat)
    requires m <= |s| && n <= |s| && i !in E
    requires DivisorsNonZero(E, n)
    ensures NeighbourSum(E, i, n, s, m) == 0.0
    ensures Update(E, n, d, s, i) == 1.0 - d
  {
    if m > 0 {
      NoNeighboursGivesBase(E, n, d, s, i, m - 1);
    }
    NoNeighboursGivesBaseAll(E, n, s, i, n);
  }

  lemma {:induction false} NoNeighboursGivesBaseAll(E: Edges, n: nat, s: seq<real>, i: nat, m: nat)
    requires m <= |s| && i !in E
    requires DivisorsNonZero(E, n)
    ensures NeighbourSum(E, i, n, s, m) == 0.0
  {
    if m > 0 {
      NoNeighboursGivesBaseAll(E, n, s, i, m - 1);
    }
  }

  /** A lone vertex scores `1 - d` after one sweep, whatever it started with. */
  lemma LoneVertexSweep(E: Edges, d: real, s: seq<real>)
    requires |s| == 1 && 0 !in E
    requires DivisorsNonZero(E, 1)
    ensures Sweep(E, 1, d, s) == [1.0 - d]
  {
    NoNeighboursGivesBase(E, 1, d, s, 0, 1);
    assert Steps(E, 1, d, s, 0) == s;
  }

  /**
   * The update order is observable: in a two-vertex graph with unit weights, `d = 1/2`
   * and both scores 1, vertex 1 reads vertex 0's new score 0.75 and gets 0.6875, where a
   * sweep over the old scores would give it 0.75.
   */
  lemma TwoVertexSweep()
    ensures DivisorsNonZero(map[0 := map[1 := 1.0], 1 := map[0 := 1.0]], 2)
    ensures Sweep(map[0 := map[1 := 1.0], 1 := map[0 := 1.0]], 2, 0.5, [1.0, 1.0]) == [0.75, 0.6875]
    ensures Update(map[0 := map[1 := 1.0], 1 := map[0 := 1.0]], 2, 0.5, [1.0, 1.0], 1) == 0.75
  {
    var E: Edges := map[0 := map[1 := 1.0], 1 := map[0 := 1.0]];
    assert RowSum(E[0], 2) == 1.0;
    assert RowSum(E[1], 2) == 1.0;
    assert OutWeight(E, 0, 2) == 2.0 && OutWeight(E, 1, 2) == 2.0;
    var s := [1.0, 1.0];
    assert NeighbourSum(E, 0, 2, s, 2) == 0.5;
    var p := s[0 := 0.75];
    assert Steps(E, 2, 0.5, s, 1) == p;
    assert NeighbourSum(E, 1, 2, p, 1) == 0.375;
    assert NeighbourSum(E, 1, 2, p, 2) == 0.375;
    assert NeighbourSum(E, 1, 2, s, 2) == 0.5;
  }

  // ------------------------------------------------------------------ the stopping flag

  /** Whether some vertex moved by at most `delta` from `s` to `t`. */
  predicate SomeVertexSettled(s: seq<real>, t: seq<real>, delta: real)
    requires |s| == |t|
  {
    exists k :: 0 <= k < |s| && Abs(t[k] - s[k]) <= delta
  }

  /** The fields `iterate` reads and writes: the scores, `iterateAgain` and `iterations`. */
  datatype RankState = RankState(score: seq<real>, iterateAgain: bool, iterations: nat)

  /**
   * One sweep with its flag update (index.js:153-192): `iterateAgain` is cleared as soon
   * as any single vertex settles, and nothing in the sweep sets it again.
   */
  function SweepState(E: Edges, n: nat, d: real, delta: real, st: RankState): RankState
    requires |st.score| == n
    requires DivisorsNonZero(E, n)
  {
    var t := Sweep(E, n, d, st.score);
    RankState(t, st.iterateAgain && !SomeVertexSettled(st.score, t, delta), st.iterations)
  }

  /**
   * `iterate` (index.js:151-205): sweep, then sweep again (counting one more iteration)
   * while the flag is still set. The recursion is cut after `fuel` further sweeps.
   */
  function Iterate(E: Edges, n: nat, d: real, delta: real, st: RankState, fuel: nat): (r: RankState)
    requires |st.score| == n
    requires DivisorsNonZero(E, n)
    ensures |r.score| == n
    decreases fuel
  {
    var st1 := SweepState(E, n, d, delta, st);
    if st1.iterateAgain then
      var st2 := st1.(iterations := st1.iterations + 1);
      if fuel == 0 then st2 else Iterate(E, n, d, delta, st2, fuel - 1)
    else st1
  }

  /** `k` sweeps in a row, starting from the scores `s`. */
  function SweepTimes(E: Edges, n: nat, d: real, s: seq<real>, k: nat): (r: seq<real>)
    requires |s| == n
    requires DivisorsNonZero(E, n)
    ensures |r| == n
    decreases k
  {
    if k == 0 then s else SweepTimes(E, n, d, Sweep(E, n, d, s), k - 1)
  }

  /**
   * The counter counts the sweeps after the first (index.js:194-198). A run that stops on
   * its own has done `r.iterations - st.iterations + 1` sweeps, and none but the last let
   * a vertex settle (the last did, when the flag was set on entry). A run whose fuel ran
   * out has done `fuel + 1` sweeps, none of which let a vertex settle.
   */
  lemma {:induction false} IterateCountsFollowingSweeps(E: Edges, n: nat, d: real, delta: real, st: RankState, fuel: nat)
    requires |st.score| == n
    requires DivisorsNonZero(E, n)
    ensures var r := Iterate(E, n, d, delta, st, fuel);
            && st.iterations <= r.iterations <= st.iterations + fuel + 1
            && (forall j :: 0 <= j < r.iterations - st.iterations ==>
                  !SomeVertexSettled(SweepTimes(E, n, d, st.score, j), SweepTimes(E, n, d, st.score, j + 1), delta))
            && (r.iterateAgain ==>
                  r.iterations == st.iterations + fuel + 1 && r.score == SweepTimes(E, n, d, st.score, fuel + 1))
            && (!r.iterateAgain ==>
                  && r.iterations <= st.iterations + fuel
                  && r.score == SweepTimes(E, n, d, st.score, r.iterations - st.iterations + 1)
                  && (st.iterateAgain ==>
                        SomeVertexSettled(SweepTimes(E, n, d, st.score, r.iterations - st.iterations),
                                          SweepTimes(E, n, d, st.score, r.iterations - st.iterations + 1), delta)))
    decreases fuel
  {
    var s := st.score;
    var t := Sweep(E, n, d, s);
    var st1 := SweepState(E, n, d, delta, st);
    var r := Iterate(E, n, d, delta, st, fuel);
    assert SweepTimes(E, n, d, s, 0) == s;
    assert SweepTimes(E, n, d, s, 1) == t by {
      assert SweepTimes(E, n, d, s, 1) == SweepTimes(E, n, d, t, 0);
    }
    if st1.iterateAgain && fuel > 0 {
      var st2 := st1.(iterations := st1.iterations + 1);
      IterateCountsFollowingSweeps(E, n, d, delta, st2, fuel - 1);
      assert r == Iterate(E, n, d, delta, st2, fuel - 1);
      forall j: nat
        ensures SweepTimes(E, n, d, s, j + 1) == SweepTimes(E, n, d, t, j)
      {
      }
      forall j | 0 <= j < r.iterations - st.iterations
        ensures !SomeVertexSettled(SweepTimes(E, n, d, s, j), SweepTimes(E, n, d, s, j + 1), delta)
      {
        if j > 0 {
          assert SweepTimes(E, n, d, s, j) == SweepTimes(E, n, d, t, j - 1);
        }
      }
    }
  }

  /**
   * The flag is never set again: entered with the flag already clear, `iterate` sweeps
   * exactly once and leaves the counter alone.
   */
  lemma ClearedFlagSweepsOnce(E: Edges, n: nat, d: real, delta: real, st: RankState, fuel: nat)
    requires |st.score| == n && !st.iterateAgain
    requires DivisorsNonZero(E, n)
    ensures Iterate(E, n, d, delta, st, fuel) == RankState(Sweep(E, n, d, st.score), false, st.iterations)
  {
  }

  /**
   * A run stops before its fuel is spent exactly when some sweep let a vertex settle; in
   * particular a sweep of an empty graph never clears the flag, so it never stops.
   */
  lemma {:induction false} EmptyGraphNeverStops(E: Edges, d: real, delta: real, st: RankState, fuel: nat)
    requires |st.score| == 0 && st.iterateAgain
    requires DivisorsNonZero(E, 0)
    ensures Iterate(E, 0, d, delta, st, fuel).iterateAgain
    ensures Iterate(E, 0, d, delta, st, fuel).iterations == st.iterations + fuel + 1
    decreases fuel
  {
    var st1 := SweepState(E, 0, d, delta, st);
    assert !SomeVertexSettled(st.score, st1.score, delta);
    if fuel > 0 {
      EmptyGraphNeverStops(E, d, delta, st1.(iterations := st1.iterations + 1), fuel - 1);
    }
  }
}

/**
 * `exports.TextRank` (index.js:10-271): the summarizer object. Its graph holds the
 * sentences as vertices, an edge table `E` with a weight for every ordered pair of
 * distinct vertices, and a score per vertex that `iterate` overwrites in place.
 */
module TextRank {
  import opened Wrappers
  import opened Strings
  import opened Preprocess
  import opened Ranking
  import opened Summary

  /** The `settings` object; `None` stands for an absent or falsy entry. */
  datatype Settings = Settings(
    extractAmount: Option<int>,
    d: Option<real>,
    summaryType: bool,
    tokens: Option<seq<string>>,
    split: Option<seq<seq<string>>>)

  /** `settings["extractAmount"]`, or 5 when it is falsy (index.js:30). */
  function ExtractAmountOf(settings: Settings): int
  {
    if settings.extractAmount.Some? && settings.extractAmount.value != 0 then settings.extractAmount.value else 5
  }

  /** `settings["d"]`, or 0.85 when it is falsy (index.js:33). */
  function DampingOf(settings: Settings): real
  {
    if settings.d.Some? && settings.d.value != 0.0 then settings.d.value else 0.85
  }

  /** Row `i` of the edge table over the vertices `0 .. m-1`: a weight for every other vertex. */
  function Row(V: seq<Sentence>, sim: (Sentence, Sentence) -> real, i: nat, m: nat): map<nat, real>
    requires i < |V| && m <= |V|
  {
    if m == 0 then map[]
    else if m - 1 == i then Row(V, sim, i, m - 1)
    else Row(V, sim, i, m - 1)[m - 1 := sim(V[i], V[m - 1])]
  }

  /** The rows of vertices `0 .. m-1`; a vertex gets a row only when another vertex exists. */
  function Rows(V: seq<Sentence>, sim: (Sentence, Sentence) -> real, m: nat): Edges
    requires m <= |V|
  {
    if m == 0 || |V| <= 1 then map[]
    else Rows(V, sim, m - 1)[m - 1 := Row(V, sim, m - 1, |V|)]
  }

  /** Whether some `j < m` other than `i` exists, i.e. whether row `i` has been created. */
  predicate RowStarted(i: nat, m: nat)
  {
    m > 1 || (m == 1 && i != 0)
  }

  /** The edge table `setupGraph` builds. */
  function CompleteGraph(V: seq<Sentence>, sim: (Sentence, Sentence) -> real): Edges
  {
    Rows(V, sim, |V|)
  }

  lemma {:induction false} RowShape(V: seq<Sentence>, sim: (Sentence, Sentence) -> real, i: nat, m: nat, j: nat)
    requires i < |V| && m <= |V|
    ensures j in Row(V, sim, i, m) <==> j < m && j != i
    ensures j in Row(V, sim, i, m) ==> Row(V, sim, i, m)[j] == sim(V[i], V[j])
    decreases m
  {
    if m > 0 {
      RowShape(V, sim, i, m - 1, j);
    }
  }

  lemma {:induction false} RowsShape(V: seq<Sentence>, sim: (Sentence, Sentence) -> real, m: nat, i: nat)
    requires m <= |V|
    ensures i in Rows(V, sim, m) <==> i < m && |V| > 1
    ensures i in Rows(V, sim, m) ==> Rows(V, sim, m)[i] == Row(V, sim, i, |V|)
    decreases m
  {
    if m > 0 && |V| > 1 {
      RowsShape(V, sim, m - 1, i);
    }
  }

  /**
   * The shape of the edge table (index.js:81-98): vertex `i` has an edge list exactly when
   * `i < n` and another vertex exists; its keys are every other vertex, never `i` itself;
   * the weight of `(i, j)` is `sim(V[i], V[j])`.
   */
  lemma CompleteGraphShape(V: seq<Sentence>, sim: (Sentence, Sentence) -> real, i: nat, j: nat)
    ensures i in CompleteGraph(V, sim) <==> i < |V| && |V| > 1
    ensures i in CompleteGraph(V, sim) ==>
              && (j in CompleteGraph(V, sim)[i] <==> j < |V| && j != i)
              && i !in CompleteGraph(V, sim)[i]
              && (j in CompleteGraph(V, sim)[i] ==> CompleteGraph(V, sim)[i][j] == sim(V[i], V[j]))
  {
    RowsShape(V, sim, |V|, i);
    if i in CompleteGraph(V, sim) {
      RowShape(V, sim, i, |V|, j);
      RowShape(V, sim, i, |V|, i);
    }
  }

  /** A one-sentence graph has no edge table entry at all. */
  lemma OneSentenceHasNoEdges(V: seq<Sentence>, sim: (Sentence, Sentence) -> real)
    requires |V| == 1
    ensures CompleteGraph(V, sim) == map[]
  {
  }

  /** A nonnegative similarity gives nonnegative weights, so every divisor of a sweep is at least 1. */
  lemma NonNegativeSimilarity(V: seq<Sentence>, sim: (Sentence, Sentence) -> real)
    requires forall a, b :: sim(a, b) >= 0.0
    ensures NonNegativeWeights(CompleteGraph(V, sim))
    ensures DivisorsNonZero(CompleteGraph(V, sim), |V|)
  {
    var E := CompleteGraph(V, sim);
    forall i, j | i in E && j in E[i] ensures E[i][j] >= 0.0 {
      CompleteGraphShape(V, sim, i, j);
    }
    forall j | j in E ensures OutWeight(E, j, |V|) != 0.0 {
      assert RowSum(E[j], |V|) >= 0.0;
    }
  }

  lemma EmptyRowSum(m: nat)
    ensures RowSum(map[], m) == 0.0
  {
    if m > 0 {
      EmptyRowSum(m - 1);
    }
  }

  /** The starting scores: `seed(i)` stands for the `Math.random() * 10 + 1` of index.js:72. */
  function SeedScores(seed: nat -> real, n: nat): (r: seq<real>)
    ensures |r| == n
  {
    seq(n, i requires 0 <= i < n => seed(i))
  }

  class TextRank {
    const extractAmount: int
    const d: real
    const typeOfSummary: bool
    const userDefinedTokens: Option<seq<string>>
    const userDefinedTokensSplit: Option<seq<seq<string>>>
    /** The convergence threshold of index.js:54. */
    const delta: real

    /** `graph.V`: sentence and words of each vertex. */
    var V: seq<Sentence>
    /** `graph.V[i].id`. */
    var id: array<int>
    /** `graph.V[i].score`. */
    var score: array<real>
    /** `graph.E`. */
    var E: Edges
    var numVerts: nat
    /** `this.sim`: the user's similarity function or the default scorer. */
    var sim: (Sentence, Sentence) -> real
    var iterations: nat
    var iterateAgain: bool
    var summarizedArticle: Summary

    /** One score and one id per vertex, vertex `i` having the id `i`. */
    ghost predicate Indexed()
      reads this`numVerts, this`V, this`score, this`id, id
    {
      && numVerts == |V| == score.Length == id.Length
      && (forall i :: 0 <= i < numVerts ==> id[i] == i)
    }

    /** The graph invariant `setupGraph` establishes and nothing afterwards breaks. */
    ghost predicate Valid()
      reads this`numVerts, this`V, this`score, this`id, this`E, this`sim, id
    {
      Indexed() && E == CompleteGraph(V, sim)
    }

    /** The vertices as `extractSummary` pushes them, in id order. */
    ghost function Entries(): (r: seq<Entry>)
      reads this, id, score
      requires Indexed()
      ensures IndexedById(r) && Scores(r) == score[..]
    {
      var n, ids, scores, vs := numVerts, id[..], score[..], V;
      seq(n, k requires 0 <= k < n => Entry(ids[k], scores[k], vs[k].text))
    }

    function Texts(): (r: seq<string>)
      reads this`V
      ensures |r| == |V|
    {
      var vs := V;
      seq(|vs|, k requires 0 <= k < |vs| => vs[k].text)
    }

    /** The field set-up of index.js:26-54, before `run`. */
    constructor (settings: Settings)
      ensures Valid()
      ensures extractAmount == ExtractAmountOf(settings) && d == DampingOf(settings)
      ensures typeOfSummary == settings.summaryType
      ensures userDefinedTokens == settings.tokens && userDefinedTokensSplit == settings.split
      ensures delta == 0.0001
      ensures V == [] && E == map[] && numVerts == 0
      ensures iterations == 0 && iterateAgain
      ensures summarizedArticle == Joined("")
    {
      extractAmount := ExtractAmountOf(settings);
      d := DampingOf(settings);
      typeOfSummary := settings.summaryType;
      userDefinedTokens := settings.tokens;
      userDefinedTokensSplit := settings.split;
      delta := 0.0001;
      V := [];
      E := map[];
      numVerts := 0;
      id := new int[0];
      score := new real[0];
      sim := (a: Sentence, b: Sentence) => 0.0;
      iterations := 0;
      iterateAgain := true;
      summarizedArticle := Joined("");
    }

    /**
     * `setupGraph` (index.js:57-101): preprocess the article into vertices, give vertex
     * `i` the id `i` and the seed score `seed(i)`, and fill the edge table with
     * `sim(V[i], V[j])` for every ordered pair of distinct vertices.
     */
    method SetupGraph(article: string, segment: string -> seq<string>, seed: nat -> real,
                      sim: (Sentence, Sentence) -> real)
      requires E == map[]
      requires UsingUserTokens(userDefinedTokens, userDefinedTokensSplit) ==>
                 |userDefinedTokensSplit.value| >= |userDefinedTokens.value|
      modifies this`V, this`numVerts, this`sim, this`score, this`id, this`E
      ensures Valid() && fresh(score) && fresh(id)
      ensures V == VertexTable(article, userDefinedTokens, userDefinedTokensSplit, segment)
      ensures this.sim == sim && E == CompleteGraph(V, sim)
      ensures score[..] == SeedScores(seed, numVerts)
    {
      V := OutputPreprocess(article, userDefinedTokens, userDefinedTokensSplit, segment);
      numVerts := |V|;
      this.sim := sim;
      score := new real[numVerts];
      id := new int[numVerts];
      FillGraph(seed);
    }

    /**
     * The loop of `setupGraph` (index.js:68-100): vertex `i` gets the id `i`, the seed
     * score `seed(i)` and its edges to every other vertex.
     */
    method FillGraph(seed: nat -> real)
      requires numVerts == |V| == score.Length == id.Length && E == map[]
      modifies score, id, this`E
      ensures Valid()
      ensures score[..] == SeedScores(seed, numVerts)
    {
      for i := 0 to numVerts
        invariant forall k :: 0 <= k < i ==> score[k] == seed(k)
        invariant forall k :: 0 <= k < i ==> id[k] == k
        invariant E == Rows(V, sim, i)
      {
        score[i] := seed(i);
        id[i] := i;
        AddEdges(i);
      }
      assert score[..] == SeedScores(seed, numVerts);
    }

    /**
     * The inner loop of `setupGraph` (index.js:81-98): the edge list of vertex `i` is
     * created at its first other vertex and gets the weight `sim(V[i], V[j])` for every
     * `j != i`.
     */
    method AddEdges(i: nat)
      requires i < numVerts == |V| && E == Rows(V, sim, i)
      modifies this`E
      ensures E == Rows(V, sim, i + 1)
    {
      ghost var before := E;
      RowsShape(V, sim, i, i);
      for j := 0 to numVerts
        invariant E == if RowStarted(i, j) then before[i := Row(V, sim, i, j)] else before
      {
        if j != i {
          if i !in E {
            assert !RowStarted(i, j) && Row(V, sim, i, j) == map[];
            E := E[i := map[]];
          }
          assert E == before[i := Row(V, sim, i, j)];
          E := E[i := E[i][j := sim(V[i], V[j])]];
          assert E == before[i := Row(V, sim, i, j + 1)];
        }
      }
    }

    /**
     * The sweep of `iterate` (index.js:153-192): vertices in ascending id order, each new
     * score written at once; the flag is cleared once any vertex moves by at most `delta`.
     * No weight is touched.
     */
    method Sweep()
      requires score.Length == numVerts && DivisorsNonZero(E, numVerts)
      modifies this`iterateAgain, score
      ensures score[..] == Ranking.Sweep(E, numVerts, d, old(score[..]))
      ensures iterateAgain == (old(iterateAgain) && !SomeVertexSettled(old(score[..]), score[..], delta))
    {
      ghost var s := score[..];
      ghost var n := numVerts;
      ghost var t := Ranking.Sweep(E, n, d, s);
      for index := 0 to numVerts
        invariant score[..] == Steps(E, n, d, s, index)
        invariant iterateAgain == (old(iterateAgain) && forall k :: 0 <= k < index ==> Abs(t[k] - s[k]) > delta)
      {
        var score_0 := score[index];
        var summedNeighbors := SumOverNeighbours(index);
        var score_1 := (1.0 - d) + d * summedNeighbors;
        StepVisit(E, n, d, s, index, summedNeighbors, score_1);
        ghost var current := score[..];
        score[index] := score_1;
        assert score[..] == current[index := score_1];
        if Abs(score_1 - score_0) <= delta {
          iterateAgain := false;
        }
      }
      assert SomeVertexSettled(s, score[..], delta) <==> exists k :: 0 <= k < n && Abs(t[k] - s[k]) <= delta;
    }

    /** The out-weight sum of vertex `j` (index.js:170-175), starting from 1. */
    method SummedOutWeight(j: nat) returns (summedOutWeight: real)
      ensures summedOutWeight == OutWeight(E, j, numVerts)
    {
      var outNeighbors := if j in E then E[j] else map[];
      summedOutWeight := 1.0;
      for outIndex := 0 to numVerts
        invariant summedOutWeight == 1.0 + RowSum(outNeighbors, outIndex)
      {
        if outIndex in outNeighbors {
          summedOutWeight := summedOutWeight + outNeighbors[outIndex];
        }
      }
      assert j !in E ==> RowSum(outNeighbors, numVerts) == 0.0 by {
        if j !in E {
          EmptyRowSum(numVerts);
        }
      }
    }

    /**
     * `summedNeighbors` of vertex `index` (index.js:160-180): each neighbour's current
     * score, weighted by `E[index][j]` over the neighbour's out-weight sum.
     */
    method SumOverNeighbours(index: nat) returns (summedNeighbors: real)
      requires score.Length == numVerts && DivisorsNonZero(E, numVerts)
      ensures summedNeighbors == NeighbourSum(E, index, numVerts, score[..], numVerts)
    {
      var vertexNeighbors := if index in E then E[index] else map[];
      summedNeighbors := 0.0;
      for neighborIndex := 0 to numVerts
        invariant summedNeighbors == NeighbourSum(E, index, numVerts, score[..], neighborIndex)
      {
        if neighborIndex in vertexNeighbors {
          var wji := E[index][neighborIndex];
          var summedOutWeight := SummedOutWeight(neighborIndex);
          var WSVertex := score[neighborIndex];
          summedNeighbors := summedNeighbors + (wji / summedOutWeight) * WSVertex;
        }
      }
    }

    /**
     * `iterate` (index.js:151-205): one sweep, then, while the flag is still set, count an
     * iteration and recurse, at most `fuel` more times.
     */
    method Iterate(fuel: nat)
      requires score.Length == numVerts && DivisorsNonZero(E, numVerts)
      modifies this`iterateAgain, this`iterations, score
      ensures RankState(score[..], iterateAgain, iterations)
           == Ranking.Iterate(E, numVerts, d, delta, RankState(old(score[..]), old(iterateAgain), old(iterations)), fuel)
      decreases fuel
    {
      Sweep();
      if iterateAgain {
        iterations := iterations + 1;
        if fuel > 0 {
          Iterate(fuel - 1);
        }
      }
    }

    /**
     * `extractSummary` (index.js:208-258). It fails with a RangeError when `N` is not a
     * valid array length, and with a TypeError when `N` exceeds the number of vertices
     * (a hole is read) or when `N` is 0 and one string is asked for. Otherwise it returns
     * the sentences of `N` distinct vertices, in document order, such that no vertex left
     * out scores higher than one picked, as a list or joined by single spaces.
     */
    method ExtractSummary(N: int) returns (summary: Result<Summary, JsError>)
      requires Indexed()
      ensures summary.Ok? <==> 0 <= N < ArrayLengthLimit && N <= numVerts && (typeOfSummary || N >= 1)
      ensures summary.Err? ==> (summary.error == RangeError <==> (N < 0 || N >= ArrayLengthLimit))
      ensures summary.Ok? ==>
                exists sel :: IsTopN(score[..], N, sel) && summary.value == Render(typeOfSummary, TextsAt(Texts(), sel))
    {
      ghost var entries := Entries();
      var sentences: seq<Entry> := [];
      for index := 0 to numVerts
        invariant sentences == entries[..index]
      {
        assert entries[..index + 1] == entries[..index] + [Entry(id[index], score[index], V[index].text)];
        sentences := sentences + [Entry(id[index], score[index], V[index].text)];
      }
      assert sentences == entries;
      assert Sentences(entries) == Texts();
      summary := PickSentences(sentences, N, typeOfSummary);
      if summary.Ok? {
        ghost var sel :| IsTopN(Scores(entries), N, sel)
                         && summary.value == Render(typeOfSummary, TextsAt(Sentences(entries), sel));
        assert IsTopN(score[..], N, sel);
      }
    }

    /**
     * `run` (index.js:260-268): build the graph, rank (with at most `fuel` recursive
     * sweeps) and extract `extractAmount` sentences.
     */
    method Run(article: string, segment: string -> seq<string>, seed: nat -> real,
               sim: (Sentence, Sentence) -> real, fuel: nat)
      returns (result: Result<Summary, JsError>)
      requires E == map[]
      requires forall a, b :: sim(a, b) >= 0.0
      requires UsingUserTokens(userDefinedTokens, userDefinedTokensSplit) ==>
                 |userDefinedTokensSplit.value| >= |userDefinedTokens.value|
      modifies this
      ensures Valid()
      ensures V == VertexTable(article, userDefinedTokens, userDefinedTokensSplit, segment)
      ensures E == CompleteGraph(V, sim) && NonNegativeWeights(E) && DivisorsNonZero(E, numVerts)
      ensures RankState(score[..], iterateAgain, iterations)
           == Ranking.Iterate(E, numVerts, d, delta, RankState(SeedScores(seed, numVerts), old(iterateAgain), old(iterations)), fuel)
      ensures result.Ok? <==> 0 <= extractAmount < ArrayLengthLimit && extractAmount <= numVerts && (typeOfSummary || extractAmount >= 1)
      ensures result.Ok? ==>
                && summarizedArticle == result.value
                && exists sel :: IsTopN(score[..], extractAmount, sel) && result.value == Render(typeOfSummary, TextsAt(Texts(), sel))
    {
      SetupGraph(article, segment, seed, sim);
      NonNegativeSimilarity(V, sim);
      Iterate(fuel);
      result := ExtractSummary(extractAmount);
      if result.Ok? {
        summarizedArticle := result.value;
      }
    }
  }
}

# TextRank-node in Dafny

A model of `index.js` of TextRank-node, a JavaScript implementation of the sentence-extraction
half of TextRank (Mihalcea and Tarau, "TextRank: Bringing Order into Texts"). The summarizer
object turns an article into a graph. Each sentence is a vertex. Every ordered pair of distinct
sentences gets an edge weighted by their word overlap. The summarizer then ranks the vertices
with the weighted PageRank recurrence `WS(Vi) = (1 - d) + d * sum_j wji / (1 + sum_k wjk) * WS(Vj)`
and returns the `extractAmount` best-ranked sentences in document order.

Modules, one per part of the program:

- `Strings` (`strings.dfy`): `split` on one character, `join`, and their round trips.
- `Preprocess` (`preprocess.dfy`): `TextPreprocesser`, which covers `cleanArticle`,
  `cleanTokens`, `tokenizeASentence` and `outputPreprocess`, and builds the
  `index -> { sentence, tokens }` table.
- `Similarity` (`similarity.dfy`): the word-overlap count of `similarityScoring`. It has two
  versions: one over a dictionary that holds only what was stored, and one over the plain
  object the code actually uses (see Findings).
- `Ranking` (`ranking.dfy`): the sweep of `iterate` as functions over exact reals, and the
  `iterateAgain` / `iterations` recursion.
- `Summary` (`summary.dfy`): the two sorts of `extractSummary`, the truncation to `N`, and the
  list or joined output.
- `TextRank` (`textrank.dfy`): the summarizer object as a class. It has the sentence table
  `V`, an `id` and a `score` array, the edge table `E`, and the fields `iterations`,
  `iterateAgain` and `summarizedArticle`. Its methods are `SetupGraph`, `Sweep` / `Iterate`,
  `ExtractSummary` and `Run`.
- `Wrappers` (`wrappers.dfy`): `Option` and `Result`.

The class methods are proved against the functions of `Ranking`, `Summary` and `Preprocess`.
Properties of the program are stated as lemmas about those functions.

Each score is written in place as soon as it is computed. A vertex therefore reads the new
scores of the vertices before it and the old scores of the vertices after it
(`SweepReadsUpdatedScores`, `TwoVertexSweep`). The weight used for neighbour `j` of vertex `i`
is `E[i][j]`, the one stored under `i`. The out-weight sum starts at 1. `iterateAgain` is cleared
as soon as any one vertex moves by at most `delta`. The model keeps all of these as the code
has them.

`extractSummary` sets `sentences.length = N`. That throws a `RangeError` unless
`0 <= N < 2^32`. A larger `N` pads the array with holes, and the first hole read throws a
`TypeError`. Joining zero sentences reads `sentences[0]` and also throws a `TypeError`.
`ExtractSummary` returns these as `Err` values.

## Model

| member | source | states |
|---|---|---|
| Strings.Split | index.js:337 | `split(" ")` gives one piece more than there are separators, and no piece holds the separator |
| Strings.JoinSplit | index.js:337 | joining the pieces of a split with the separator gives the string back |
| Strings.SplitJoin | index.js:337 | splitting a join of separator-free pieces gives the pieces back |
| Strings.JoinSnoc | index.js:249-253 | appending `" " + s` to a joined string is joining one more piece |
| Preprocess.CleanArticle | index.js:277-282 | the cleaned article has no two adjacent spaces, differs from the input only by deleted spaces, and keeps its first character |
| Preprocess.CleanArticleKeepsOneSpacePerRun | index.js:277-282 | each run of spaces keeps exactly one space: the cleaned article has as many spaces as the input has runs of spaces |
| Preprocess.CleanArticleFixesSingleSpaced | index.js:280 | an article without a double space is returned unchanged |
| Preprocess.CleanArticleIdempotent | index.js:280 | cleaning twice equals cleaning once |
| Preprocess.StripLeadingProperties | index.js:307 | the non-global replace removes exactly the leading run of spaces and dots and keeps the rest as a suffix |
| Preprocess.StripLeadingEmptyIff | index.js:307 | a sentence is stripped to `""` exactly when it is made only of spaces and dots |
| Preprocess.CleanTokens | index.js:293-312 | the backward splice-and-strip loop returns exactly `Cleaned(tokens)` |
| Preprocess.CleanedIsStrippedNonEmpty | index.js:296-308 | the cleaned list is the non-empty entries, in order, each stripped of leading spaces and dots |
| Preprocess.CleanedHasNoLeadingSpaceOrDot | index.js:306-307 | no cleaned sentence starts with a space or a dot |
| Preprocess.BlankEntryKeptEmpty | index.js:302-307 | an entry of only spaces and dots is kept as `""`, not removed |
| Preprocess.NormalizeNoDelimiters | index.js:328-334 | no delimiter survives the two replacements |
| Preprocess.NormalizeKeepsWordChars | index.js:328-334 | the replacements keep every non-space, non-delimiter character, in order |
| Preprocess.NormalizeSpaces | index.js:329-330 | each delimiter not followed by a space adds exactly one space |
| Preprocess.TokensJoinBack | index.js:315-338 | joining a sentence's tokens with spaces gives the lower-cased, delimiter-replaced sentence |
| Preprocess.TokenCount | index.js:315-338 | a sentence yields one token more than its spaces plus its delimiters not followed by a space |
| Preprocess.TokensHoldWordChars | index.js:315-338 | the tokens together are exactly the lower-cased sentence's non-space, non-delimiter characters, in order |
| Preprocess.TokensAreClean | index.js:315-338 | no token holds a space, a delimiter or an upper-case ASCII letter |
| Preprocess.TokenizeAll | index.js:350-359 | entry `i` of the output holds sentence `i` and the user's words or the tokenizer's words for it |
| Preprocess.OutputPreprocess | index.js:340-362 | the output is the vertex table built from the user lists when both are given, else from the cleaned segments of the cleaned article |
| Preprocess.TableFromArticle | index.js:342-352 | without user lists: one entry per non-empty segment, in order, stripped, with words whose join is the processed sentence |
| Preprocess.TableFromUserLists | index.js:345-352 | with both user lists: entry `i` is the user's sentence `i` with the user's words `i` |
| Similarity.MarkWords | index.js:111-130 | after one marking loop, the dictionary's keys are the old keys plus the words not already answered for, and each word in `tokens` carries the mark |
| Similarity.CountBoth | index.js:135-141 | the final loop counts exactly the entries marked by both sentences |
| Similarity.CountOverlap | index.js:107-141 | the count is the number of shared distinct words that the dictionary does not answer for in advance |
| Similarity.SimilarityScoring | index.js:105-141 | with a dictionary that holds only what was stored, the count is the number of distinct shared words |
| Similarity.OverlapSymmetric | index.js:105-141 | the count does not depend on the order of the two sentences |
| Similarity.OverlapBounded | index.js:105-141 | the count is at most the number of distinct words of either sentence |
| Similarity.OverlapIgnoresRepeats | index.js:112-120 | a repeated word counts once |
| Similarity.OverlapWithItself | index.js:105-141 | a sentence shares all its distinct words with itself |
| Similarity.SimilarityScoringAsWritten | index.js:107-141 | over the plain object, the count leaves out every shared word that names an inherited `Object.prototype` member |
| Similarity.ConstructorIsNeverShared | index.js:115-117 | `["constructor"]` and `["the", "constructor"]` share one word, yet the code as written counts 0 |
| Similarity.AsWrittenAgreesOffInheritedNames | index.js:115-117 | when no shared word is an inherited name, both counts agree |
| Ranking.RowSum | index.js:171-175 | a row of nonnegative weights sums to a nonnegative value |
| Ranking.StepsLeaveLaterVertices | index.js:153-185 | midway through a sweep, a vertex not yet visited still holds its old score |
| Ranking.StepsFreezeEarlierVertices | index.js:153-185 | once visited, a vertex keeps its new score for the rest of the sweep |
| Ranking.StepVisit | index.js:156-185 | visiting vertex `m` reads its old score, and writing `(1 - d) + d * summedNeighbors` gives the next stage and the final score of `m` |
| Ranking.StepsAreNewThenOld | index.js:153-192 | midway through a sweep, the scores are the new ones before the current vertex and the old ones from it on |
| Ranking.SweepReadsUpdatedScores | index.js:163-185 | each new score is the recurrence applied to the new scores of earlier vertices and the old scores of later ones |
| Ranking.NeighbourSumNonNegative | index.js:160-180 | with nonnegative weights and scores, `summedNeighbors` is nonnegative |
| Ranking.SweepScoresAtLeastBase | index.js:182 | with nonnegative weights and scores and `0 <= d <= 1`, every score after a sweep is at least `1 - d` |
| Ranking.StepsBounded | index.js:182 | partway through a sweep, the visited scores are at least `1 - d` and all scores stay nonnegative |
| Ranking.NoNeighboursGivesBase | index.js:158-182 | a vertex with no edge list gets exactly `1 - d` |
| Ranking.LoneVertexSweep | index.js:153-185 | a one-vertex graph scores `1 - d` after one sweep, whatever the start |
| Ranking.TwoVertexSweep | index.js:153-185 | in a two-vertex example the second vertex reads the first's new score (0.6875, not 0.75) |
| Ranking.IterateCountsFollowingSweeps | index.js:151-198 | `iterations` rises by one for each sweep after the first: a run that stops on its own ends with the scores of `iterations - start + 1` sweeps in a row, where only the last sweep let a vertex settle; a run out of fuel did `fuel + 1` sweeps and none let a vertex settle |
| Ranking.ClearedFlagSweepsOnce | index.js:187-198 | entered with the flag clear, `iterate` sweeps exactly once and leaves the counter alone |
| Ranking.EmptyGraphNeverStops | index.js:153-197 | with no vertices the flag is never cleared, so the recursion never ends on its own |
| Summary.InsertBy | index.js:218-237 | inserting into a sorted list keeps it sorted and adds exactly that entry |
| Summary.SortBy | index.js:218-237 | a sort returns a sorted permutation of its input |
| Summary.PickedAreVertices | index.js:226-237 | every entry kept after truncating the ranking is the vertex its id names |
| Summary.PickedIdsIncrease | index.js:230-237 | the kept entries, sorted by id, have strictly increasing ids |
| Summary.PickedOutscoreRest | index.js:217-228 | no vertex left out scores higher than one kept |
| Summary.SelectionIsTopN | index.js:217-237 | ranking, truncating and re-sorting picks `N` distinct vertices in document order, none outscored by a vertex left out |
| Summary.CollectSentences | index.js:241-245 | the list form holds the picked sentences in order |
| Summary.JoinSentences | index.js:247-253 | the joined form is the picked sentences separated by single spaces |
| Summary.PickSentences | index.js:217-257 | succeeds exactly when `0 <= N < 2^32`, `N` is at most the number of vertices, and a list is asked for or `N >= 1`; a RangeError exactly for an invalid length; on success, the rendered top-`N` selection |
| TextRank.RowShape | index.js:81-98 | row `i` has a key for every other vertex and none for `i`, weighted `sim(V[i], V[j])` |
| TextRank.RowsShape | index.js:88-91 | a vertex has an edge list exactly when another vertex exists |
| TextRank.CompleteGraphShape | index.js:81-98 | the edge table is complete without self edges: `E[i][j] = sim(V[i], V[j])` for every `j != i` |
| TextRank.OneSentenceHasNoEdges | index.js:86-91 | a one-sentence graph has an empty edge table |
| TextRank.NonNegativeSimilarity | index.js:96 | a nonnegative similarity gives nonnegative weights and nonzero out-weight divisors |
| TextRank.TextRank.constructor | index.js:26-54 | the settings defaults (`extractAmount` 5, `d` 0.85 when falsy), `delta` 0.0001, an empty graph, and `iterateAgain` set |
| TextRank.TextRank.SetupGraph | index.js:57-101 | `V` is the preprocessed table, vertex `i` has id `i` and the seed score, and `E` is the complete graph under `sim` |
| TextRank.TextRank.FillGraph | index.js:68-100 | the outer loop gives each vertex its id, its seed score and its row of edges |
| TextRank.TextRank.AddEdges | index.js:81-98 | the inner loop creates row `i` at its first other vertex and fills every `j != i` |
| TextRank.TextRank.SummedOutWeight | index.js:170-175 | `summedOutWeight` is 1 plus the weights leaving `j` |
| TextRank.TextRank.SumOverNeighbours | index.js:158-180 | `summedNeighbors` is the weighted sum of the current neighbour scores |
| TextRank.TextRank.Sweep | index.js:153-192 | the scores become `Ranking.Sweep` of the old scores; the flag is cleared iff some vertex settled |
| TextRank.TextRank.Iterate | index.js:151-205 | scores, flag and counter end as `Ranking.Iterate` of the starting state |
| TextRank.TextRank.ExtractSummary | index.js:208-258 | the same success and error conditions as `PickSentences`; on success, the sentences of a top-`N` selection of the current scores, in document order |
| TextRank.TextRank.Run | index.js:260-268 | the graph is the complete graph over the preprocessed table, the ranking is `Ranking.Iterate` from the seed scores, and the result is stored in `summarizedArticle` |

## Left out

- The sentence tokenizer (index.js:286-289) is a regular expression with lookahead and a
  `$1|` substitution. It is the `segment` parameter of `OutputPreprocess`, `SetupGraph` and
  `Run`. The model states what happens to its output, whatever that output is.
- `toLowerCase` is modelled for the ASCII letters `A`-`Z` only. Other case mappings are not
  modelled.
- The division by `Math.log(|Si|) + Math.log(|Sj|)` in `similarityScoring`
  (index.js:132, 144) is floating point. The model proves the shared-word count exactly.
  `SetupGraph` and `Run` take the similarity as a parameter. `Run` asks for it to be
  nonnegative.
- Scores and weights are exact reals. Floating-point rounding, `NaN` and `Infinity` are not
  modelled. `NaN` and `Infinity` arise when both sentences have one token, because the log
  sum is then 0.
- `Math.random() * 10 + 1` (index.js:72) is the `seed` parameter of `SetupGraph` and `Run`.
- TextRank.TextRank.Iterate: the unbounded recursion of `iterate` (index.js:195-198) is cut
  after `fuel` further sweeps. The model says nothing about a run that needs more.
  Without vertices the recursion never stops (`EmptyGraphNeverStops`).
- TextRank.TextRank.Sweep: requires `DivisorsNonZero`, which holds for nonnegative weights
  (`NonNegativeSimilarity`). With negative weights of a user similarity, JavaScript divides
  by zero and gets `Infinity` or `NaN`.
- TextRank.TextRank.SetupGraph: requires an empty edge table. The code only adds to `E`, and
  `run` is called once on a fresh object.
- Preprocess.OutputPreprocess: requires the user's word lists to be at least as many as the
  user's sentences. Otherwise `userTokensSplit[i]` is `undefined` and the failure comes
  later, in the similarity function.
- The guards of index.js:12-24 are not modelled. For an article that is not a string, or
  an empty one, they print an error and return without running. `Run` is modelled for any
  article.
- `settings["sim"]`, the user's similarity function, is the `sim` parameter. The default
  `similarityScoring` enters only through its overlap count.
- `CleanTokens` works on a sequence value. The in-place splice of the array returned by the
  tokenizer, and its aliasing, are not modelled.
- Both sorts of `extractSummary` are modelled on sequence values. The comparator never
  returns 0, so ties may come out in any order. `SelectionIsTopN` holds for every tie order.
  The model's sort keeps equal keys in input order.
- A non-integer `N` is not modelled: `extractAmount` is an integer. `sentences.length = 2.5`
  would throw a RangeError.
- SimilarityScoringAsWritten: a token `__proto__` in either sentence is not modelled, and the
  member requires that neither sentence holds it. Its marks (index.js:119, 129) add
  enumerable `i` and `j` properties to `Object.prototype`. The later `for ... in` loops over
  the vertex table (index.js:153, 213) would then visit `"i"` and `"j"` too.

## Findings

| source | as written | input that shows it | evidently intended | confidence | as-written member | corrected member |
|---|---|---|---|---|---|---|
| index.js:107-141 | the dictionary is a plain object `{}`. For a word that names an inherited `Object.prototype` member (`constructor`, `toString`, `valueOf`, ...), `!overlap[word]` is false, so no own entry is made. Its marks land on the inherited function, and `for ... in` never counts it | Si.tokens = `["constructor"]`, Sj.tokens = `["the", "constructor"]`: one word is shared, the count is 0 | every distinct shared word counts; a dictionary without a prototype, such as `Object.create(null)` or a `Map` | not executed | Similarity.SimilarityScoringAsWritten, Similarity.ConstructorIsNeverShared | Similarity.SimilarityScoring |

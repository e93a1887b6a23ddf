/**
 * The selection logic of `extractSummary` (index.js:208-258): sort the vertices by
 * descending score, keep the first N, put those back in document order and emit their
 * sentences, as a list or joined by single spaces.
 */
module Summary {
  import opened Wrappers
  import opened Strings

  /** The fields of a vertex that `extractSummary` reads. */
  datatype Entry = Entry(id: int, score: real, sentence: string)

  /** The two output forms: `summaryType` set gives the list, otherwise one string. */
  datatype Summary = Joined(text: string) | SentenceList(sentences: seq<string>)

  /** The exceptions `extractSummary` can raise. */
  datatype JsError =
    | RangeError  // `sentences.length = N` with N not a valid array length
    | TypeError   // `.sentence` read from a hole of the padded array

  /** Largest array length plus one: `length = N` throws unless `0 <= N < 2^32`. */
  const ArrayLengthLimit: int := 0x1_0000_0000

  /** Sort key of the first comparator: a higher score comes first. */
  function ByScore(e: Entry): real
  {
    -e.score
  }

  /** Sort key of the second comparator: a lower id comes first. */
  function ById(e: Entry): real
  {
    e.id as real
  }

  predicate SortedBy(t: seq<Entry>, key: Entry -> real)
  {
    forall a, b :: 0 <= a < b < |t| ==> key(t[a]) <= key(t[b])
  }

  /** An entry no larger than every entry of a sorted list can go in front of it. */
  lemma ConsSorted(y: Entry, rest: seq<Entry>, key: Entry -> real)
    requires SortedBy(rest, key)
    requires forall k :: 0 <= k < |rest| ==> key(y) <= key(rest[k])
    ensures SortedBy([y] + rest, key)
  {
    var r := [y] + rest;
    forall a, b | 0 <= a < b < |r| ensures key(r[a]) <= key(r[b]) {
      assert r[b] == rest[b - 1];
      if a > 0 {
        assert r[a] == rest[a - 1];
      }
    }
  }

  /** The head of a sorted list is no larger than anything in the list or than a larger `x`. */
  lemma HeadBelowInsert(x: Entry, t: seq<Entry>, key: Entry -> real, rest: seq<Entry>)
    requires SortedBy(t, key) && |t| > 0 && key(t[0]) < key(x)
    requires multiset(rest) == multiset(t[1..]) + multiset{x}
    ensures forall k :: 0 <= k < |rest| ==> key(t[0]) <= key(rest[k])
  {
    forall k | 0 <= k < |rest| ensures key(t[0]) <= key(rest[k]) {
      assert rest[k] in multiset(rest);
      if rest[k] != x {
        assert rest[k] in multiset(t[1..]);
        var j :| 0 <= j < |t[1..]| && t[1..][j] == rest[k];
        assert t[j + 1] == rest[k];
      }
    }
  }

  function InsertBy(x: Entry, t: seq<Entry>, key: Entry -> real): (r: seq<Entry>)
    requires SortedBy(t, key)
    ensures multiset(r) == multiset(t) + multiset{x}
    ensures SortedBy(r, key)
  {
    if |t| == 0 || key(x) <= key(t[0]) then
      ConsSorted(x, t, key);
      [x] + t
    else
      var rest := InsertBy(x, t[1..], key);
      HeadBelowInsert(x, t, key, rest);
      ConsSorted(t[0], rest, key);
      assert t == [t[0]] + t[1..];
      [t[0]] + rest
  }

  /**
   * `Array.prototype.sort` with a comparator that orders by `key`. Entries with equal
   * keys may come out in any order; this one keeps them in input order.
   */
  function SortBy(s: seq<Entry>, key: Entry -> real): (r: seq<Entry>)
    ensures SortedBy(r, key)
    ensures multiset(r) == multiset(s)
  {
    if |s| == 0 then []
    else
      assert s == [s[0]] + s[1..];
      InsertBy(s[0], SortBy(s[1..], key), key)
  }

  /** The entries of the vertex table: entry `k` is vertex `k`. */
  predicate IndexedById(entries: seq<Entry>)
  {
    forall k :: 0 <= k < |entries| ==> entries[k].id == k
  }

  function Scores(entries: seq<Entry>): (r: seq<real>)
    ensures |r| == |entries|
  {
    seq(|entries|, k requires 0 <= k < |entries| => entries[k].score)
  }

  function Ids(t: seq<Entry>): (r: seq<int>)
    ensures |r| == |t|
  {
    seq(|t|, k requires 0 <= k < |t| => t[k].id)
  }

  function Sentences(t: seq<Entry>): (r: seq<string>)
    ensures |r| == |t|
  {
    seq(|t|, k requires 0 <= k < |t| => t[k].sentence)
  }

  /**
   * `sel` picks `N` distinct vertices, listed in ascending id order, and no vertex left
   * out scores higher than one picked.
   */
  ghost predicate IsTopN(score: seq<real>, N: nat, sel: seq<int>)
  {
    && |sel| == N
    && (forall k :: 0 <= k < N ==> 0 <= sel[k] < |score|)
    && (forall a, b :: 0 <= a < b < N ==> sel[a] < sel[b])
    && (forall k, j :: 0 <= k < N && 0 <= j < |score| && j !in sel ==> score[sel[k]] >= score[j])
  }

  /** The sentences of the vertices `sel`, in the order of `sel`. */
  function TextsAt(texts: seq<string>, sel: seq<int>): (r: seq<string>)
    requires forall k :: 0 <= k < |sel| ==> 0 <= sel[k] < |texts|
    ensures |r| == |sel|
  {
    seq(|sel|, k requires 0 <= k < |sel| => texts[sel[k]])
  }

  /** The output form for `texts`. */
  function Render(list: bool, texts: seq<string>): Summary
  {
    if list then SentenceList(texts) else Joined(Join(texts, ' '))
  }

  lemma {:induction false} DistinctAtMostOnce(s: seq<Entry>, x: Entry)
    requires forall a, b :: 0 <= a < b < |s| ==> s[a] != s[b]
    ensures multiset(s)[x] <= 1
  {
    if |s| > 0 {
      DistinctAtMostOnce(s[1..], x);
      assert s == [s[0]] + s[1..];
      if x == s[0] {
        assert x !in s[1..];
      }
    }
  }

  lemma RepeatedTwice(s: seq<Entry>, a: nat, b: nat)
    requires a < b < |s| && s[a] == s[b]
    ensures multiset(s)[s[a]] >= 2
  {
    var x := s[a];
    assert s == s[..a] + [x] + s[a + 1..b] + [x] + s[b + 1..];
  }

  /** Every entry kept from the ranking is the vertex entry its id names. */
  lemma PickedAreVertices(entries: seq<Entry>, t: seq<Entry>, N: nat, u: seq<Entry>)
    requires IndexedById(entries)
    requires multiset(t) == multiset(entries) && N <= |t|
    requires multiset(u) == multiset(t[..N])
    ensures |u| == N
    ensures forall k :: 0 <= k < |u| ==> 0 <= u[k].id < |entries| && u[k] == entries[u[k].id]
  {
    assert |u| == N by {
      assert |multiset(u)| == |multiset(t[..N])|;
    }
    assert t == t[..N] + t[N..];
    forall k | 0 <= k < |u| ensures 0 <= u[k].id < |entries| && u[k] == entries[u[k].id] {
      assert u[k] in multiset(u);
      assert u[k] in multiset(entries);
      var j :| 0 <= j < |entries| && entries[j] == u[k];
    }
  }

  /** Entries kept from the ranking and sorted by id have strictly increasing ids. */
  lemma PickedIdsIncrease(entries: seq<Entry>, t: seq<Entry>, N: nat, u: seq<Entry>)
    requires IndexedById(entries)
    requires multiset(t) == multiset(entries) && N <= |t|
    requires multiset(u) == multiset(t[..N]) && SortedBy(u, ById) && |u| == N
    requires forall k :: 0 <= k < |u| ==> 0 <= u[k].id < |entries| && u[k] == entries[u[k].id]
    ensures forall a, b :: 0 <= a < b < N ==> u[a].id < u[b].id
  {
    assert t == t[..N] + t[N..];
    forall a, b | 0 <= a < b < N ensures u[a].id < u[b].id {
      if u[a].id == u[b].id {
        assert u[a] == u[b];
        RepeatedTwice(u, a, b);
        assert multiset(t[..N])[u[a]] <= multiset(t)[u[a]];
        DistinctAtMostOnce(entries, u[a]);
        assert false;
      }
    }
  }

  /** No vertex left out of the first `N` of the ranking scores higher than one kept. */
  lemma PickedOutscoreRest(entries: seq<Entry>, t: seq<Entry>, N: nat, u: seq<Entry>)
    requires IndexedById(entries)
    requires multiset(t) == multiset(entries) && SortedBy(t, ByScore) && N <= |t|
    requires multiset(u) == multiset(t[..N]) && |u| == N
    ensures forall k, j :: 0 <= k < N && 0 <= j < |entries| && j !in Ids(u) ==> u[k].score >= entries[j].score
  {
    assert t == t[..N] + t[N..];
    var sel := Ids(u);
    forall k, j | 0 <= k < N && 0 <= j < |entries| && j !in sel
      ensures u[k].score >= entries[j].score
    {
      var y := entries[j];
      forall m | 0 <= m < |u| ensures u[m] != y {
        assert sel[m] in sel;
      }
      assert y !in multiset(u);
      assert y in multiset(t);
      var b :| 0 <= b < |t| && t[b] == y;
      assert b >= N;
      assert u[k] in multiset(t[..N]);
      var a :| 0 <= a < N && t[..N][a] == u[k];
      assert ByScore(t[a]) <= ByScore(t[b]);
    }
  }

  /**
   * Sorting by descending score, keeping the first `N` and sorting those by id picks a
   * top-`N` selection of the vertices, and each picked entry is the vertex its id names.
   */
  lemma SelectionIsTopN(entries: seq<Entry>, t: seq<Entry>, N: nat, u: seq<Entry>)
    requires IndexedById(entries)
    requires multiset(t) == multiset(entries) && SortedBy(t, ByScore) && N <= |t|
    requires multiset(u) == multiset(t[..N]) && SortedBy(u, ById)
    ensures IsTopN(Scores(entries), N, Ids(u))
    ensures forall k :: 0 <= k < |u| ==> 0 <= u[k].id < |entries| && u[k] == entries[u[k].id]
  {
    PickedAreVertices(entries, t, N, u);
    PickedIdsIncrease(entries, t, N, u);
    PickedOutscoreRest(entries, t, N, u);
  }

  /** The list form (index.js:242-245): the picked sentences in order. */
  method CollectSentences(t: seq<Entry>) returns (summary: seq<string>)
    ensures summary == Sentences(t)
  {
    summary := [];
    for i := 0 to |t|
      invariant summary == Sentences(t[..i])
    {
      assert t[..i + 1] == t[..i] + [t[i]];
      summary := summary + [t[i].sentence];
    }
    assert t[..|t|] == t;
  }

  /** The joined form (index.js:249-253): the picked sentences separated by single spaces. */
  method JoinSentences(t: seq<Entry>) returns (summary: string)
    requires |t| >= 1
    ensures summary == Join(Sentences(t), ' ')
  {
    summary := t[0].sentence;
    for i := 1 to |t|
      invariant summary == Join(Sentences(t[..i]), ' ')
    {
      JoinSnoc(Sentences(t[..i]), t[i].sentence, ' ');
      assert Sentences(t[..i + 1]) == Sentences(t[..i]) + [t[i].sentence];
      summary := summary + " " + t[i].sentence;
    }
    assert t[..|t|] == t;
  }

  /**
   * The picking half of `extractSummary` (index.js:226-257): rank the entries by score,
   * keep the first `N`, put those back in id order and render their sentences. Setting
   * the length of an array to `N` throws a RangeError unless `0 <= N < 2^32`; a longer
   * length pads with holes and reading a hole throws a TypeError, as does joining when
   * nothing was picked.
   */
  method PickSentences(entries: seq<Entry>, N: int, list: bool) returns (summary: Result<Summary, JsError>)
    requires IndexedById(entries)
    ensures summary.Ok? <==> 0 <= N < ArrayLengthLimit && N <= |entries| && (list || N >= 1)
    ensures summary.Err? ==> (summary.error == RangeError <==> (N < 0 || N >= ArrayLengthLimit))
    ensures summary.Ok? ==>
              exists sel :: IsTopN(Scores(entries), N, sel) && summary.value == Render(list, TextsAt(Sentences(entries), sel))
  {
    // Sort the sentences based off the score of the vertex
    var sentences := SortBy(entries, ByScore);
    assert |sentences| == |multiset(sentences)| == |entries|;
    if N < 0 || N >= ArrayLengthLimit {
      return Err(RangeError);
    }
    if N > |sentences| {
      return Err(TypeError);
    }
    ghost var ranked := sentences;
    sentences := sentences[..N];
    // Sort based off the id
    sentences := SortBy(sentences, ById);
    SelectionIsTopN(entries, ranked, N, sentences);
    ghost var sel := Ids(sentences);
    assert Sentences(sentences) == TextsAt(Sentences(entries), sel);
    if list {
      var picked := CollectSentences(sentences);
      summary := Ok(SentenceList(picked));
    } else {
      if N == 0 {
        return Err(TypeError);
      }
      var text := JoinSentences(sentences);
      summary := Ok(Joined(text));
    }
    assert IsTopN(Scores(entries), N, sel);
  }
}

/**
 * The default edge weight `similarityScoring` (index.js:105-145), the sentence similarity
 * of the TextRank paper: the number of distinct words two sentences share, divided by
 * `ln |Si| + ln |Sj|`. The model computes the shared-word count exactly; the logarithms
 * and the floating-point division are not modelled.
 */
module Similarity {
  import opened Preprocess

  /** The distinct words of a token list. */
  function Words(tokens: seq<string>): set<string>
  {
    set w | w in tokens
  }

  /** The number of distinct words present in both token lists. */
  function Overlap(a: seq<string>, b: seq<string>): nat
  {
    |Words(a) * Words(b)|
  }

  /** The count does not depend on the order of the two sentences. */
  lemma OverlapSymmetric(a: seq<string>, b: seq<string>)
    ensures Overlap(a, b) == Overlap(b, a)
  {
    assert Words(a) * Words(b) == Words(b) * Words(a);
  }

  lemma SubsetCardinality<T>(x: set<T>, y: set<T>)
    requires x <= y
    ensures |x| <= |y|
  {
    if x != {} {
      var e :| e in x;
      SubsetCardinality(x - {e}, y - {e});
    }
  }

  /** The count is at most the number of distinct words of either sentence. */
  lemma OverlapBounded(a: seq<string>, b: seq<string>)
    ensures Overlap(a, b) <= |Words(a)| && Overlap(a, b) <= |Words(b)|
  {
    SubsetCardinality(Words(a) * Words(b), Words(a));
    SubsetCardinality(Words(a) * Words(b), Words(b));
  }

  /** A word repeated in a sentence counts once. */
  lemma OverlapIgnoresRepeats(a: seq<string>, w: string, b: seq<string>)
    requires w in a
    ensures Overlap(a + [w], b) == Overlap(a, b)
  {
    assert Words(a + [w]) == Words(a);
  }

  /** A sentence shares every one of its words with itself. */
  lemma OverlapWithItself(a: seq<string>)
    ensures Overlap(a, a) == |Words(a)|
  {
    assert Words(a) * Words(a) == Words(a);
  }

  /** Which of the two sentences a word was seen in: the keys `'i'` and `'j'` of index.js:119,129. */
  datatype Seen = InI | InJ

  lemma BothMarks(m: set<Seen>)
    requires m <= {InI, InJ}
    ensures |m| == 2 <==> (InI in m && InJ in m)
  {
    if InI in m && InJ in m {
      assert m == {InI, InJ};
    } else if InI in m {
      assert m == {InI};
    } else if InJ in m {
      assert m == {InJ};
    } else {
      assert m == {};
    }
  }

  /**
   * One "Count words for sentence ..." loop (index.js:112-120, 123-130): every word of
   * `tokens` gets `mark`, an entry being created first if the dictionary does not already
   * answer for the word. `answered` are the names a fresh dictionary answers without
   * holding them; marks for those words are not recorded in the dictionary.
   */
  method MarkWords(overlap: map<string, set<Seen>>, tokens: seq<string>, mark: Seen, answered: set<string>)
    returns (r: map<string, set<Seen>>)
    requires overlap.Keys !! answered
    ensures r.Keys == overlap.Keys + (Words(tokens) - answered)
    ensures forall w :: w in r ==> r[w] == (if w in overlap then overlap[w] else {}) + (if w in tokens then {mark} else {})
  {
    r := overlap;
    for i := 0 to |tokens|
      invariant r.Keys == overlap.Keys + (Words(tokens[..i]) - answered)
      invariant forall w :: w in r ==> r[w] == (if w in overlap then overlap[w] else {}) + (if w in tokens[..i] then {mark} else {})
    {
      var word := tokens[i];
      assert tokens[..i + 1] == tokens[..i] + [word];
      if word !in r && word !in answered {
        r := r[word := {}];
      }
      if word in r {
        r := r[word := r[word] + {mark}];
      }
    }
    assert tokens[..|tokens|] == tokens;
  }

  /** The final loop (index.js:136-141): the number of entries marked with both sentences. */
  method CountBoth(overlap: map<string, set<Seen>>) returns (count: nat)
    requires forall w :: w in overlap ==> overlap[w] <= {InI, InJ}
    ensures count == |set w | w in overlap && InI in overlap[w] && InJ in overlap[w]|
  {
    ghost var both := set w | w in overlap && InI in overlap[w] && InJ in overlap[w];
    count := 0;
    var pending := overlap.Keys;
    while pending != {}
      invariant pending <= overlap.Keys
      invariant count == |both - pending|
      decreases |pending|
    {
      var word :| word in pending;
      BothMarks(overlap[word]);
      if |overlap[word]| == 2 {
        assert both - (pending - {word}) == (both - pending) + {word};
        count := count + 1;
      } else {
        assert both - (pending - {word}) == both - pending;
      }
      pending := pending - {word};
    }
  }

  /**
   * The counting part of `similarityScoring` over a dictionary that answers for the names
   * in `answered` before anything is stored in it.
   */
  method CountOverlap(si: Sentence, sj: Sentence, answered: set<string>) returns (wordOverlapCount: nat)
    ensures wordOverlapCount == |(Words(si.tokens) * Words(sj.tokens)) - answered|
  {
    var seenI := MarkWords(map[], si.tokens, InI, answered);
    var overlap := MarkWords(seenI, sj.tokens, InJ, answered);
    forall w | w in overlap
      ensures overlap[w] <= {InI, InJ}
      ensures InI in overlap[w] <==> w in si.tokens
      ensures InJ in overlap[w] <==> w in sj.tokens
    {
      if w in seenI {
        assert seenI[w] == {} + (if w in si.tokens then {InI} else {});
      }
    }
    wordOverlapCount := CountBoth(overlap);
    ghost var both := set w | w in overlap && InI in overlap[w] && InJ in overlap[w];
    assert both == (Words(si.tokens) * Words(sj.tokens)) - answered by {
      forall w | w in (Words(si.tokens) * Words(sj.tokens)) - answered ensures w in both {
        assert w in overlap.Keys;
      }
    }
  }

  /**
   * `similarityScoring`'s word count over a dictionary holding only what was stored in it:
   * the number of distinct words the two sentences share.
   */
  method SimilarityScoring(si: Sentence, sj: Sentence) returns (wordOverlapCount: nat)
    ensures wordOverlapCount == Overlap(si.tokens, sj.tokens)
  {
    wordOverlapCount := CountOverlap(si, sj, {});
    assert (Words(si.tokens) * Words(sj.tokens)) - {} == Words(si.tokens) * Words(sj.tokens);
  }

  // ------------------------------------------------------------ the dictionary as written

  /**
   * Members of `Object.prototype` other than `__proto__`. On a fresh `{}` each of them is
   * found through the prototype chain, so `!overlap[word]` is false for them, and none is
   * ever enumerated by `for ... in`.
   */
  const InheritedNames: set<string> := {
    "constructor", "hasOwnProperty", "isPrototypeOf", "propertyIsEnumerable",
    "toLocaleString", "toString", "valueOf",
    "__defineGetter__", "__defineSetter__", "__lookupGetter__", "__lookupSetter__"
  }

  /** What the plain-object dictionary of index.js:107 actually counts. */
  function OverlapAsWritten(a: seq<string>, b: seq<string>): nat
  {
    |(Words(a) * Words(b)) - InheritedNames|
  }

  /**
   * `similarityScoring`'s word count as written, over a plain object: a word naming an
   * inherited member reads as present, so no own entry is made for it (its marks land on
   * the inherited member, which the final `for ... in` never visits).
   */
  method SimilarityScoringAsWritten(si: Sentence, sj: Sentence) returns (wordOverlapCount: nat)
    requires "__proto__" !in si.tokens && "__proto__" !in sj.tokens
    ensures wordOverlapCount == OverlapAsWritten(si.tokens, sj.tokens)
  {
    wordOverlapCount := CountOverlap(si, sj, InheritedNames);
  }

  /**
   * Two sentences that share only the word "constructor" (which survives the default
   * tokenizer, being lower-case) get no overlap as written, though they share one word.
   */
  lemma ConstructorIsNeverShared()
    ensures OverlapAsWritten(["constructor"], ["the", "constructor"]) == 0
    ensures Overlap(["constructor"], ["the", "constructor"]) == 1
  {
    var a: seq<string> := ["constructor"];
    var b: seq<string> := ["the", "constructor"];
    assert Words(a) == {"constructor"};
    assert Words(b) == {"the", "constructor"};
    assert Words(a) * Words(b) == {"constructor"};
    assert (Words(a) * Words(b)) - InheritedNames == {};
  }

  /** Words outside the inherited names are counted the same either way. */
  lemma AsWrittenAgreesOffInheritedNames(a: seq<string>, b: seq<string>)
    requires forall w :: w in a && w in b ==> w !in InheritedNames
    ensures OverlapAsWritten(a, b) == Overlap(a, b)
  {
    assert (Words(a) * Words(b)) - InheritedNames == Words(a) * Words(b);
  }
}

/**
 * TextPreprocesser (index.js:274-365): cleans the article, cleans the sentence list,
 * splits each sentence into lower-case words and assembles the `index -> { sentence, tokens }`
 * table that becomes the vertex set. The sentence-boundary regex (`tokenizer`) is not
 * modelled; it is the `segment` parameter of OutputPreprocess.
 */
module Preprocess {
  import opened Wrappers
  import opened Strings

  /** One entry of the preprocessed article, `{ sentence: ..., tokens: ... }`. */
  datatype Sentence = Sentence(text: string, tokens: seq<string>)

  // ---------------------------------------------------------------- cleanArticle

  predicate NoDoubleSpace(s: string)
  {
    forall k :: 0 <= k < |s| - 1 ==> !(s[k] == ' ' && s[k + 1] == ' ')
  }

  /** `r` can be obtained from `s` by deleting some of its `' '` characters and nothing else. */
  predicate SpacesDeleted(s: string, r: string)
  {
    || (|s| == 0 && |r| == 0)
    || (|s| > 0 && |r| > 0 && s[0] == r[0] && SpacesDeleted(s[1..], r[1..]))
    || (|s| > 0 && s[0] == ' ' && SpacesDeleted(s[1..], r))
  }

  /**
   * `article.replace(/[ ]+(?= )/g, "")`: in every run of spaces all but the last space
   * are removed, so each run collapses to a single space.
   */
  function CleanArticle(s: string): (r: string)
    ensures NoDoubleSpace(r)
    ensures SpacesDeleted(s, r)
    ensures |s| > 0 ==> |r| > 0 && r[0] == s[0]
  {
    if |s| <= 1 then s
    else if s[0] == ' ' && s[1] == ' ' then CleanArticle(s[1..])
    else [s[0]] + CleanArticle(s[1..])
  }

  /** An article without a double space is left as it is. */
  lemma {:induction false} CleanArticleFixesSingleSpaced(s: string)
    requires NoDoubleSpace(s)
    ensures CleanArticle(s) == s
  {
    if |s| > 1 {
      assert NoDoubleSpace(s[1..]) by {
        forall k | 0 <= k < |s[1..]| - 1 ensures !(s[1..][k] == ' ' && s[1..][k + 1] == ' ') {
          assert s[1..][k] == s[k + 1] && s[1..][k + 1] == s[k + 2];
        }
      }
      CleanArticleFixesSingleSpaced(s[1..]);
      assert s == [s[0]] + s[1..];
    }
  }

  /** The number of runs of spaces in `s`: the spaces not followed by another space. */
  function SpaceRuns(s: string): nat
  {
    if |s| == 0 then 0
    else (if s[0] == ' ' && (|s| == 1 || s[1] != ' ') then 1 else 0) + SpaceRuns(s[1..])
  }

  /**
   * Every run of spaces keeps exactly one space: with `NoDoubleSpace` and `SpacesDeleted`,
   * this fixes the cleaned article.
   */
  lemma {:induction false} CleanArticleKeepsOneSpacePerRun(s: string)
    ensures Count(CleanArticle(s), ' ') == SpaceRuns(s)
  {
    if |s| == 0 {
    } else if |s| == 1 {
      assert s[1..] == [];
    } else if s[0] == ' ' && s[1] == ' ' {
      CleanArticleKeepsOneSpacePerRun(s[1..]);
    } else {
      CleanArticleKeepsOneSpacePerRun(s[1..]);
      assert ([s[0]] + CleanArticle(s[1..]))[1..] == CleanArticle(s[1..]);
    }
  }

  /** Cleaning twice is cleaning once. */
  lemma CleanArticleIdempotent(s: string)
    ensures CleanArticle(CleanArticle(s)) == CleanArticle(s)
  {
    CleanArticleFixesSingleSpaced(CleanArticle(s));
  }

  // ---------------------------------------------------------------- cleanTokens

  predicate IsSpaceOrDot(c: char)
  {
    c == ' ' || c == '.'
  }

  /**
   * The non-global replace of index.js:307: the pattern (any run of spaces and dots)
   * first matches at position 0, so exactly the leading run of spaces and dots is removed.
   */
  function StripLeading(s: string): string
  {
    if |s| > 0 && IsSpaceOrDot(s[0]) then StripLeading(s[1..]) else s
  }

  /**
   * What is left is a suffix of the token, everything removed is a space or a dot, and
   * what is left does not start with one.
   */
  lemma {:induction false} StripLeadingProperties(s: string)
    ensures var r := StripLeading(s);
            && |r| <= |s| && r == s[|s| - |r|..]
            && (forall k :: 0 <= k < |s| - |r| ==> IsSpaceOrDot(s[k]))
            && (|r| > 0 ==> !IsSpaceOrDot(r[0]))
  {
    if |s| > 0 && IsSpaceOrDot(s[0]) {
      StripLeadingProperties(s[1..]);
      var r := StripLeading(s);
      assert s[1..][|s| - 1 - |r|..] == s[|s| - |r|..];
      forall k | 0 <= k < |s| - |r| ensures IsSpaceOrDot(s[k]) {
        if k > 0 {
          assert s[k] == s[1..][k - 1];
        }
      }
    }
  }

  /** A token is stripped to nothing exactly when it consists of spaces and dots only. */
  lemma StripLeadingEmptyIff(s: string)
    ensures StripLeading(s) == "" <==> forall k :: 0 <= k < |s| ==> IsSpaceOrDot(s[k])
  {
    StripLeadingProperties(s);
    var r := StripLeading(s);
    if r != "" {
      assert s[|s| - |r|] == r[0];
    }
  }

  /** What `cleanTokens` leaves of a sentence list, read front to back. */
  function Cleaned(tokens: seq<string>): seq<string>
  {
    if |tokens| == 0 then []
    else (if tokens[0] == "" then [] else [StripLeading(tokens[0])]) + Cleaned(tokens[1..])
  }

  /** The entries of a list that are not the empty string, in their order. */
  function NonEmpty(tokens: seq<string>): (r: seq<string>)
    ensures forall k :: 0 <= k < |r| ==> r[k] != ""
    ensures |r| <= |tokens|
  {
    if |tokens| == 0 then []
    else (if tokens[0] == "" then [] else [tokens[0]]) + NonEmpty(tokens[1..])
  }

  /**
   * `cleanTokens` drops exactly the empty entries, keeps the order of the others and
   * strips each of those of its leading spaces and dots.
   */
  lemma {:induction false} CleanedIsStrippedNonEmpty(tokens: seq<string>)
    ensures |Cleaned(tokens)| == |NonEmpty(tokens)|
    ensures forall k :: 0 <= k < |Cleaned(tokens)| ==> Cleaned(tokens)[k] == StripLeading(NonEmpty(tokens)[k])
  {
    if |tokens| > 0 {
      CleanedIsStrippedNonEmpty(tokens[1..]);
    }
  }

  /** No cleaned entry starts with a space or a dot. */
  lemma {:induction false} CleanedHasNoLeadingSpaceOrDot(tokens: seq<string>)
    ensures forall k :: 0 <= k < |Cleaned(tokens)| && |Cleaned(tokens)[k]| > 0 ==> !IsSpaceOrDot(Cleaned(tokens)[k][0])
  {
    CleanedIsStrippedNonEmpty(tokens);
    forall k | 0 <= k < |Cleaned(tokens)| && |Cleaned(tokens)[k]| > 0 ensures !IsSpaceOrDot(Cleaned(tokens)[k][0]) {
      StripLeadingProperties(NonEmpty(tokens)[k]);
    }
  }

  /**
   * An entry made only of spaces and dots is not removed: it is cleaned to `""` and kept,
   * so the cleaned list can hold empty sentences.
   */
  lemma {:induction false} BlankEntryKeptEmpty(tokens: seq<string>, i: nat)
    requires i < |tokens| && tokens[i] != ""
    requires forall k :: 0 <= k < |tokens[i]| ==> IsSpaceOrDot(tokens[i][k])
    ensures "" in Cleaned(tokens)
  {
    StripLeadingEmptyIff(tokens[i]);
    if i > 0 {
      BlankEntryKeptEmpty(tokens[1..], i - 1);
    }
  }

  lemma CleanedStep(tokens: seq<string>, i: nat)
    requires i < |tokens|
    ensures tokens[..i + 1] == tokens[..i] + [tokens[i]]
    ensures Cleaned(tokens[i..]) == (if tokens[i] == "" then [] else [StripLeading(tokens[i])]) + Cleaned(tokens[i + 1..])
  {
    assert tokens[i..][1..] == tokens[i + 1..];
  }

  /** Splicing out, or overwriting, the entry between a prefix and a suffix. */
  lemma SpliceAt(prefix: seq<string>, x: string, rest: seq<string>, y: string)
    ensures var s := prefix + [x] + rest;
            && s[|prefix|] == x
            && s[..|prefix|] + s[|prefix| + 1..] == prefix + rest
            && s[|prefix| := y] == prefix + [y] + rest
  {
    var s := prefix + [x] + rest;
    assert s[..|prefix|] == prefix;
    assert s[|prefix| + 1..] == rest;
  }

  /** One backward step of `cleanTokens`: splicing or stripping entry `i` extends the cleaned suffix. */
  lemma CleanTokensStep(tokens: seq<string>, i: nat, out: seq<string>)
    requires i < |tokens| && out == tokens[..i + 1] + Cleaned(tokens[i + 1..])
    ensures out[i] == tokens[i]
    ensures tokens[i] == "" ==> out[..i] + out[i + 1..] == tokens[..i] + Cleaned(tokens[i..])
    ensures tokens[i] != "" ==> out[i := StripLeading(tokens[i])] == tokens[..i] + Cleaned(tokens[i..])
  {
    var rest := Cleaned(tokens[i + 1..]);
    CleanedStep(tokens, i);
    SpliceAt(tokens[..i], tokens[i], rest, StripLeading(tokens[i]));
    assert out == tokens[..i] + [tokens[i]] + rest;
  }

  /**
   * `cleanTokens` (index.js:293-312): walks the list from the back, splicing out empty
   * entries and stripping the others in place.
   */
  method CleanTokens(tokens: seq<string>) returns (out: seq<string>)
    ensures out == Cleaned(tokens)
  {
    out := tokens;
    var i := |tokens| - 1;
    while i >= 0
      invariant -1 <= i < |tokens|
      invariant out == tokens[..i + 1] + Cleaned(tokens[i + 1..])
    {
      CleanTokensStep(tokens, i, out);
      var token := out[i];
      if token == "" {
        out := out[..i] + out[i + 1..];
      } else {
        out := out[i := StripLeading(token)];
      }
      i := i - 1;
    }
    assert tokens[0..] == tokens;
  }

  // ---------------------------------------------------------------- tokenizeASentence

  /** `toLowerCase`, for ASCII letters only. */
  function Lower(c: char): char
  {
    if 'A' <= c <= 'Z' then (c as int + 32) as char else c
  }

  function LowerCase(s: string): string
  {
    seq(|s|, k requires 0 <= k < |s| => Lower(s[k]))
  }

  /** The character class `[-|'|"|(|)|/|<|>|,|:|;]` of index.js:329 and 333. */
  predicate IsDelimiter(c: char)
  {
    c in "-|'\"()/<>,:;"
  }

  /** The characters of `s` that are neither spaces nor delimiters, in order. */
  function WordChars(s: string): (r: string)
    ensures forall c :: c in r ==> c in s && c != ' ' && !IsDelimiter(c)
  {
    if |s| == 0 then ""
    else (if s[0] == ' ' || IsDelimiter(s[0]) then "" else [s[0]]) + WordChars(s[1..])
  }

  /** The number of delimiters in `s` that are not directly followed by a space. */
  function DelimitersNotBeforeSpace(s: string): nat
  {
    if |s| == 0 then 0
    else (if IsDelimiter(s[0]) && !(|s| > 1 && s[1] == ' ') then 1 else 0) + DelimitersNotBeforeSpace(s[1..])
  }

  /**
   * The two replacements of index.js:329-334 in one pass: a delimiter not followed by a
   * space (lookahead on the original string) becomes a space, and every remaining
   * delimiter, which is one followed by a space, is deleted.
   */
  function Normalize(s: string): string
  {
    if |s| == 0 then ""
    else if IsDelimiter(s[0]) then
      if |s| > 1 && s[1] == ' ' then Normalize(s[1..]) else " " + Normalize(s[1..])
    else [s[0]] + Normalize(s[1..])
  }

  /** No delimiter survives the two replacements. */
  lemma {:induction false} NormalizeNoDelimiters(s: string)
    ensures forall k :: 0 <= k < |Normalize(s)| ==> !IsDelimiter(Normalize(s)[k])
  {
    if |s| > 0 {
      NormalizeNoDelimiters(s[1..]);
      var rest := Normalize(s[1..]);
      var r := Normalize(s);
      forall k | 0 <= k < |r| ensures !IsDelimiter(r[k]) {
        if r != rest && k > 0 {
          assert r[k] == rest[k - 1];
        }
      }
    }
  }

  /** The replacements keep every character that is neither a space nor a delimiter, in order. */
  lemma {:induction false} NormalizeKeepsWordChars(s: string)
    ensures WordChars(Normalize(s)) == WordChars(s)
  {
    if |s| > 0 {
      NormalizeKeepsWordChars(s[1..]);
      var rest := Normalize(s[1..]);
      if IsDelimiter(s[0]) {
        if !(|s| > 1 && s[1] == ' ') {
          assert (" " + rest)[1..] == rest;
        }
      } else {
        assert ([s[0]] + rest)[1..] == rest;
      }
    }
  }

  /** Each delimiter not followed by a space adds one space; no space is removed. */
  lemma {:induction false} NormalizeSpaces(s: string)
    ensures Count(Normalize(s), ' ') == Count(s, ' ') + DelimitersNotBeforeSpace(s)
  {
    if |s| > 0 {
      NormalizeSpaces(s[1..]);
      var rest := Normalize(s[1..]);
      if IsDelimiter(s[0]) {
        if !(|s| > 1 && s[1] == ' ') {
          assert (" " + rest)[1..] == rest;
        }
      } else {
        assert ([s[0]] + rest)[1..] == rest;
      }
    }
  }

  /** The characters of every piece end up, in order, in the concatenation of the pieces. */
  lemma {:induction false} ConcatSplit(s: string)
    ensures Concat(Split(s, ' ')) == WordCharsOrDelims(s)
  {
    if |s| > 0 {
      ConcatSplit(s[1..]);
      var rest := Split(s[1..], ' ');
      if s[0] != ' ' {
        assert Concat(Split(s, ' ')) == [s[0]] + rest[0] + Concat(rest[1..]);
        assert Concat(rest) == rest[0] + Concat(rest[1..]);
      }
    }
  }

  /** `s` with only its spaces removed. */
  function WordCharsOrDelims(s: string): (r: string)
  {
    if |s| == 0 then "" else (if s[0] == ' ' then "" else [s[0]]) + WordCharsOrDelims(s[1..])
  }

  lemma {:induction false} NoDelimitersWordChars(s: string)
    requires forall k :: 0 <= k < |s| ==> !IsDelimiter(s[k])
    ensures WordCharsOrDelims(s) == WordChars(s)
  {
    if |s| > 0 {
      NoDelimitersWordChars(s[1..]);
    }
  }

  lemma {:induction false} InConcat(xs: seq<string>, k: nat, c: char)
    requires k < |xs| && c in xs[k]
    ensures c in Concat(xs)
  {
    if k > 0 {
      InConcat(xs[1..], k - 1, c);
    }
  }

  /**
   * `tokenizeASentence` (index.js:315-338): lower-case, turn delimiters into spaces or
   * delete them, split on single spaces.
   */
  function TokenizeASentence(sentence: string): seq<string>
  {
    Split(Normalize(LowerCase(sentence)), ' ')
  }

  /** Joining the tokens with spaces gives the processed sentence back, so tokens may be empty. */
  lemma TokensJoinBack(sentence: string)
    ensures Join(TokenizeASentence(sentence), ' ') == Normalize(LowerCase(sentence))
  {
    JoinSplit(Normalize(LowerCase(sentence)), ' ');
  }

  /** There is one token more than there are spaces after the delimiter replacements. */
  lemma TokenCount(sentence: string)
    ensures |TokenizeASentence(sentence)|
         == Count(LowerCase(sentence), ' ') + DelimitersNotBeforeSpace(LowerCase(sentence)) + 1
  {
    NormalizeSpaces(LowerCase(sentence));
  }

  /**
   * The tokens together hold exactly the sentence's non-space, non-delimiter characters,
   * lower-cased and in order (`.`, `!` and `?` among them).
   */
  lemma TokensHoldWordChars(sentence: string)
    ensures Concat(TokenizeASentence(sentence)) == WordChars(LowerCase(sentence))
  {
    var n := Normalize(LowerCase(sentence));
    ConcatSplit(n);
    NormalizeNoDelimiters(LowerCase(sentence));
    NoDelimitersWordChars(n);
    NormalizeKeepsWordChars(LowerCase(sentence));
  }

  /** No token holds a space, a delimiter or an upper-case ASCII letter. */
  lemma TokensAreClean(sentence: string)
    ensures forall k, c :: 0 <= k < |TokenizeASentence(sentence)| && c in TokenizeASentence(sentence)[k] ==>
              c != ' ' && !IsDelimiter(c) && !('A' <= c <= 'Z')
  {
    var tokens := TokenizeASentence(sentence);
    TokensHoldWordChars(sentence);
    forall k, c | 0 <= k < |tokens| && c in tokens[k] ensures c != ' ' && !IsDelimiter(c) && !('A' <= c <= 'Z') {
      InConcat(tokens, k, c);
      assert c in LowerCase(sentence);
    }
  }

  // ---------------------------------------------------------------- outputPreprocess

  /** User-supplied sentences are used only when both the sentences and their words are given. */
  predicate UsingUserTokens(userTokens: Option<seq<string>>, userSplit: Option<seq<seq<string>>>)
  {
    userTokens.Some? && userSplit.Some?
  }

  /** The sentence list the vertex table is built from. */
  function SentenceTexts(article: string, userTokens: Option<seq<string>>, userSplit: Option<seq<seq<string>>>,
                         segment: string -> seq<string>): seq<string>
  {
    if UsingUserTokens(userTokens, userSplit) then userTokens.value
    else Cleaned(segment(CleanArticle(article)))
  }

  /** The words stored for sentence `i` of `texts`: the user's, or the tokenizer's (index.js:354-356). */
  function WordsOf(texts: seq<string>, i: nat, userTokens: Option<seq<string>>, userSplit: Option<seq<seq<string>>>): seq<string>
    requires i < |texts|
    requires UsingUserTokens(userTokens, userSplit) ==> i < |userSplit.value|
  {
    if UsingUserTokens(userTokens, userSplit) then userSplit.value[i] else TokenizeASentence(texts[i])
  }

  /** The `index -> { sentence, tokens }` table for the given inputs. */
  function VertexTable(article: string, userTokens: Option<seq<string>>, userSplit: Option<seq<seq<string>>>,
                       segment: string -> seq<string>): (table: seq<Sentence>)
    requires UsingUserTokens(userTokens, userSplit) ==> |userSplit.value| >= |userTokens.value|
  {
    var texts := SentenceTexts(article, userTokens, userSplit, segment);
    seq(|texts|, i requires 0 <= i < |texts| => Sentence(texts[i], WordsOf(texts, i, userTokens, userSplit)))
  }

  /**
   * `outputPreprocess` (index.js:340-362): entry `i` holds sentence `i` and its words,
   * the user's when both user lists are given and the tokenizer's otherwise.
   */
  method OutputPreprocess(article: string, userTokens: Option<seq<string>>, userSplit: Option<seq<seq<string>>>,
                          segment: string -> seq<string>)
    returns (output: seq<Sentence>)
    requires UsingUserTokens(userTokens, userSplit) ==> |userSplit.value| >= |userTokens.value|
    ensures output == VertexTable(article, userTokens, userSplit, segment)
  {
    var cleanedArticle := CleanArticle(article);
    var usingUserDefinedTokens := UsingUserTokens(userTokens, userSplit);
    var tokens: seq<string>;
    if usingUserDefinedTokens {
      tokens := userTokens.value;
    } else {
      tokens := CleanTokens(segment(cleanedArticle));
    }
    assert tokens == SentenceTexts(article, userTokens, userSplit, segment);
    output := TokenizeAll(tokens, userTokens, userSplit);
  }

  /** The loop of `outputPreprocess` (index.js:350-359): one entry per sentence, in order. */
  method TokenizeAll(tokens: seq<string>, userTokens: Option<seq<string>>, userSplit: Option<seq<seq<string>>>)
    returns (output: seq<Sentence>)
    requires UsingUserTokens(userTokens, userSplit) ==> |userSplit.value| >= |tokens|
    ensures |output| == |tokens|
    ensures forall k :: 0 <= k < |tokens| ==> output[k] == Sentence(tokens[k], WordsOf(tokens, k, userTokens, userSplit))
  {
    output := [];
    for i := 0 to |tokens|
      invariant |output| == i
      invariant forall k :: 0 <= k < i ==> output[k] == Sentence(tokens[k], WordsOf(tokens, k, userTokens, userSplit))
    {
      var tokenizedSentence := WordsOf(tokens, i, userTokens, userSplit);
      output := output + [Sentence(tokens[i], tokenizedSentence)];
    }
  }

  /**
   * Without user lists, the table holds one entry per non-empty segment of the cleaned
   * article, in order, and each entry's words are its sentence tokenized.
   */
  lemma TableFromArticle(article: string, segment: string -> seq<string>, i: nat)
    requires i < |VertexTable(article, None, None, segment)|
    ensures |VertexTable(article, None, None, segment)| == |NonEmpty(segment(CleanArticle(article)))|
    ensures VertexTable(article, None, None, segment)[i].text == StripLeading(NonEmpty(segment(CleanArticle(article)))[i])
    ensures Join(VertexTable(article, None, None, segment)[i].tokens, ' ')
         == Normalize(LowerCase(VertexTable(article, None, None, segment)[i].text))
  {
    CleanedIsStrippedNonEmpty(segment(CleanArticle(article)));
    TokensJoinBack(VertexTable(article, None, None, segment)[i].text);
  }

  /** With both user lists the article is ignored and the user's sentences and words are used as given. */
  lemma TableFromUserLists(article: string, userTokens: seq<string>, userSplit: seq<seq<string>>,
                           segment: string -> seq<string>, i: nat)
    requires |userSplit| >= |userTokens| && i < |userTokens|
    ensures |VertexTable(article, Some(userTokens), Some(userSplit), segment)| == |userTokens|
    ensures VertexTable(article, Some(userTokens), Some(userSplit), segment)[i] == Sentence(userTokens[i], userSplit[i])
  {
  }
}

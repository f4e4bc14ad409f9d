/**
 * Feature extraction for the trainer: `preprocess` (tokenise the lowercased
 * review, drop punctuation tokens and stop-words) and `build_features` (the
 * presence map of the remaining tokens). The tokenizer and the stop-word list
 * are not defined by this model; they are given as an `Nlp` value.
 */
module Features {
  import opened Seqs
  import opened Text

  /** The foreign parts of `preprocess`: `word_tokenize` and `set(stopwords.words('portuguese'))`. */
  datatype Nlp = Nlp(tokenize: string -> seq<string>, stopWords: set<string>)

  /** Python's `string.punctuation`. */
  const Punctuation: string := "!\"#$%&'()*+,-./:;<=>?@[\\]^_`{|}~"

  /**
   * `t in string.punctuation`. The right operand is a string, so this is a
   * substring test: a token that is a contiguous slice of `string.punctuation`,
   * such as "()" or "<=>", counts, while other runs such as "?!" or "..." do not.
   */
  predicate IsPunctuation(t: string)
  {
    Occurs(t, Punctuation)
  }

  /** The comprehension's condition `t not in string.punctuation and t not in stop_words`. */
  predicate KeepsToken(nlp: Nlp, t: string)
  {
    !IsPunctuation(t) && t !in nlp.stopWords
  }

  function KeepsTokenOf(nlp: Nlp): string -> bool
  {
    t => KeepsToken(nlp, t)
  }

  /** The list comprehension of `preprocess` over a token list. */
  function FilterTokens(nlp: Nlp, tokens: seq<string>): seq<string>
  {
    Filter(KeepsTokenOf(nlp), tokens)
  }

  /** `preprocess(text)`. */
  function Preprocess(u: Unicode, nlp: Nlp, text: string): seq<string>
  {
    FilterTokens(nlp, nlp.tokenize(Lower(u, text)))
  }

  /**
   * `preprocess` keeps the tokenizer's tokens in their order, removes every
   * punctuation token and every stop-word, and keeps every other token as many
   * times as the tokenizer produced it.
   */
  lemma PreprocessSpec(u: Unicode, nlp: Nlp, text: string)
    ensures var tokens := nlp.tokenize(Lower(u, text));
      var r := Preprocess(u, nlp, text);
      && IsSubsequence(r, tokens)
      && (forall i :: 0 <= i < |r| ==> !IsPunctuation(r[i]) && r[i] !in nlp.stopWords)
      && (forall t :: multiset(r)[t] == if KeepsToken(nlp, t) then multiset(tokens)[t] else 0)
  {
    FilterTokensSpec(nlp, nlp.tokenize(Lower(u, text)));
    FilterTokensCounts(nlp, nlp.tokenize(Lower(u, text)));
  }

  /** The comprehension of `preprocess`, on any token list, keeps tokens in order and only those it should. */
  lemma FilterTokensSpec(nlp: Nlp, tokens: seq<string>)
    ensures var r := FilterTokens(nlp, tokens);
      && IsSubsequence(r, tokens)
      && (forall i :: 0 <= i < |r| ==> KeepsToken(nlp, r[i]))
  {
    var r := FilterTokens(nlp, tokens);
    FilterSubsequence(KeepsTokenOf(nlp), tokens);
    forall i | 0 <= i < |r| ensures KeepsToken(nlp, r[i]) {
      assert KeepsTokenOf(nlp)(r[i]);
    }
  }

  /** The comprehension keeps every kept token as often as it occurs. */
  lemma FilterTokensCounts(nlp: Nlp, tokens: seq<string>)
    ensures var r := FilterTokens(nlp, tokens);
      forall t :: multiset(r)[t] == if KeepsToken(nlp, t) then multiset(tokens)[t] else 0
  {
    FilterCounts(KeepsTokenOf(nlp), tokens);
    var r := FilterTokens(nlp, tokens);
    forall t ensures multiset(r)[t] == if KeepsToken(nlp, t) then multiset(tokens)[t] else 0 {
      assert KeepsTokenOf(nlp)(t) == KeepsToken(nlp, t);
    }
  }

  /** Every single punctuation character, as a token of its own, is dropped. */
  lemma PunctuationCharDropped(nlp: Nlp, i: nat)
    requires i < |Punctuation|
    ensures !KeepsToken(nlp, [Punctuation[i]])
  {
    assert Punctuation[i..i + 1] == [Punctuation[i]];
    OccursAt([Punctuation[i]], Punctuation);
    assert OccursAtOffset([Punctuation[i]], Punctuation, i);
  }

  /** A token with a letter in it is never taken for punctuation. */
  lemma LetterNotPunctuation(t: string, i: nat)
    requires i < |t| && 'a' <= t[i] <= 'z'
    ensures !IsPunctuation(t)
  {
    OccursAt(t, Punctuation);
    if IsPunctuation(t) {
      var k :| OccursAtOffset(t, Punctuation, k);
      PunctuationHasNoLetters(k + i);
    }
  }

  /** `string.punctuation` holds no lower-case ASCII letter. */
  lemma PunctuationHasNoLetters(j: nat)
    requires j < |Punctuation|
    ensures !('a' <= Punctuation[j] <= 'z')
  {
  }

  /** No two neighbouring characters of `string.punctuation` are equal. */
  lemma PunctuationNoRepeats(j: nat)
    requires j + 1 < |Punctuation|
    ensures Punctuation[j] != Punctuation[j + 1]
  {
  }

  /**
   * A token with two equal neighbouring characters is not a substring of
   * `string.punctuation`: the tokenizer's "...", "``" and "''" are not treated
   * as punctuation and survive unless they are stop-words.
   */
  lemma RepeatedCharNotPunctuation(t: string, i: nat)
    requires i + 1 < |t| && t[i] == t[i + 1]
    ensures !IsPunctuation(t)
  {
    OccursAt(t, Punctuation);
    if IsPunctuation(t) {
      var k :| OccursAtOffset(t, Punctuation, k);
      PunctuationNoRepeats(k + i);
    }
  }

  /** In `string.punctuation` the question mark is followed by the at sign. */
  lemma QuestionMarkThenAt(j: nat)
    requires j + 1 < |Punctuation| && Punctuation[j] == '?'
    ensures Punctuation[j + 1] == '@'
  {
  }

  /**
   * A token in which a question mark is followed by anything but the at sign is
   * not a substring of `string.punctuation`, although it may be made only of
   * punctuation characters, as "?!" is.
   */
  lemma QuestionNotBeforeAt(t: string, i: nat)
    requires i + 1 < |t| && t[i] == '?' && t[i + 1] != '@'
    ensures !IsPunctuation(t)
  {
    OccursAt(t, Punctuation);
    if IsPunctuation(t) {
      var k :| OccursAtOffset(t, Punctuation, k);
      QuestionMarkThenAt(k + i);
    }
  }

  /** The token "?!" survives the filter unless it is a stop-word. */
  lemma QuestionExclamationKept(nlp: Nlp)
    requires "?!" !in nlp.stopWords
    ensures KeepsToken(nlp, "?!")
  {
    QuestionNotBeforeAt("?!", 0);
  }

  /** The ellipsis token survives the filter unless it is a stop-word. */
  lemma EllipsisKept(nlp: Nlp)
    requires "..." !in nlp.stopWords
    ensures KeepsToken(nlp, "...")
  {
    RepeatedCharNotPunctuation("...", 0);
  }

  /**
   * `build_features(tokens)`: `{word: True for word in tokens}`, inserting the
   * tokens one after another.
   */
  function BuildFeatures(tokens: seq<string>): (r: map<string, bool>)
    ensures r.Keys == set t | t in tokens
    ensures forall t :: t in r ==> r[t]
    decreases |tokens|
  {
    if tokens == [] then map[]
    else BuildFeatures(tokens[..|tokens| - 1])[tokens[|tokens| - 1] := true]
  }

  /** The feature map depends only on which tokens occur, not on their order or repetition. */
  lemma FeaturesDependOnTokenSet(a: seq<string>, b: seq<string>)
    requires (set t | t in a) == (set t | t in b)
    ensures BuildFeatures(a) == BuildFeatures(b)
  {
  }

  /** Repeating a token leaves the feature map unchanged. */
  lemma FeaturesIgnoreRepeats(a: seq<string>, t: string, b: seq<string>)
    ensures BuildFeatures(a + [t, t] + b) == BuildFeatures(a + [t] + b)
  {
    FeaturesDependOnTokenSet(a + [t, t] + b, a + [t] + b);
  }
}

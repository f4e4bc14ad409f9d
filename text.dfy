/**
 * Text normalisation of the labeller: `re.sub(r'[^\w\s]', '', texto.lower())`.
 * Unicode case mapping and the regular-expression classes `\w` and `\s` are not
 * defined by this model; they are given as a `Unicode` value.
 */
module Text {
  import opened Seqs

  /**
   * The Unicode facts the normaliser relies on: the lowercase mapping of a code
   * point, and membership of a code point in `\w` and in `\s`.
   */
  datatype Unicode = Unicode(lower: char -> char, isWord: char -> bool, isSpace: char -> bool)

  /** The lowercase mapping is idempotent: a lowercased code point lowercases to itself. */
  ghost predicate LowerIdempotent(u: Unicode)
  {
    forall c :: u.lower(u.lower(c)) == u.lower(c)
  }

  /** `s.lower()`, code point by code point. */
  function Lower(u: Unicode, s: string): (r: string)
    ensures |r| == |s|
    ensures forall i :: 0 <= i < |s| ==> r[i] == u.lower(s[i])
  {
    seq(|s|, i requires 0 <= i < |s| => u.lower(s[i]))
  }

  /** A code point the regular expression `[^\w\s]` does not match, so it survives the substitution. */
  predicate IsWordOrSpace(u: Unicode, c: char)
  {
    u.isWord(c) || u.isSpace(c)
  }

  /** The character filter `[^\w\s]` as a condition on code points. */
  function KeepsChar(u: Unicode): char -> bool
  {
    c => IsWordOrSpace(u, c)
  }

  /** `re.sub(r'[^\w\s]', '', s)`: delete every code point outside `\w` and `\s`. */
  function StripNonWord(u: Unicode, s: string): string
  {
    Filter(KeepsChar(u), s)
  }

  /** The cleaned text `texto_limpo` the labeller searches in. */
  function Clean(u: Unicode, texto: string): string
  {
    StripNonWord(u, Lower(u, texto))
  }

  /**
   * The cleaned text holds only word and whitespace characters, is no longer
   * than the input, keeps the lowercased characters in their order, and drops
   * none of the lowercased word or whitespace characters.
   */
  lemma CleanShape(u: Unicode, texto: string)
    ensures var c := Clean(u, texto);
      && |c| <= |texto|
      && (forall i :: 0 <= i < |c| ==> IsWordOrSpace(u, c[i]))
      && IsSubsequence(c, Lower(u, texto))
      && (forall x :: multiset(c)[x] == if IsWordOrSpace(u, x) then multiset(Lower(u, texto))[x] else 0)
  {
    var c := Clean(u, texto);
    FilterSubsequence(KeepsChar(u), Lower(u, texto));
    FilterCounts(KeepsChar(u), Lower(u, texto));
    forall i | 0 <= i < |c| ensures IsWordOrSpace(u, c[i]) {
      assert KeepsChar(u)(c[i]);
    }
  }

  /** Text made of word and whitespace characters only is left as it is by the substitution. */
  lemma StripNonWordFixes(u: Unicode, s: string)
    requires forall i :: 0 <= i < |s| ==> IsWordOrSpace(u, s[i])
    ensures StripNonWord(u, s) == s
  {
    FilterAllKept(KeepsChar(u), s);
  }

  /**
   * Normalising is idempotent when lowercasing is: the cleaned text is already
   * lowercase and holds no character for the substitution to remove.
   */
  lemma CleanIdempotent(u: Unicode, texto: string)
    requires LowerIdempotent(u)
    ensures Clean(u, Clean(u, texto)) == Clean(u, texto)
  {
    var low := Lower(u, texto);
    var c := Clean(u, texto);
    CleanShape(u, texto);
    forall i | 0 <= i < |c|
      ensures u.lower(c[i]) == c[i]
    {
      SubsequenceMembers(c, low, i);
      var j :| 0 <= j < |low| && low[j] == c[i];
      assert low[j] == u.lower(texto[j]);
    }
    assert Lower(u, c) == c;
    StripNonWordFixes(u, c);
  }
}

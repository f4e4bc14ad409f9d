/**
 * The lexicon auto-labeller `rotular_automaticamente`: clean the review, then
 * test three constant phrase sets by substring containment, positives first.
 */
module Lexicon {
  import opened Wrappers
  import opened Seqs
  import opened Text

  /** The three labels the auto-labeller produces. */
  datatype Sentiment = Positivo | Negativo | Neutro
  {
    /** The label as the program spells it. */
    function Name(): string
    {
      match this
      case Positivo => "positivo"
      case Negativo => "negativo"
      case Neutro => "neutro"
    }
  }

  /** The label whose name is `s`, if there is one. */
  function FromName(s: string): (r: Option<Sentiment>)
    ensures r.Some? <==> s in {"positivo", "negativo", "neutro"}
    ensures r.Some? ==> r.value.Name() == s
  {
    if s == "positivo" then Some(Positivo)
    else if s == "negativo" then Some(Negativo)
    else if s == "neutro" then Some(Neutro)
    else None
  }

  /** Every label has one of the three names, and its name gives it back. */
  lemma NameRoundTrip(l: Sentiment)
    ensures l.Name() in {"positivo", "negativo", "neutro"}
    ensures FromName(l.Name()) == Some(l)
  {
  }

  const Positivas: set<string> := {"ótimo", "excelente", "adorei", "bom", "maravilhoso", "superou",
    "perfeito", "gostei", "satisfatória", "qualidade", "resolução", "bonita"}
  const Negativas: set<string> := {"ruim", "horrível", "péssimo", "não gostei", "esperava mais",
    "lento", "defeito", "problema"}
  const Neutras: set<string> := {"regular", "ok", "aceitável", "mediano", "normal", "cumpre"}

  /** `any(p in texto for p in phrases)`. */
  predicate AnyOccurs(phrases: set<string>, texto: string)
  {
    exists p | p in phrases :: Occurs(p, texto)
  }

  /** The priority test on the cleaned text; a neutral hit and no hit end in the same branch. */
  function Classify(limpo: string): Sentiment
  {
    if AnyOccurs(Positivas, limpo) then Positivo
    else if AnyOccurs(Negativas, limpo) then Negativo
    else if AnyOccurs(Neutras, limpo) then Neutro
    else Neutro
  }

  /**
   * `rotular_automaticamente(texto)`, defined on every string. A positive phrase
   * decides, whatever else occurs; a negative phrase decides only when no positive
   * one occurs; otherwise the label is neutral, whether or not a neutral phrase occurs.
   */
  function Label(u: Unicode, texto: string): Sentiment
  {
    Classify(Clean(u, texto))
  }

  /**
   * Every string gets a label: positive exactly when a positive phrase occurs in
   * the cleaned text, negative exactly when none does and a negative phrase
   * does, and neutral exactly when neither kind occurs, whatever the neutral
   * phrases do.
   */
  lemma LabelSpec(u: Unicode, texto: string)
    ensures var r := Label(u, texto);
      var limpo := Clean(u, texto);
      && (r == Positivo <==> AnyOccurs(Positivas, limpo))
      && (r == Negativo <==> !AnyOccurs(Positivas, limpo) && AnyOccurs(Negativas, limpo))
      && (r == Neutro <==> !AnyOccurs(Positivas, limpo) && !AnyOccurs(Negativas, limpo))
  {
  }

  /** Positioned occurrence is occurrence. */
  lemma OccursHere(p: string, s: string, k: nat)
    requires k + |p| <= |s| && s[k..k + |p|] == p
    ensures Occurs(p, s)
  {
    OccursAt(p, s);
    assert OccursAtOffset(p, s, k);
  }

  /** A phrase holding a character the text lacks does not occur in it. */
  lemma Misses(p: string, s: string, c: char)
    requires c in p && c !in s
    ensures !Occurs(p, s)
  {
    OccursAt(p, s);
  }

  /** The positive phrase "gostei" lies inside the negative phrase "não gostei". */
  lemma GosteiInsideNaoGostei()
    ensures "gostei" in Positivas && "não gostei" in Negativas
    ensures Occurs("gostei", "não gostei")
  {
    OccursHere("gostei", "não gostei", 4);
  }

  /** Any text containing "não gostei" ("did not like") is labelled positive. */
  lemma NaoGosteiIsPositive(limpo: string)
    requires Occurs("não gostei", limpo)
    ensures Classify(limpo) == Positivo
  {
    GosteiInsideNaoGostei();
    OccursTransitive("gostei", "não gostei", limpo);
  }

  /**
   * The negative phrase "não gostei" never decides a label: the outcome is negative
   * exactly when no positive phrase and one of the other seven negative phrases occurs.
   */
  lemma NegativeIff(u: Unicode, texto: string)
    ensures var c := Clean(u, texto);
      Label(u, texto) == Negativo <==>
        !AnyOccurs(Positivas, c) && AnyOccurs(Negativas - {"não gostei"}, c)
  {
    var c := Clean(u, texto);
    if !AnyOccurs(Positivas, c) && AnyOccurs(Negativas, c) {
      var n :| n in Negativas && Occurs(n, c);
      if n == "não gostei" {
        NaoGosteiIsPositive(c);
      }
      assert n in Negativas - {"não gostei"};
    }
  }

  /** Labelling the cleaned text gives the same label as labelling the raw text. */
  lemma LabelIdempotent(u: Unicode, texto: string)
    requires LowerIdempotent(u)
    ensures Label(u, Clean(u, texto)) == Label(u, texto)
  {
    CleanIdempotent(u, texto);
  }

  /** Every positive phrase contains an 'a', 'e' or 'o', so a text without them is never positive. */
  lemma PositivesNeedAEOrO(s: string)
    requires 'a' !in s && 'e' !in s && 'o' !in s
    ensures !AnyOccurs(Positivas, s)
  {
    Misses("ótimo", s, 'o');
    Misses("excelente", s, 'e');
    Misses("adorei", s, 'o');
    Misses("bom", s, 'o');
    Misses("maravilhoso", s, 'o');
    Misses("superou", s, 'o');
    Misses("perfeito", s, 'o');
    Misses("gostei", s, 'o');
    Misses("satisfatória", s, 'a');
    Misses("qualidade", s, 'e');
    Misses("resolução", s, 'o');
    Misses("bonita", s, 'o');
  }

  /** Every positive phrase contains an 'a', 'b', 'e' or 't'. */
  lemma PositivesNeedABEOrT(s: string)
    requires 'a' !in s && 'b' !in s && 'e' !in s && 't' !in s
    ensures !AnyOccurs(Positivas, s)
  {
    Misses("ótimo", s, 't');
    Misses("excelente", s, 'e');
    Misses("adorei", s, 'a');
    Misses("bom", s, 'b');
    Misses("maravilhoso", s, 'a');
    Misses("superou", s, 'e');
    Misses("perfeito", s, 'e');
    Misses("gostei", s, 'e');
    Misses("satisfatória", s, 'a');
    Misses("qualidade", s, 'a');
    Misses("resolução", s, 'e');
    Misses("bonita", s, 'a');
  }

  /** Every negative phrase contains an 'o', 'e' or 'i'. */
  lemma NegativesNeedOEOrI(s: string)
    requires 'o' !in s && 'e' !in s && 'i' !in s
    ensures !AnyOccurs(Negativas, s)
  {
    Misses("ruim", s, 'i');
    Misses("horrível", s, 'o');
    Misses("péssimo", s, 'o');
    Misses("não gostei", s, 'o');
    Misses("esperava mais", s, 'e');
    Misses("lento", s, 'e');
    Misses("defeito", s, 'e');
    Misses("problema", s, 'o');
  }

  /** Every negative phrase contains an 'a', 'e', 'r' or 's'. */
  lemma NegativesNeedAEROrS(s: string)
    requires 'a' !in s && 'e' !in s && 'r' !in s && 's' !in s
    ensures !AnyOccurs(Negativas, s)
  {
    Misses("ruim", s, 'r');
    Misses("horrível", s, 'r');
    Misses("péssimo", s, 's');
    Misses("não gostei", s, 's');
    Misses("esperava mais", s, 'e');
    Misses("lento", s, 'e');
    Misses("defeito", s, 'e');
    Misses("problema", s, 'r');
  }
}

/**
 * Worked examples of the auto-labeller on cleaned review texts. Each text is a
 * parameter fixed by the precondition, so that the proofs reason about the
 * characters it lacks instead of evaluating every phrase test on the literal.
 */
module LexiconExamples {
  import opened Seqs
  import opened Lexicon

  /** "não gostei do produto" ("did not like the product") is labelled positive. */
  lemma ExampleNaoGostei(limpo: string)
    requires limpo == "não gostei do produto"
    ensures AnyOccurs(Negativas, limpo)
    ensures Classify(limpo) == Positivo
  {
    OccursHere("não gostei", limpo, 0);
    NaoGosteiIsPositive(limpo);
  }

  /** "ruim" ("bad") is labelled negative. */
  lemma ExampleRuim(limpo: string)
    requires limpo == "ruim"
    ensures Classify(limpo) == Negativo
  {
    PositivesNeedAEOrO(limpo);
    OccursHere("ruim", limpo, 0);
  }

  /** "ok" matches a neutral phrase and nothing else, and is labelled neutral. */
  lemma ExampleOk(limpo: string)
    requires limpo == "ok"
    ensures AnyOccurs(Neutras, limpo)
    ensures Classify(limpo) == Neutro
  {
    PositivesNeedABEOrT(limpo);
    NegativesNeedAEROrS(limpo);
    OccursHere("ok", limpo, 0);
  }

  /** The empty text matches no phrase and is labelled neutral, the same label as "ok". */
  lemma ExampleEmpty(limpo: string)
    requires limpo == ""
    ensures !AnyOccurs(Neutras, limpo)
    ensures Classify(limpo) == Neutro
  {
    PositivesNeedAEOrO(limpo);
    NegativesNeedOEOrI(limpo);
  }
}

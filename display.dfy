/**
 * The per-review card and the chart: an emoji looked up by label name with a
 * fallback, a card background colour and a bar colour chosen by label name.
 */
module Display {
  import opened Text
  import opened Lexicon

  /** The emoji dictionary of the review cards. */
  const Emojis: map<string, string> := map["positivo" := "🙂", "negativo" := "😞", "neutro" := "😐"]

  /** `{...}.get(sentimento, "❓")`. */
  function Emoji(sentimento: string): (e: string)
    ensures sentimento in {"positivo", "negativo", "neutro"} <==> e != "❓"
    ensures sentimento == "positivo" ==> e == "🙂"
    ensures sentimento == "negativo" ==> e == "😞"
    ensures sentimento == "neutro" ==> e == "😐"
  {
    if sentimento in Emojis then Emojis[sentimento] else "❓"
  }

  /** The card background: green for "positivo", red for "negativo", yellow for anything else. */
  function CardColour(sentimento: string): (c: string)
    ensures c == "#FFF3CD" <==> sentimento != "positivo" && sentimento != "negativo"
    ensures c == "#DFF6DD" <==> sentimento == "positivo"
    ensures c == "#F8D7DA" <==> sentimento == "negativo"
  {
    if sentimento == "positivo" then "#DFF6DD"
    else if sentimento == "negativo" then "#F8D7DA"
    else "#FFF3CD"
  }

  /** The chart bar colour: the same rule with the chart's own palette. */
  function BarColour(sentimento: string): (c: string)
    ensures c == "#ffc107" <==> sentimento != "positivo" && sentimento != "negativo"
    ensures c == "#28a745" <==> sentimento == "positivo"
    ensures c == "#dc3545" <==> sentimento == "negativo"
  {
    if sentimento == "positivo" then "#28a745"
    else if sentimento == "negativo" then "#dc3545"
    else "#ffc107"
  }

  /**
   * For every label the auto-labeller produces, the emoji fallback is never used,
   * and emoji, card colour and bar colour agree on which label it is.
   */
  lemma LabelDisplay(u: Unicode, frase: string)
    ensures var s := Label(u, frase).Name();
      && Emoji(s) != "❓"
      && (Emoji(s) == "🙂" <==> CardColour(s) == "#DFF6DD")
      && (Emoji(s) == "😞" <==> CardColour(s) == "#F8D7DA")
      && (Emoji(s) == "😐" <==> CardColour(s) == "#FFF3CD")
      && (CardColour(s) == "#DFF6DD" <==> BarColour(s) == "#28a745")
      && (CardColour(s) == "#F8D7DA" <==> BarColour(s) == "#dc3545")
      && (CardColour(s) == "#FFF3CD" <==> BarColour(s) == "#ffc107")
  {
  }
}

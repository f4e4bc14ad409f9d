/**
 * The statistics block: `Counter(df_estat['Reviews'].dropna().apply(rotular_automaticamente))`,
 * the label frequencies the sidebar chart shows.
 */
module Statistics {
  import opened Wrappers
  import opened Text
  import opened Lexicon

  /** `.dropna()`: the present reviews, each as often as it occurs in the column. */
  function DropNa(column: seq<Option<string>>): (r: seq<string>)
    ensures |r| == |column| - multiset(column)[None]
    ensures forall x :: multiset(r)[x] == multiset(column)[Some(x)]
    decreases |column|
  {
    if column == [] then []
    else
      assert column == [column[0]] + column[1..];
      match column[0]
      case None => DropNa(column[1..])
      case Some(x) => [x] + DropNa(column[1..])
  }

  /** `.apply(rotular_automaticamente)`: one label per review, in order. */
  function LabelAll(u: Unicode, reviews: seq<string>): (r: seq<Sentiment>)
    ensures |r| == |reviews|
    ensures forall i :: 0 <= i < |reviews| ==> r[i] == Label(u, reviews[i])
  {
    seq(|reviews|, i requires 0 <= i < |reviews| => Label(u, reviews[i]))
  }

  /** `Counter(labels)`: count each label as it is met. */
  function Count(labels: seq<Sentiment>): (m: map<Sentiment, nat>)
    ensures forall l :: l in m <==> l in labels
    ensures forall l :: l in m ==> m[l] == multiset(labels)[l]
    decreases |labels|
  {
    if labels == [] then map[]
    else
      var init := labels[..|labels| - 1];
      var l := labels[|labels| - 1];
      assert labels == init + [l];
      var m := Count(init);
      m[l := (if l in m then m[l] else 0) + 1]
  }

  /** A count, with zero for an absent key, as `Counter` reports it. */
  function Get(m: map<Sentiment, nat>, l: Sentiment): nat
  {
    if l in m then m[l] else 0
  }

  /** The sum of the counts over the three labels. */
  function Total(m: map<Sentiment, nat>): nat
  {
    Get(m, Positivo) + Get(m, Negativo) + Get(m, Neutro)
  }

  /** Every element is one of the three labels, so their multiplicities add up to the length. */
  lemma {:induction false} LabelMultiplicities(labels: seq<Sentiment>)
    ensures multiset(labels)[Positivo] + multiset(labels)[Negativo] + multiset(labels)[Neutro] == |labels|
    decreases |labels|
  {
    if labels != [] {
      LabelMultiplicities(labels[1..]);
      assert labels == [labels[0]] + labels[1..];
      var head := multiset{labels[0]};
      assert multiset(labels) == head + multiset(labels[1..]);
      assert head[Positivo] + head[Negativo] + head[Neutro] == 1 by {
        match labels[0]
        case Positivo =>
        case Negativo =>
        case Neutro =>
      }
    }
  }

  /** The counts add up to the number of labels counted. */
  lemma CountTotal(labels: seq<Sentiment>)
    ensures Total(Count(labels)) == |labels|
  {
    LabelMultiplicities(labels);
  }

  /** The number of present reviews of a column that the auto-labeller gives label `l`, row by row. */
  function RowsLabelled(u: Unicode, column: seq<Option<string>>, l: Sentiment): nat
    decreases |column|
  {
    if column == [] then 0
    else
      (if column[0].Some? && Label(u, column[0].value) == l then 1 else 0)
      + RowsLabelled(u, column[1..], l)
  }

  /** Labelling the present reviews yields each label as often as there are rows with that label. */
  lemma {:induction false} LabelAllDropNa(u: Unicode, column: seq<Option<string>>, l: Sentiment)
    ensures multiset(LabelAll(u, DropNa(column)))[l] == RowsLabelled(u, column, l)
    decreases |column|
  {
    if column != [] {
      LabelAllDropNa(u, column[1..], l);
      DropNaStep(u, column);
    }
  }

  /** One row of the column: a missing review adds no label, a present one adds its own. */
  lemma DropNaStep(u: Unicode, column: seq<Option<string>>)
    requires column != []
    ensures column[0].None? ==> LabelAll(u, DropNa(column)) == LabelAll(u, DropNa(column[1..]))
    ensures column[0].Some? ==>
      LabelAll(u, DropNa(column)) == [Label(u, column[0].value)] + LabelAll(u, DropNa(column[1..]))
  {
    DropNaHead(column);
    if column[0].Some? {
      LabelAllHead(u, column[0].value, DropNa(column[1..]));
    }
  }

  /** `.dropna()` on a column whose first row is missing or present. */
  lemma DropNaHead(column: seq<Option<string>>)
    requires column != []
    ensures column[0].None? ==> DropNa(column) == DropNa(column[1..])
    ensures column[0].Some? ==> DropNa(column) == [column[0].value] + DropNa(column[1..])
  {
  }

  /** Labelling a list with a first review labels that review first. */
  lemma LabelAllHead(u: Unicode, x: string, rest: seq<string>)
    ensures LabelAll(u, [x] + rest) == [Label(u, x)] + LabelAll(u, rest)
  {
    var lhs := LabelAll(u, [x] + rest);
    var rhs := [Label(u, x)] + LabelAll(u, rest);
    forall i | 0 <= i < |lhs| ensures lhs[i] == rhs[i] {
      if i > 0 {
        assert ([x] + rest)[i] == rest[i - 1];
      }
    }
  }

  /** `contagem`: the label frequencies of the present reviews of a column. */
  function LabelCounts(u: Unicode, column: seq<Option<string>>): map<Sentiment, nat>
  {
    Count(LabelAll(u, DropNa(column)))
  }

  /**
   * Each count is the number of present rows with that label, the counts sum to
   * the number of present reviews, every key is named
   * "positivo", "negativo" or "neutro", and the chart is drawn (the map is
   * non-empty) exactly when some review is present.
   */
  lemma LabelCountsSpec(u: Unicode, column: seq<Option<string>>)
    ensures var m := LabelCounts(u, column);
      && (forall l :: Get(m, l) == RowsLabelled(u, column, l))
      && Total(m) == |column| - multiset(column)[None]
      && (forall l :: l in m ==> l.Name() in {"positivo", "negativo", "neutro"})
      && (m != map[] <==> exists i :: 0 <= i < |column| && column[i].Some?)
  {
    var present := DropNa(column);
    var m := LabelCounts(u, column);
    CountTotal(LabelAll(u, present));
    forall l ensures Get(m, l) == RowsLabelled(u, column, l) {
      LabelAllDropNa(u, column, l);
    }
    if exists i :: 0 <= i < |column| && column[i].Some? {
      var i :| 0 <= i < |column| && column[i].Some?;
      assert column[i] in multiset(column);
      assert column[i].value in multiset(present);
      assert Label(u, present[0]) in m;
    }
    if m != map[] {
      var l :| l in m;
      var x := present[0];
      assert Some(x) in multiset(column);
      var i :| 0 <= i < |column| && column[i] == Some(x);
    }
  }
}

/**
 * The data preparation of `treinar_modelo`: label every review with the
 * auto-labeller, pair each label with the review's feature map, shuffle, and
 * keep the first `int(0.8 * len(dataset))` examples for training. Fitting the
 * classifier on them is not part of this model.
 */
module Training {
  import opened Wrappers
  import opened Text
  import opened Lexicon
  import opened Features

  /** One element of `dataset`: a feature map paired with its label. */
  datatype Example = Example(features: map<string, bool>, sentimento: Sentiment)

  /**
   * A missing value in the `Reviews` column reaches `rotular_automaticamente`
   * as a float, whose missing `lower` method raises and aborts the whole run.
   */
  datatype TrainError = MissingReview(row: nat)

  /** `(build_features(preprocess(review)), rotular_automaticamente(review))`. */
  function MakeExample(u: Unicode, nlp: Nlp, review: string): Example
  {
    Example(BuildFeatures(Preprocess(u, nlp, review)), Label(u, review))
  }

  /**
   * An example's label is the auto-label of its review; its features are the
   * preprocessed tokens of the review, each mapped to `True`, and nothing else.
   */
  lemma MakeExampleSpec(u: Unicode, nlp: Nlp, review: string)
    ensures var e := MakeExample(u, nlp, review);
      && e.sentimento == Label(u, review)
      && e.features.Keys == (set t | t in Preprocess(u, nlp, review))
      && (forall t :: t in e.features ==> e.features[t])
  {
  }

  /** The first row whose review is missing, if any: the row that makes labelling raise. */
  function FirstMissing(column: seq<Option<string>>): (r: Option<nat>)
    ensures r.None? <==> forall i :: 0 <= i < |column| ==> column[i].Some?
    ensures r.Some? ==> r.value < |column| && column[r.value].None?
    ensures r.Some? ==> forall j :: 0 <= j < r.value ==> column[j].Some?
    decreases |column|
  {
    if column == [] then None
    else if column[0].None? then Some(0)
    else match FirstMissing(column[1..])
      case None => None
      case Some(i) => Some(i + 1)
  }

  /**
   * `df['sentimento'] = df['Reviews'].apply(rotular_automaticamente)` followed by
   * the `dataset` comprehension: one example per row, in row order, or the error
   * raised at the first missing review.
   */
  function BuildDataset(u: Unicode, nlp: Nlp, column: seq<Option<string>>): (r: Result<seq<Example>, TrainError>)
    ensures r.Success? <==> forall i :: 0 <= i < |column| ==> column[i].Some?
    ensures r.Failure? ==> FirstMissing(column) == Some(r.error.row)
    ensures r.Success? ==> |r.value| == |column|
    ensures r.Success? ==> forall i :: 0 <= i < |column| ==> r.value[i] == MakeExample(u, nlp, column[i].value)
  {
    match FirstMissing(column)
    case Some(i) => Failure(MissingReview(i))
    case None => Success(seq(|column|, i requires 0 <= i < |column| => MakeExample(u, nlp, column[i].value)))
  }

  /**
   * `perm` lists every position below `n` exactly once: the order that
   * `random.shuffle` happens to produce.
   */
  ghost predicate IsPermutation(perm: seq<nat>, n: nat)
  {
    && |perm| == n
    && (forall i :: 0 <= i < n ==> perm[i] < n)
    && Injective(perm)
    && (forall p: nat :: p < n ==> p in perm)
  }

  /** No position of `perm` repeats an earlier one. */
  ghost predicate Injective(perm: seq<nat>)
  {
    forall i, j :: 0 <= i < j < |perm| ==> perm[i] != perm[j]
  }

  /**
   * `random.shuffle(dataset)`, for the permutation the random generator chose:
   * row `perm[i]` moves to position `i`.
   */
  function Shuffle<T>(s: seq<T>, perm: seq<nat>): (r: seq<T>)
    requires IsPermutation(perm, |s|)
    ensures |r| == |s|
    ensures forall i :: 0 <= i < |s| ==> r[i] == s[perm[i]]
  {
    seq(|s|, i requires 0 <= i < |s| => s[perm[i]])
  }

  /** A shuffle keeps every example, each as often as before. */
  lemma ShufflePermutes<T>(s: seq<T>, perm: seq<nat>)
    requires IsPermutation(perm, |s|)
    ensures multiset(Shuffle(s, perm)) == multiset(s)
  {
    var r := Shuffle(s, perm);
    forall x ensures multiset(r)[x] == multiset(s)[x] {
      CountIsIndices(r, x);
      CountIsIndices(s, x);
      assert Image(perm, IndicesOf(r, x)) == IndicesOf(s, x) by {
        forall j | j in IndicesOf(s, x) ensures j in Image(perm, IndicesOf(r, x)) {
          assert j in perm;
          var i :| 0 <= i < |perm| && perm[i] == j;
          assert i in IndicesOf(r, x);
        }
      }
      ImageSize(perm, IndicesOf(r, x));
    }
  }

  /** The positions of `s` that hold `x`. */
  ghost function IndicesOf<T>(s: seq<T>, x: T): set<nat>
  {
    set i: nat | i < |s| && s[i] == x
  }

  /** The rows that a set of shuffled positions comes from. */
  ghost function Image(perm: seq<nat>, positions: set<nat>): set<nat>
    requires forall i :: i in positions ==> i < |perm|
  {
    set i | i in positions :: perm[i]
  }

  /** An element occurs in a sequence as often as there are positions holding it. */
  lemma {:induction false} CountIsIndices<T>(s: seq<T>, x: T)
    ensures multiset(s)[x] == |IndicesOf(s, x)|
    decreases |s|
  {
    if s == [] {
      assert IndicesOf(s, x) == {};
    } else {
      var init := s[..|s| - 1];
      CountIsIndices(init, x);
      assert s == init + [s[|s| - 1]];
      if s[|s| - 1] == x {
        assert IndicesOf(s, x) == IndicesOf(init, x) + {|s| - 1};
      } else {
        assert IndicesOf(s, x) == IndicesOf(init, x);
      }
    }
  }

  /** Distinct positions of an injective `perm` name distinct rows. */
  lemma {:induction false} ImageSize(perm: seq<nat>, positions: set<nat>)
    requires Injective(perm)
    requires forall i :: i in positions ==> i < |perm|
    ensures |Image(perm, positions)| == |positions|
    decreases |positions|
  {
    if positions == {} {
      assert Image(perm, positions) == {};
    } else {
      var a :| a in positions;
      var rest := positions - {a};
      ImageSize(perm, rest);
      assert Image(perm, positions) == Image(perm, rest) + {perm[a]};
      assert perm[a] !in Image(perm, rest) by {
        forall i | i in rest ensures perm[i] != perm[a] {
          if i < a {
          } else {
          }
        }
      }
    }
  }

  /** `int(0.8 * n)`: the largest whole number not above four fifths of `n`. */
  function SplitIndex(n: nat): (k: nat)
    ensures 5 * k <= 4 * n < 5 * k + 5
  {
    (4 * n) / 5
  }

  /** The training prefix and the held-out rest. */
  datatype Split<T> = Split(train: seq<T>, heldOut: seq<T>)

  /** `train_set = dataset[:split]`, with the suffix that is never used. */
  function SplitDataset<T>(shuffled: seq<T>): (r: Split<T>)
    ensures |r.train| == SplitIndex(|shuffled|)
    ensures r.train == shuffled[..|r.train|] && r.heldOut == shuffled[|r.train|..]
    ensures r.train + r.heldOut == shuffled
  {
    var k := SplitIndex(|shuffled|);
    Split(shuffled[..k], shuffled[k..])
  }

  /**
   * The split sizes: the held-out part has the other `n - floor(0.8 n)` examples,
   * training is empty only below two examples, held-out data is empty only with
   * no examples at all, and a multiple of five splits exactly four to one.
   */
  lemma SplitSizes<T>(shuffled: seq<T>)
    ensures var n := |shuffled|;
      var r := SplitDataset(shuffled);
      && |r.heldOut| == n - SplitIndex(n)
      && (|r.train| > 0 <==> n >= 2)
      && (|r.heldOut| > 0 <==> n >= 1)
      && (n % 5 == 0 ==> 4 * |r.heldOut| == |r.train|)
  {
    var n := |shuffled|;
    var r := SplitDataset(shuffled);
    assert |r.train| + |r.heldOut| == n;
  }

  /**
   * The training data `treinar_modelo` hands to the learner, with the held-out
   * examples it leaves unused.
   */
  function TrainingSet(u: Unicode, nlp: Nlp, column: seq<Option<string>>, perm: seq<nat>)
    : (r: Result<Split<Example>, TrainError>)
    requires IsPermutation(perm, |column|)
    ensures r.Success? <==> forall i :: 0 <= i < |column| ==> column[i].Some?
    ensures r.Failure? ==> FirstMissing(column) == Some(r.error.row)
    ensures r.Success? ==> |r.value.train| == SplitIndex(|column|)
    ensures r.Success? ==> |r.value.heldOut| == |column| - SplitIndex(|column|)
    ensures r.Success? ==> forall i :: 0 <= i < |r.value.train| ==>
      r.value.train[i] == MakeExample(u, nlp, column[perm[i]].value)
    ensures r.Success? ==> forall i :: 0 <= i < |r.value.heldOut| ==>
      r.value.heldOut[i] == MakeExample(u, nlp, column[perm[|r.value.train| + i]].value)
  {
    match BuildDataset(u, nlp, column)
    case Failure(e) => Failure(e)
    case Success(dataset) =>
      Success(ShuffleAndSplit(dataset, perm))
  }

  /**
   * `random.shuffle(dataset)` followed by the split: position `i` of the
   * training part holds row `perm[i]`, position `i` of the held-out part holds
   * row `perm[k + i]`.
   */
  function ShuffleAndSplit<T>(dataset: seq<T>, perm: seq<nat>): (r: Split<T>)
    requires IsPermutation(perm, |dataset|)
    ensures |r.train| == SplitIndex(|dataset|)
    ensures |r.heldOut| == |dataset| - SplitIndex(|dataset|)
    ensures forall i :: 0 <= i < |r.train| ==> r.train[i] == dataset[perm[i]]
    ensures forall i :: 0 <= i < |r.heldOut| ==> r.heldOut[i] == dataset[perm[|r.train| + i]]
  {
    var shuffled := Shuffle(dataset, perm);
    var r := SplitDataset(shuffled);
    assert forall i :: 0 <= i < |r.train| ==> r.train[i] == shuffled[i];
    assert forall i :: 0 <= i < |r.heldOut| ==> r.heldOut[i] == shuffled[|r.train| + i];
    r
  }

  /** The rows whose examples land at shuffled positions `lo` up to `hi`. */
  ghost function RowsAt(perm: seq<nat>, lo: nat, hi: nat): set<nat>
    requires lo <= hi <= |perm|
  {
    set i | lo <= i < hi :: perm[i]
  }

  /** Distinct positions hold distinct rows, so a range of positions names as many rows. */
  lemma {:induction false} RowsAtSize(perm: seq<nat>, lo: nat, hi: nat)
    requires Injective(perm)
    requires lo <= hi <= |perm|
    ensures |RowsAt(perm, lo, hi)| == hi - lo
    decreases hi - lo
  {
    if lo < hi {
      RowsAtSize(perm, lo + 1, hi);
      var rest := RowsAt(perm, lo + 1, hi);
      assert RowsAt(perm, lo, hi) == rest + {perm[lo]};
      assert perm[lo] !in rest by {
        forall i | lo + 1 <= i < hi
          ensures perm[i] != perm[lo]
        {
        }
      }
    } else {
      assert RowsAt(perm, lo, hi) == {};
    }
  }

  /**
   * Training and held-out data come from disjoint sets of rows that together
   * are all the rows: `floor(0.8 n)` rows train, the other rows are never used.
   */
  lemma TrainingRows(perm: seq<nat>, n: nat)
    requires IsPermutation(perm, n)
    ensures var k := SplitIndex(n);
      && RowsAt(perm, 0, k) !! RowsAt(perm, k, n)
      && (forall p: nat :: p in RowsAt(perm, 0, k) || p in RowsAt(perm, k, n) <==> p < n)
      && |RowsAt(perm, 0, k)| == k
      && |RowsAt(perm, k, n)| == n - k
  {
    var k := SplitIndex(n);
    RowsAtSize(perm, 0, k);
    RowsAtSize(perm, k, n);
    forall p: nat | p < n
      ensures p in RowsAt(perm, 0, k) || p in RowsAt(perm, k, n)
    {
      assert p in perm;
      var i :| 0 <= i < n && perm[i] == p;
      if i < k {
        assert p in RowsAt(perm, 0, k);
      } else {
        assert p in RowsAt(perm, k, n);
      }
    }
  }
}

# Sentiment auto-labeller of a review dashboard, in Dafny

The application labels smartphone reviews written in Portuguese. Its
deterministic core is the lexicon auto-labeller `rotular_automaticamente`. It
lowercases a review and deletes every character outside `\w` and `\s`. It then
tests three constant phrase sets by substring containment, in a fixed order:
positive phrases first, then negative, then neutral. It answers `"positivo"`,
`"negativo"` or `"neutro"`. The same labels feed three other steps:

- a supervised trainer. It turns every review into a presence map of its
  tokens, with stop-words and punctuation removed. It shuffles the labelled
  examples and keeps the first `int(0.8 * N)` for training.
- a label counter for a chart.
- a card display that gives each label an emoji and a colour.

This project models those steps with Dafny functions and proves their
properties as lemmas and contracts. Modules:

- `Seqs`: order-preserving filtering, subsequences, and Python's substring test `p in s`.
- `Text`: lowercasing and `re.sub(r'[^\w\s]', '', ...)`. The Unicode tables are a parameter.
- `Lexicon`: the phrase sets, the priority test, the labeller and its properties.
- `LexiconExamples`: worked examples on concrete cleaned texts.
- `Features`: `preprocess` and `build_features`. The tokenizer and the stop-word list are a parameter.
- `Training`: the labelled dataset, the shuffle as a given permutation, and the 80% prefix split.
- `Statistics`: `dropna`, the `Counter` of labels, and the totals.
- `Display`: the emoji dictionary with its fallback, and the card and bar colours.
- `Wrappers`: `Option` and `Result`.

Things the code does that a reader might not expect, all stated as lemmas:

- The positive phrase `"gostei"` ("liked") lies inside the negative phrase
  `"não gostei"` ("did not like"). Positives are tested first. So every text
  containing `"não gostei"` is labelled `"positivo"`, and that negative phrase
  never decides a label (`Lexicon.NaoGosteiIsPositive`, `Lexicon.NegativeIff`).
- The neutral test changes nothing. A neutral hit and no hit at all both give
  `"neutro"` (`Lexicon.LabelSpec`, `LexiconExamples.ExampleOk`, `LexiconExamples.ExampleEmpty`).
- `t in string.punctuation` tests for a substring, because `string.punctuation`
  is a string. A token that is a contiguous slice of `string.punctuation`, such
  as `"()"` or `"<=>"`, is dropped. Other runs of punctuation, such as `"?!"`,
  are kept, and so are `"..."`, "``" and `"''"` (`Features.RepeatedCharNotPunctuation`,
  `Features.QuestionExclamationKept`).
- With fewer than two reviews the training prefix is empty (`Training.SplitSizes`).

Further behaviour of the code that the model keeps:

- The phrase sets overlap as substrings: `"gostei"` lies inside `"não gostei"`.
- A missing review aborts training as a whole, at the first missing row. A
  missing value in `Reviews` reaches `rotular_automaticamente` as a float, whose
  missing `lower` method raises (`Training.BuildDataset`). The statistics block
  drops missing values first (`Statistics.DropNa`).
- Features are built from the raw review, only lowercased and tokenised; the
  cleaning step of the labeller is not applied. Punctuation tokens are then
  removed by the substring test above.
- Nothing checks that the training set is non-empty or holds two labels:
  `Training.TrainingSet` returns whatever prefix results.

Foreign parts are parameters:

- `Text.Unicode`: the lowercase mapping of a code point, and membership in
  `\w` and in `\s`.
- `Features.Nlp`: `word_tokenize` as a function from strings to token lists,
  and `stopwords.words('portuguese')` as a set.
- The shuffle: a permutation of the row positions, given by the caller.

## Model

| member | source | states |
|---|---|---|
| `Seqs.OccursAt` | app.py:35 | Python's `p in texto` (as `Occurs`) holds exactly when `p` sits at some offset of the text; the empty phrase occurs everywhere |
| `Seqs.Occurs` | app.py:35-41 | Python's substring test `p in s`; its meaning is stated by `Seqs.OccursAt` |
| `Text.Clean` | app.py:34 | the cleaned text `texto_limpo`; its properties are stated by `Text.CleanShape` and `Text.CleanIdempotent` |
| `Text.CleanShape` | app.py:34 | the cleaned text holds only `\w`/`\s` characters, is no longer than the input, is a subsequence of the lowercased input, and keeps every lowercased word or space character as often as it occurs |
| `Text.CleanIdempotent` | app.py:34 | if lowercasing is idempotent, cleaning a cleaned text leaves it unchanged |
| `Lexicon.AnyOccurs` | app.py:35-41 | the `any(p in texto_limpo for p in ...)` test of one phrase set; used by the contract of `Lexicon.LabelSpec` |
| `Lexicon.Classify` | app.py:35-42 | the if-chain on the cleaned text; what it decides is stated by `Lexicon.LabelSpec`, `Lexicon.NaoGosteiIsPositive` and `Lexicon.NegativeIff` |
| `Lexicon.Sentiment.Name` | app.py:36-42 | the three returned strings; stated by `Lexicon.NameRoundTrip` and `Lexicon.FromName` |
| `Lexicon.Label` | app.py:33-42 | `rotular_automaticamente`, defined on every string; its contract is stated by `Lexicon.LabelSpec` |
| `Lexicon.LabelSpec` | app.py:33-42 | for every string: `Positivo` iff some positive phrase occurs in the cleaned text; `Negativo` iff none does and some negative phrase does; `Neutro` iff neither occurs, whatever the neutral phrases do |
| `Lexicon.FromName` | app.py:36-42 | exactly the strings "positivo", "negativo", "neutro" name a label, and the label found has that name |
| `Lexicon.NameRoundTrip` | app.py:36-42 | every label's name is one of the three strings, and reading the name back gives the label |
| `Lexicon.GosteiInsideNaoGostei` | app.py:18-19 | "gostei" is a positive phrase, "não gostei" a negative one, and the first occurs inside the second |
| `Lexicon.NaoGosteiIsPositive` | app.py:18-36 | any cleaned text containing "não gostei" is labelled positive |
| `Lexicon.NegativeIff` | app.py:35-38 | the label is negative iff no positive phrase occurs and one of the negative phrases other than "não gostei" occurs |
| `Lexicon.LabelIdempotent` | app.py:33-42 | if lowercasing is idempotent, labelling the cleaned text gives the same label as labelling the raw text |
| `Lexicon.PositivesNeedAEOrO` | app.py:18 | helper for `LexiconExamples`: every positive phrase has an 'a', 'e' or 'o', so a text without those letters contains none of them |
| `Lexicon.PositivesNeedABEOrT` | app.py:18 | helper for `LexiconExamples`: every positive phrase has an 'a', 'b', 'e' or 't', so a text without those letters contains none of them |
| `Lexicon.NegativesNeedOEOrI` | app.py:19 | helper for `LexiconExamples`: every negative phrase has an 'o', 'e' or 'i', so a text without those letters contains none of them |
| `Lexicon.NegativesNeedAEROrS` | app.py:19 | helper for `LexiconExamples`: every negative phrase has an 'a', 'e', 'r' or 's', so a text without those letters contains none of them |
| `LexiconExamples.ExampleNaoGostei` | app.py:18-36 | "não gostei do produto" contains a negative phrase and is labelled positive |
| `LexiconExamples.ExampleRuim` | app.py:37-38 | "ruim" is labelled negative |
| `LexiconExamples.ExampleOk` | app.py:39-40 | "ok" hits a neutral phrase and is labelled neutral |
| `LexiconExamples.ExampleEmpty` | app.py:41-42 | the empty text hits no neutral phrase and is still labelled neutral |
| `Features.IsPunctuation` | app.py:26 | `t in string.punctuation`, a substring test; stated by `Features.PunctuationCharDropped`, `Features.LetterNotPunctuation`, `Features.RepeatedCharNotPunctuation` and `Features.QuestionExclamationKept` |
| `Features.Preprocess` | app.py:23-27 | `preprocess(text)`; its result is characterised by `Features.PreprocessSpec` |
| `Features.PreprocessSpec` | app.py:23-27 | the result is a subsequence of the tokens of the lowercased text, holds no punctuation token and no stop-word, and keeps every other token as often as the tokenizer produced it |
| `Features.FilterTokensSpec` | app.py:26 | the comprehension keeps its tokens in order and keeps only tokens that are neither punctuation nor stop-words |
| `Features.FilterTokensCounts` | app.py:26 | the comprehension keeps every such token as often as it occurs in its input, and no other token |
| `Features.PunctuationCharDropped` | app.py:26 | a token made of one character of `string.punctuation` is dropped |
| `Features.LetterNotPunctuation` | app.py:26 | a token containing a lower-case ASCII letter is never taken for punctuation |
| `Features.RepeatedCharNotPunctuation` | app.py:26 | a token with two equal neighbouring characters is not a substring of `string.punctuation` |
| `Features.QuestionExclamationKept` | app.py:26 | the token "?!", a run of punctuation that is not a slice of `string.punctuation`, survives the filter unless it is a stop-word |
| `Features.EllipsisKept` | app.py:26 | the token "..." survives the filter unless it is a stop-word |
| `Features.BuildFeatures` | app.py:29-30 | the key set is exactly the set of input tokens and every value is `True` |
| `Features.FeaturesDependOnTokenSet` | app.py:29-30 | two token lists with the same set of tokens give the same feature map |
| `Features.FeaturesIgnoreRepeats` | app.py:29-30 | repeating a token does not change the feature map |
| `Training.MakeExample` | app.py:53 | one `(build_features(preprocess(review)), rotular_automaticamente(review))` pair; stated by `Training.MakeExampleSpec` |
| `Training.MakeExampleSpec` | app.py:53 | an example's label is the auto-label of the review, and its keys are the preprocessed tokens, all mapped to `True` |
| `Training.FirstMissing` | app.py:52 | finds no row iff every review is present; otherwise it finds the first row whose review is missing |
| `Training.BuildDataset` | app.py:52-53 | succeeds iff every review is present, with one example per row in row order; otherwise it fails at the first missing row |
| `Training.Shuffle` | app.py:54 | the shuffled dataset has the same length and holds, at position `i`, the example of row `perm[i]` |
| `Training.ShufflePermutes` | app.py:54 | the shuffle keeps every example, each as often as before: the multisets agree |
| `Training.ShuffleAndSplit` | app.py:54-56 | after the shuffle and the split, training position `i` holds row `perm[i]` and held-out position `i` holds row `perm[k + i]`, with `k = floor(0.8 * n)` |
| `Training.SplitIndex` | app.py:55 | the split index `k` is `floor(0.8 * n)`: `5k <= 4n < 5k + 5` |
| `Training.SplitDataset` | app.py:55-56 | the training part is the prefix of length `floor(0.8 * n)`, the held-out part is the rest, and together they are the shuffled dataset |
| `Training.SplitSizes` | app.py:55-56 | `n - floor(0.8 * n)` examples are held out; training is non-empty iff `n >= 2`; held-out data is non-empty iff `n >= 1`; a multiple of five splits exactly 4 to 1 |
| `Training.TrainingSet` | app.py:46-57 | fails iff some review is missing, at the first missing row; otherwise the training examples are those of rows `perm[0..k)` and the held-out examples those of the remaining positions |
| `Training.RowsAtSize` | app.py:54-56 | `hi - lo` distinct positions of a permutation name `hi - lo` distinct rows |
| `Training.TrainingRows` | app.py:54-56 | training rows and held-out rows are disjoint, together are all rows, and number `floor(0.8 * n)` and `n - floor(0.8 * n)` |
| `Statistics.DropNa` | app.py:73 | keeps the present reviews, each as often as it occurs; the length is the number of present rows |
| `Statistics.Count` | app.py:74 | the keys are exactly the labels that occur, and each value is the number of occurrences of its label |
| `Statistics.CountTotal` | app.py:74 | the counts add up to the number of labels counted |
| `Statistics.LabelAllDropNa` | app.py:73 | after `dropna().apply(rotular_automaticamente)`, each label occurs as often as there are present rows whose review has that label |
| `Statistics.LabelCounts` | app.py:73-74 | `contagem`; its counts are stated by `Statistics.LabelCountsSpec` |
| `Statistics.LabelCountsSpec` | app.py:72-76 | each label's count is the number of present rows whose review gets that label (`RowsLabelled`, a row-by-row count); the counts sum to the number of present reviews; the map is non-empty (the chart is drawn) iff some review is present. That every key is named "positivo", "negativo" or "neutro" follows from the `Sentiment` type alone |
| `Display.Emoji` | app.py:94 | the three label names get their emoji; every other key gets the fallback "❓" |
| `Display.CardColour` | app.py:95 | green for "positivo", red for "negativo", "#FFF3CD" for every other string |
| `Display.BarColour` | app.py:80 | the chart's palette by the same rule, "#ffc107" for every other string |
| `Display.LabelDisplay` | app.py:80-95 | for every auto-label the emoji fallback is never used, and emoji, card colour and bar colour pick out the same label |

## Left out

- The web page: page set-up, titles, product selection, the HTML cards, and `capitalize()` (app.py:60-104). This is presentation.
- Reading the CSV file, the UTF-8 to Latin-1 fallback, and the check that a `Reviews` column exists (app.py:47-50, 67-72). This is file I/O in a foreign library. The column reaches the model as a sequence of optional strings.
- Values of `Reviews` that are present but are not strings: a column mixing text and missing values is read as strings and `NaN`, which is what the model takes.
- Filtering the reviews by the selected product (app.py:85-89). This is UI control flow.
- Drawing the chart (app.py:78-83). Only the bar colours are modelled. The order of the bars, which is the order in which labels first occur, is not.
- `nltk.download` (app.py:14-15). This is network and file side effects.
- `NaiveBayesClassifier.train` (app.py:57). It is a floating-point learner in a foreign library. The model stops at the training set handed to it.
- Result caching through `st.cache_data` (app.py:45).
- `random.shuffle` (app.py:54). Its randomness is replaced by a permutation given as a parameter.
- `Training.SplitIndex`: models `int(0.8 * n)` as `floor(4n / 5)`, because floating point is not modelled. The double nearest 0.8 lies slightly above 0.8, so the computed product is off by less than `1.4e-16 * n`. That makes the two agree for every `n` below about 10^15. This argument is not proved here.
- `Text.Lower`: lowercases code point by code point. Python's `str.lower` applies full Unicode case mapping: one code point can become two (`'İ'`), and a capital sigma lowercases by context. The per-code-point view does not capture these cases.
- The internals of `word_tokenize`, the Portuguese stop-word list, Unicode case mapping and the regex classes `\w` and `\s`. These are foreign. They are parameters of the model.
- The five-tier labeller with anger, fear and very positive or negative labels does not appear in this source file. It is not part of this model.

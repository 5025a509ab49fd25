# Opinion mining from reviews — a Dafny model of the classifier bookkeeping

The system tags product reviews with opinion labels (an aspect and a
sentiment). It does this with a character-3-gram, multi-label classifier and
scores itself by 10-fold cross-validation. This project models the
bookkeeping around that classifier:

- the **n-gram vocabulary** (`_ngr_add`) and the **feature vectorizer**
  (`_get_ngrams`, `_get_features_from_tokens`);
- the **label codec** (`_encode_opinions`, `_decode_opinions`) and the
  `label_binarize` call it makes;
- the glue that connects them: `train`, `fit`, `predict` and `getClasses`;
- the **per-fold tallies and F-measure** of the evaluation script.

The learner itself (scikit-learn's one-vs-rest naive Bayes), the word
tokenizer and the lower-casing are outside collaborators. They are
parameters of the model:

- `fit(features, target)` is the trained state;
- `classify(state, features)` is the predicted indicator row;
- `lower` and `wordTokenize` are plain functions on strings.

Modules, in dependency order:

- `Results` (results.dfy): the error outcomes of the Python code as values.
  `Untrained` stands for predicting before training. `IndexError` stands for
  a label index outside an indicator row, or more gold lists than answers.
  `ZeroDivision` stands for an empty denominator in the score.
- `IdTable` (id_table.dfy): append-only tables that give each new key the
  next dense index.
  - `Register` is `_ngr_add`: the next index is the table size.
  - `RegisterCounted` is the registration inside `_encode_opinions`: the next
    index is the local counter `n_ops`, which starts at 0 on every call.
  - `FirstIndex` and `FirstSeen` express first-seen order.
- `Text` (text.dfy): the boundary markers `^…$`, the width-3 sliding window,
  and the order in which `train` scans the corpus (document, then token, then
  left to right).
- `Features` (features.dfy): the count vector, specified slot by slot.
- `Labels` (labels.dfy): `label_binarize(rows, multilabel=True,
  classes=range(n))` as an ordinary function, the encoding, the decoding as a
  set, and the round trip.
- `SolutionModel` (solution.dfy): the `Solution` object. It is a class whose
  fields `opinionToNumber`, `ngramToNumber` and `clf` its methods update in
  place. Each method is proved against the functions above.
- `Evaluation` (evaluation.dfy): the body of the fold loop
  (`RunFold`: a fresh `Solution`, train, classify, tally), the
  `correct_answers` loop, the F-measure, and the loop over given folds.

Behaviour of the code that the model keeps as written:

- **Zero denominators.** The code raises `ZeroDivisionError` in the score when
  there are no predicted labels, no gold labels or no correct labels. It does
  not fall back to a score of 0. `FoldScore` returns `Err(ZeroDivision)` in
  exactly those cases, and `CrossValidate` reports the error of the first
  failing fold.
- **Decode errors.** Decoding fails when some label's index is outside the
  indicator row. That is not the same as "row shorter than the universe" in
  general. On a table built from empty the two coincide
  (`Labels.DecodeFailsOnShortVector`).
- **Encoding.** `_encode_opinions` registers and converts in one interleaved
  pass. The rows it builds for earlier label sets stay valid because existing
  indices never move.
- **The counter restart.** `n_ops` restarts at 0 on every call, and this is
  modelled literally (`Labels.EncodeTable`). When the label table starts
  empty, which is how every fold uses a `Solution`, the counter equals the
  table size (`IdTable.CountedIsRegister`). All guarantees of the label codec
  are stated for that case. On a table indexed 0 .. size-1 that already holds
  labels, the first new label of the call receives index 0, which the label
  numbered 0 already has (`IdTable.CountedRestartCollides`); later new labels
  receive 1, 2, … in turn.

## Model

| member | source | states |
|---|---|---|
| IdTable.Register | solution.py:25-27 | the n-gram is present afterwards; the keys grow by exactly that n-gram; every existing index is unchanged; an absent n-gram gets the old size as its index and the size grows by one; a present one leaves the table as it was |
| IdTable.RegisterAll | solution.py:94-98 | the repeated `_ngr_add` calls of the scan, from left to right: the table grows by at most one entry per scanned n-gram |
| IdTable.RegisterCounted | solution.py:39-41 | one step of the `_encode_opinions` registration: an absent label gets index `n_ops` and the counter goes up by one (a definition; `RegisterAllCountedKeys`, `CountedIsRegister` and `CountedRestartCollides` state its properties) |
| IdTable.RegisterAllCounted | solution.py:37-41 | the registration loop of `_encode_opinions`, with the next index taken from `n_ops`: the counter advances by at most one per scanned label |
| IdTable.RegisterKeepsDense | solution.py:25-27 | registering keeps all indices below the size and pairwise distinct |
| IdTable.RegisterAllKeys | solution.py:25-27 | scanning a sequence adds exactly its n-grams and never moves an existing index |
| IdTable.FreshTableFirstSeen | solution.py:25-27 | from the empty map, the keys are the scanned n-grams; the indices are exactly 0 .. size-1, one n-gram each; `m[x] < m[y]` exactly when `x` first occurs before `y` |
| IdTable.FreshTableIndexed | solution.py:25-27 | from the empty map, the key with index i is the i-th distinct n-gram in order of first occurrence |
| IdTable.FirstSeenIndexOrder | solution.py:90-98 | in such a table, one n-gram's index is below another's exactly when it occurs first |
| IdTable.FreshTableSize | solution.py:25-27 | from the empty map, the size is the number of distinct scanned n-grams |
| IdTable.RegisterAllCountedKeys | solution.py:37-41 | the registration loop of `_encode_opinions` adds exactly the scanned labels and never moves an existing label |
| IdTable.CountedIsRegister | solution.py:35-41 | while the counter equals the table size, counted registration is size-based registration, and the final counter is the final size |
| IdTable.CountedRestartCollides | solution.py:35-41 | with `n_ops` restarted at 0 on any non-empty table whose indices are 0 .. size-1, the next new label gets index 0, the index of a different label already in the table |
| IdTable.FirstIndex | solution.py:90-98 | the position it returns holds the key, and no earlier position does |
| IdTable.FirstSeenOrdered | solution.py:90-98 | the first-seen sequence holds the same keys as the input, ordered by first occurrence |
| IdTable.RegisterAllAppend | solution.py:90-98 | scanning one sequence and then another gives the same table as scanning their concatenation |
| Text.Wrap | solution.py:64 | the token is the word between the markers `^` and `$`, two characters longer |
| Text.NGramSize | solution.py:9 | the window width `_ngram = 3` (a constant; `NGramsWindows` states that every n-gram has this width) |
| Text.Normalize | solution.py:21-23 | `_normalize_text`: the external lower-casing `lower` applied to the text (no contract; it is a parameter) |
| Text.TextTokenize | solution.py:61-65 | one token per word of the lower-cased text, token i being word i between `^` and `$`; every token is at least 2 long |
| Text.TokenHasNGram | solution.py:61-70 | the token of a non-empty word of length k has k >= 1 n-grams, the first starting with `^` |
| Text.NGrams | solution.py:68-70 | a token of length `len` has `max(0, len-2)` n-grams |
| Text.NGramsWindows | solution.py:68-70 | n-gram i is `token[i..i+3]`, of length 3, so the n-grams run left to right |
| Text.AllNGrams | solution.py:94-98 | the n-grams of a token list, token by token, left to right within a token (a definition; `AllNGramsContains` states its property) |
| Text.CorpusNGrams | solution.py:90-98 | the n-grams of the training texts in the order the vocabulary scan registers them (a definition; `CorpusNGramsContains` states its property) |
| Text.WrappedWordHasNGram | solution.py:64-70 | a wrapped non-empty word of length k has k n-grams, the first starting with `^` |
| Text.AllNGramsContains | solution.py:94-98 | every n-gram of every token is among the n-grams scanned for the token list |
| Text.CorpusNGramsContains | solution.py:90-98 | every n-gram of every token of every training text is among the n-grams scanned for the corpus |
| Features.CountVector | solution.py:73 | the feature vector is as long as the vocabulary |
| Features.CountIndex | solution.py:75-79 | how many of the n-grams map to one index; never more than there are n-grams |
| Features.SlotCountsNGram | solution.py:72-81 | in a dense vocabulary, slot `m[g]` holds the number of occurrences of `g` among all n-grams of the tokens |
| Features.UnknownCountsNothing | solution.py:77-79 | n-grams outside the vocabulary add to no slot |
| Features.UnknownTokensChangeNothing | solution.py:75-79 | appending tokens whose n-grams are all unknown leaves the vector unchanged |
| Features.NoTokensNoCounts | solution.py:73 | an empty token list gives the all-zero vector of vocabulary length |
| Features.CountIndexAppend | solution.py:75-79 | counts over two n-gram lists add up |
| Features.CountIndexIsOccurrences | solution.py:77-79 | in an injective vocabulary, the count at an n-gram's index is its number of occurrences |
| Features.CountStep | solution.py:76-79 | one more n-gram raises the count of its own index by one, and no other count |
| Labels.FlattenContains | solution.py:37-38 | every label of every label set is among the labels scanned |
| Labels.Flatten | solution.py:37-38 | the labels in the order of the nested scan over the label sets (a definition; `FlattenContains` states its property) |
| Labels.Indices | solution.py:43-44 | `tuple(map(lambda x: self._opinion_to_number[x], ops))`: the indices of one label set, in its order (a definition; `BitOfLabel` and `EncodeRowAt` state its property) |
| Labels.IndexRows | solution.py:36-44 | `converted_op_list`: one index tuple per label set (a definition; `IndexRowsStep` states how it grows and `EncodeRowAt` what each row is) |
| Labels.EncodeTable | solution.py:35-41 | the label table and `n_ops` after the registration loop: the keys grow by exactly the listed labels and existing labels keep their indices |
| Labels.BinarizeRow | solution.py:46-47 | one row of `label_binarize(..., multilabel=True, classes=range(n))`: width n, only 0 and 1, and bit j is 1 exactly when index j is listed |
| Labels.Binarize | solution.py:46-47 | `label_binarize` over all rows: one row per index list, each of width n |
| Labels.EncodeRows | solution.py:29-47 | the matrix `_encode_opinions` returns: one row per label set, each of width `n_ops` |
| Labels.EncodeTableCovers | solution.py:37-44 | after encoding, every label of every label set has an index |
| Labels.FreshEncodeTable | solution.py:35-41 | from the empty table: the labels are numbered 0 .. n_ops-1, one label each, in first-seen order; `n_ops` is the number of distinct labels |
| Labels.EncodeRowAt | solution.py:43-47 | one row per label set; row i is the indicator row of the indices of label set i |
| Labels.FreshEncodeRows | solution.py:29-47 | from the empty table: one row per label set, each of width `n_ops`, holding only 0 and 1; the bit of label x in row i is 1 exactly when x is in label set i (duplicates collapse) |
| Labels.BitOfLabel | solution.py:46-47 | in a dense table, a label's bit is 1 exactly when the label is listed |
| Labels.DecodeBinarized | solution.py:49-58 | decoding the indicator row of a registered label set gives that set |
| Labels.Decode | solution.py:49-58 | `_decode_opinions` as a set: the only error is an index error, and a decoded set holds only labels of the table |
| Labels.DecodeEncodeRoundTrip | solution.py:29-58 | decoding the i-th encoded row gives back the i-th label set, as a set |
| Labels.DecodeFailsOnShortVector | solution.py:53-55 | after encoding from empty, decoding fails with an index error exactly when the row is shorter than the number of labels |
| Labels.IndexRowsStep | solution.py:37-44 | rows converted earlier stay the same while the table only grows; the new row is appended |
| SolutionModel.Solution.constructor | solution.py:11-16 | empty label table and vocabulary, untrained classifier |
| SolutionModel.Solution.NgrAdd | solution.py:25-27 | the vocabulary becomes `Register(old, ngram)` and stays dense |
| SolutionModel.Solution.EncodeOpinions | solution.py:29-47 | the label table and the returned rows are those of the counted registration with `n_ops` starting at 0, then binarization; nothing else changes |
| SolutionModel.Solution.DecodeOpinions | solution.py:49-58 | an index error exactly when a label's index is outside the row; otherwise exactly the labels whose bit is 1, each once, in no promised order |
| SolutionModel.Solution.FeaturesFromTokens | solution.py:72-81 | the array filled in place equals the count vector of the tokens |
| SolutionModel.Solution.ScanTokens | solution.py:94-98 | the vocabulary becomes the old one with the tokens' n-grams registered left to right |
| SolutionModel.Solution.ScanTexts | solution.py:89-98 | the vocabulary becomes the old one with the corpus n-grams registered in scanning order; the token lists are those of the texts |
| SolutionModel.Solution.FeatureMatrix | solution.py:100-101 | one count vector per token list, against the final vocabulary |
| SolutionModel.Solution.Train | solution.py:83-103 | the new label table, vocabulary and fitted classifier state, given by the encoding, the corpus scan and `fit` over the feature matrix and target |
| SolutionModel.Solution.Fit | solution.py:106-108 | as `train`, and returns the object itself |
| SolutionModel.Solution.Predict | solution.py:110-116 | untrained is an error; otherwise the decoded row agrees with the label set predicted by `PredictWith`; neither table changes |
| SolutionModel.PredictWith | solution.py:110-116 | the prediction for one text: `Untrained` before training, otherwise the only error is an index error; a predicted set holds only known labels |
| SolutionModel.PredictionsWith | solution.py:118-124 | the predictions for a list of texts, the first error winning: on success one set per text |
| SolutionModel.Solution.GetClasses | solution.py:118-124 | one prediction per text in input order, each agreeing with `PredictionsWith`, or the error of the first failing text; neither table changes |
| SolutionModel.PredictionsOutcome | solution.py:118-124 | the predictions succeed with one set per text exactly when every text's prediction does; otherwise the error is that of the first failing text |
| SolutionModel.PredictionsErrStays | solution.py:118-124 | once a prefix of the texts fails, the whole list fails with the same error |
| SolutionModel.FreshVocabulary | solution.py:89-98 | after training from empty, every n-gram of every training token is in the vocabulary; indices are 0 .. size-1, one n-gram each, in first-seen order of the corpus scan |
| SolutionModel.TokenScanned | solution.py:94-98 | scanning one more token extends the scanned n-grams by that token's n-grams |
| SolutionModel.DocumentScanned | solution.py:90-98 | scanning one more text extends the corpus n-grams and the token lists by that text's |
| SolutionModel.TokenLists | solution.py:89-95 | `token_list`: one token list per training text (a definition; `DocumentScanned` states how it grows and `Solution.ScanTexts` returns it) |
| SolutionModel.FeatureRows | solution.py:100-101 | `features_list`: one count vector per token list (a definition; `FeatureRowsStep` states how it grows and `Solution.FeatureMatrix` equals it) |
| SolutionModel.FeatureRowsStep | solution.py:100-101 | one more feature row is appended for one more token list |
| Evaluation.CorrectAnswers | main.py:36-41 | the sum over aligned documents of the number of distinct labels shared by prediction and gold list; an index error exactly when there are fewer predictions than gold lists |
| Evaluation.TotalLength | main.py:33-34 | `sum([len(x) for x in ...])` (a definition; `SumCardOfSets` states its relation to the label sets) |
| Evaluation.Overlap | main.py:36-41 | the `correct_answers` sum over the first n documents (a definition; `OverlapBounds` states its bounds) |
| Evaluation.SetOfBound | main.py:38-41 | a set has no more elements than the list it is built from |
| Evaluation.DistinctSetOf | main.py:34 | a decoded list, which has no repeats, has as many labels as its set |
| Evaluation.SumCardOfSets | main.py:33-34 | the label sets never hold more labels than the lists; as many when the lists have no repeats |
| Evaluation.SubsetCard | main.py:41 | an intersection is no larger than either side |
| Evaluation.OverlapBounds | main.py:33-41 | over any prefix of the documents, `correct_answers` is at most the gold total and at most the predicted total |
| Evaluation.CorrectBounded | main.py:33-41 | `correct_answers <= total_answers_test` and `correct_answers <= total_answers_system` |
| Evaluation.OverlapIgnoresOrderAndRepeats | main.py:38-41 | a document's contribution depends neither on label order nor on repeats, in prediction or gold list |
| Evaluation.SumCardPrefix | main.py:34 | a prefix of the predicted sets has at most their total size |
| Evaluation.FoldScore | main.py:45-47 | a division-by-zero error exactly when there are no predicted, no gold or no correct labels |
| Evaluation.FoldScoreValue | main.py:45-47 | the F-measure equals `2·correct / (gold + predicted)` and lies in (0, 1] when the bounds hold |
| Evaluation.FoldScoreExample | main.py:45-47 | 3 correct of 5 gold and 6 predicted labels score 6/11 |
| Evaluation.CountsOf | main.py:33-41 | the fold tallies fail exactly when there are fewer predictions than gold lists |
| Evaluation.CountsBounded | main.py:33-41 | the correct tally is at most each of the two totals |
| Evaluation.FoldSpec | main.py:24-41 | the three tallies of one fold, from a fresh classifier trained on that fold alone; when they exist, the correct tally is at most each total |
| Evaluation.FoldResult | main.py:24-47 | the score of one fold or the error that stops it; a score always lies in (0, 1] |
| Evaluation.AnswersAgree | main.py:34 | decoded answers that agree with label sets have exactly those sets and as many labels in all |
| Evaluation.RunFold | main.py:24-41 | the tallies of a fold are those of a classifier trained from empty on that fold's training part alone |
| Evaluation.ScoreFold | main.py:24-47 | the score of one fold is `FoldResult` of that fold, and lies in (0, 1] when there is one |
| Evaluation.CrossValidate | main.py:15-50 | one score per fold in fold order, each determined by its own fold alone; or the error of the first failing fold, every earlier fold having scored |

## Left out

- The learner (`OneVsRestClassifier(MultinomialNB())`, its `n_jobs=-1`
  parallelism, `fit` and `predict`) is foreign code. It is a pair of function
  parameters, `fit` and `classify`. Nothing is assumed about the width or the
  values of the rows `classify` returns. The constant-predictor failure noted
  in the evaluation script happens inside that library and is not modelled.
- `_normalize_text` (`str.lower`) and `nltk.word_tokenize` are foreign code.
  They are the function parameters `lower` and `wordTokenize`.
- `get_params` only passes through to the library.
- The `_debug` and `_n_fearures` fields are never read by the core.
- Fold partitioning by `KFold` with unseeded shuffling is foreign and
  nondeterministic. `CrossValidate` takes the folds as given.
- Data loading from `reviews.json` is file I/O; `data_extractor` is not part
  of this model.
- All `print` output is left out.
- The final mean of the fold scores is left out; `CrossValidate` returns the
  scores.
- Scores are exact reals, not IEEE doubles.
- Python 2 dictionary iteration order is not modelled. `DecodeOpinions` picks
  the labels in an unspecified order, and its contract promises no order.
- Solution.DecodeOpinions: the contract states the result as a set plus "no
  repeats", not as a particular sequence, because the order follows
  dictionary iteration.
- Evaluation.RunFold: the fold's training texts and labels are taken as given,
  because the NumPy indexing that selects them is not modelled.
- `label_binarize` is modelled only with `multilabel=True` and
  `classes=range(n_ops)`; the library's other modes and argument checks are
  left out. On a label table that is not empty on entry, the code can list an
  index that is not below `n_ops` (a label registered by an earlier call). What
  the library does with such an index is not modelled: `BinarizeRow` drops it,
  so for example `EncodeRows(map["a" := 0, "b" := 1], [["b"]])` is `[[]]`.

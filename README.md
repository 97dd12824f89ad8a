# pemett core in Dafny

pemett tunes and evaluates a stacked-generalization ensemble for a clinical
prediction task. This project models three of its pieces:

- **`StackedGeneralizationClassifier`** (src/models/classifiers.py).
  - `fit` routes the ensemble's hyperparameters to each base classifier.
    A key containing the classifier's lower-cased class name is kept and
    renamed to the text after its first `"__"`.
  - It then builds the meta-feature matrix from out-of-fold predictions,
    one column per base classifier.
  - Finally it refits every base classifier and the meta classifier.
  - `predict_meta_features` stacks the base classifiers' predictions.
  - `predict` cuts the meta classifier's probability of class 1 into four
    ordinal categories with `pd.cut(right=True, include_lowest=False)`.
  - `cv_outer_loop` scores every hyperparameter combination on every
    outer fold. It keeps the table, picks the combination with the
    greatest mean score (the first one on ties) and, if asked, refits.
- **`generate_all_combinations`** (src/models/train_model.py). It builds
  the Cartesian product of an ordered dict of value lists, in
  `itertools.product` order.
- **`parse_value_labels`** (src/data/transform.py). It parses
  data-dictionary cells such as `1 = Male,2 = Female` into a map from
  variable name to a map from integer code to label.

## Modules

Each module is one file.

| module | file | what |
|---|---|---|
| `Wrappers` | wrappers.dfy | `Option`, `Result`, and `Outcome` (pass, or fail with an error) |
| `Text` | text.dfy | the Python `str` operations the code uses: `in`, `split`, `replace`, `lower`, `int()` and `str()` |
| `Combinations` | combinations.dfy | `generate_all_combinations` |
| `ValueLabels` | value_labels.dfy | `parse_value_labels` |
| `Learners` | learners.dfy | scikit-learn estimators as values, with `set_params`, `fit`, `clone`; oracles for predictions, the fold assignment and ROC AUC; `cross_val_predict` |
| `Routing` | routing.dfy | the hyperparameter routing comprehension of `fit` |
| `Binning` | binning.dfy | `pd.cut` with five breaks and four labels |
| `Stacking` | stacking.dfy | what `fit`, `cv_inner_loop`, `predict_meta_features` and `predict` compute, as functions |
| `Tuning` | tuning.dfy | what `cv_outer_loop` computes: the threaded loop, the fresh reference table and the selection |
| `Classifiers` | classifier.dfy | the class itself, with its fields updated in place by methods proved against the functions above |

Design notes:

- The scikit-learn estimators are values: a class name, a parameter map
  and the data they were last fitted to.
  - `fit` records the training data.
  - `clone` forgets it.
  - `set_params` merges the new parameters into the map.
- What an estimator predicts for a row is an oracle in the `Learning`
  record. So are the stratified fold of each row and `roc_auc_score`.
- A hyperparameter dict is an insertion-ordered list of (key, value)
  pairs.
- The data dictionary is given as its two relevant columns, zipped. A
  missing (NaN) value-label cell is `None`.
- Behaviour the model takes from the code as written:
  - The inner cross-validation uses 2 folds (`self.inner_folds = 2`,
    src/models/classifiers.py:36), and so does the outer one (line 37).
  - The final refit of `cv_outer_loop` (src/models/classifiers.py:239)
    uses `X_train` and `y_train` as the last outer fold left them. The
    docstring at lines 186-187 says the refit is to "the training set";
    the code refits to the training rows of the last outer fold only.
  - Each fold's score is `roc_auc_score` of the validation labels against
    the binned categories `y_pred_cut` (lines 225-230).

## Model

| member | source | states |
|---|---|---|
| Combinations.GenerateAllCombinations | src/models/train_model.py:9-10 | unpacking `zip(*d.items())` fails exactly when the dict is empty |
| Combinations.CombinationCount | src/models/train_model.py:9-10 | the number of combinations is the product of the lengths of the value lists; a key with an empty list gives no combinations at all |
| Combinations.CombinationShape | src/models/train_model.py:10 | every combination has exactly the dict's keys, in order, each with a value from that key's own list |
| Combinations.CombinationComplete | src/models/train_model.py:10 | every choice of one value per key appears among the combinations |
| Combinations.CombinationOrder | src/models/train_model.py:10 | the combination for a tuple of value indices sits at that tuple's mixed-radix rank, with the last key varying fastest; lexicographically smaller tuples come first, and distinct tuples have distinct positions, so each appears exactly once |
| Combinations.ProductAt | src/models/train_model.py:10 | `itertools.product` puts the pick for each index tuple at that tuple's rank |
| Combinations.ProductSize | src/models/train_model.py:10 | `itertools.product` yields the product of the list lengths |
| Combinations.ProductMembers | src/models/train_model.py:10 | a tuple is in the product iff it has one element per list, each drawn from its list |
| Combinations.ProductEntry | src/models/train_model.py:10 | entry r of the product is the pick for the index tuple of rank r |
| Combinations.RankOrdered | src/models/train_model.py:10 | a lexicographically smaller index tuple has a smaller rank |
| Combinations.Unrank | src/models/train_model.py:10 | every position below the product's size is the rank of a valid index tuple |
| Combinations.PrefixedAt | src/models/train_model.py:10 | one step of the product puts head a followed by tail b at position a times the number of tails, plus b |
| Combinations.EmptyListEmptiesSize | src/models/train_model.py:10 | an empty value list makes the product's size zero |
| Text.Split | src/data/transform.py:14-15 | `str.split` with a separator always gives at least one part |
| Text.SplitParts | src/data/transform.py:14-15 | no part of a split contains the separator |
| Text.SplitChars | src/data/transform.py:14-15 | every character of a part comes from the string being split |
| Text.JoinSplit | src/data/transform.py:14-15 | joining the parts of a split with the separator gives back the string |
| Text.SplitJoin | src/data/transform.py:14 | splitting on a one-character separator inverts joining parts that do not contain it |
| Text.SplitAtFirst | src/data/transform.py:15 | a split starts with the text before the first separator, then splits the rest |
| Text.SplitNone | src/data/transform.py:15 | a string without the separator splits into itself |
| Text.ContainsIff | src/models/classifiers.py:65 | `sub in s` holds iff `sub` occurs somewhere in `s` |
| Text.FindFromFirst | src/models/classifiers.py:65 | the search returns the first occurrence at or after its start, and no occurrence exists when it fails |
| Text.AfterFirst | src/models/classifiers.py:66 | `k.split("__", 1)[1]` exists iff the key contains the separator, and it is the text after the first occurrence |
| Text.AfterFirstIsTail | src/models/classifiers.py:66 | the text after the first separator is the full split minus its first part, rejoined |
| Text.RemoveAll | src/data/transform.py:15 | `replace('"', "")` leaves no `"`, and leaves a string without `"` unchanged |
| Text.RemoveAllChars | src/data/transform.py:15 | exactly the characters other than the removed one survive |
| Text.Lower | src/models/classifiers.py:64 | `lower()` keeps the length and leaves no ASCII capital |
| Text.ParseShow | src/data/transform.py:16 | `int(str(n)) == n` for every integer |
| Text.NumeralValue | src/data/transform.py:16 | the decimal digits of m read back as m |
| Text.StripLeftSpaces | src/data/transform.py:16 | `int()` drops exactly the leading whitespace |
| Text.StripRightSpaces | src/data/transform.py:16 | `int()` drops exactly the trailing whitespace |
| Text.StripUnchanged | src/data/transform.py:16 | a string with no whitespace at either end is stripped to itself |
| ValueLabels.EntryLabelClean | src/data/transform.py:15-16 | an entry parses iff its first `" = "` part is an integer and a second part exists; the label then contains neither `"` nor `" = "` |
| ValueLabels.EntryLabelBetweenSeparators | src/data/transform.py:16 | the label is the text between the first and second `" = "` of the de-quoted entry; anything after a second `" = "` is dropped |
| ValueLabels.EntryRoundTrip | src/data/transform.py:14-16 | formatting a code and a clean label as `code = label` and parsing it gives them back |
| ValueLabels.Collect | src/data/transform.py:16 | a dict built from pairs has at most as many keys as there are pairs |
| ValueLabels.CollectKeys | src/data/transform.py:19-24 | a key is in the dict iff some pair with it has a value |
| ValueLabels.CollectLast | src/data/transform.py:16 | a later pair with the same key overrides an earlier one |
| ValueLabels.MapAllMeaning | src/data/transform.py:15-16 | a comprehension that raises on one element succeeds iff every element succeeds, then yields each element's result; otherwise it raises the first failure's error |
| ValueLabels.ParseCell | src/data/transform.py:14-16 | a parsed cell has at least one entry |
| ValueLabels.CellShape | src/data/transform.py:14-16 | a cell parses iff every comma-separated entry parses; its map has at most one code per entry, and no label contains `"` |
| ValueLabels.CellCodes | src/data/transform.py:16 | the codes of a cell's map are exactly the codes of its entries, and each code maps to the label of its last entry |
| ValueLabels.CollectEntries | src/data/transform.py:16 | for a list of entries, the map's codes are the entries' codes, and a code's label is the one from its last entry |
| ValueLabels.CellRoundTrip | src/data/transform.py:14-16 | formatting clean (code, label) pairs as a cell and parsing it gives back the pairs, collected into a map |
| ValueLabels.CollectRows | src/data/transform.py:19-24 | the result holds exactly the variables whose cell is present, each mapped to its last row's value |
| ValueLabels.CollectNonEmpty | src/data/transform.py:19-24 | when every parsed cell is non-empty, so is every map in the result |
| ValueLabels.LabelsOfCells | src/data/transform.py:9-24 | from the recorded per-row results: keys are the variables with a present cell, values are the last such row's parsed map, none is empty |
| ValueLabels.ParseCells | src/data/transform.py:9-17 | the loop records `None` for a missing cell and the parsed map otherwise, one entry per row; the first row whose cell fails makes it raise that cell's error |
| ValueLabels.ParseValueLabels | src/data/transform.py:6-24 | succeeds iff every present cell parses; on failure, raises the first bad row's error; on success, the variables are exactly those with a present cell, the last row of a repeated variable wins, and every map is non-empty |
| Learners.SetParams | src/models/classifiers.py:67 | `set_params` overwrites the given parameters, keeps the others, and keeps the class and the fitted state |
| Learners.Fit | src/models/classifiers.py:72 | `fit` keeps class and parameters and replaces the fitted state by the new training set |
| Learners.Clone | src/models/classifiers.py:161-167 | `clone` keeps class and parameters and drops the fitted state |
| Learners.FitReplaces | src/models/classifiers.py:72-75 | fitting forgets all earlier fitted state: two estimators equal up to their fitted state fit to the same thing, and fitting twice equals fitting once |
| Learners.FoldRowsExact | src/models/classifiers.py:204-211 | a fold's rows are increasing and are exactly the rows assigned (validation) or not assigned (training) to that fold |
| Learners.FoldsPartition | src/models/classifiers.py:204-211 | each row is a validation row of exactly one fold and a training row of every other |
| Learners.Select | src/models/classifiers.py:208-211 | `X.iloc[rows]` picks the listed rows in order |
| Learners.OutOfFold | src/models/classifiers.py:161-167 | `cross_val_predict` gives one prediction per row |
| Learners.OutOfFoldNoLeak | src/models/classifiers.py:161-168 | row i's out-of-fold prediction comes from a model fitted to rows that exclude i, and it does not depend on the fitted state of the estimator passed in |
| Routing.Lookup | src/models/classifiers.py:125 | `hyper_parameters["breaks"]` finds a value iff the key is present, and the value found is that key's; `Routing.Routes` does the `.get(k)` of line 66 by pairing each key with its own value |
| Routing.Routes | src/models/classifiers.py:65-66 | each key is classified on its own, in the dict's order |
| Routing.RouteOf | src/models/classifiers.py:65-66 | a key without the name is ignored; with the name and no `"__"` it raises; otherwise it is renamed to the text after its first `"__"` |
| Routing.GatherFails | src/models/classifiers.py:66 | the comprehension raises iff some kept key has no `"__"`, and then on the first such key |
| Routing.GatherHas | src/models/classifiers.py:66 | a name is a key of the routed params iff some kept key is renamed to it |
| Routing.GatherLast | src/models/classifiers.py:66 | when two kept keys rename to the same name, the later one's value wins |
| Routing.RouteFails | src/models/classifiers.py:65-66 | routing a dict for a class name raises iff some key containing the name has no `"__"`; the error names the first such key |
| Routing.RouteKeys | src/models/classifiers.py:63-67 | on success, the classifier receives exactly the renamed keys that contain its name, each with the value of its last key; other keys such as `breaks` are ignored |
| Binning.SearchSortedSplits | src/models/classifiers.py:123-129 | on increasing breaks, the breaks below p are exactly a prefix |
| Binning.Bin | src/models/classifiers.py:123-129 | a category, when there is one, is one of the four labels |
| Binning.Cut | src/models/classifiers.py:123-129 | `pd.cut` bins each probability on its own, keeping the length |
| Binning.BinInterval | src/models/classifiers.py:123-129 | p gets category k iff k < 4 and `breaks[k] < p <= breaks[k+1]` |
| Binning.BinMissing | src/models/classifiers.py:127-128 | p gets no category iff `p <= breaks[0]` or `p > breaks[4]` |
| Binning.BinMonotone | src/models/classifiers.py:123-129 | a larger in-range probability never gets a smaller category |
| Stacking.ConfigureEach | src/models/classifiers.py:63-67 | the routing loop keeps one classifier per input classifier |
| Stacking.ConfigureAll | src/models/classifiers.py:63-67 | `fit`'s routing keeps the list's length, with or without hyperparameters |
| Stacking.ConfigureEachLast | src/models/classifiers.py:63-67 | the loop over a list is the loop over all but the last classifier, followed by the last one |
| Stacking.ConfigureEachOk | src/models/classifiers.py:63-67 | when the loop succeeds, classifier c ends up as its own routing on its own |
| Stacking.ConfigureEachPass | src/models/classifiers.py:63-67 | the loop succeeds iff every classifier can be routed |
| Stacking.ConfigureEachStops | src/models/classifiers.py:63-67 | when classifier c is the first that cannot be routed, the loop raises its error; the classifiers before c are updated and c and those after keep their old parameters |
| Stacking.ConfigureEachNext | src/models/classifiers.py:63-67 | routing one more classifier after a routed prefix extends the routed prefix |
| Stacking.ConfigureWithTwice | src/models/classifiers.py:63-67 | routing the same dict a second time changes nothing |
| Stacking.ConfigureWithClones | src/models/classifiers.py:63-67 | routing reads only class names and parameters, never fitted state |
| Stacking.ColumnStack | src/models/classifiers.py:100 | `np.column_stack`/`np.hstack` put column c of the inputs at column c of every row |
| Stacking.InnerLoopColumns | src/models/classifiers.py:137-171 | `cv_inner_loop` raises on the unrecorded class counts, an empty ensemble, mismatched lengths or an impossible split; otherwise entry (i, c) is classifier c's out-of-fold prediction for row i |
| Stacking.FitAll | src/models/classifiers.py:72 | the list comprehension fits every base classifier to (X, y), in order |
| Stacking.FitSpecReplaces | src/models/classifiers.py:52-77 | after a successful `fit`, base classifier c is its routed self fitted to (X, y), and the meta classifier is fitted to the meta features of (X, y); no earlier fitted state survives |
| Stacking.FitSpecClones | src/models/classifiers.py:52-77 | `fit` does not depend on the fitted state it starts from |
| Stacking.FitSpecTwice | src/models/classifiers.py:52-77 | fitting again with the same data and hyperparameters leaves the ensemble unchanged |
| Stacking.FitSpecRouted | src/models/classifiers.py:63-77 | `fit` gives the same result on an ensemble already routed with the same dict |
| Stacking.ClonesFitAll | src/models/classifiers.py:72 | refitting changes only fitted state |
| Stacking.MetaFeaturesColumns | src/models/classifiers.py:80-102 | `predict_meta_features` succeeds iff the ensemble is non-empty and fitted and there are rows; then entry (i, c) is classifier c's prediction for row i |
| Stacking.BreaksOf | src/models/classifiers.py:125-129 | the breaks `predict` uses are exactly `hyper_parameters["breaks"]`, five strictly increasing reals; such a list is always accepted |
| Stacking.MetaProbabilities | src/models/classifiers.py:117-124 | the meta classifier's probability of class 1, row by row |
| Stacking.PredictShape | src/models/classifiers.py:105-135 | with `use_probas`, `predict` returns one probability and one category per row, the category being the bin of the probability; otherwise it returns the meta classifier's classes unchanged |
| Tuning.Present | src/models/classifiers.py:225-230 | scoring a fold needs every category present, and then uses them in order |
| Tuning.Folds | src/models/classifiers.py:204-231 | after j folds that pass, the row holds j scores |
| Tuning.FoldsNext | src/models/classifiers.py:204-231 | one more fold either appends its score or stops with its error |
| Tuning.FoldsStops | src/models/classifiers.py:204-231 | after a fold raises, the later folds do nothing |
| Tuning.FoldStepOfIs | src/models/classifiers.py:206-231 | the fold step of a combination is the step the loop runs |
| Tuning.CombinationBy | src/models/classifiers.py:198-231 | a combination that passes yields a row of one score per outer fold |
| Tuning.Loop | src/models/classifiers.py:198-231 | when every combination passes, the table has one row per combination |
| Tuning.LoopNext | src/models/classifiers.py:198-231 | one more combination appends its row or stops with its error |
| Tuning.LoopRows | src/models/classifiers.py:193-231 | when every combination yields a row of k scores, so does every row of the table |
| Tuning.LoopStops | src/models/classifiers.py:198-231 | after a combination raises, the later ones do nothing |
| Tuning.CombinationRows | src/models/classifiers.py:193-231 | every combination that passes fills one row of `outer_folds` scores |
| Tuning.OuterLoop | src/models/classifiers.py:193-231 | when the loops pass, the table has shape (#combinations × outer folds) |
| Tuning.RowMeans | src/models/classifiers.py:236 | `mean(axis=1)` is each row's sum over its length |
| Tuning.ArgMaxFirst | src/models/classifiers.py:236 | `idxmax` picks a greatest mean, and the first one on ties |
| Tuning.BestRow | src/models/classifiers.py:236-237 | the chosen combination has the greatest row mean, and every earlier row's mean is smaller |
| Tuning.LastTrain | src/models/classifiers.py:239 | the refit rows are rows of the data |
| Tuning.FreshRow | src/models/classifiers.py:204-231 | a reference row scores each outer fold on its own |
| Tuning.FreshTable | src/models/classifiers.py:193-231 | reference cell (i, j) is fold j's score for combination i, from an ensemble routed with the combinations before it |
| Tuning.Reference | src/models/classifiers.py:198-231 | the reference table has one row per combination, each computed on its own |
| Tuning.FoldStepClones | src/models/classifiers.py:206-231 | a fold's score does not depend on the fitted state the fold starts from |
| Tuning.FoldStepRouted | src/models/classifiers.py:206-231 | a fold that passes leaves the ensemble routed with the combination |
| Tuning.OutcomesMeaning | src/models/classifiers.py:204-231 | a row passes iff every fold scores, and then holds the scores in order; otherwise it raises the first failing fold's error |
| Tuning.TableOutcomesMeaning | src/models/classifiers.py:198-231 | the table passes iff every cell scores; otherwise it raises the error of the first failing cell in row-major order |
| Tuning.FoldsFresh | src/models/classifiers.py:204-231 | threading the fitted ensemble from fold to fold gives the same scores as fitting each fold afresh |
| Tuning.StepFrom | src/models/classifiers.py:206-231 | a fold scores the same from any ensemble equal up to fitted state |
| Tuning.CombinationFresh | src/models/classifiers.py:198-231 | each combination's threaded row agrees with its reference row |
| Tuning.CombinationRow | src/models/classifiers.py:198-231 | a combination scored from a threaded ensemble agrees with its fresh reference row |
| Tuning.LoopFresh | src/models/classifiers.py:198-231 | the threaded loop gives exactly the reference table's outcome: the same scores, or the first failing cell's error |
| Tuning.OuterLoopFresh | src/models/classifiers.py:193-233 | every cell of the score table is written once, with the score a fresh fit of that fold gives for that combination; the loop stops at the first cell that raises |
| Tuning.OuterLoopRefit | src/models/classifiers.py:239 | the final refit does not depend on the fitted state the loops left |
| Classifiers.StackedGeneralizationClassifier.constructor | src/models/classifiers.py:23-50 | the fitted copies start as the given classifiers; no table or hyperparameters yet; the logging counters start at 0 |
| Classifiers.StackedGeneralizationClassifier.CvInnerLoop | src/models/classifiers.py:137-171 | the loop builds `InnerLoop` of the current base classifiers: one out-of-fold column per classifier, in order |
| Classifiers.StackedGeneralizationClassifier.RouteHyperParameters | src/models/classifiers.py:63-67 | the loop updates the base classifiers in place exactly as the routing specification says, including the partial update when a key cannot be routed |
| Classifiers.StackedGeneralizationClassifier.Fit | src/models/classifiers.py:52-77 | `fit` replaces `base_clfs_` and `meta_clf_` by exactly what `FitSpec` gives |
| Classifiers.StackedGeneralizationClassifier.PredictMetaFeatures | src/models/classifiers.py:80-102 | entry (i, c) is classifier c's prediction for row i, with `use_probas` defaulting to the ensemble's own |
| Classifiers.StackedGeneralizationClassifier.Predict | src/models/classifiers.py:105-135 | one probability and its category per row, or the meta classifier's classes |
| Classifiers.StackedGeneralizationClassifier.ScoreFold | src/models/classifiers.py:206-231 | one fold fits on the training rows, predicts the validation rows and scores their categories, as `FoldStep` says; the first fold of the first combination records the class counts |
| Classifiers.StackedGeneralizationClassifier.NextFold | src/models/classifiers.py:204-231 | scoring one more fold is one more step of `Folds`; the first fold of the first combination records the class counts |
| Classifiers.StackedGeneralizationClassifier.ScoreCombination | src/models/classifiers.py:204-231 | the inner loop of `cv_outer_loop` computes `CombinationBy` for the current combination; for the first combination, once the split is possible, the class counts are recorded |
| Classifiers.StackedGeneralizationClassifier.ScoreCombinations | src/models/classifiers.py:198-231 | the two loops compute `OuterLoop` |
| Classifiers.StackedGeneralizationClassifier.CvOuterLoop | src/models/classifiers.py:174-241 | on success, `roc_aucs` is the table, `hyper_parameters` is the combination with the greatest mean (the first on ties), and the refit is `fit` on the last fold's training rows; a failure inside the loops leaves `roc_aucs` untouched, and an empty list of combinations sets it to the empty table before raising |

## Left out

- Learned behaviour of scikit-learn: what `fit`, `predict_proba` and
  `predict` learn and return is an oracle of the `Learning` record. Each
  prediction is taken to depend on its row alone, and on the estimator's
  class, parameters and training data.
- `StratifiedKFold` is modelled as an oracle fold per row, the rows of
  each fold in ascending order. Its failure is defined by scikit-learn's
  rule (`SplitFails`: every class has fewer members than there are
  folds); which row lands in which fold is not modelled beyond that.
- `roc_auc_score` is an oracle; it may fail (one class only).
- `set_params` does not validate parameter names: any routed name is
  accepted.
- `pd.cut` with a scalar number of bins is reported as `UnsupportedBins`
  rather than modelled.
- Floating point: probabilities, scores and means are exact reals, and
  NaN probabilities are not modelled.
- Python's `int()` is modelled for ASCII digits with single `_`
  separators between digits, an optional sign, and surrounding ASCII
  whitespace (with U+001C..U+001F). Unicode digits and Unicode white
  space are not modelled.
- Text.Lower: ASCII case mapping only. Python's `str.lower()` also lowers
  non-ASCII capitals and can change the length of a string; the class
  names of scikit-learn estimators that it is applied to are ASCII.
- Learners.Fit: fitting never raises, and neither do the `proba` and
  `classify` oracles of `Learning`. scikit-learn's `fit` can raise, for
  example on a training fold with a single class; the model does not
  capture that error path of `fit`, `cv_inner_loop` or `cv_outer_loop`.
- The breaks are finite reals, so `-inf` and `inf` breaks, which
  `pd.cut` accepts, cannot be expressed.
- Aliasing: `base_clfs_` and `meta_clf_` start as the very objects passed
  in, so Python's in-place `set_params` and `meta_clf_.fit` also change
  `base_clfs` and `meta_clf`. The model keeps them as values: the
  constructor's arguments stay as given.
- The `tqdm` progress bar and every `print`. The name-mangled counters
  `__i`, `__j` and `__n` are kept only as far as they make `fit` raise:
  outside `cv_outer_loop`, `cv_inner_loop` reads `self.__n.index` on the
  integer 0.
- Dicts with duplicate keys cannot arise in Python. Hyperparameter dicts
  are lists of pairs, and the routing lemmas about the last key that
  wins cover the repeated renamed names that can arise.
- The score table is built row by row rather than preallocated with
  zeros. Its shape and cell contents are stated as the zeros-then-write
  version leaves them when no cell raises.
- Classifiers.StackedGeneralizationClassifier.CvOuterLoop: on failure,
  the contract does not state which combination `hyper_parameters` and
  the logging counters were left at.
- `label_categorical` (src/data/transform.py:27-30) is a wrapper over
  scikit-learn's `LabelEncoder`.
- src/models/metrics.py calls into R and is not part of this model.
- The plotting and table-writing modules under src/visualization are not
  part of this model, and neither is setup.py.

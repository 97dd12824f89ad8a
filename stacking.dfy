/** What the methods of `StackedGeneralizationClassifier`
    (src/models/classifiers.py) compute, as functions of the state they
    read: the routing loop and the refit of `fit`, the meta-feature matrix
    of `cv_inner_loop` and `predict_meta_features`, and the binned
    prediction of `predict`. */
module Stacking {
  import opened Wrappers
  import opened Text
  import opened Learners
  import opened Routing
  import opened Binning

  /** `self.inner_folds` and `self.outer_folds`: both fixed at 2. */
  const InnerFolds: nat := 2
  const OuterFolds: nat := 2

  /** The key of the hyperparameter dict that holds the breaks. */
  const BreaksKey: string := "breaks"

  /** Why a method of the ensemble raises. */
  datatype FitError =
    | HyperParametersUnset       // `None.keys()` in fit, `None["breaks"]` in predict
    | UnroutableKey(key: string) // `k.split("__", 1)[1]` raises IndexError
    | CountsNotRecorded          // the first-loop log reads `self.__n.index` while `__n` is still 0
    | EmptyEnsemble              // `np.column_stack([])` / `np.hstack([])`
    | LengthMismatch             // X and y have different numbers of rows
    | TooFewMembers              // the stratified splitter finds no class with n_splits members
    | NotFitted                  // predicting with an unfitted estimator
    | EmptyInput                 // predicting on zero rows
    | BreaksMissing              // `hyper_parameters["breaks"]` raises KeyError
    | BadBreaks                  // `pd.cut` rejects the breaks
    | UnsupportedBins            // a scalar number of bins: not part of this model
    | ScoreFailed                // `roc_auc_score` raises (a missing category, one class only)
    | NoCombinations             // `idxmax` of an empty table

  /** What `predict` returns: the probabilities of class 1 with their
      categories, or the meta classifier's classes. */
  datatype Prediction =
    | Probabilities(p: seq<real>, categories: seq<Option<nat>>)
    | Classes(labels: seq<int>)

  /** `clf.__class__.__name__.lower()`. */
  function RoutingName(e: Estimator): string
  {
    Lower(e.className)
  }

  /** One iteration of the routing loop: `set_params` with the keys meant
      for the classifier, renamed. */
  function Configure(e: Estimator, hp: Dict): Result<Estimator, FitError>
  {
    match Route(hp, RoutingName(e))
    case Err(key) => Err(UnroutableKey(key))
    case Ok(m) => Ok(SetParams(e, m))
  }

  /** The routing of one classifier, as a function of the classifier. */
  type RouteFn = Estimator -> Result<Estimator, FitError>

  function ConfigureOf(hp: Dict): RouteFn
  {
    e => Configure(e, hp)
  }

  /** The routing loop over a list, in order, each classifier routed by
      `f`; a classifier before the one that fails keeps its new
      parameters, it and those after it keep their old ones. */
  function ConfigureEach(es: seq<Estimator>, f: RouteFn): (r: (seq<Estimator>, Outcome<FitError>))
    ensures |r.0| == |es|
  {
    if |es| == 0 then ([], Pass)
    else
      var (init, o) := ConfigureEach(es[..|es| - 1], f);
      var last := es[|es| - 1];
      if o.Fail? then (init + [last], o)
      else
        match f(last)
        case Err(e) => (init + [last], Fail(e))
        case Ok(c) => (init + [c], Pass)
  }

  /** The routing loop of `fit` for the dict `hp`. */
  function ConfigureWith(es: seq<Estimator>, hp: Dict): (r: (seq<Estimator>, Outcome<FitError>))
  {
    ConfigureEach(es, ConfigureOf(hp))
  }

  /** Lines 63-67 of `fit`: with no hyperparameters set, the first
      classifier raises; with no classifiers, nothing happens. */
  function ConfigureAll(es: seq<Estimator>, hp: Option<Dict>): (r: (seq<Estimator>, Outcome<FitError>))
    ensures |r.0| == |es|
  {
    if |es| == 0 then (es, Pass)
    else
      match hp
      case None => (es, Fail(HyperParametersUnset))
      case Some(d) => ConfigureWith(es, d)
  }

  /** The loop over a non-empty list is the loop over all but the last
      classifier, then the last one. */
  lemma ConfigureEachLast(es: seq<Estimator>, f: RouteFn)
    requires |es| > 0
    ensures var n := |es| - 1;
      var (init, o) := ConfigureEach(es[..n], f);
      && (o.Fail? ==> ConfigureEach(es, f) == (init + [es[n]], o))
      && (o.Pass? && f(es[n]).Err? ==> ConfigureEach(es, f) == (init + [es[n]], Fail(f(es[n]).error)))
      && (o.Pass? && f(es[n]).Ok? ==> ConfigureEach(es, f) == (init + [f(es[n]).value], Pass))
  {
  }

  /** A successful routing loop routes every classifier, each on its own. */
  lemma {:induction false} ConfigureEachOk(es: seq<Estimator>, f: RouteFn)
    requires ConfigureEach(es, f).1.Pass?
    ensures forall c :: 0 <= c < |es| ==> f(es[c]) == Ok(ConfigureEach(es, f).0[c])
  {
    if |es| > 0 {
      var init := es[..|es| - 1];
      ConfigureEachOk(init, f);
      ConfigureEachLast(es, f);
      assert forall c :: 0 <= c < |init| ==> init[c] == es[c];
    }
  }

  /** The routing loop succeeds exactly when every classifier can be
      routed. */
  lemma {:induction false} ConfigureEachPass(es: seq<Estimator>, f: RouteFn)
    ensures ConfigureEach(es, f).1.Pass? <==> forall c :: 0 <= c < |es| ==> f(es[c]).Ok?
  {
    if |es| > 0 {
      var init := es[..|es| - 1];
      ConfigureEachPass(init, f);
      ConfigureEachLast(es, f);
      assert forall c :: 0 <= c < |init| ==> init[c] == es[c];
    }
  }

  /** When classifier `c` is the first that cannot be routed, the loop
      raises its error, and it and the classifiers after it keep their old
      parameters. */
  lemma {:induction false} ConfigureEachStops(es: seq<Estimator>, f: RouteFn, c: nat)
    requires c < |es| && ConfigureEach(es[..c], f).1.Pass? && f(es[c]).Err?
    ensures ConfigureEach(es, f) == (ConfigureEach(es[..c], f).0 + es[c..], Fail(f(es[c]).error))
  {
    var n := |es| - 1;
    var front := ConfigureEach(es[..c], f).0;
    var err := Fail(f(es[c]).error);
    var rn := ConfigureEach(es[..n], f);
    if c < n {
      assert es[..n][..c] == es[..c];
      ConfigureEachStops(es[..n], f, c);
      assert rn == (front + es[..n][c..], err);
      assert es[..n][c..] + [es[n]] == es[c..];
      assert (front + es[..n][c..]) + [es[n]] == front + es[c..];
    } else {
      assert es[..n] == es[..c];
      assert rn.1.Pass?;
      assert es[c..] == [es[n]];
    }
    ConfigureEachLast(es, f);
  }

  /** One more classifier routed after a prefix that was routed. */
  lemma ConfigureEachNext(es: seq<Estimator>, f: RouteFn, c: nat, front: seq<Estimator>, routed: Estimator)
    requires c < |es| && ConfigureEach(es[..c], f) == (front, Pass) && f(es[c]) == Ok(routed)
    ensures ConfigureEach(es[..c + 1], f) == (front + [routed], Pass)
  {
    assert es[..c + 1][..c] == es[..c];
  }

  /** Routing the same dict a second time changes nothing: `set_params`
      with the same keys is idempotent. */
  lemma {:induction false} ConfigureWithTwice(es: seq<Estimator>, hp: Dict)
    requires ConfigureWith(es, hp).1.Pass?
    ensures ConfigureWith(ConfigureWith(es, hp).0, hp) == ConfigureWith(es, hp)
  {
    if |es| > 0 {
      var n := |es| - 1;
      var f := ConfigureOf(hp);
      ConfigureWithTwice(es[..n], hp);
      var r := ConfigureWith(es, hp).0;
      ConfigureEachLast(es, f);
      assert r[..n] == ConfigureWith(es[..n], hp).0;
      var c := r[n];
      assert RoutingName(c) == RoutingName(es[n]);
      assert SetParams(c, Route(hp, RoutingName(c)).value) == c;
      ConfigureEachLast(r, f);
    }
  }

  /** Routing only reads class names and parameters, never fitted state. */
  lemma {:induction false} ConfigureWithClones(es: seq<Estimator>, es': seq<Estimator>, hp: Dict)
    requires Clones(es) == Clones(es')
    ensures ConfigureWith(es, hp).1 == ConfigureWith(es', hp).1
    ensures Clones(ConfigureWith(es, hp).0) == Clones(ConfigureWith(es', hp).0)
  {
    assert |es| == |Clones(es)| == |es'|;
    if |es| > 0 {
      var n := |es| - 1;
      var f := ConfigureOf(hp);
      assert Clones(es[..n]) == Clones(es')[..n] == Clones(es'[..n]);
      assert Clone(es[n]) == Clones(es)[n] == Clone(es'[n]);
      ConfigureWithClones(es[..n], es'[..n], hp);
      assert RoutingName(es[n]) == RoutingName(es'[n]);
      ConfigureEachLast(es, f);
      ConfigureEachLast(es', f);
      var r := ConfigureWith(es, hp).0;
      var r' := ConfigureWith(es', hp).0;
      assert Clones(r[..n]) == Clones(ConfigureWith(es[..n], hp).0);
      assert Clones(r'[..n]) == Clones(ConfigureWith(es'[..n], hp).0);
      assert Clone(r[n]) == Clone(r'[n]);
      assert Clones(r) == Clones(r[..n]) + [Clone(r[n])];
      assert Clones(r') == Clones(r'[..n]) + [Clone(r'[n])];
    }
  }

  /** `np.column_stack(cols)`: row i holds the i-th entry of every column,
      in column order. */
  function ColumnStack(cols: seq<seq<real>>, n: nat): (M: Matrix)
    requires forall c :: 0 <= c < |cols| ==> |cols[c]| == n
    ensures |M| == n && forall i :: 0 <= i < n ==> |M[i]| == |cols| && forall c :: 0 <= c < |cols| ==> M[i][c] == cols[c][i]
  {
    seq(n, i requires 0 <= i < n => seq(|cols|, c requires 0 <= c < |cols| => cols[c][i]))
  }

  /** `cv_inner_loop`: one column of out-of-fold predictions per base
      classifier. `crash` says that the first-loop log is due while the
      class counts were never recorded. */
  function InnerLoop(lib: Learning, es: seq<Estimator>, X: Matrix, y: Labels, useProbas: bool, crash: bool): Result<Matrix, FitError>
  {
    if crash then Err(CountsNotRecorded)
    else if |es| == 0 then Err(EmptyEnsemble)
    else if |X| != |y| then Err(LengthMismatch)
    else if SplitFails(y, InnerFolds) then Err(TooFewMembers)
    else Ok(ColumnStack(seq(|es|, c requires 0 <= c < |es| => OutOfFold(lib, es[c], X, y, InnerFolds, useProbas)), |X|))
  }

  /** The meta features are one column per base classifier, in list order,
      each the out-of-fold prediction of that classifier. */
  lemma InnerLoopColumns(lib: Learning, es: seq<Estimator>, X: Matrix, y: Labels, useProbas: bool, crash: bool)
    ensures var r := InnerLoop(lib, es, X, y, useProbas, crash);
      r.Ok? <==> !crash && |es| > 0 && |X| == |y| && !SplitFails(y, InnerFolds)
    ensures var r := InnerLoop(lib, es, X, y, useProbas, crash);
      r.Ok? ==> |r.value| == |X| && forall i :: 0 <= i < |X| ==> (|r.value[i]| == |es|
        && forall c :: 0 <= c < |es| ==> r.value[i][c] == Score(lib, FoldModel(lib, es[c], X, y, InnerFolds, i), X[i], useProbas))
  {
  }

  /** The base classifiers fitted to (X, y), in list order. */
  function FitAll(es: seq<Estimator>, X: Matrix, y: Labels): (r: seq<Estimator>)
    ensures |r| == |es| && forall c :: 0 <= c < |es| ==> r[c] == Fit(es[c], X, y)
  {
    seq(|es|, c requires 0 <= c < |es| => Fit(es[c], X, y))
  }

  /** `fit`: route the hyperparameters, compute the meta features, refit
      every base classifier and the meta classifier. Gives the new base
      classifiers, the new meta classifier and whether it raised. */
  function FitSpec(lib: Learning, es: seq<Estimator>, meta: Estimator, hp: Option<Dict>, useProbas: bool, crash: bool,
                   X: Matrix, y: Labels): (seq<Estimator>, Estimator, Outcome<FitError>)
  {
    var (configured, o) := ConfigureAll(es, hp);
    if o.Fail? then (configured, meta, o)
    else
      match InnerLoop(lib, configured, X, y, useProbas, crash)
      case Err(e) => (configured, meta, Fail(e))
      case Ok(M) => (FitAll(configured, X, y), Fit(meta, M, y), Pass)
  }

  /** After a successful `fit`, every base classifier has its routed
      parameters and was fitted to (X, y), and the meta classifier was
      fitted to the meta features of (X, y): the old fitted state is
      replaced, not accumulated. */
  lemma FitSpecReplaces(lib: Learning, es: seq<Estimator>, meta: Estimator, hp: Option<Dict>, useProbas: bool, crash: bool,
                        X: Matrix, y: Labels)
    requires FitSpec(lib, es, meta, hp, useProbas, crash, X, y).2.Pass?
    ensures var (es', meta', _) := FitSpec(lib, es, meta, hp, useProbas, crash, X, y);
      && |es'| == |es|
      && (|es| > 0 ==> hp.Some?)
      && (forall c :: 0 <= c < |es| ==> (Configure(es[c], hp.value).Ok?
            && es'[c] == Fit(Configure(es[c], hp.value).value, X, y)))
      && meta'.className == meta.className && meta'.params == meta.params
      && meta'.trainedOn == Some((InnerLoop(lib, ConfigureAll(es, hp).0, X, y, useProbas, crash).value, y))
  {
    if |es| > 0 {
      ConfigureEachOk(es, ConfigureOf(hp.value));
    }
  }

  /** What `fit` does depends on the classifiers' classes and parameters
      only: two ensembles that differ in what they were fitted to before
      end up in the same state. */
  lemma FitSpecClones(lib: Learning, es: seq<Estimator>, es': seq<Estimator>, meta: Estimator, meta': Estimator,
                      hp: Option<Dict>, useProbas: bool, crash: bool, X: Matrix, y: Labels)
    requires Clones(es) == Clones(es') && Clone(meta) == Clone(meta')
    ensures var r := FitSpec(lib, es, meta, hp, useProbas, crash, X, y);
      var r' := FitSpec(lib, es', meta', hp, useProbas, crash, X, y);
      && r.2 == r'.2 && Clones(r.0) == Clones(r'.0) && Clone(r.1) == Clone(r'.1)
      && (r.2.Pass? ==> r.0 == r'.0 && r.1 == r'.1)
  {
    assert |es| == |Clones(es)| == |es'|;
    var (c, o) := ConfigureAll(es, hp);
    var (c', o') := ConfigureAll(es', hp);
    if |es| > 0 && hp.Some? {
      ConfigureWithClones(es, es', hp.value);
    }
    assert o == o' && Clones(c) == Clones(c');
    assert |c| == |Clones(c)| == |c'|;
    assert forall k :: 0 <= k < |c| ==> Clone(c[k]) == Clones(c)[k] == Clone(c'[k]);
    if o.Pass? && !crash && |c| > 0 && |X| == |y| && !SplitFails(y, InnerFolds) {
      var cols := seq(|c|, k requires 0 <= k < |c| => OutOfFold(lib, c[k], X, y, InnerFolds, useProbas));
      var cols' := seq(|c'|, k requires 0 <= k < |c'| => OutOfFold(lib, c'[k], X, y, InnerFolds, useProbas));
      forall k | 0 <= k < |c| ensures cols[k] == cols'[k] {
        assert Clone(c[k]) == Clone(c'[k]);
        assert forall i :: 0 <= i < |X| ==> FoldModel(lib, c[k], X, y, InnerFolds, i) == FoldModel(lib, c'[k], X, y, InnerFolds, i);
      }
      assert cols == cols';
      assert FitAll(c, X, y) == FitAll(c', X, y);
    }
  }

  /** Calling `fit` twice on the same data leaves the state of one call. */
  lemma FitSpecTwice(lib: Learning, es: seq<Estimator>, meta: Estimator, d: Dict, useProbas: bool, X: Matrix, y: Labels)
    requires FitSpec(lib, es, meta, Some(d), useProbas, false, X, y).2.Pass?
    ensures var (es', meta', _) := FitSpec(lib, es, meta, Some(d), useProbas, false, X, y);
      FitSpec(lib, es', meta', Some(d), useProbas, false, X, y) == (es', meta', Pass)
  {
    var (es', meta', _) := FitSpec(lib, es, meta, Some(d), useProbas, false, X, y);
    var c := ConfigureAll(es, Some(d)).0;
    // Refitting `c` gives `es'` again, and `es'` differs from `c` in fitted state only.
    assert |es'| == |c| == |es|;
    assert Clones(es') == Clones(c) by {
      assert forall k :: 0 <= k < |c| ==> Clone(es'[k]) == Clone(c[k]);
    }
    assert Clone(meta') == Clone(meta);
    FitSpecClones(lib, es', c, meta', meta, Some(d), useProbas, false, X, y);
    if |es| > 0 {
      ConfigureWithTwice(es, d);
    }
    assert FitSpec(lib, c, meta, Some(d), useProbas, false, X, y) == (es', meta', Pass);
  }

  /** `predict_meta_features`: the first classifier that is unfitted, or
      any classifier at all on zero rows, raises; an empty list cannot be
      stacked; otherwise one column per classifier, in list order. */
  function MetaFeatures(lib: Learning, es: seq<Estimator>, X: Matrix, useProbas: bool): Result<Matrix, FitError>
  {
    if |es| == 0 then Err(EmptyEnsemble)
    else if !Fitted(es[0]) then Err(NotFitted)
    else if |X| == 0 then Err(EmptyInput)
    else if exists c :: 0 <= c < |es| && !Fitted(es[c]) then Err(NotFitted)
    else Ok(ColumnStack(seq(|es|, c requires 0 <= c < |es| => seq(|X|, i requires 0 <= i < |X| => Score(lib, es[c], X[i], useProbas))), |X|))
  }

  /** The meta features of a fitted ensemble on some rows: entry (i, c) is
      base classifier c's prediction for row i. */
  lemma MetaFeaturesColumns(lib: Learning, es: seq<Estimator>, X: Matrix, useProbas: bool)
    ensures var r := MetaFeatures(lib, es, X, useProbas);
      r.Ok? <==> |es| > 0 && |X| > 0 && forall c :: 0 <= c < |es| ==> Fitted(es[c])
    ensures var r := MetaFeatures(lib, es, X, useProbas);
      r.Ok? ==> |r.value| == |X| && forall i :: 0 <= i < |X| ==> (|r.value[i]| == |es|
        && forall c :: 0 <= c < |es| ==> r.value[i][c] == Score(lib, es[c], X[i], useProbas))
  {
  }

  /** `self.hyper_parameters["breaks"]` as `pd.cut` takes it. */
  function BreaksOf(hp: Option<Dict>): (r: Result<seq<real>, FitError>)
    ensures r.Ok? ==> ValidBreaks(r.value)
    ensures r.Ok? ==> hp.Some? && Lookup(hp.value, BreaksKey) == Some(Reals(r.value))
    ensures (&& hp.Some? && Lookup(hp.value, BreaksKey).Some? && Lookup(hp.value, BreaksKey).value.Reals?
             && ValidBreaks(Lookup(hp.value, BreaksKey).value.points))
      ==> r == Ok(Lookup(hp.value, BreaksKey).value.points)
  {
    match hp
    case None => Err(HyperParametersUnset)
    case Some(d) =>
      match Lookup(d, BreaksKey)
      case None => Err(BreaksMissing)
      case Some(Reals(b)) => if ValidBreaks(b) then Ok(b) else Err(BadBreaks)
      case Some(Number(_)) => Err(UnsupportedBins)
      case Some(_) => Err(BadBreaks)
  }

  /** `meta_clf_.predict_proba(X_meta)[:, 1]`, row by row. */
  function MetaProbabilities(lib: Learning, meta: Estimator, M: Matrix): (p: seq<real>)
    ensures |p| == |M| && forall i :: 0 <= i < |M| ==> p[i] == lib.proba(meta, M[i])
  {
    seq(|M|, i requires 0 <= i < |M| => lib.proba(meta, M[i]))
  }

  /** `predict` with `use_probas` true: the probabilities and their
      categories. */
  function PredictProbas(lib: Learning, es: seq<Estimator>, meta: Estimator, hp: Option<Dict>, classUseProbas: bool, X: Matrix)
    : Result<(seq<real>, seq<Option<nat>>), FitError>
  {
    match MetaFeatures(lib, es, X, classUseProbas)
    case Err(e) => Err(e)
    case Ok(M) =>
      if !Fitted(meta) then Err(NotFitted)
      else
        var p := MetaProbabilities(lib, meta, M);
        match BreaksOf(hp)
        case Err(e) => Err(e)
        case Ok(b) => Ok((p, Cut(p, b)))
  }

  /** `predict(X, use_probas)`; the meta features always follow the
      ensemble's own `use_probas`. */
  function PredictSpec(lib: Learning, es: seq<Estimator>, meta: Estimator, hp: Option<Dict>, classUseProbas: bool,
                       X: Matrix, useProbas: bool): Result<Prediction, FitError>
  {
    if useProbas then
      match PredictProbas(lib, es, meta, hp, classUseProbas, X)
      case Err(e) => Err(e)
      case Ok((p, cats)) => Ok(Probabilities(p, cats))
    else
      match MetaFeatures(lib, es, X, classUseProbas)
      case Err(e) => Err(e)
      case Ok(M) =>
        if !Fitted(meta) then Err(NotFitted)
        else Ok(Classes(seq(|M|, i requires 0 <= i < |M| => lib.classify(meta, M[i]))))
  }

  /** With `use_probas`, `predict` gives one probability and one category
      per row, the category being the probability's bin; without it, the
      meta classifier's class for each row, unchanged. */
  lemma PredictShape(lib: Learning, es: seq<Estimator>, meta: Estimator, hp: Option<Dict>, classUseProbas: bool,
                     X: Matrix, useProbas: bool)
    requires PredictSpec(lib, es, meta, hp, classUseProbas, X, useProbas).Ok?
    ensures var r := PredictSpec(lib, es, meta, hp, classUseProbas, X, useProbas).value;
      var M := MetaFeatures(lib, es, X, classUseProbas).value;
      && (useProbas <==> r.Probabilities?)
      && (r.Probabilities? ==> (|r.p| == |r.categories| == |X|
            && BreaksOf(hp).Ok?
            && forall i :: 0 <= i < |X| ==> r.p[i] == lib.proba(meta, M[i]) && r.categories[i] == Bin(r.p[i], BreaksOf(hp).value)))
      && (r.Classes? ==> |r.labels| == |X| && forall i :: 0 <= i < |X| ==> r.labels[i] == lib.classify(meta, M[i]))
  {
    MetaFeaturesColumns(lib, es, X, classUseProbas);
  }

  /** Fitting again with the dict the classifiers were just routed with
      is fitting once: the second routing changes nothing. */
  lemma FitSpecRouted(lib: Learning, es: seq<Estimator>, meta: Estimator, d: Dict, useProbas: bool, crash: bool, X: Matrix, y: Labels)
    requires ConfigureAll(es, Some(d)).1.Pass?
    ensures FitSpec(lib, ConfigureAll(es, Some(d)).0, meta, Some(d), useProbas, crash, X, y)
         == FitSpec(lib, es, meta, Some(d), useProbas, crash, X, y)
  {
    if |es| > 0 {
      ConfigureWithTwice(es, d);
    }
  }

  /** Fitting keeps classes and parameters. */
  lemma ClonesFitAll(es: seq<Estimator>, X: Matrix, y: Labels)
    ensures Clones(FitAll(es, X, y)) == Clones(es)
  {
    assert forall c :: 0 <= c < |es| ==> Clone(FitAll(es, X, y)[c]) == Clone(es[c]);
  }
}

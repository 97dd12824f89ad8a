/** `StackedGeneralizationClassifier` (src/models/classifiers.py): an
    object whose methods update its fitted classifiers, its chosen
    hyperparameters, its score table and its logging counters in place.
    Each method is proved against the function of module `Stacking` that
    says what it computes. */
module Classifiers {
  import opened Wrappers
  import opened Learners
  import opened Routing
  import opened Binning
  import opened Stacking
  import opened Tuning

  class StackedGeneralizationClassifier {
    const lib: Learning
    const baseClfs: seq<Estimator>
    const metaClf: Estimator
    const useProbas: bool
    const verbose: bool

    /** `base_clfs_` and `meta_clf_`: the classifiers `fit` works on. */
    var fittedBaseClfs: seq<Estimator>
    var fittedMetaClf: Estimator
    /** `roc_aucs`: one row per hyperparameter combination, one column per
        outer fold. */
    var rocAucs: Option<seq<seq<real>>>
    /** `hyper_parameters`: the combination `fit` and `predict` use. */
    var hyperParameters: Option<Dict>
    /** The logging helpers `__i`, `__j`, and whether `__n` holds the class
        counts (it is the integer 0 until the outer loop records them). */
    var logI: nat
    var logJ: nat
    var countsRecorded: bool

    constructor(lib: Learning, baseClfs: seq<Estimator>, metaClf: Estimator, useProbas: bool, verbose: bool)
      ensures this.lib == lib && this.baseClfs == baseClfs && this.metaClf == metaClf
      ensures this.useProbas == useProbas && this.verbose == verbose
      ensures fittedBaseClfs == baseClfs && fittedMetaClf == metaClf
      ensures rocAucs.None? && hyperParameters.None?
      ensures logI == 0 && logJ == 0 && !countsRecorded
    {
      this.lib := lib;
      this.baseClfs := baseClfs;
      this.metaClf := metaClf;
      this.useProbas := useProbas;
      this.verbose := verbose;
      fittedBaseClfs := baseClfs;
      fittedMetaClf := metaClf;
      rocAucs := None;
      hyperParameters := None;
      logI := 0;
      logJ := 0;
      countsRecorded := false;
    }

    /** The first-loop log of `cv_inner_loop` is due while `__n` is still
        0, so reading its `index` raises. */
    predicate LogCrashes()
      reads this
    {
      logI == 0 && logJ == 0 && !countsRecorded
    }

    /** `cv_inner_loop`: one column of out-of-fold predictions per base
        classifier. */
    method CvInnerLoop(X: Matrix, y: Labels) returns (r: Result<Matrix, FitError>)
      ensures r == InnerLoop(lib, fittedBaseClfs, X, y, useProbas, LogCrashes())
      ensures r.Ok? ==> |r.value| == |X| && forall i :: 0 <= i < |X| ==> (|r.value[i]| == |fittedBaseClfs|
        && forall c :: 0 <= c < |fittedBaseClfs| ==>
             r.value[i][c] == Score(lib, FoldModel(lib, fittedBaseClfs[c], X, y, InnerFolds, i), X[i], useProbas))
    {
      if LogCrashes() {
        return Err(CountsNotRecorded);
      }
      var es := fittedBaseClfs;
      var cols: seq<seq<real>> := [];
      var c := 0;
      while c < |es|
        invariant c <= |es| && |cols| == c
        invariant c > 0 ==> |X| == |y| && !SplitFails(y, InnerFolds)
        invariant forall k :: 0 <= k < c ==> cols[k] == OutOfFold(lib, es[k], X, y, InnerFolds, useProbas)
      {
        if |X| != |y| {
          return Err(LengthMismatch);
        }
        if SplitFails(y, InnerFolds) {
          return Err(TooFewMembers);
        }
        cols := cols + [OutOfFold(lib, es[c], X, y, InnerFolds, useProbas)];
        c := c + 1;
      }
      if |cols| == 0 {
        return Err(EmptyEnsemble);
      }
      assert cols == seq(|es|, k requires 0 <= k < |es| => OutOfFold(lib, es[k], X, y, InnerFolds, useProbas));
      r := Ok(ColumnStack(cols, |X|));
    }

    /** The routing loop at the head of `fit`: each base classifier in
        turn receives the keys meant for it; the first key that cannot be
        routed raises, with the classifiers before it already updated. */
    method RouteHyperParameters() returns (outcome: Outcome<FitError>)
      modifies this`fittedBaseClfs
      ensures (fittedBaseClfs, outcome) == ConfigureAll(old(fittedBaseClfs), hyperParameters)
    {
      ghost var es := fittedBaseClfs;
      var c := 0;
      while c < |fittedBaseClfs|
        invariant c <= |fittedBaseClfs| == |es|
        invariant c > 0 ==> hyperParameters.Some?
        invariant hyperParameters.Some? ==> ConfigureWith(es[..c], hyperParameters.value) == (fittedBaseClfs[..c], Pass)
        invariant fittedBaseClfs[c..] == es[c..]
      {
        if hyperParameters.None? {
          return Fail(HyperParametersUnset);
        }
        var d := hyperParameters.value;
        var routed := Configure(fittedBaseClfs[c], d);
        if routed.Err? {
          ConfigureEachStops(es, ConfigureOf(d), c);
          assert fittedBaseClfs == fittedBaseClfs[..c] + es[c..];
          return Fail(routed.error);
        }
        ConfigureEachNext(es, ConfigureOf(d), c, fittedBaseClfs[..c], routed.value);
        ghost var before := fittedBaseClfs;
        fittedBaseClfs := fittedBaseClfs[c := routed.value];
        assert fittedBaseClfs[..c + 1] == before[..c] + [routed.value];
        c := c + 1;
      }
      assert fittedBaseClfs == fittedBaseClfs[..c];
      assert es == es[..c];
      outcome := Pass;
    }

    /** `fit`: route the hyperparameters, compute the meta features, then
        refit every base classifier and the meta classifier. */
    method Fit(X: Matrix, y: Labels) returns (outcome: Outcome<FitError>)
      modifies this`fittedBaseClfs, this`fittedMetaClf
      ensures (fittedBaseClfs, fittedMetaClf, outcome)
           == FitSpec(lib, old(fittedBaseClfs), old(fittedMetaClf), hyperParameters, useProbas, LogCrashes(), X, y)
    {
      outcome := RouteHyperParameters();
      if outcome.Fail? {
        return;
      }
      var meta := CvInnerLoop(X, y);
      if meta.Err? {
        return Fail(meta.error);
      }
      fittedBaseClfs := FitAll(fittedBaseClfs, X, y);
      fittedMetaClf := Learners.Fit(fittedMetaClf, meta.value, y);
    }

    /** `predict_meta_features`: each base classifier in turn predicts the
        rows, and the predictions become the columns. `None` for
        `useProbasArg` means the ensemble's own `use_probas`. */
    method PredictMetaFeatures(X: Matrix, useProbasArg: Option<bool>) returns (r: Result<Matrix, FitError>)
      ensures var flag := if useProbasArg.Some? then useProbasArg.value else useProbas;
        r == MetaFeatures(lib, fittedBaseClfs, X, flag)
      ensures var flag := if useProbasArg.Some? then useProbasArg.value else useProbas;
        r.Ok? ==> |r.value| == |X| && forall i :: 0 <= i < |X| ==> (|r.value[i]| == |fittedBaseClfs|
          && forall c :: 0 <= c < |fittedBaseClfs| ==> r.value[i][c] == Score(lib, fittedBaseClfs[c], X[i], flag))
    {
      var flag := if useProbasArg.Some? then useProbasArg.value else useProbas;
      var es := fittedBaseClfs;
      var cols: seq<seq<real>> := [];
      var c := 0;
      while c < |es|
        invariant c <= |es| && |cols| == c
        invariant c > 0 ==> Fitted(es[0]) && |X| > 0
        invariant forall k :: 0 <= k < c ==> Fitted(es[k])
        invariant forall k :: 0 <= k < c ==> cols[k] == seq(|X|, i requires 0 <= i < |X| => Score(lib, es[k], X[i], flag))
      {
        if !Fitted(es[c]) {
          return Err(NotFitted);
        }
        if |X| == 0 {
          return Err(EmptyInput);
        }
        cols := cols + [seq(|X|, i requires 0 <= i < |X| => Score(lib, es[c], X[i], flag))];
        c := c + 1;
      }
      if |cols| == 0 {
        return Err(EmptyEnsemble);
      }
      assert cols == seq(|es|, k requires 0 <= k < |es| => seq(|X|, i requires 0 <= i < |X| => Score(lib, es[k], X[i], flag)));
      r := Ok(ColumnStack(cols, |X|));
    }

    /** `predict`: the meta classifier's probabilities of class 1 with
        their categories under the chosen breaks, or its classes. */
    method Predict(X: Matrix, useProbasArg: bool) returns (r: Result<Prediction, FitError>)
      ensures r == PredictSpec(lib, fittedBaseClfs, fittedMetaClf, hyperParameters, useProbas, X, useProbasArg)
      ensures r.Ok? && useProbasArg ==> var M := MetaFeatures(lib, fittedBaseClfs, X, useProbas).value;
        && r.value.Probabilities? && |r.value.p| == |r.value.categories| == |X|
        && BreaksOf(hyperParameters).Ok?
        && forall i :: 0 <= i < |X| ==> (r.value.p[i] == lib.proba(fittedMetaClf, M[i])
             && r.value.categories[i] == Bin(r.value.p[i], BreaksOf(hyperParameters).value))
      ensures r.Ok? && !useProbasArg ==> var M := MetaFeatures(lib, fittedBaseClfs, X, useProbas).value;
        && r.value.Classes? && |r.value.labels| == |X|
        && forall i :: 0 <= i < |X| ==> r.value.labels[i] == lib.classify(fittedMetaClf, M[i])
    {
      var m := PredictMetaFeatures(X, Some(useProbas));
      if m.Err? {
        return Err(m.error);
      }
      if !Fitted(fittedMetaClf) {
        return Err(NotFitted);
      }
      var M := m.value;
      var meta := fittedMetaClf;
      if useProbasArg {
        var p := MetaProbabilities(lib, meta, M);
        var breaks := BreaksOf(hyperParameters);
        if breaks.Err? {
          return Err(breaks.error);
        }
        r := Ok(Probabilities(p, Cut(p, breaks.value)));
      } else {
        r := Ok(Classes(seq(|M|, i requires 0 <= i < |M| => lib.classify(meta, M[i]))));
      }
      PredictShape(lib, fittedBaseClfs, fittedMetaClf, hyperParameters, useProbas, X, useProbasArg);
    }

    /** One fold of the outer loop (lines 206-231): record the fold in the
        logging counters (on the very first fold, the class counts), fit on
        the fold's training rows, predict its validation rows and score the
        categories. */
    method ScoreFold(i: nat, j: nat, X: Matrix, y: Labels) returns (auc: Result<real, FitError>)
      requires logI == i && |X| == |y| && hyperParameters.Some?
      modifies this`fittedBaseClfs, this`fittedMetaClf, this`logJ, this`countsRecorded
      ensures (fittedBaseClfs, fittedMetaClf, auc)
        == FoldStep(lib, old(fittedBaseClfs), old(fittedMetaClf), hyperParameters.value, useProbas, X, y, j)
      ensures logJ == j && (old(countsRecorded) ==> countsRecorded)
      ensures i == 0 && j == 0 ==> countsRecorded
    {
      logJ := j;
      if i == 0 && j == 0 {
        countsRecorded := true;
      }
      var train := TrainRows(lib, y, OuterFolds, j);
      var val := ValRows(lib, y, OuterFolds, j);
      var o := Fit(Select(X, train), Select(y, train));
      if o.Fail? {
        return Err(o.error);
      }
      var p := Predict(Select(X, val), true);
      if p.Err? {
        return Err(p.error);
      }
      var cats := Present(p.value.categories);
      if cats.None? {
        return Err(ScoreFailed);
      }
      var score := lib.rocAuc(Select(y, val), cats.value);
      if score.None? {
        return Err(ScoreFailed);
      }
      auc := Ok(score.value);
    }

    /** `ScoreFold` after folds that passed, as one more step of `Folds`:
        a score extends the row, an error stops the folds. */
    method NextFold(i: nat, j: nat, hp: Dict, X: Matrix, y: Labels, ghost step: FoldFn,
                    ghost es: seq<Estimator>, ghost meta: Estimator, row: seq<real>)
      returns (outcome: Outcome<FitError>, row': seq<real>)
      requires logI == i && |X| == |y| && hyperParameters == Some(hp) && IsFoldStep(step, lib, hp, useProbas, X, y)
      requires Folds(step, es, meta, j) == (fittedBaseClfs, fittedMetaClf, row, Pass)
      modifies this`fittedBaseClfs, this`fittedMetaClf, this`logJ, this`countsRecorded
      ensures (fittedBaseClfs, fittedMetaClf, row', outcome) == Folds(step, es, meta, j + 1)
      ensures logJ == j && (old(countsRecorded) ==> countsRecorded)
      ensures i == 0 && j == 0 ==> countsRecorded
    {
      ghost var e, m := fittedBaseClfs, fittedMetaClf;
      var auc := ScoreFold(i, j, X, y);
      FoldsNext(step, es, meta, j, e, m, row, (fittedBaseClfs, fittedMetaClf, auc));
      if auc.Ok? {
        outcome, row' := Pass, row + [auc.value];
      } else {
        outcome, row' := Fail(auc.error), row;
      }
    }

    /** The folds of combination i (lines 204-231), in order, each from the
        classifiers the previous fold left: the first fold that raises
        stops the loop; otherwise one score per fold. `step` stands for
        `FoldStep` with the current combination. */
    method ScoreCombination(i: nat, X: Matrix, y: Labels, ghost step: FoldFn) returns (outcome: Outcome<FitError>, row: seq<real>)
      requires logI == i && hyperParameters.Some? && IsFoldStep(step, lib, hyperParameters.value, useProbas, X, y)
      modifies this`fittedBaseClfs, this`fittedMetaClf, this`logJ, this`countsRecorded
      ensures (fittedBaseClfs, fittedMetaClf, row, outcome) == CombinationBy(step, old(fittedBaseClfs), old(fittedMetaClf), X, y)
      ensures outcome.Pass? ==> logJ == OuterFolds - 1
      ensures old(countsRecorded) ==> countsRecorded
      ensures i == 0 && |X| == |y| && !SplitFails(y, OuterFolds) ==> countsRecorded
    {
      if |X| != |y| {
        return Fail(LengthMismatch), [];
      }
      if SplitFails(y, OuterFolds) {
        return Fail(TooFewMembers), [];
      }
      var hp := hyperParameters.value;
      ghost var es := fittedBaseClfs;
      ghost var meta := fittedMetaClf;
      outcome, row := Pass, [];
      var j := 0;
      while j < OuterFolds && outcome.Pass?
        invariant j <= OuterFolds
        invariant (fittedBaseClfs, fittedMetaClf, row, outcome) == Folds(step, es, meta, j)
        invariant j > 0 ==> logJ == j - 1
        invariant old(countsRecorded) ==> countsRecorded
        invariant i == 0 && j > 0 ==> countsRecorded
      {
        outcome, row := NextFold(i, j, hp, X, y, step, es, meta, row);
        j := j + 1;
      }
      if outcome.Fail? {
        FoldsStops(step, es, meta, j, OuterFolds);
      }
    }

    /** The two loops of `cv_outer_loop` (lines 198-231): each combination
        in turn becomes the ensemble's hyperparameters and is scored on
        every outer fold; the first combination that raises stops the
        loop, with the rows of those before it. */
    method ScoreCombinations(all: seq<Dict>, X: Matrix, y: Labels) returns (outcome: Outcome<FitError>, table: seq<seq<real>>)
      modifies this`fittedBaseClfs, this`fittedMetaClf, this`hyperParameters, this`logI, this`logJ, this`countsRecorded
      ensures (fittedBaseClfs, fittedMetaClf, table, outcome) == OuterLoop(lib, old(fittedBaseClfs), old(fittedMetaClf), all, useProbas, X, y)
      ensures |all| == 0 ==> hyperParameters == old(hyperParameters)
      ensures outcome.Pass? && |all| > 0 ==> logI == |all| - 1 && logJ == OuterFolds - 1
    {
      ghost var es := fittedBaseClfs;
      ghost var meta := fittedMetaClf;
      ghost var comb := CombinationOf(lib, useProbas, X, y);
      table := [];
      var i := 0;
      while i < |all|
        invariant i <= |all|
        invariant (fittedBaseClfs, fittedMetaClf, table, Pass) == Loop(comb, es, meta, all[..i])
        invariant i == 0 ==> hyperParameters == old(hyperParameters)
        invariant i > 0 ==> logI == i - 1 && logJ == OuterFolds - 1
      {
        logI := i;
        hyperParameters := Some(all[i]);
        ghost var e, m := fittedBaseClfs, fittedMetaClf;
        FoldStepOfIs(lib, all[i], useProbas, X, y);
        var o, row := ScoreCombination(i, X, y, FoldStepOf(lib, all[i], useProbas, X, y));
        LoopNext(comb, es, meta, all, i, e, m, table, (fittedBaseClfs, fittedMetaClf, row, o));
        if o.Fail? {
          LoopStops(comb, es, meta, all, i + 1);
          return o, table;
        }
        table := table + [row];
        i := i + 1;
      }
      assert all[..|all|] == all;
      outcome := Pass;
    }

    /** `cv_outer_loop`: score every hyperparameter combination on every
        outer fold, keep the table, choose the combination with the
        greatest mean score and, if asked, refit with it on the training
        rows of the last fold. */
    method CvOuterLoop(all: seq<Dict>, X: Matrix, y: Labels, refit: bool) returns (outcome: Outcome<FitError>)
      modifies this
      ensures var r := OuterLoop(lib, old(fittedBaseClfs), old(fittedMetaClf), all, useProbas, X, y);
        r.3.Fail? ==> (outcome == r.3 && rocAucs == old(rocAucs) && fittedBaseClfs == r.0 && fittedMetaClf == r.1)
      ensures |all| == 0 ==> (outcome == Fail(NoCombinations) && rocAucs == Some([]) && hyperParameters == old(hyperParameters)
        && fittedBaseClfs == old(fittedBaseClfs) && fittedMetaClf == old(fittedMetaClf))
      ensures var r := OuterLoop(lib, old(fittedBaseClfs), old(fittedMetaClf), all, useProbas, X, y);
        r.3.Pass? && |all| > 0 ==> (rocAucs == Some(r.2) && hyperParameters == Some(all[Best(r.2)])
          && logI == |all| - 1 && logJ == OuterFolds - 1
          && (!refit ==> outcome == Pass && fittedBaseClfs == r.0 && fittedMetaClf == r.1)
          && (refit ==> ((fittedBaseClfs, fittedMetaClf, outcome)
                == FitSpec(lib, r.0, r.1, Some(all[Best(r.2)]), useProbas, false, Select(X, LastTrain(lib, y)), Select(y, LastTrain(lib, y))))))
    {
      var table;
      outcome, table := ScoreCombinations(all, X, y);
      if outcome.Fail? {
        return;
      }
      rocAucs := Some(table);
      if |all| == 0 {
        return Fail(NoCombinations);
      }
      var best := ArgMaxFirst(RowMeans(table));
      hyperParameters := Some(all[best]);
      if refit {
        // `X_train` and `y_train` as the last fold of the loop left them.
        var train := LastTrain(lib, y);
        outcome := Fit(Select(X, train), Select(y, train));
      }
    }
  }
}

/** The scikit-learn pieces the ensemble calls into, kept abstract: an
    estimator is a value (class name, parameters, the data it was last
    fitted to), what it predicts for a row is an oracle, and so are the
    stratified fold assignment and the ROC AUC score. What is modelled
    exactly is the bookkeeping around them: `set_params`, `fit`, `clone`,
    row selection for a fold and `cross_val_predict`. */
module Learners {
  import opened Wrappers

  type Row = seq<real>
  type Matrix = seq<Row>
  type Labels = seq<int>

  /** A hyperparameter value as it appears in a parameter dict. */
  datatype ParamValue =
    | Number(x: real)
    | Text(s: string)
    | Flag(b: bool)
    | Null
    | Reals(points: seq<real>)   // a list of numbers, such as the breaks

  /** An estimator: its class name, its parameters, and the training set
      of its last `fit` (`None` while unfitted). */
  datatype Estimator = Estimator(className: string, params: map<string, ParamValue>, trainedOn: Option<(Matrix, Labels)>)

  /** The library behaviour the ensemble relies on but does not define. */
  datatype Learning = Learning(
    proba: (Estimator, Row) -> real,           // `predict_proba(X)[:, 1]` for one row
    classify: (Estimator, Row) -> int,         // `predict(X)` for one row
    fold: (Labels, nat, nat) -> nat,           // the stratified fold of row i among n_splits
    rocAuc: (Labels, seq<nat>) -> Option<real>) // `roc_auc_score`; `None` where it raises

  /** `set_params(**m)`: the given keys take the given values, all other
      parameters and the fitted state stay. */
  function SetParams(e: Estimator, m: map<string, ParamValue>): (r: Estimator)
    ensures r.className == e.className && r.trainedOn == e.trainedOn
    ensures forall k :: k in r.params <==> k in e.params || k in m
    ensures forall k :: k in m ==> r.params[k] == m[k]
    ensures forall k :: k in e.params && k !in m ==> r.params[k] == e.params[k]
  {
    e.(params := e.params + m)
  }

  /** `fit(X, y)`: the estimator now holds what it learned from (X, y)
      and nothing from any earlier fit. */
  function Fit(e: Estimator, X: Matrix, y: Labels): (r: Estimator)
    ensures r.className == e.className && r.params == e.params
    ensures r.trainedOn == Some((X, y))
  {
    e.(trainedOn := Some((X, y)))
  }

  /** `sklearn.base.clone`: same class and parameters, unfitted. */
  function Clone(e: Estimator): (r: Estimator)
    ensures r.className == e.className && r.params == e.params && r.trainedOn.None?
  {
    e.(trainedOn := None)
  }

  predicate Fitted(e: Estimator)
  {
    e.trainedOn.Some?
  }

  /** Fitting twice on the same data is fitting once, and what a fit
      yields does not depend on any earlier fit. */
  lemma FitReplaces(e: Estimator, e': Estimator, X: Matrix, y: Labels)
    requires Clone(e) == Clone(e')
    ensures Fit(e, X, y) == Fit(e', X, y) == Fit(Fit(e, X, y), X, y)
  {
    assert e.className == e'.className && e.params == e'.params;
  }

  /** Clones of a list of estimators. */
  function Clones(es: seq<Estimator>): (r: seq<Estimator>)
    ensures |r| == |es| && forall c :: 0 <= c < |es| ==> r[c] == Clone(es[c])
  {
    seq(|es|, c requires 0 <= c < |es| => Clone(es[c]))
  }

  /** The meta feature one estimator gives for one row: the probability
      of class 1, or the predicted class. */
  function Score(lib: Learning, e: Estimator, x: Row, useProbas: bool): real
  {
    if useProbas then lib.proba(e, x) else lib.classify(e, x) as real
  }

  /** How many labels equal `c`. */
  function Count(y: Labels, c: int): (n: nat)
    ensures n <= |y|
  {
    if |y| == 0 then 0 else Count(y[..|y| - 1], c) + (if y[|y| - 1] == c then 1 else 0)
  }

  /** `StratifiedKFold(n_splits=k).split` raises: no class has k members
      (this includes having fewer than k rows). */
  predicate SplitFails(y: Labels, k: nat)
  {
    forall i :: 0 <= i < |y| ==> Count(y, y[i]) < k
  }

  /** The fold, among `k`, that holds row `i` as a validation row. */
  function FoldOf(lib: Learning, y: Labels, k: nat, i: nat): (f: nat)
    requires k > 0
    ensures f < k
  {
    lib.fold(y, k, i) % k
  }

  /** The rows below `n` that are (`inFold`) or are not (`!inFold`) in
      fold `f`, ascending, as the splitter yields them. */
  function FoldRows(lib: Learning, y: Labels, k: nat, f: nat, inFold: bool, n: nat): (rows: seq<nat>)
    requires k > 0
    ensures forall t :: 0 <= t < |rows| ==> rows[t] < n
  {
    if n == 0 then []
    else FoldRows(lib, y, k, f, inFold, n - 1) + (if (FoldOf(lib, y, k, n - 1) == f) == inFold then [n - 1] else [])
  }

  /** The training rows of fold `f`. */
  function TrainRows(lib: Learning, y: Labels, k: nat, f: nat): (rows: seq<nat>)
    requires k > 0
    ensures forall t :: 0 <= t < |rows| ==> rows[t] < |y|
  {
    FoldRows(lib, y, k, f, false, |y|)
  }

  /** The validation rows of fold `f`. */
  function ValRows(lib: Learning, y: Labels, k: nat, f: nat): (rows: seq<nat>)
    requires k > 0
    ensures forall t :: 0 <= t < |rows| ==> rows[t] < |y|
  {
    FoldRows(lib, y, k, f, true, |y|)
  }

  /** The rows of a fold are ascending and are exactly the rows below `n`
      on the chosen side of the fold. */
  lemma {:induction false} FoldRowsExact(lib: Learning, y: Labels, k: nat, f: nat, inFold: bool, n: nat)
    requires k > 0
    ensures var rows := FoldRows(lib, y, k, f, inFold, n);
      && (forall s, t :: 0 <= s < t < |rows| ==> rows[s] < rows[t])
      && (forall i :: 0 <= i < n ==> (i in rows <==> (FoldOf(lib, y, k, i) == f) == inFold))
  {
    if n > 0 {
      FoldRowsExact(lib, y, k, f, inFold, n - 1);
    }
  }

  /** Every row is a validation row of exactly one fold, and the training
      rows of a fold are the rows not validated in it. */
  lemma FoldsPartition(lib: Learning, y: Labels, k: nat, i: nat)
    requires k > 0 && i < |y|
    ensures forall f :: 0 <= f < k ==> (i in ValRows(lib, y, k, f) <==> f == FoldOf(lib, y, k, i))
    ensures forall f :: 0 <= f < k ==> (i in TrainRows(lib, y, k, f) <==> i !in ValRows(lib, y, k, f))
  {
    forall f | 0 <= f < k
      ensures i in ValRows(lib, y, k, f) <==> f == FoldOf(lib, y, k, i)
      ensures i in TrainRows(lib, y, k, f) <==> i !in ValRows(lib, y, k, f)
    {
      FoldRowsExact(lib, y, k, f, true, |y|);
      FoldRowsExact(lib, y, k, f, false, |y|);
    }
  }

  /** `X.iloc[rows]`: the chosen elements, in the given order. */
  function Select<T>(xs: seq<T>, rows: seq<nat>): (r: seq<T>)
    requires forall t :: 0 <= t < |rows| ==> rows[t] < |xs|
    ensures |r| == |rows| && forall t :: 0 <= t < |rows| ==> r[t] == xs[rows[t]]
  {
    seq(|rows|, t requires 0 <= t < |rows| => xs[rows[t]])
  }

  /** The estimator `cross_val_predict` uses for row `i`: a clone of `e`
      fitted to the training rows of the fold that validates row `i`. */
  function FoldModel(lib: Learning, e: Estimator, X: Matrix, y: Labels, k: nat, i: nat): Estimator
    requires k > 0 && |X| == |y|
  {
    var train := TrainRows(lib, y, k, FoldOf(lib, y, k, i));
    Fit(Clone(e), Select(X, train), Select(y, train))
  }

  /** `cross_val_predict(e, X, y, cv=StratifiedKFold(k))`, one prediction
      per row, in row order. */
  function OutOfFold(lib: Learning, e: Estimator, X: Matrix, y: Labels, k: nat, useProbas: bool): (p: seq<real>)
    requires k > 0 && |X| == |y|
    ensures |p| == |X|
  {
    seq(|X|, i requires 0 <= i < |X| => Score(lib, FoldModel(lib, e, X, y, k, i), X[i], useProbas))
  }

  /** No row is predicted by a model that saw it: the model that predicts
      row `i` was trained on rows that exclude `i`, and on nothing that
      `e` had learned before. */
  lemma OutOfFoldNoLeak(lib: Learning, e: Estimator, e': Estimator, X: Matrix, y: Labels, k: nat, useProbas: bool, i: nat)
    requires k > 0 && |X| == |y| && i < |X|
    requires Clone(e) == Clone(e')
    ensures var m := FoldModel(lib, e, X, y, k, i);
      && m.trainedOn.Some?
      && (exists rows :: i !in rows && (forall t :: 0 <= t < |rows| ==> rows[t] < |X|) && m.trainedOn.value == (Select(X, rows), Select(y, rows)))
      && OutOfFold(lib, e, X, y, k, useProbas) == OutOfFold(lib, e', X, y, k, useProbas)
  {
    var train := TrainRows(lib, y, k, FoldOf(lib, y, k, i));
    FoldsPartition(lib, y, k, i);
    assert i !in train;
  }
}

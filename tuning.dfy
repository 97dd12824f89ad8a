/** What `cv_outer_loop` (src/models/classifiers.py, lines 174-241)
    computes. The loop is written twice. `OuterLoop` follows the method
    step by step and threads the fitted ensemble from fold to fold and from
    combination to combination. The reference table scores every cell on
    its own, from a freshly routed ensemble. The lemmas show that the two
    agree: each score of the table is the score a fresh fit gives, and the
    loop stops at the first cell that raises.

    The threading is stated over function values (`FoldFn`, `CombFn`,
    `RowFn`), so that the proofs about the order of the loops do not
    depend on what one fold computes; the properties of the fold that
    they need are the predicates `StepClones`, `StepRouted` and
    `CombAgrees`. */
module Tuning {
  import opened Wrappers
  import opened Learners
  import opened Routing
  import opened Stacking

  /** The categories as `roc_auc_score` receives them: it raises on a
      missing one. */
  function Present(cs: seq<Option<nat>>): (r: Option<seq<nat>>)
    ensures r.Some? <==> forall i :: 0 <= i < |cs| ==> cs[i].Some?
    ensures r.Some? ==> |r.value| == |cs| && forall i :: 0 <= i < |cs| ==> cs[i] == Some(r.value[i])
  {
    if forall i :: 0 <= i < |cs| ==> cs[i].Some? then Some(seq(|cs|, i requires 0 <= i < |cs| => cs[i].value)) else None
  }

  /** `roc_auc_score(y_val, categories)`: it raises on a missing category
      and wherever the library's score raises. */
  function AucOf(lib: Learning, yVal: Labels, cats: seq<Option<nat>>): Result<real, FitError>
  {
    match Present(cats)
    case None => Err(ScoreFailed)
    case Some(cs) =>
      match lib.rocAuc(yVal, cs)
      case None => Err(ScoreFailed)
      case Some(auc) => Ok(auc)
  }

  /** Lines 225-230: predict the validation rows and score their
      categories. */
  function ValScore(lib: Learning, es: seq<Estimator>, meta: Estimator, hp: Dict, useProbas: bool,
                    xVal: Matrix, yVal: Labels): Result<real, FitError>
  {
    match PredictProbas(lib, es, meta, Some(hp), useProbas, xVal)
    case Err(e) => Err(e)
    case Ok((_, cats)) => AucOf(lib, yVal, cats)
  }

  /** Fold j of combination `hp`, from the ensemble as it stands: `fit` on
      the fold's training rows, then score its validation rows. Gives the
      new base classifiers, the new meta classifier and the score. */
  function FoldStep(lib: Learning, es: seq<Estimator>, meta: Estimator, hp: Dict, useProbas: bool,
                    X: Matrix, y: Labels, j: nat): (seq<Estimator>, Estimator, Result<real, FitError>)
  {
    if |X| != |y| then (es, meta, Err(LengthMismatch))
    else
      var train := TrainRows(lib, y, OuterFolds, j);
      var val := ValRows(lib, y, OuterFolds, j);
      var (es', meta', o) := FitSpec(lib, es, meta, Some(hp), useProbas, false, Select(X, train), Select(y, train));
      if o.Fail? then (es', meta', Err(o.error))
      else (es', meta', ValScore(lib, es', meta', hp, useProbas, Select(X, val), Select(y, val)))
  }

  /** One fold as a function of the ensemble it starts from and the fold
      number. */
  type FoldFn = (seq<Estimator>, Estimator, nat) -> (seq<Estimator>, Estimator, Result<real, FitError>)

  /** One combination as a function of the ensemble it starts from. */
  type CombFn = (seq<Estimator>, Estimator, Dict) -> (seq<Estimator>, Estimator, seq<real>, Outcome<FitError>)

  /** A row of reference scores as a function of the classifiers and the
      combination. */
  type RowFn = (seq<Estimator>, Dict) -> seq<Result<real, FitError>>

  function FoldStepOf(lib: Learning, hp: Dict, useProbas: bool, X: Matrix, y: Labels): FoldFn
  {
    (es: seq<Estimator>, meta: Estimator, j: nat) => FoldStep(lib, es, meta, hp, useProbas, X, y, j)
  }

  /** The first `j` folds of one combination, in order, each from the
      ensemble the previous one left: the first that raises stops them.
      Gives the ensemble, the scores and the outcome. */
  function Folds(step: FoldFn, es: seq<Estimator>, meta: Estimator, j: nat): (r: (seq<Estimator>, Estimator, seq<real>, Outcome<FitError>))
    ensures r.3.Pass? ==> |r.2| == j
  {
    if j == 0 then (es, meta, [], Pass)
    else
      var (es1, meta1, row, o) := Folds(step, es, meta, j - 1);
      if o.Fail? then (es1, meta1, row, o)
      else
        var (es2, meta2, auc) := step(es1, meta1, j - 1);
        if auc.Err? then (es2, meta2, row, Fail(auc.error))
        else (es2, meta2, row + [auc.value], Pass)
  }

  /** One more fold after a prefix of folds that passed. */
  lemma FoldsNext(step: FoldFn, es: seq<Estimator>, meta: Estimator, j: nat,
                  e: seq<Estimator>, m: Estimator, row: seq<real>, s: (seq<Estimator>, Estimator, Result<real, FitError>))
    requires Folds(step, es, meta, j) == (e, m, row, Pass) && s == step(e, m, j)
    ensures Folds(step, es, meta, j + 1)
      == (s.0, s.1, if s.2.Ok? then row + [s.2.value] else row, if s.2.Ok? then Pass else Fail(s.2.error))
  {
  }

  /** Once a prefix of the folds raises, every longer prefix raises there. */
  lemma {:induction false} FoldsStops(step: FoldFn, es: seq<Estimator>, meta: Estimator, j: nat, k: nat)
    requires j <= k && Folds(step, es, meta, j).3.Fail?
    ensures Folds(step, es, meta, k) == Folds(step, es, meta, j)
  {
    if j < k {
      FoldsStops(step, es, meta, j, k - 1);
    }
  }

  /** `step` does what `FoldStep` does for combination `hp`. The trigger
      keeps the equation asleep until a `FoldStep` term is at hand. */
  ghost predicate IsFoldStep(step: FoldFn, lib: Learning, hp: Dict, useProbas: bool, X: Matrix, y: Labels)
  {
    forall e, m, j: nat {:trigger FoldStep(lib, e, m, hp, useProbas, X, y, j)} ::
      step(e, m, j) == FoldStep(lib, e, m, hp, useProbas, X, y, j)
  }

  lemma FoldStepOfIs(lib: Learning, hp: Dict, useProbas: bool, X: Matrix, y: Labels)
    ensures IsFoldStep(FoldStepOf(lib, hp, useProbas, X, y), lib, hp, useProbas, X, y)
  {
  }

  /** One combination (lines 200-231) with folds computed by `step`: the
      splitter raises before the first fold, or the folds run. */
  function CombinationBy(step: FoldFn, es: seq<Estimator>, meta: Estimator, X: Matrix, y: Labels)
    : (r: (seq<Estimator>, Estimator, seq<real>, Outcome<FitError>))
    ensures r.3.Pass? ==> |X| == |y| && |r.2| == OuterFolds
  {
    if |X| != |y| then (es, meta, [], Fail(LengthMismatch))
    else if SplitFails(y, OuterFolds) then (es, meta, [], Fail(TooFewMembers))
    else Folds(step, es, meta, OuterFolds)
  }

  /** One combination of `cv_outer_loop`. */
  function Combination(lib: Learning, es: seq<Estimator>, meta: Estimator, hp: Dict, useProbas: bool,
                       X: Matrix, y: Labels): (r: (seq<Estimator>, Estimator, seq<real>, Outcome<FitError>))
  {
    CombinationBy(FoldStepOf(lib, hp, useProbas, X, y), es, meta, X, y)
  }

  function CombinationOf(lib: Learning, useProbas: bool, X: Matrix, y: Labels): CombFn
  {
    (es, meta, hp) => Combination(lib, es, meta, hp, useProbas, X, y)
  }

  /** The loop over the combinations, in order, each from the ensemble the
      previous one left: one row of scores per combination; the first that
      raises stops the loop. */
  function Loop(comb: CombFn, es: seq<Estimator>, meta: Estimator, all: seq<Dict>): (r: (seq<Estimator>, Estimator, seq<seq<real>>, Outcome<FitError>))
    ensures r.3.Pass? ==> |r.2| == |all|
  {
    if |all| == 0 then (es, meta, [], Pass)
    else
      var (es1, meta1, rows, o) := Loop(comb, es, meta, all[..|all| - 1]);
      if o.Fail? then (es1, meta1, rows, o)
      else
        var (es2, meta2, row, o2) := comb(es1, meta1, all[|all| - 1]);
        if o2.Fail? then (es2, meta2, rows, o2)
        else (es2, meta2, rows + [row], Pass)
  }

  /** One more combination after a prefix of combinations that passed. */
  lemma LoopNext(comb: CombFn, es: seq<Estimator>, meta: Estimator, all: seq<Dict>, i: nat,
                 e: seq<Estimator>, m: Estimator, rows: seq<seq<real>>, s: (seq<Estimator>, Estimator, seq<real>, Outcome<FitError>))
    requires i < |all| && Loop(comb, es, meta, all[..i]) == (e, m, rows, Pass) && s == comb(e, m, all[i])
    ensures Loop(comb, es, meta, all[..i + 1])
      == (s.0, s.1, if s.3.Pass? then rows + [s.2] else rows, s.3)
  {
    assert all[..i + 1][..i] == all[..i];
  }

  /** Every combination that succeeds gives `k` scores, and succeeds only
      when `P` holds. */
  ghost predicate RowsOf(comb: CombFn, k: nat, P: bool)
  {
    forall e, m, hp :: comb(e, m, hp).3.Pass? ==> |comb(e, m, hp).2| == k && P
  }

  /** Rows of `k` scores, from a combination that always gives `k` and
      succeeds only when `P` holds. */
  lemma {:induction false} LoopRows(comb: CombFn, es: seq<Estimator>, meta: Estimator, all: seq<Dict>, k: nat, P: bool)
    ensures var r := Loop(comb, es, meta, all);
      RowsOf(comb, k, P) && r.3.Pass? ==> (forall i :: 0 <= i < |all| ==> |r.2[i]| == k) && (|all| > 0 ==> P)
  {
    if |all| > 0 && RowsOf(comb, k, P) {
      LoopRows(comb, es, meta, all[..|all| - 1], k, P);
    }
  }

  /** Once a prefix of the combinations raises, the loop raises there. */
  lemma {:induction false} LoopStops(comb: CombFn, es: seq<Estimator>, meta: Estimator, all: seq<Dict>, k: nat)
    requires k <= |all| && Loop(comb, es, meta, all[..k]).3.Fail?
    ensures Loop(comb, es, meta, all) == Loop(comb, es, meta, all[..k])
  {
    if k < |all| {
      var n := |all| - 1;
      assert all[..n][..k] == all[..k];
      LoopStops(comb, es, meta, all[..n], k);
    } else {
      assert all[..k] == all;
    }
  }

  /** A combination that succeeds had rows of equal length and one score
      per outer fold. */
  lemma CombinationRows(lib: Learning, useProbas: bool, X: Matrix, y: Labels)
    ensures RowsOf(CombinationOf(lib, useProbas, X, y), OuterFolds, |X| == |y|)
  {
    forall e, m, hp ensures Combination(lib, e, m, hp, useProbas, X, y).3.Pass? ==>
      |Combination(lib, e, m, hp, useProbas, X, y).2| == OuterFolds && |X| == |y|
    {
    }
  }

  /** `cv_outer_loop`'s loop over the combinations (lines 198-231). */
  function OuterLoop(lib: Learning, es: seq<Estimator>, meta: Estimator, all: seq<Dict>, useProbas: bool,
                     X: Matrix, y: Labels): (r: (seq<Estimator>, Estimator, seq<seq<real>>, Outcome<FitError>))
    ensures r.3.Pass? ==> |r.2| == |all| && forall i :: 0 <= i < |all| ==> |r.2[i]| == OuterFolds
    ensures r.3.Pass? && |all| > 0 ==> |X| == |y|
  {
    var r := Loop(CombinationOf(lib, useProbas, X, y), es, meta, all);
    assert r.3.Pass? ==> (forall i :: 0 <= i < |all| ==> |r.2[i]| == OuterFolds) && (|all| > 0 ==> |X| == |y|) by {
      CombinationRows(lib, useProbas, X, y);
      LoopRows(CombinationOf(lib, useProbas, X, y), es, meta, all, OuterFolds, |X| == |y|);
    }
    r
  }

  /** `roc_aucs.mean(axis=1)`: the mean score of each combination. */
  function Sum(r: seq<real>): real
  {
    if |r| == 0 then 0.0 else Sum(r[..|r| - 1]) + r[|r| - 1]
  }

  function RowMeans(table: seq<seq<real>>): (means: seq<real>)
    requires forall i :: 0 <= i < |table| ==> |table[i]| > 0
    ensures |means| == |table| && forall i :: 0 <= i < |table| ==> means[i] == Sum(table[i]) / (|table[i]| as real)
  {
    seq(|table|, i requires 0 <= i < |table| => Sum(table[i]) / (|table[i]| as real))
  }

  /** `idxmax`: the first position of the greatest value. */
  function ArgMaxFirst(s: seq<real>): (k: nat)
    requires |s| > 0
    ensures k < |s|
    ensures forall i :: 0 <= i < |s| ==> s[i] <= s[k]
    ensures forall i :: 0 <= i < k ==> s[i] < s[k]
  {
    if |s| == 1 then 0
    else
      var k := ArgMaxFirst(s[..|s| - 1]);
      if s[|s| - 1] > s[k] then |s| - 1 else k
  }

  /** Line 236: the combination with the greatest mean score. */
  function Best(table: seq<seq<real>>): (k: nat)
    requires |table| > 0 && forall i :: 0 <= i < |table| ==> |table[i]| > 0
    ensures k < |table|
  {
    ArgMaxFirst(RowMeans(table))
  }

  /** The chosen row has the greatest mean, and every earlier row a
      strictly smaller one. */
  lemma BestRow(table: seq<seq<real>>)
    requires |table| > 0 && forall i :: 0 <= i < |table| ==> |table[i]| > 0
    ensures var b := Best(table);
      && (forall i :: 0 <= i < |table| ==> Sum(table[i]) / (|table[i]| as real) <= Sum(table[b]) / (|table[b]| as real))
      && (forall i :: 0 <= i < b ==> Sum(table[i]) / (|table[i]| as real) < Sum(table[b]) / (|table[b]| as real))
  {
    var means := RowMeans(table);
    var b := Best(table);
    assert forall i :: 0 <= i < |table| ==> means[i] <= means[b];
  }

  /** The training rows of the last outer fold, which the final refit
      reuses. */
  function LastTrain(lib: Learning, y: Labels): (rows: seq<nat>)
    ensures forall t :: 0 <= t < |rows| ==> rows[t] < |y|
  {
    TrainRows(lib, y, OuterFolds, OuterFolds - 1)
  }

  // The reference definition: each cell from a freshly routed ensemble.

  /** The classifiers after the routing of each combination in turn:
      parameters set for one combination stay unless a later one sets them
      again. */
  function Configured(es: seq<Estimator>, hps: seq<Dict>): (r: seq<Estimator>)
    ensures |r| == |es|
  {
    if |hps| == 0 then es else ConfigureAll(Configured(es, hps[..|hps| - 1]), Some(hps[|hps| - 1])).0
  }

  /** Fold j of combination `hp` on its own, from the ensemble `C`,
      `meta`: the splitter's checks, then the fold. */
  function CellScore(lib: Learning, C: seq<Estimator>, meta: Estimator, hp: Dict, useProbas: bool,
                     X: Matrix, y: Labels, j: nat): Result<real, FitError>
  {
    if |X| != |y| then Err(LengthMismatch)
    else if SplitFails(y, OuterFolds) then Err(TooFewMembers)
    else FoldStep(lib, C, meta, hp, useProbas, X, y, j).2
  }

  /** Combination `hp` on every outer fold, each fold on its own. */
  function FreshRow(lib: Learning, C: seq<Estimator>, meta: Estimator, hp: Dict, useProbas: bool,
                    X: Matrix, y: Labels): (row: seq<Result<real, FitError>>)
    ensures |row| == OuterFolds && forall j :: 0 <= j < OuterFolds ==> row[j] == CellScore(lib, C, meta, hp, useProbas, X, y, j)
  {
    seq(OuterFolds, j requires 0 <= j < OuterFolds => CellScore(lib, C, meta, hp, useProbas, X, y, j))
  }

  function FreshRowOf(lib: Learning, meta: Estimator, useProbas: bool, X: Matrix, y: Labels): RowFn
  {
    (C, hp) => FreshRow(lib, C, meta, hp, useProbas, X, y)
  }

  /** The reference table: row i is combination i, each fold on its own,
      from the classifiers the loop started with, routed by combinations
      0..i, and from the meta classifier the loop started with. */
  function FreshTable(lib: Learning, es: seq<Estimator>, meta: Estimator, all: seq<Dict>, useProbas: bool,
                      X: Matrix, y: Labels): (t: seq<seq<Result<real, FitError>>>)
    ensures |t| == |all| && forall i :: 0 <= i < |all| ==> |t[i]| == OuterFolds
    ensures forall i, j :: 0 <= i < |all| && 0 <= j < OuterFolds ==>
      t[i][j] == CellScore(lib, Configured(es, all[..i]), meta, all[i], useProbas, X, y, j)
  {
    seq(|all|, i requires 0 <= i < |all| => FreshRow(lib, Configured(es, all[..i]), meta, all[i], useProbas, X, y))
  }

  /** The same table for any way `rows` of scoring one row. */
  function Reference(rows: RowFn, es: seq<Estimator>, all: seq<Dict>): (t: seq<seq<Result<real, FitError>>>)
    ensures |t| == |all| && forall i :: 0 <= i < |all| ==> t[i] == rows(Configured(es, all[..i]), all[i])
  {
    seq(|all|, i requires 0 <= i < |all| => rows(Configured(es, all[..i]), all[i]))
  }

  // The step-by-step loop agrees with the reference definition.

  /** A fold's score does not depend on what the ensemble was fitted to
      before, only on its classes and parameters: from any ensemble that
      matches `C`, `meta` in these, a fold scores as from `C`, `meta`, and
      when it scores it leaves the same ensemble. */
  ghost predicate StepClones(step: FoldFn, C: seq<Estimator>, meta: Estimator)
  {
    forall e, m, c :: Clones(e) == Clones(C) && Clone(m) == Clone(meta) ==>
      (step(e, m, c).2 == step(C, meta, c).2
        && (step(e, m, c).2.Ok? ==> step(e, m, c).0 == step(C, meta, c).0 && step(e, m, c).1 == step(C, meta, c).1))
  }

  /** From `C`, `meta`: a fold that scores leaves `C` routed with `hp`
      and keeps the meta classifier's class and parameters; a fold from
      `C` already routed with `hp` scores the same and, when it scores,
      leaves the same ensemble. */
  ghost predicate StepRouted(step: FoldFn, C: seq<Estimator>, meta: Estimator, hp: Dict)
  {
    forall c ::
      && (step(C, meta, c).2.Ok? ==> (ConfigureAll(C, Some(hp)).1.Pass?
            && Clones(step(C, meta, c).0) == Clones(ConfigureAll(C, Some(hp)).0) && Clone(step(C, meta, c).1) == Clone(meta)))
      && (ConfigureAll(C, Some(hp)).1.Pass? ==> (step(ConfigureAll(C, Some(hp)).0, meta, c).2 == step(C, meta, c).2
            && (step(C, meta, c).2.Ok? ==> (step(ConfigureAll(C, Some(hp)).0, meta, c).0 == step(C, meta, c).0
                  && step(ConfigureAll(C, Some(hp)).0, meta, c).1 == step(C, meta, c).1))))
  }

  lemma FoldStepClones(lib: Learning, C: seq<Estimator>, meta: Estimator, hp: Dict, useProbas: bool, X: Matrix, y: Labels)
    ensures StepClones(FoldStepOf(lib, hp, useProbas, X, y), C, meta)
  {
    forall e, m, c: nat | Clones(e) == Clones(C) && Clone(m) == Clone(meta)
      ensures var r := FoldStep(lib, e, m, hp, useProbas, X, y, c);
        var r' := FoldStep(lib, C, meta, hp, useProbas, X, y, c);
        r.2 == r'.2 && (r.2.Ok? ==> r.0 == r'.0 && r.1 == r'.1)
    {
      if |X| == |y| {
        var train := TrainRows(lib, y, OuterFolds, c);
        FitSpecClones(lib, e, C, m, meta, Some(hp), useProbas, false, Select(X, train), Select(y, train));
      }
    }
  }

  lemma FoldStepRouted(lib: Learning, C: seq<Estimator>, meta: Estimator, hp: Dict, useProbas: bool, X: Matrix, y: Labels)
    ensures StepRouted(FoldStepOf(lib, hp, useProbas, X, y), C, meta, hp)
  {
    forall c: nat
      ensures var r := FoldStep(lib, C, meta, hp, useProbas, X, y, c);
        r.2.Ok? ==> (ConfigureAll(C, Some(hp)).1.Pass?
          && Clones(r.0) == Clones(ConfigureAll(C, Some(hp)).0) && Clone(r.1) == Clone(meta))
      ensures ConfigureAll(C, Some(hp)).1.Pass? && |X| == |y| ==>
        FoldStep(lib, ConfigureAll(C, Some(hp)).0, meta, hp, useProbas, X, y, c) == FoldStep(lib, C, meta, hp, useProbas, X, y, c)
    {
      if |X| == |y| {
        var train := TrainRows(lib, y, OuterFolds, c);
        var Xt, yt := Select(X, train), Select(y, train);
        var r := ConfigureAll(C, Some(hp));
        if r.1.Pass? {
          FitSpecRouted(lib, C, meta, hp, useProbas, false, Xt, yt);
          ClonesFitAll(r.0, Xt, yt);
        }
      }
    }
  }

  /** A row of scores read in order, as the folds produce it: the first
      error stops it, and the scores before it are kept. */
  function Outcomes(row: seq<Result<real, FitError>>): (r: (seq<real>, Outcome<FitError>))
  {
    if |row| == 0 then ([], Pass)
    else
      var (vs, o) := Outcomes(row[..|row| - 1]);
      if o.Fail? then (vs, o)
      else if row[|row| - 1].Err? then (vs, Fail(row[|row| - 1].error))
      else (vs + [row[|row| - 1].value], Pass)
  }

  /** `Outcomes` succeeds exactly when no score is an error, and then
      keeps every score; otherwise it gives the first error. */
  lemma {:induction false} OutcomesMeaning(row: seq<Result<real, FitError>>)
    ensures var (vs, o) := Outcomes(row);
      && (o.Pass? <==> forall c :: 0 <= c < |row| ==> row[c].Ok?)
      && (o.Fail? ==> exists c :: (0 <= c < |row| && row[c] == Err(o.error)
            && forall c' :: 0 <= c' < c ==> row[c'].Ok?))
      && (o.Pass? ==> |vs| == |row| && forall c :: 0 <= c < |row| ==> vs[c] == row[c].value)
  {
    if |row| > 0 {
      var init := row[..|row| - 1];
      OutcomesMeaning(init);
      assert forall c :: 0 <= c < |init| ==> init[c] == row[c];
      var (vs, o) := Outcomes(init);
      if o.Pass? && row[|row| - 1].Ok? {
        assert forall c :: 0 <= c < |init| ==> (vs + [row[|row| - 1].value])[c] == vs[c];
      }
    }
  }

  /** A table of scores read row by row, as the loops produce it: the
      first error stops it, and the rows before it are kept. */
  function TableOutcomes(t: seq<seq<Result<real, FitError>>>): (r: (seq<seq<real>>, Outcome<FitError>))
  {
    if |t| == 0 then ([], Pass)
    else
      var (rs, o) := TableOutcomes(t[..|t| - 1]);
      if o.Fail? then (rs, o)
      else
        var (vs, o2) := Outcomes(t[|t| - 1]);
        if o2.Fail? then (rs, o2)
        else (rs + [vs], Pass)
  }

  /** `TableOutcomes` succeeds exactly when no cell is an error, and then
      keeps every cell's score; otherwise it gives the error of the first
      cell, in row order, that is one. */
  lemma TableOutcomesMeaning(t: seq<seq<Result<real, FitError>>>)
    ensures var (rs, o) := TableOutcomes(t);
      && (o.Pass? <==> forall i, j :: 0 <= i < |t| && 0 <= j < |t[i]| ==> t[i][j].Ok?)
      && (o.Fail? ==> exists i, j :: (0 <= i < |t| && 0 <= j < |t[i]| && t[i][j] == Err(o.error)
            && (forall i', j' :: 0 <= i' < i && 0 <= j' < |t[i']| ==> t[i'][j'].Ok?)
            && forall j' :: 0 <= j' < j ==> t[i][j'].Ok?))
      && (o.Pass? ==> |rs| == |t| && forall i :: 0 <= i < |t| ==> rs[i] == Outcomes(t[i]).0)
  {
    TableOutcomesOk(t);
    TableOutcomesFirst(t);
    TableOutcomesRows(t);
  }

  lemma {:induction false} TableOutcomesOk(t: seq<seq<Result<real, FitError>>>)
    ensures TableOutcomes(t).1.Pass? <==> forall i, j :: 0 <= i < |t| && 0 <= j < |t[i]| ==> t[i][j].Ok?
  {
    if |t| > 0 {
      var n := |t| - 1;
      TableOutcomesOk(t[..n]);
      OutcomesMeaning(t[n]);
      assert forall i :: 0 <= i < n ==> t[..n][i] == t[i];
    }
  }

  lemma {:induction false} TableOutcomesRows(t: seq<seq<Result<real, FitError>>>)
    ensures var (rs, o) := TableOutcomes(t);
      o.Pass? ==> |rs| == |t| && forall i :: 0 <= i < |t| ==> rs[i] == Outcomes(t[i]).0
  {
    if |t| > 0 {
      var n := |t| - 1;
      TableOutcomesRows(t[..n]);
      var (rs, o) := TableOutcomes(t[..n]);
      var (vs, o2) := Outcomes(t[n]);
      if o.Pass? && o2.Pass? {
        assert forall i :: 0 <= i < n ==> t[..n][i] == t[i] && (rs + [vs])[i] == rs[i];
      }
    }
  }

  lemma {:induction false} TableOutcomesFirst(t: seq<seq<Result<real, FitError>>>)
    ensures var (rs, o) := TableOutcomes(t);
      o.Fail? ==> exists i, j :: (0 <= i < |t| && 0 <= j < |t[i]| && t[i][j] == Err(o.error)
        && (forall i', j' :: 0 <= i' < i && 0 <= j' < |t[i']| ==> t[i'][j'].Ok?)
        && forall j' :: 0 <= j' < j ==> t[i][j'].Ok?)
  {
    if |t| > 0 {
      var n := |t| - 1;
      var init := t[..n];
      TableOutcomesFirst(init);
      assert forall i :: 0 <= i < n ==> init[i] == t[i];
      var (rs, o) := TableOutcomes(init);
      if o.Fail? {
        var i, j :| 0 <= i < |init| && 0 <= j < |init[i]| && init[i][j] == Err(o.error)
          && (forall i', j' :: 0 <= i' < i && 0 <= j' < |init[i']| ==> init[i'][j'].Ok?)
          && forall j' :: 0 <= j' < j ==> init[i][j'].Ok?;
        assert t[i][j] == Err(o.error);
      } else {
        TableOutcomesOk(init);
        OutcomesMeaning(t[n]);
      }
    }
  }

  /** The scores of folds 0..j-1, each from `C`, `meta` itself. */
  function Scores(step: FoldFn, C: seq<Estimator>, meta: Estimator, j: nat): (s: seq<Result<real, FitError>>)
    ensures |s| == j && forall c :: 0 <= c < j ==> s[c] == step(C, meta, c).2
  {
    seq(j, c requires 0 <= c < j => step(C, meta, c).2)
  }

  /** The folds of one combination, run from an ensemble that matches `C`
      in classes and parameters, give the scores of the folds from `C`
      itself, read in order; when they all score, the ensemble left is `C`
      routed with `hp`, in classes and parameters. */
  lemma {:induction false} FoldsFresh(step: FoldFn, C: seq<Estimator>, meta: Estimator, hp: Dict,
                                      cur: seq<Estimator>, curMeta: Estimator, j: nat)
    requires StepClones(step, C, meta) && StepClones(step, ConfigureAll(C, Some(hp)).0, meta) && StepRouted(step, C, meta, hp)
    requires Clones(cur) == Clones(C) && Clone(curMeta) == Clone(meta)
    ensures var r := Folds(step, cur, curMeta, j);
      && (r.2, r.3) == Outcomes(Scores(step, C, meta, j))
      && (r.3.Pass? && j > 0 ==> (ConfigureAll(C, Some(hp)).1.Pass?
            && Clones(r.0) == Clones(ConfigureAll(C, Some(hp)).0) && Clone(r.1) == Clone(meta)))
  {
    if j > 0 {
      FoldsFresh(step, C, meta, hp, cur, curMeta, j - 1);
      assert Scores(step, C, meta, j)[..j - 1] == Scores(step, C, meta, j - 1);
      var (es1, meta1, row, o) := Folds(step, cur, curMeta, j - 1);
      if o.Pass? {
        StepFrom(step, C, meta, hp, es1, meta1, j - 1);
      }
    }
  }

  /** One fold of `FoldsFresh`: from the ensemble the earlier folds left,
      it scores as from `C`, `meta`. */
  lemma StepFrom(step: FoldFn, C: seq<Estimator>, meta: Estimator, hp: Dict, e: seq<Estimator>, m: Estimator, c: nat)
    requires StepClones(step, C, meta) && StepClones(step, ConfigureAll(C, Some(hp)).0, meta) && StepRouted(step, C, meta, hp)
    requires c == 0 ==> Clones(e) == Clones(C) && Clone(m) == Clone(meta)
    requires c > 0 ==> (ConfigureAll(C, Some(hp)).1.Pass?
      && Clones(e) == Clones(ConfigureAll(C, Some(hp)).0) && Clone(m) == Clone(meta))
    ensures step(e, m, c).2 == step(C, meta, c).2
    ensures step(e, m, c).2.Ok? ==> (ConfigureAll(C, Some(hp)).1.Pass?
      && Clones(step(e, m, c).0) == Clones(ConfigureAll(C, Some(hp)).0) && Clone(step(e, m, c).1) == Clone(meta))
  {
    if c > 0 {
      assert step(ConfigureAll(C, Some(hp)).0, meta, c).2 == step(C, meta, c).2;
    }
  }

  /** A combination run from an ensemble that matches `C` in classes and
      parameters gives the reference row of `C`: it succeeds exactly when
      the row has no error, and then holds its scores and leaves `C`
      routed with `hp`; otherwise it raises the row's first error. */
  predicate RowAgrees(r: (seq<Estimator>, Estimator, seq<real>, Outcome<FitError>), row: seq<Result<real, FitError>>,
                      C: seq<Estimator>, meta: Estimator, hp: Dict)
  {
    && (r.2, r.3) == Outcomes(row)
    && (r.3.Pass? ==> Clones(r.0) == Clones(ConfigureAll(C, Some(hp)).0) && Clone(r.1) == Clone(meta))
  }

  ghost predicate CombAgrees(comb: CombFn, rows: RowFn, meta: Estimator)
  {
    forall e, m, C, hp :: Clones(e) == Clones(C) && Clone(m) == Clone(meta) ==> RowAgrees(comb(e, m, hp), rows(C, hp), C, meta, hp)
  }

  /** Each combination of `cv_outer_loop` agrees with its reference row. */
  lemma CombinationFresh(lib: Learning, meta: Estimator, useProbas: bool, X: Matrix, y: Labels)
    ensures CombAgrees(CombinationOf(lib, useProbas, X, y), FreshRowOf(lib, meta, useProbas, X, y), meta)
  {
    forall e, m, C, hp | Clones(e) == Clones(C) && Clone(m) == Clone(meta)
      ensures RowAgrees(Combination(lib, e, m, hp, useProbas, X, y), FreshRow(lib, C, meta, hp, useProbas, X, y), C, meta, hp)
    {
      CombinationRow(lib, meta, useProbas, X, y, e, m, C, hp);
    }
  }

  lemma CombinationRow(lib: Learning, meta: Estimator, useProbas: bool, X: Matrix, y: Labels,
                       e: seq<Estimator>, m: Estimator, C: seq<Estimator>, hp: Dict)
    requires Clones(e) == Clones(C) && Clone(m) == Clone(meta)
    ensures RowAgrees(Combination(lib, e, m, hp, useProbas, X, y), FreshRow(lib, C, meta, hp, useProbas, X, y), C, meta, hp)
  {
    var row := FreshRow(lib, C, meta, hp, useProbas, X, y);
    if |X| != |y| || SplitFails(y, OuterFolds) {
      assert row[..1][..0] == [];
      assert Outcomes(row[..1]) == ([], Fail(row[0].error));
      assert row[..|row| - 1] == row[..1];
    } else {
      var step := FoldStepOf(lib, hp, useProbas, X, y);
      FoldStepClones(lib, C, meta, hp, useProbas, X, y);
      FoldStepClones(lib, ConfigureAll(C, Some(hp)).0, meta, hp, useProbas, X, y);
      FoldStepRouted(lib, C, meta, hp, useProbas, X, y);
      FoldsFresh(step, C, meta, hp, e, m, OuterFolds);
      assert row == Scores(step, C, meta, OuterFolds);
    }
  }

  /** The loop over the combinations, run from `es`, `meta`, gives the
      reference table of `rows` read in order, when each combination
      agrees with its row; when it succeeds it leaves the ensemble routed
      by every combination, in classes and parameters. */
  lemma {:induction false} LoopFresh(comb: CombFn, rows: RowFn, es: seq<Estimator>, meta: Estimator, all: seq<Dict>)
    requires CombAgrees(comb, rows, meta)
    ensures var r := Loop(comb, es, meta, all);
      && (r.2, r.3) == TableOutcomes(Reference(rows, es, all))
      && (r.3.Pass? ==> Clones(r.0) == Clones(Configured(es, all)) && Clone(r.1) == Clone(meta))
  {
    if |all| > 0 {
      var n := |all| - 1;
      var p := all[..n];
      LoopFresh(comb, rows, es, meta, p);
      forall i | 0 <= i < n ensures p[..i] == all[..i] {
      }
      assert Reference(rows, es, all)[..n] == Reference(rows, es, p);
      var (es1, meta1, rs, o) := Loop(comb, es, meta, p);
      if o.Pass? {
        assert RowAgrees(comb(es1, meta1, all[n]), rows(Configured(es, p), all[n]), Configured(es, p), meta, all[n]);
      }
    }
  }

  /** `cv_outer_loop`'s loop computes the reference table: every score it
      records is the score of that combination on that fold fitted afresh,
      it raises the error of the first cell that raises, and when it
      succeeds it leaves the ensemble routed by every combination, with
      the meta classifier's class and parameters unchanged. */
  lemma OuterLoopFresh(lib: Learning, es: seq<Estimator>, meta: Estimator, all: seq<Dict>, useProbas: bool,
                       X: Matrix, y: Labels)
    ensures var r := OuterLoop(lib, es, meta, all, useProbas, X, y);
      && (r.2, r.3) == TableOutcomes(FreshTable(lib, es, meta, all, useProbas, X, y))
      && (r.3.Pass? ==> Clones(r.0) == Clones(Configured(es, all)) && Clone(r.1) == Clone(meta))
  {
    var rows := FreshRowOf(lib, meta, useProbas, X, y);
    CombinationFresh(lib, meta, useProbas, X, y);
    LoopFresh(CombinationOf(lib, useProbas, X, y), rows, es, meta, all);
    assert Reference(rows, es, all) == FreshTable(lib, es, meta, all, useProbas, X, y);
  }

  /** The final refit, from the ensemble the loop leaves, is the refit of
      the classifiers the loop started with, routed by every combination:
      the same outcome, and on success the same fitted state. */
  lemma OuterLoopRefit(lib: Learning, es: seq<Estimator>, meta: Estimator, all: seq<Dict>, useProbas: bool,
                       X: Matrix, y: Labels, d: Dict, Xr: Matrix, yr: Labels)
    requires OuterLoop(lib, es, meta, all, useProbas, X, y).3.Pass?
    ensures var r := OuterLoop(lib, es, meta, all, useProbas, X, y);
      var f := FitSpec(lib, r.0, r.1, Some(d), useProbas, false, Xr, yr);
      var g := FitSpec(lib, Configured(es, all), meta, Some(d), useProbas, false, Xr, yr);
      f.2 == g.2 && (f.2.Pass? ==> f.0 == g.0 && f.1 == g.1)
  {
    OuterLoopFresh(lib, es, meta, all, useProbas, X, y);
    var r := OuterLoop(lib, es, meta, all, useProbas, X, y);
    FitSpecClones(lib, r.0, Configured(es, all), r.1, meta, Some(d), useProbas, false, Xr, yr);
  }
}

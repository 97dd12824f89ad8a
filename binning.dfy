/** `pd.cut(x, bins=breaks, labels=[0, 1, 2, 3], right=True,
    include_lowest=False)` as `predict` applies it (src/models/classifiers.py,
    lines 123-129): with five increasing breaks, a probability falls into
    category k when it lies in the interval (breaks[k], breaks[k+1]]; a
    probability at or below the first break or above the last one gets no
    category. */
module Binning {
  import opened Wrappers

  /** The number of labels, one per interval between consecutive breaks. */
  const Categories: nat := 4

  /** The breaks `pd.cut` accepts with four labels: five of them, strictly
      increasing (unordered or repeated edges raise). */
  predicate ValidBreaks(b: seq<real>)
  {
    |b| == Categories + 1 && forall i, j :: 0 <= i < j < |b| ==> b[i] < b[j]
  }

  /** `b.searchsorted(p, side="left")` on increasing `b`: how many breaks
      lie strictly below `p`. */
  function SearchSortedLeft(b: seq<real>, p: real): (n: nat)
    ensures n <= |b|
  {
    if |b| == 0 then 0
    else SearchSortedLeft(b[..|b| - 1], p) + (if b[|b| - 1] < p then 1 else 0)
  }

  /** On increasing breaks, the breaks below `p` are a prefix. */
  lemma {:induction false} SearchSortedSplits(b: seq<real>, p: real)
    requires forall i, j :: 0 <= i < j < |b| ==> b[i] < b[j]
    ensures forall i :: 0 <= i < |b| ==> (b[i] < p <==> i < SearchSortedLeft(b, p))
  {
    if |b| > 0 {
      var init := b[..|b| - 1];
      SearchSortedSplits(init, p);
      assert forall i :: 0 <= i < |init| ==> init[i] == b[i];
    }
  }

  /** The category of one probability: `None` stands for the missing value
      `pd.cut` gives outside (breaks[0], breaks[4]]. */
  function Bin(p: real, b: seq<real>): (c: Option<nat>)
    requires ValidBreaks(b)
    ensures c.Some? ==> c.value < Categories
  {
    var ids := SearchSortedLeft(b, p);
    if ids == 0 || ids == |b| then None else Some(ids - 1)
  }

  /** The categories of a vector of probabilities, element by element. */
  function Cut(ps: seq<real>, b: seq<real>): (cs: seq<Option<nat>>)
    requires ValidBreaks(b)
    ensures |cs| == |ps| && forall i :: 0 <= i < |ps| ==> cs[i] == Bin(ps[i], b)
  {
    seq(|ps|, i requires 0 <= i < |ps| => Bin(ps[i], b))
  }

  /** Category k is exactly the interval (breaks[k], breaks[k+1]]. */
  lemma BinInterval(p: real, b: seq<real>, k: nat)
    requires ValidBreaks(b)
    ensures Bin(p, b) == Some(k) <==> k < Categories && b[k] < p <= b[k + 1]
  {
    SearchSortedSplits(b, p);
  }

  /** With `include_lowest=False`, a probability equal to the first break
      is missing too. */
  lemma BinMissing(p: real, b: seq<real>)
    requires ValidBreaks(b)
    ensures Bin(p, b).None? <==> p <= b[0] || p > b[Categories]
  {
    SearchSortedSplits(b, p);
  }

  /** A larger probability never gets a smaller category. */
  lemma BinMonotone(p: real, q: real, b: seq<real>)
    requires ValidBreaks(b) && p <= q
    requires Bin(p, b).Some? && Bin(q, b).Some?
    ensures Bin(p, b).value <= Bin(q, b).value
  {
    SearchSortedSplits(b, p);
    SearchSortedSplits(b, q);
    var i := SearchSortedLeft(b, p);
    assert b[i - 1] < p <= q;
  }
}

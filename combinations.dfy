/** `generate_all_combinations` (src/models/train_model.py): every way of
    picking one value per key of an ordered dict of value lists, in the
    order `itertools.product` yields them. */
module Combinations {
  import opened Wrappers

  /** Unpacking `keys, values = zip(*d.items())` fails for an empty dict. */
  datatype CombinationError = EmptyGrid

  /** `[h] + t` for every `t` in `tails`, in order. */
  function Cons<V>(h: V, tails: seq<seq<V>>): (r: seq<seq<V>>)
    ensures |r| == |tails|
    ensures forall b :: 0 <= b < |tails| ==> r[b] == [h] + tails[b]
  {
    seq(|tails|, b requires 0 <= b < |tails| => [h] + tails[b])
  }

  /** Each head followed by every tail: heads outermost. */
  function Prefixed<V>(heads: seq<V>, tails: seq<seq<V>>): seq<seq<V>>
  {
    if |heads| == 0 then [] else Cons(heads[0], tails) + Prefixed(heads[1..], tails)
  }

  /** `list(itertools.product(*vs))`: the first list varies slowest and
      the last varies fastest. */
  function Product<V>(vs: seq<seq<V>>): seq<seq<V>>
  {
    if |vs| == 0 then [[]] else Prefixed(vs[0], Product(vs[1..]))
  }

  /** The product of the lengths of the value lists. */
  function Size<V>(vs: seq<seq<V>>): nat
  {
    if |vs| == 0 then 1 else |vs[0]| * Size(vs[1..])
  }

  /** An index tuple picks one position in each value list. */
  predicate ValidIndex<V>(idx: seq<nat>, vs: seq<seq<V>>)
  {
    |idx| == |vs| && forall k :: 0 <= k < |vs| ==> idx[k] < |vs[k]|
  }

  /** The values an index tuple picks. */
  function Pick<V>(vs: seq<seq<V>>, idx: seq<nat>): (t: seq<V>)
    requires ValidIndex(idx, vs)
    ensures |t| == |vs| && forall k :: 0 <= k < |vs| ==> t[k] == vs[k][idx[k]]
  {
    seq(|vs|, k requires 0 <= k < |vs| => vs[k][idx[k]])
  }

  /** The mixed-radix position of an index tuple, last digit fastest. */
  function Rank<V>(idx: seq<nat>, vs: seq<seq<V>>): nat
    requires ValidIndex(idx, vs)
  {
    if |vs| == 0 then 0 else idx[0] * Size(vs[1..]) + Rank(idx[1..], vs[1..])
  }

  /** The index tuple at a position: the inverse of `Rank`. */
  function Unrank<V>(r: nat, vs: seq<seq<V>>): (idx: seq<nat>)
    requires r < Size(vs)
    ensures ValidIndex(idx, vs)
    ensures Rank(idx, vs) == r
  {
    if |vs| == 0 then []
    else
      var n := Size(vs[1..]);
      assert n > 0;
      var q, m := r / n, r % n;
      DivBelow(r, n, |vs[0]|);
      var rest := Unrank(m, vs[1..]);
      [q] + rest
  }

  // Mixed-radix arithmetic, one nonlinear fact per lemma.

  lemma DivBelow(r: nat, n: nat, h: nat)
    requires n > 0 && r < h * n
    ensures r / n < h && r == (r / n) * n + r % n
  {
    var q := r / n;
    assert q * n <= r;
    assert q >= h ==> q * n >= h * n;
  }

  lemma DigitBelow(a: nat, b: nat, h: nat, n: nat)
    requires a < h && b < n
    ensures a * n + b < h * n
  {
    assert a * n <= (h - 1) * n;
    assert (h - 1) * n == h * n - n;
  }

  lemma MulPred(a: nat, n: nat)
    requires a > 0
    ensures (a - 1) * n == a * n - n
  {
  }

  lemma DigitOrder(a: nat, x: nat, b: nat, y: nat, n: nat)
    requires a < b && x < n
    ensures a * n + x < b * n + y
  {
    assert (a + 1) * n <= b * n;
    assert (a + 1) * n == a * n + n;
  }

  /** Strict lexicographic order on index tuples of the same length. */
  predicate LexLess(a: seq<nat>, b: seq<nat>)
    requires |a| == |b|
  {
    |a| > 0 && (a[0] < b[0] || (a[0] == b[0] && LexLess(a[1..], b[1..])))
  }

  lemma {:induction false} PrefixedSize<V>(heads: seq<V>, tails: seq<seq<V>>)
    ensures |Prefixed(heads, tails)| == |heads| * |tails|
  {
    if |heads| > 0 {
      PrefixedSize(heads[1..], tails);
    }
  }

  lemma {:induction false} PrefixedAt<V>(heads: seq<V>, tails: seq<seq<V>>, a: nat, b: nat)
    requires a < |heads| && b < |tails|
    ensures a * |tails| + b < |Prefixed(heads, tails)|
    ensures Prefixed(heads, tails)[a * |tails| + b] == [heads[a]] + tails[b]
  {
    PrefixedSize(heads, tails);
    DigitBelow(a, b, |heads|, |tails|);
    if a > 0 {
      PrefixedAt(heads[1..], tails, a - 1, b);
      MulPred(a, |tails|);
    }
  }

  /** The product has exactly one entry per index tuple: as many as the
      product of the lengths. */
  lemma {:induction false} ProductSize<V>(vs: seq<seq<V>>)
    ensures |Product(vs)| == Size(vs)
  {
    if |vs| > 0 {
      ProductSize(vs[1..]);
      PrefixedSize(vs[0], Product(vs[1..]));
    }
  }

  /** The entry at the rank of an index tuple is what the tuple picks. */
  lemma {:induction false} ProductAt<V>(vs: seq<seq<V>>, idx: seq<nat>)
    requires ValidIndex(idx, vs)
    ensures Rank(idx, vs) < |Product(vs)|
    ensures Product(vs)[Rank(idx, vs)] == Pick(vs, idx)
  {
    if |vs| > 0 {
      var rest := vs[1..];
      assert ValidIndex(idx[1..], rest) by {
        forall k | 0 <= k < |rest| ensures idx[1..][k] < |rest[k]| {
          assert idx[1..][k] == idx[k + 1] && rest[k] == vs[k + 1];
        }
      }
      ProductAt(rest, idx[1..]);
      ProductSize(rest);
      PrefixedAt(vs[0], Product(rest), idx[0], Rank(idx[1..], rest));
      assert Pick(vs, idx) == [vs[0][idx[0]]] + Pick(rest, idx[1..]);
    }
  }

  /** Ranks grow with the lexicographic order of index tuples, so the
      product lists tuples in lexicographic order and no two tuples share
      a position. */
  lemma {:induction false} RankOrdered<V>(vs: seq<seq<V>>, a: seq<nat>, b: seq<nat>)
    requires ValidIndex(a, vs) && ValidIndex(b, vs)
    requires LexLess(a, b)
    ensures Rank(a, vs) < Rank(b, vs)
  {
    var rest := vs[1..];
    assert ValidIndex(a[1..], rest) by {
      forall k | 0 <= k < |rest| ensures a[1..][k] < |rest[k]| {
        assert a[1..][k] == a[k + 1] && rest[k] == vs[k + 1];
      }
    }
    assert ValidIndex(b[1..], rest) by {
      forall k | 0 <= k < |rest| ensures b[1..][k] < |rest[k]| {
        assert b[1..][k] == b[k + 1] && rest[k] == vs[k + 1];
      }
    }
    var n := Size(rest);
    if a[0] < b[0] {
      ProductAt(rest, a[1..]);
      ProductSize(rest);
      DigitOrder(a[0], Rank(a[1..], rest), b[0], Rank(b[1..], rest), n);
    } else {
      RankOrdered(rest, a[1..], b[1..]);
    }
  }

  /** Every entry of the product is picked by the tuple at its position. */
  lemma ProductEntry<V>(vs: seq<seq<V>>, r: nat)
    requires r < Size(vs)
    ensures r < |Product(vs)|
    ensures ValidIndex(Unrank(r, vs), vs)
    ensures Product(vs)[r] == Pick(vs, Unrank(r, vs))
  {
    ProductSize(vs);
    ProductAt(vs, Unrank(r, vs));
  }

  /** A list is in the product exactly when it picks one value from each list. */
  lemma ProductMembers<V>(vs: seq<seq<V>>, t: seq<V>)
    ensures t in Product(vs) <==> |t| == |vs| && forall k :: 0 <= k < |vs| ==> t[k] in vs[k]
  {
    if t in Product(vs) {
      var r :| 0 <= r < |Product(vs)| && Product(vs)[r] == t;
      ProductSize(vs);
      ProductEntry(vs, r);
    }
    if |t| == |vs| && forall k :: 0 <= k < |vs| ==> t[k] in vs[k] {
      var idx := Positions(vs, t);
      assert Pick(vs, idx) == t;
      ProductAt(vs, idx);
    }
  }

  /** For each picked value, a position of it in its list. */
  ghost function Positions<V>(vs: seq<seq<V>>, t: seq<V>): (idx: seq<nat>)
    requires |t| == |vs| && forall k :: 0 <= k < |vs| ==> t[k] in vs[k]
    ensures ValidIndex(idx, vs) && forall k :: 0 <= k < |vs| ==> vs[k][idx[k]] == t[k]
  {
    if |vs| == 0 then []
    else
      var j :| 0 <= j < |vs[0]| && vs[0][j] == t[0];
      var rest := Positions(vs[1..], t[1..]);
      [j] + rest
  }

  /** `dict(zip(keys, values))`, keeping the key order. */
  function Zip<K, V>(keys: seq<K>, values: seq<V>): (d: seq<(K, V)>)
    requires |keys| == |values|
    ensures |d| == |keys|
  {
    seq(|keys|, k requires 0 <= k < |keys| => (keys[k], values[k]))
  }

  function Keys<K, V>(grid: seq<(K, seq<V>)>): seq<K>
  {
    seq(|grid|, k requires 0 <= k < |grid| => grid[k].0)
  }

  function ValueLists<K, V>(grid: seq<(K, seq<V>)>): seq<seq<V>>
  {
    seq(|grid|, k requires 0 <= k < |grid| => grid[k].1)
  }

  /** `generate_all_combinations(d)` for an ordered dict `d` of value lists. */
  function GenerateAllCombinations<K, V>(grid: seq<(K, seq<V>)>): (r: Result<seq<seq<(K, V)>>, CombinationError>)
    ensures r.Err? <==> |grid| == 0
  {
    if |grid| == 0 then Err(EmptyGrid)
    else
      var keys := Keys(grid);
      var product := Product(ValueLists(grid));
      Ok(seq(|product|, i requires 0 <= i < |product| =>
        ProductMembers(ValueLists(grid), product[i]);
        Zip(keys, product[i])))
  }

  /** There are as many combinations as the product of the list lengths;
      in particular an empty value list leaves no combination at all. */
  lemma CombinationCount<K, V>(grid: seq<(K, seq<V>)>)
    requires |grid| > 0
    ensures |GenerateAllCombinations(grid).value| == Size(ValueLists(grid))
    ensures (exists k :: 0 <= k < |grid| && |grid[k].1| == 0) ==> GenerateAllCombinations(grid).value == []
  {
    var vs := ValueLists(grid);
    ProductSize(vs);
    if k :| 0 <= k < |grid| && |grid[k].1| == 0 {
      EmptyListEmptiesSize(vs, k);
    }
  }

  lemma {:induction false} EmptyListEmptiesSize<V>(vs: seq<seq<V>>, k: nat)
    requires k < |vs| && |vs[k]| == 0
    ensures Size(vs) == 0
  {
    if k > 0 {
      EmptyListEmptiesSize(vs[1..], k - 1);
    }
  }

  /** Every combination has the grid's keys, in the grid's order, each with
      a value from that key's list. */
  lemma CombinationShape<K, V>(grid: seq<(K, seq<V>)>, i: nat)
    requires |grid| > 0
    requires i < |GenerateAllCombinations(grid).value|
    ensures var c := GenerateAllCombinations(grid).value[i];
      |c| == |grid| && forall k :: 0 <= k < |grid| ==> c[k].0 == grid[k].0 && c[k].1 in grid[k].1
  {
    var vs := ValueLists(grid);
    var t := Product(vs)[i];
    assert t in Product(vs);
    ProductMembers(vs, t);
  }

  /** Every way of choosing one value per key appears among the combinations. */
  lemma CombinationComplete<K, V>(grid: seq<(K, seq<V>)>, choice: seq<V>)
    requires |grid| > 0
    requires |choice| == |grid| && forall k :: 0 <= k < |grid| ==> choice[k] in grid[k].1
    ensures Zip(Keys(grid), choice) in GenerateAllCombinations(grid).value
  {
    var vs := ValueLists(grid);
    ProductMembers(vs, choice);
    var r :| 0 <= r < |Product(vs)| && Product(vs)[r] == choice;
    assert GenerateAllCombinations(grid).value[r] == Zip(Keys(grid), choice);
  }

  /** `itertools.product` order: the combination picking index tuple `idx`
      sits at the tuple's rank, ranks follow the lexicographic order of the
      tuples (last key varying fastest), and every position holds exactly
      one tuple. */
  lemma CombinationOrder<K, V>(grid: seq<(K, seq<V>)>, a: seq<nat>, b: seq<nat>)
    requires |grid| > 0
    requires ValidIndex(a, ValueLists(grid)) && ValidIndex(b, ValueLists(grid))
    ensures Rank(a, ValueLists(grid)) < |GenerateAllCombinations(grid).value|
    ensures GenerateAllCombinations(grid).value[Rank(a, ValueLists(grid))] == Zip(Keys(grid), Pick(ValueLists(grid), a))
    ensures LexLess(a, b) ==> Rank(a, ValueLists(grid)) < Rank(b, ValueLists(grid))
    ensures Rank(a, ValueLists(grid)) == Rank(b, ValueLists(grid)) ==> a == b
  {
    var vs := ValueLists(grid);
    ProductAt(vs, a);
    if LexLess(a, b) {
      RankOrdered(vs, a, b);
    }
    if Rank(a, vs) == Rank(b, vs) {
      LexTotal(a, b);
      if LexLess(a, b) { RankOrdered(vs, a, b); }
      if LexLess(b, a) { RankOrdered(vs, b, a); }
    }
  }

  lemma {:induction false} LexTotal(a: seq<nat>, b: seq<nat>)
    requires |a| == |b|
    ensures a == b || LexLess(a, b) || LexLess(b, a)
  {
    if |a| > 0 && a[0] == b[0] {
      LexTotal(a[1..], b[1..]);
      if a[1..] == b[1..] {
        assert a == [a[0]] + a[1..] && b == [b[0]] + b[1..];
      }
    }
  }
}

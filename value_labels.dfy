/** `parse_value_labels` (src/data/transform.py): reads the value-label
    column of a data dictionary, where a cell such as `1 = Male,2 = Female`
    lists the codes of a categorical variable and their labels, into a map
    from variable name to a map from integer code to label.

    The data dictionary is given as its two relevant columns, zipped: one
    (variable name, value-label cell) pair per row, a missing cell (NaN in
    the table) being `None`. */
module ValueLabels {
  import opened Wrappers
  import opened Text

  /** What makes the whole parse raise. */
  datatype LabelError =
    | BadCode(text: string)      // `int(code)` raises ValueError
    | MissingLabel(entry: string) // `e[1]` raises IndexError: no " = " in the entry

  const EntrySeparator: string := ","
  const CodeSeparator: string := " = "

  /** An entry with its double quotes removed, split on " = ". */
  function Parts(entry: string): (parts: seq<string>)
    ensures |parts| >= 1
  {
    Split(RemoveAll(entry, '"'), CodeSeparator)
  }

  /** One `code = label` entry: `int(e[0])` first, then `e[1]`; any text
      after a second " = " is ignored. */
  function ParseEntry(entry: string): (r: Result<(int, string), LabelError>)
  {
    var e := Parts(entry);
    match ParseInt(e[0])
    case None => Err(BadCode(e[0]))
    case Some(code) => if |e| < 2 then Err(MissingLabel(entry)) else Ok((code, e[1]))
  }

  /** An entry parses exactly when its code is an integer and a " = "
      follows it; its label then holds neither a double quote nor " = ". */
  lemma EntryLabelClean(entry: string)
    ensures ParseEntry(entry).Ok? <==> ParseInt(Parts(entry)[0]).Some? && |Parts(entry)| >= 2
    ensures ParseEntry(entry).Ok? ==> '"' !in ParseEntry(entry).value.1 && !Contains(ParseEntry(entry).value.1, CodeSeparator)
  {
    SplitParts(RemoveAll(entry, '"'), CodeSeparator);
    SplitChars(RemoveAll(entry, '"'), CodeSeparator);
  }

  /** The label is exactly the quote-free text between the first and the
      second " = "; whatever follows a second " = " is dropped. */
  lemma EntryLabelBetweenSeparators(entry: string)
    requires ParseEntry(entry).Ok?
    ensures var e := Parts(entry);
      RemoveAll(entry, '"') == e[0] + CodeSeparator + ParseEntry(entry).value.1
        + (if |e| > 2 then CodeSeparator + Join(e[2..], CodeSeparator) else "")
  {
    var e := Parts(entry);
    assert ParseEntry(entry).value.1 == e[1];
    JoinSplit(RemoveAll(entry, '"'), CodeSeparator);
    JoinFirstTwo(e, CodeSeparator);
  }

  /** An entry written as `str(code) + " = " + label` reads back as that
      code and label, provided the label has no quote and no " = ". */
  lemma EntryRoundTrip(code: int, labelText: string)
    requires '"' !in labelText && !Contains(labelText, CodeSeparator)
    ensures ParseEntry(Show(code) + CodeSeparator + labelText) == Ok((code, labelText))
  {
    var head := Show(code);
    var s := head + CodeSeparator + labelText;
    ShowChars(code);
    EntryQuoteFree(head, labelText);
    FirstSeparator(head, labelText);
    SplitAtFirst(s, CodeSeparator, |head|);
    assert s[..|head|] == head && s[|head| + 3..] == labelText;
    SplitNone(labelText, CodeSeparator);
    ParseShow(code);
  }

  /** `str(n)` is a sign and digits. */
  lemma ShowChars(n: int)
    ensures forall k :: 0 <= k < |Show(n)| ==> Show(n)[k] == '-' || IsDigit(Show(n)[k])
  {
  }

  /** A written entry holds no double quote, so removing them keeps it. */
  lemma EntryQuoteFree(head: string, labelText: string)
    requires forall k :: 0 <= k < |head| ==> head[k] == '-' || IsDigit(head[k])
    requires '"' !in labelText
    ensures RemoveAll(head + CodeSeparator + labelText, '"') == head + CodeSeparator + labelText
  {
    assert '"' !in head by {
      forall k | 0 <= k < |head| ensures head[k] != '"' { }
    }
    assert '"' !in head + CodeSeparator + labelText;
  }

  /** In a written entry, the first " = " is the one after the code. */
  lemma FirstSeparator(head: string, labelText: string)
    requires forall k :: 0 <= k < |head| ==> head[k] == '-' || IsDigit(head[k])
    ensures var s := head + CodeSeparator + labelText;
      OccursAt(s, CodeSeparator, |head|) && forall j: nat :: j < |head| ==> !OccursAt(s, CodeSeparator, j)
  {
    var s := head + CodeSeparator + labelText;
    forall j: nat | j < |head| ensures !OccursAt(s, CodeSeparator, j) {
      assert s[j] == head[j] != ' ';
    }
    assert s[|head|..|head| + 3] == CodeSeparator;
  }

  /** A dict comprehension over (key, value) pairs that skips absent
      values: later pairs overwrite earlier ones with the same key. */
  function Collect<K, V>(pairs: seq<(K, Option<V>)>): (m: map<K, V>)
    ensures |m| <= |pairs|
  {
    if |pairs| == 0 then map[]
    else
      var last := pairs[|pairs| - 1];
      var m := Collect(pairs[..|pairs| - 1]);
      if last.1.Some? then m[last.0 := last.1.value] else m
  }

  /** The keys of the collected map are the keys of the present pairs. */
  lemma {:induction false} CollectKeys<K, V>(pairs: seq<(K, Option<V>)>, x: K)
    ensures x in Collect(pairs) <==> exists k :: 0 <= k < |pairs| && pairs[k].0 == x && pairs[k].1.Some?
  {
    if |pairs| > 0 {
      var init := pairs[..|pairs| - 1];
      CollectKeys(init, x);
      if exists k :: 0 <= k < |init| && init[k].0 == x && init[k].1.Some? {
        var k :| 0 <= k < |init| && init[k].0 == x && init[k].1.Some?;
        assert pairs[k] == init[k];
      }
      if exists k :: 0 <= k < |pairs| && pairs[k].0 == x && pairs[k].1.Some? {
        var k :| 0 <= k < |pairs| && pairs[k].0 == x && pairs[k].1.Some?;
        if k < |init| { assert init[k] == pairs[k]; }
      }
    }
  }

  /** Every collected value comes from a pair with its key. */
  lemma {:induction false} CollectFrom<K, V>(pairs: seq<(K, Option<V>)>, x: K)
    requires x in Collect(pairs)
    ensures exists k :: 0 <= k < |pairs| && pairs[k] == (x, Some(Collect(pairs)[x]))
  {
    var init := pairs[..|pairs| - 1];
    var last := pairs[|pairs| - 1];
    if last.1.Some? && last.0 == x {
      assert pairs[|pairs| - 1] == (x, Some(Collect(pairs)[x]));
    } else {
      CollectFrom(init, x);
      var k :| 0 <= k < |init| && init[k] == (x, Some(Collect(init)[x]));
      assert pairs[k] == init[k];
    }
  }

  /** A key's value is the one from its last present pair. */
  lemma {:induction false} CollectLast<K, V>(pairs: seq<(K, Option<V>)>, k: nat)
    requires k < |pairs| && pairs[k].1.Some? && LastPresent(pairs, k)
    ensures pairs[k].0 in Collect(pairs) && Collect(pairs)[pairs[k].0] == pairs[k].1.value
  {
    var n := |pairs| - 1;
    var init := pairs[..n];
    if k < n {
      assert init[k] == pairs[k];
      assert LastPresent(init, k) by {
        forall k' | k < k' < |init| && init[k'].1.Some? ensures init[k'].0 != init[k].0 {
          assert init[k'] == pairs[k'];
        }
      }
      CollectLast(init, k);
    }
  }

  /** No later pair with a value has the same key as pair `k`. */
  predicate LastPresent<K(==), V>(pairs: seq<(K, Option<V>)>, k: nat)
    requires k < |pairs|
  {
    forall k' :: k < k' < |pairs| && pairs[k'].1.Some? ==> pairs[k'].0 != pairs[k].0
  }

  /** Element `k` is the first one on which `f` fails. */
  predicate FirstFailure<A, B, E>(xs: seq<A>, f: A -> Result<B, E>, k: int)
  {
    0 <= k < |xs| && f(xs[k]).Err? && forall k' :: 0 <= k' < k ==> f(xs[k']).Ok?
  }

  /** Applies `f` to every element in order, as a comprehension does:
      the first failure is raised, otherwise all results are kept. */
  function MapAll<A, B, E>(xs: seq<A>, f: A -> Result<B, E>): (r: Result<seq<B>, E>)
    ensures r.Ok? ==> |r.value| == |xs|
  {
    if |xs| == 0 then Ok([])
    else
      match f(xs[0])
      case Err(e) => Err(e)
      case Ok(p) =>
        match MapAll(xs[1..], f)
        case Err(e) => Err(e)
        case Ok(ps) => Ok([p] + ps)
  }

  /** `MapAll` succeeds exactly when `f` succeeds on every element, then
      keeps every result in order; otherwise it raises the error of the
      first failure. */
  lemma {:induction false} MapAllMeaning<A, B, E>(xs: seq<A>, f: A -> Result<B, E>)
    ensures var r := MapAll(xs, f);
      && (r.Ok? <==> forall k :: 0 <= k < |xs| ==> f(xs[k]).Ok?)
      && (r.Ok? ==> forall k :: 0 <= k < |xs| ==> f(xs[k]) == Ok(r.value[k]))
      && (r.Err? ==> exists k :: FirstFailure(xs, f, k) && f(xs[k]) == Err(r.error))
  {
    if |xs| > 0 {
      var rest := xs[1..];
      MapAllMeaning(rest, f);
      assert forall k :: 1 <= k < |xs| ==> xs[k] == rest[k - 1];
      if f(xs[0]).Err? {
        assert FirstFailure(xs, f, 0);
      } else if MapAll(rest, f).Err? {
        var k :| FirstFailure(rest, f, k) && f(rest[k]) == Err(MapAll(rest, f).error);
        assert FirstFailure(xs, f, k + 1);
      }
    }
  }

  function AsPresent(ps: seq<(int, string)>): (pairs: seq<(int, Option<string>)>)
    ensures |pairs| == |ps| && forall k :: 0 <= k < |ps| ==> pairs[k] == (ps[k].0, Some(ps[k].1))
  {
    seq(|ps|, k requires 0 <= k < |ps| => (ps[k].0, Some(ps[k].1)))
  }

  /** The entries of a cell, split on "," and parsed in order. */
  function CellEntries(cell: string): Result<seq<(int, string)>, LabelError>
  {
    MapAll(Split(cell, EntrySeparator), ParseEntry)
  }

  /** One value-label cell: the code-to-label map its entries build. */
  function ParseCell(cell: string): (r: Result<map<int, string>, LabelError>)
    ensures r.Ok? ==> |r.value| >= 1
  {
    match CellEntries(cell)
    case Err(e) => Err(e)
    case Ok(ps) =>
      var pairs := AsPresent(ps);
      CollectKeys(pairs, ps[0].0);
      Ok(Collect(pairs))
  }

  /** A cell parses exactly when all its entries do; it has at most one
      code per entry, and no label holds a double quote. */
  lemma CellShape(cell: string)
    ensures ParseCell(cell).Ok? <==> forall k :: 0 <= k < |Split(cell, EntrySeparator)| ==> ParseEntry(Split(cell, EntrySeparator)[k]).Ok?
    ensures ParseCell(cell).Ok? ==> |ParseCell(cell).value| <= |Split(cell, EntrySeparator)|
    ensures ParseCell(cell).Ok? ==> forall c :: c in ParseCell(cell).value ==> '"' !in ParseCell(cell).value[c]
  {
    var entries := Split(cell, EntrySeparator);
    var r := MapAll(entries, ParseEntry);
    MapAllMeaning(entries, ParseEntry);
    if r.Err? {
      assert ParseCell(cell).Err? by { assert CellEntries(cell) == r; }
      var k :| FirstFailure(entries, ParseEntry, k);
      assert ParseEntry(Split(cell, EntrySeparator)[k]).Err?;
    } else {
      var pairs := AsPresent(r.value);
      var m := Collect(pairs);
      forall c | c in m ensures '"' !in m[c] {
        CollectFrom(pairs, c);
        var k :| 0 <= k < |pairs| && pairs[k] == (c, Some(m[c]));
        EntryLabelClean(entries[k]);
      }
    }
  }

  /** The map built from parsed entries holds exactly their codes, each
      with the label of its last entry. */
  lemma CollectEntries(ps: seq<(int, string)>)
    ensures forall c :: c in Collect(AsPresent(ps)) <==> exists k :: 0 <= k < |ps| && ps[k].0 == c
    ensures forall k :: 0 <= k < |ps| && (forall k' :: k < k' < |ps| ==> ps[k'].0 != ps[k].0) ==>
      Collect(AsPresent(ps))[ps[k].0] == ps[k].1
  {
    var pairs := AsPresent(ps);
    var m := Collect(pairs);
    forall c ensures c in m <==> exists k :: 0 <= k < |ps| && ps[k].0 == c {
      CollectKeys(pairs, c);
    }
    forall k | 0 <= k < |ps| && (forall k' :: k < k' < |ps| ==> ps[k'].0 != ps[k].0)
      ensures m[ps[k].0] == ps[k].1
    {
      CollectLast(pairs, k);
    }
  }

  /** The codes of a cell are exactly the codes of its entries, and each
      code maps to the label of its last entry. */
  lemma CellCodes(cell: string)
    requires ParseCell(cell).Ok?
    ensures var ps := CellEntries(cell).value;
      && (forall c :: c in ParseCell(cell).value <==> exists k :: 0 <= k < |ps| && ps[k].0 == c)
      && (forall k :: 0 <= k < |ps| && (forall k' :: k < k' < |ps| ==> ps[k'].0 != ps[k].0) ==>
            ParseCell(cell).value[ps[k].0] == ps[k].1)
  {
    var ps := CellEntries(cell).value;
    assert ParseCell(cell).value == Collect(AsPresent(ps));
    CollectEntries(ps);
  }

  /** Joins (code, label) pairs the way a data dictionary writes them. */
  function FormatCell(pairs: seq<(int, string)>): string
  {
    Join(seq(|pairs|, k requires 0 <= k < |pairs| => Show(pairs[k].0) + CodeSeparator + pairs[k].1), EntrySeparator)
  }

  /** A cell written from (code, label) pairs reads back as the map those
      pairs build, later codes winning, provided no label contains a quote,
      a comma or " = ". */
  lemma CellRoundTrip(pairs: seq<(int, string)>)
    requires |pairs| >= 1
    requires forall k :: 0 <= k < |pairs| ==> '"' !in pairs[k].1 && ',' !in pairs[k].1 && !Contains(pairs[k].1, CodeSeparator)
    ensures CellEntries(FormatCell(pairs)) == Ok(pairs)
    ensures ParseCell(FormatCell(pairs)) == Ok(Collect(AsPresent(pairs)))
  {
    var entries := seq(|pairs|, k requires 0 <= k < |pairs| => Show(pairs[k].0) + CodeSeparator + pairs[k].1);
    forall k | 0 <= k < |entries| ensures ',' !in entries[k] {
      var head := Show(pairs[k].0);
      assert forall i :: 0 <= i < |head| ==> head[i] == '-' || IsDigit(head[i]);
      assert forall i :: 0 <= i < |entries[k]| ==> entries[k][i] != ',' by {
        forall i | 0 <= i < |entries[k]| ensures entries[k][i] != ',' {
          if i >= |head| + 3 { assert entries[k][i] == pairs[k].1[i - |head| - 3]; }
        }
      }
    }
    SplitJoin(entries, ',');
    assert Split(FormatCell(pairs), EntrySeparator) == entries;
    forall k | 0 <= k < |entries| ensures ParseEntry(entries[k]) == Ok(pairs[k]) {
      EntryRoundTrip(pairs[k].0, pairs[k].1);
    }
    MapAllMeaning(entries, ParseEntry);
    assert MapAll(entries, ParseEntry).value == pairs;
  }

  /** Row `k` is the first row whose present cell does not parse. */
  predicate FirstBadRow(rows: seq<(string, Option<string>)>, k: int)
  {
    && 0 <= k < |rows| && rows[k].1.Some? && ParseCell(rows[k].1.value).Err?
    && forall k' :: 0 <= k' < k && rows[k'].1.Some? ==> ParseCell(rows[k'].1.value).Ok?
  }

  /** Whether row `k`'s cell is the last present cell for its variable. */
  predicate LastRow(rows: seq<(string, Option<string>)>, k: nat)
    requires k < |rows|
  {
    LastPresent(rows, k)
  }

  /** Zips variable names with their (possibly missing) parsed maps. */
  function Zip<V>(rows: seq<(string, Option<string>)>, t: seq<Option<V>>): (z: seq<(string, Option<V>)>)
    requires |t| == |rows|
    ensures |z| == |rows| && forall k :: 0 <= k < |rows| ==> z[k] == (rows[k].0, t[k])
  {
    seq(|rows|, k requires 0 <= k < |rows| => (rows[k].0, t[k]))
  }

  /** The final comprehension keeps exactly the variables with a present
      cell, each with the map of its last present row. */
  lemma CollectRows<V>(rows: seq<(string, Option<string>)>, t: seq<Option<V>>)
    requires |t| == |rows| && forall k :: 0 <= k < |rows| ==> (rows[k].1.None? <==> t[k].None?)
    ensures forall v :: v in Collect(Zip(rows, t)) <==> exists k :: 0 <= k < |rows| && rows[k].0 == v && rows[k].1.Some?
    ensures forall k :: 0 <= k < |rows| && rows[k].1.Some? && LastRow(rows, k) ==> Collect(Zip(rows, t))[rows[k].0] == t[k].value
  {
    var zipped := Zip(rows, t);
    var m := Collect(zipped);
    forall v ensures v in m <==> exists k :: 0 <= k < |rows| && rows[k].0 == v && rows[k].1.Some? {
      CollectKeys(zipped, v);
    }
    forall k | 0 <= k < |rows| && rows[k].1.Some? && LastRow(rows, k)
      ensures m[rows[k].0] == t[k].value
    {
      assert LastPresent(zipped, k);
      CollectLast(zipped, k);
    }
  }

  /** Every variable kept maps to a non-empty code map. */
  lemma CollectNonEmpty(rows: seq<(string, Option<string>)>, t: seq<Option<map<int, string>>>)
    requires |t| == |rows| && forall k :: 0 <= k < |rows| && t[k].Some? ==> |t[k].value| >= 1
    ensures forall v :: v in Collect(Zip(rows, t)) ==> |Collect(Zip(rows, t))[v]| >= 1
  {
    var zipped := Zip(rows, t);
    forall v | v in Collect(zipped) ensures |Collect(zipped)[v]| >= 1 {
      CollectFrom(zipped, v);
    }
  }

  /** What the final comprehension builds from the recorded cells: every
      present cell parsed, the variables with a present cell kept, each
      with the non-empty map of its last present row. */
  lemma LabelsOfCells(rows: seq<(string, Option<string>)>, t: seq<Option<map<int, string>>>)
    requires |t| == |rows| && forall k :: 0 <= k < |rows| ==> Recorded(rows[k], t[k], ParseCell)
    ensures forall k :: 0 <= k < |rows| && rows[k].1.Some? ==> ParseCell(rows[k].1.value).Ok?
    ensures var m := Collect(Zip(rows, t));
      && (forall v :: v in m <==> exists k :: 0 <= k < |rows| && rows[k].0 == v && rows[k].1.Some?)
      && (forall k :: 0 <= k < |rows| && rows[k].1.Some? && LastRow(rows, k) ==> m[rows[k].0] == ParseCell(rows[k].1.value).value)
      && (forall v :: v in m ==> |m[v]| >= 1)
  {
    forall k | 0 <= k < |rows|
      ensures rows[k].1.None? <==> t[k].None?
      ensures rows[k].1.Some? ==> ParseCell(rows[k].1.value) == Ok(t[k].value) && |t[k].value| >= 1
    {
      assert Recorded(rows[k], t[k], ParseCell);
    }
    CollectRows(rows, t);
    CollectNonEmpty(rows, t);
  }

  /** A cell parser for the proofs: it agrees with `ParseCell` wherever
      `ParseCell` is applied. */
  ghost predicate IsCellParser(parse: string -> Result<map<int, string>, LabelError>)
  {
    forall cell {:trigger ParseCell(cell)} :: parse(cell) == ParseCell(cell)
  }

  /** Row `k`'s parsed map is recorded in `cell`: `None` for a missing cell. */
  predicate Recorded(row: (string, Option<string>), cell: Option<map<int, string>>, parse: string -> Result<map<int, string>, LabelError>)
  {
    (row.1.None? <==> cell.None?) && (row.1.Some? ==> parse(row.1.value) == Ok(cell.value))
  }

  /** Row `k` is the first row whose present cell does not parse. */
  predicate FirstBad(rows: seq<(string, Option<string>)>, k: int, parse: string -> Result<map<int, string>, LabelError>)
  {
    && 0 <= k < |rows| && rows[k].1.Some? && parse(rows[k].1.value).Err?
    && forall k' :: 0 <= k' < k && rows[k'].1.Some? ==> parse(rows[k'].1.value).Ok?
  }

  /** The loop of `parse_value_labels`: list `t` receives the parsed map
      of every present cell, or `None` for a missing one; the first cell
      that does not parse raises. */
  method ParseCells(rows: seq<(string, Option<string>)>, ghost parse: string -> Result<map<int, string>, LabelError>)
    returns (r: Result<seq<Option<map<int, string>>>, LabelError>)
    requires IsCellParser(parse)
    ensures r.Ok? ==> |r.value| == |rows| && forall k :: 0 <= k < |rows| ==> Recorded(rows[k], r.value[k], parse)
    ensures r.Err? ==> exists k :: FirstBad(rows, k, parse) && parse(rows[k].1.value) == Err(r.error)
  {
    var t: seq<Option<map<int, string>>> := [];
    var i := 0;
    while i < |rows|
      invariant 0 <= i <= |rows|
      invariant |t| == i
      invariant forall k :: 0 <= k < i ==> Recorded(rows[k], t[k], parse)
    {
      var cell: Option<map<int, string>> := None;
      if rows[i].1.Some? {
        var d := ParseCell(rows[i].1.value);
        if d.Err? {
          assert FirstBad(rows, i, parse);
          return Err(d.error);
        }
        cell := Some(d.value);
      }
      assert Recorded(rows[i], cell, parse);
      t := t + [cell];
      i := i + 1;
    }
    r := Ok(t);
  }

  /** `parse_value_labels`: parses every present cell, then the dict
      comprehension keeps the variables whose cell was present. */
  method ParseValueLabels(rows: seq<(string, Option<string>)>) returns (r: Result<map<string, map<int, string>>, LabelError>)
    ensures r.Ok? <==> forall k :: 0 <= k < |rows| && rows[k].1.Some? ==> ParseCell(rows[k].1.value).Ok?
    ensures r.Err? ==> exists k :: FirstBadRow(rows, k) && ParseCell(rows[k].1.value) == Err(r.error)
    ensures r.Ok? ==> forall v :: v in r.value <==> exists k :: 0 <= k < |rows| && rows[k].0 == v && rows[k].1.Some?
    ensures r.Ok? ==> forall k :: 0 <= k < |rows| && rows[k].1.Some? && LastRow(rows, k) ==>
      r.value[rows[k].0] == ParseCell(rows[k].1.value).value
    ensures r.Ok? ==> forall v :: v in r.value ==> |r.value[v]| >= 1
  {
    var cells := ParseCells(rows, ParseCell);
    if cells.Err? {
      var k :| FirstBad(rows, k, ParseCell) && ParseCell(rows[k].1.value) == Err(cells.error);
      assert FirstBadRow(rows, k);
      return Err(cells.error);
    }
    var t := cells.value;
    LabelsOfCells(rows, t);
    r := Ok(Collect(Zip(rows, t)));
  }
}

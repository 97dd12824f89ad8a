/** The few Python `str` operations the modelled code relies on:
    `sub in s`, `s.split(sep)`, `s.split(sep, 1)`, `s.replace(c, "")`,
    `s.lower()`, `int(s)` and, as its inverse, `str(n)`. */
module Text {
  import opened Wrappers

  /** `sub` occurs in `s` starting at index `i`. */
  predicate OccursAt(s: string, sub: string, i: nat)
  {
    i + |sub| <= |s| && s[i..i + |sub|] == sub
  }

  /** `s.find(sub, i)`: the first occurrence of `sub` at or after `i`. */
  function FindFrom(s: string, sub: string, i: nat): (r: Option<nat>)
    requires i <= |s|
    decreases |s| - i
    ensures r.Some? ==> i <= r.value && OccursAt(s, sub, r.value)
  {
    if OccursAt(s, sub, i) then Some(i)
    else if i == |s| then None
    else FindFrom(s, sub, i + 1)
  }

  /** `find` gives the first occurrence, and `None` only when there is
      none at all. */
  lemma {:induction false} FindFromFirst(s: string, sub: string, i: nat)
    requires i <= |s|
    decreases |s| - i
    ensures var r := FindFrom(s, sub, i);
      && (r.Some? ==> forall j: nat :: i <= j < r.value ==> !OccursAt(s, sub, j))
      && (r.None? ==> forall j: nat :: i <= j ==> !OccursAt(s, sub, j))
  {
    if !OccursAt(s, sub, i) && i < |s| {
      FindFromFirst(s, sub, i + 1);
    }
  }

  /** Python's `sub in s`. */
  predicate Contains(s: string, sub: string)
  {
    FindFrom(s, sub, 0).Some?
  }

  lemma ContainsIff(s: string, sub: string)
    ensures Contains(s, sub) <==> exists j: nat :: OccursAt(s, sub, j)
  {
    FindFromFirst(s, sub, 0);
  }

  /** An occurrence inside a prefix is an occurrence in the whole string. */
  lemma OccursInPrefix(s: string, sub: string, n: nat, j: nat)
    requires n <= |s|
    requires OccursAt(s[..n], sub, j)
    ensures OccursAt(s, sub, j)
  {
    assert s[..n][j..j + |sub|] == s[j..j + |sub|];
  }

  /** Python's `s.split(sep)` for a non-empty separator: cut at every
      occurrence, scanning left to right without overlaps. */
  function Split(s: string, sep: string): (parts: seq<string>)
    requires |sep| > 0
    decreases |s|
    ensures |parts| >= 1
  {
    match FindFrom(s, sep, 0)
    case None => [s]
    case Some(i) => [s[..i]] + Split(s[i + |sep|..], sep)
  }

  /** The text before the first occurrence holds no occurrence. */
  lemma HeadFree(s: string, sep: string, i: nat)
    requires |sep| > 0 && FindFrom(s, sep, 0) == Some(i)
    ensures !Contains(s[..i], sep)
  {
    FindFromFirst(s, sep, 0);
    FindFromFirst(s[..i], sep, 0);
    forall j: nat | OccursAt(s[..i], sep, j) ensures false {
      OccursInPrefix(s, sep, i, j);
    }
  }

  /** No part of a split contains the separator. */
  lemma {:induction false} SplitParts(s: string, sep: string)
    requires |sep| > 0
    ensures forall k :: 0 <= k < |Split(s, sep)| ==> !Contains(Split(s, sep)[k], sep)
    decreases |s|
  {
    match FindFrom(s, sep, 0)
    case None =>
    case Some(i) =>
      var tail := s[i + |sep|..];
      SplitParts(tail, sep);
      HeadFree(s, sep, i);
      var parts := Split(s, sep);
      assert parts == [s[..i]] + Split(tail, sep);
      forall k | 1 <= k < |parts| ensures parts[k] == Split(tail, sep)[k - 1] { }
  }

  /** Every character of a part of a split is a character of the input. */
  lemma {:induction false} SplitChars(s: string, sep: string)
    requires |sep| > 0
    ensures forall k, c :: 0 <= k < |Split(s, sep)| && c in Split(s, sep)[k] ==> c in s
    decreases |s|
  {
    match FindFrom(s, sep, 0)
    case None =>
    case Some(i) =>
      var head := s[..i];
      var tail := s[i + |sep|..];
      SplitChars(tail, sep);
      forall c | c in head ensures c in s {
        var k :| 0 <= k < |head| && head[k] == c;
        assert s[k] == c;
      }
      forall c | c in tail ensures c in s {
        var k :| 0 <= k < |tail| && tail[k] == c;
        assert s[i + |sep| + k] == c;
      }
      var parts := Split(s, sep);
      assert parts == [head] + Split(tail, sep);
      forall k | 1 <= k < |parts| ensures parts[k] == Split(tail, sep)[k - 1] { }
  }

  /** Split cuts at the first occurrence of the separator. */
  lemma SplitAtFirst(s: string, sep: string, i: nat)
    requires |sep| > 0
    requires OccursAt(s, sep, i) && forall j: nat :: j < i ==> !OccursAt(s, sep, j)
    ensures Split(s, sep) == [s[..i]] + Split(s[i + |sep|..], sep)
  {
    FindFromFirst(s, sep, 0);
  }

  /** A string free of the separator splits into itself. */
  lemma SplitNone(s: string, sep: string)
    requires |sep| > 0 && !Contains(s, sep)
    ensures Split(s, sep) == [s]
  {
  }

  /** Python's `sep.join(parts)`. */
  function Join(parts: seq<string>, sep: string): string
  {
    if |parts| == 0 then ""
    else if |parts| == 1 then parts[0]
    else parts[0] + sep + Join(parts[1..], sep)
  }

  lemma JoinFirstTwo(parts: seq<string>, sep: string)
    requires |parts| >= 2
    ensures Join(parts, sep) == parts[0] + sep + parts[1] + (if |parts| > 2 then sep + Join(parts[2..], sep) else "")
  {
    assert parts[1..][1..] == parts[2..];
  }

  /** Splitting loses nothing: joining the parts back gives the input. */
  lemma {:induction false} JoinSplit(s: string, sep: string)
    requires |sep| > 0
    ensures Join(Split(s, sep), sep) == s
    decreases |s|
  {
    match FindFrom(s, sep, 0)
    case None =>
    case Some(i) =>
      var rest := s[i + |sep|..];
      JoinSplit(rest, sep);
      JoinCons(s[..i], Split(rest, sep), sep);
      Recompose(s, i, |sep|);
  }

  lemma Recompose(s: string, i: nat, n: nat)
    requires i + n <= |s|
    ensures s == s[..i] + s[i..i + n] + s[i + n..]
  {
  }

  lemma JoinCons(p: string, parts: seq<string>, sep: string)
    requires |parts| >= 1
    ensures Join([p] + parts, sep) == p + sep + Join(parts, sep)
  {
    assert ([p] + parts)[1..] == parts;
  }

  /** Joining on a one-character separator that no part contains, then
      splitting on it, gives the parts back. */
  lemma {:induction false} SplitJoin(parts: seq<string>, c: char)
    requires |parts| >= 1
    requires forall k :: 0 <= k < |parts| ==> c !in parts[k]
    ensures Split(Join(parts, [c]), [c]) == parts
  {
    var s := Join(parts, [c]);
    if |parts| == 1 {
      assert !Contains(s, [c]) by {
        forall j: nat | j < |s| ensures !OccursAt(s, [c], j) {
          assert s[j] != c;
        }
      }
      SplitNone(s, [c]);
    } else {
      var p := parts[0];
      var rest := Join(parts[1..], [c]);
      assert s == p + [c] + rest;
      forall j: nat | j < |p| ensures !OccursAt(s, [c], j) {
        assert s[j] == p[j];
      }
      assert OccursAt(s, [c], |p|) by {
        assert s[|p|..|p| + 1] == [c];
      }
      SplitAtFirst(s, [c], |p|);
      assert s[..|p|] == p && s[|p| + 1..] == rest;
      SplitJoin(parts[1..], c);
      assert Split(s, [c]) == [p] + parts[1..];
    }
  }

  /** `s.split(sep, 1)[1]`: the text after the first `sep`, or `None`
      where Python raises `IndexError`. */
  function AfterFirst(s: string, sep: string): (r: Option<string>)
    requires |sep| > 0
    ensures r.Some? <==> Contains(s, sep)
    ensures r.Some? ==> exists i: nat ::
      && OccursAt(s, sep, i)
      && (forall j: nat :: j < i ==> !OccursAt(s, sep, j))
      && s == s[..i] + sep + r.value
  {
    match FindFrom(s, sep, 0)
    case None => None
    case Some(i) =>
      assert s == s[..i] + sep + s[i + |sep|..];
      FindFromFirst(s, sep, 0);
      Some(s[i + |sep|..])
  }

  /** `s.split(sep, 1)[1]` is the second part of the full split joined back. */
  lemma AfterFirstIsTail(s: string, sep: string)
    requires |sep| > 0
    ensures AfterFirst(s, sep).Some? <==> |Split(s, sep)| >= 2
    ensures AfterFirst(s, sep).Some? ==> AfterFirst(s, sep).value == Join(Split(s, sep)[1..], sep)
  {
    match FindFrom(s, sep, 0)
    case None =>
    case Some(i) =>
      JoinSplit(s[i + |sep|..], sep);
  }

  /** `s.replace(c, "")`: every `c` removed, everything else kept in order. */
  function RemoveAll(s: string, c: char): (r: string)
    ensures c !in r
    ensures c !in s ==> r == s
  {
    if |s| == 0 then ""
    else
      var rest := RemoveAll(s[1..], c);
      assert s == [s[0]] + s[1..];
      if s[0] == c then rest else [s[0]] + rest
  }

  /** `s.replace(c, "")` keeps every other character of `s`, and only those. */
  lemma {:induction false} RemoveAllChars(s: string, c: char, x: char)
    ensures x in RemoveAll(s, c) <==> x in s && x != c
  {
    if |s| > 0 {
      RemoveAllChars(s[1..], c, x);
      assert s == [s[0]] + s[1..];
    }
  }

  function LowerChar(c: char): char
  {
    if 'A' <= c <= 'Z' then (c as int - 'A' as int + 'a' as int) as char else c
  }

  /** `s.lower()` on ASCII letters; other characters are kept. */
  function Lower(s: string): (r: string)
    ensures |r| == |s|
    ensures forall k :: 0 <= k < |r| ==> !('A' <= r[k] <= 'Z')
  {
    seq(|s|, k requires 0 <= k < |s| => LowerChar(s[k]))
  }

  /** The characters `int()` skips around a numeral: ASCII white space and
      the separators U+001C..U+001F. */
  predicate IsSpace(c: char)
  {
    c == ' ' || c == '\t' || c == '\n' || c == '\r' || c == '\U{B}' || c == '\U{C}'
    || ('\U{1C}' <= c <= '\U{1F}')
  }

  function StripLeft(s: string): string
  {
    if |s| > 0 && IsSpace(s[0]) then StripLeft(s[1..]) else s
  }

  function StripRight(s: string): string
  {
    if |s| > 0 && IsSpace(s[|s| - 1]) then StripRight(s[..|s| - 1]) else s
  }

  /** `s.strip()` as `int()` applies it. */
  function Strip(s: string): string
  {
    StripRight(StripLeft(s))
  }

  predicate IsDigit(c: char)
  {
    '0' <= c <= '9'
  }

  /** A base-10 numeral as `int()` accepts it: digits, with single
      underscores allowed between two digits. */
  predicate IsNumeral(b: string)
  {
    && |b| > 0
    && IsDigit(b[0])
    && IsDigit(b[|b| - 1])
    && (forall k :: 0 <= k < |b| ==> IsDigit(b[k]) || b[k] == '_')
    && (forall j, k :: 0 <= j < |b| && 0 <= k < |b| && k == j + 1 ==> !(b[j] == '_' && b[k] == '_'))
  }

  /** The value of one decimal digit (0 for any other character). */
  function DigitValue(c: char): (d: nat)
    ensures IsDigit(c) ==> d == c as int - '0' as int
  {
    if IsDigit(c) then c as int - '0' as int else 0
  }

  /** The value of a numeral, its underscores skipped. */
  function DigitsValue(b: string): nat
  {
    if |b| == 0 then 0
    else if b[|b| - 1] == '_' then DigitsValue(b[..|b| - 1])
    else DigitsValue(b[..|b| - 1]) * 10 + DigitValue(b[|b| - 1])
  }

  /** Python's `int(s)` in base 10; `None` where Python raises `ValueError`. */
  function ParseInt(s: string): (r: Option<int>)
  {
    var t := Strip(s);
    if |t| == 0 then None
    else
      var body := if t[0] == '-' || t[0] == '+' then t[1..] else t;
      if !IsNumeral(body) then None
      else if t[0] == '-' then Some(0 - DigitsValue(body))
      else Some(DigitsValue(body))
  }

  /** The decimal digits of a natural number, most significant first. */
  function Numeral(m: nat): (r: string)
    ensures |r| > 0
    ensures forall k :: 0 <= k < |r| ==> IsDigit(r[k])
  {
    if m < 10 then [('0' as int + m) as char]
    else Numeral(m / 10) + [('0' as int + m % 10) as char]
  }

  /** Python's `str(n)` for an integer. */
  function Show(n: int): (r: string)
  {
    if n < 0 then "-" + Numeral(-n) else Numeral(n)
  }

  lemma {:induction false} NumeralValue(m: nat)
    ensures DigitsValue(Numeral(m)) == m
  {
    if m >= 10 {
      NumeralValue(m / 10);
      var r := Numeral(m);
      assert r[..|r| - 1] == Numeral(m / 10);
    }
  }

  /** `strip()` removes exactly the leading whitespace... */
  lemma {:induction false} StripLeftSpaces(s: string)
    ensures var r := StripLeft(s);
      && |r| <= |s| && r == s[|s| - |r|..]
      && (|r| > 0 ==> !IsSpace(r[0]))
      && forall k :: 0 <= k < |s| - |r| ==> IsSpace(s[k])
  {
    if |s| > 0 && IsSpace(s[0]) {
      StripLeftSpaces(s[1..]);
    }
  }

  /** ... and the trailing whitespace. */
  lemma {:induction false} StripRightSpaces(s: string)
    ensures var r := StripRight(s);
      && |r| <= |s| && r == s[..|r|]
      && (|r| > 0 ==> !IsSpace(r[|r| - 1]))
      && forall k :: |r| <= k < |s| ==> IsSpace(s[k])
  {
    if |s| > 0 && IsSpace(s[|s| - 1]) {
      StripRightSpaces(s[..|s| - 1]);
    }
  }

  lemma StripUnchanged(s: string)
    requires |s| > 0 && !IsSpace(s[0]) && !IsSpace(s[|s| - 1])
    ensures Strip(s) == s
  {
  }

  /** `int(str(n)) == n`: the parser reads back every printed integer. */
  lemma ParseShow(n: int)
    ensures ParseInt(Show(n)) == Some(n)
  {
    var s := Show(n);
    var m: nat := if n < 0 then -n else n;
    var ds := Numeral(m);
    assert s[|s| - 1] == ds[|ds| - 1];
    StripUnchanged(s);
    var body := if s[0] == '-' || s[0] == '+' then s[1..] else s;
    assert body == ds;
    NumeralValue(m);
  }
}

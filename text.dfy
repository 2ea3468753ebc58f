/**
 * The few JavaScript string operations the page controllers rely on:
 * `trim`, `split(',')`, `join(sep)`, `parseInt`, number-to-string,
 * `toLowerCase` and `includes`.
 */
module Text {
  import opened Wrappers

  /** The characters `String.prototype.trim` removes (white space and line terminators). */
  predicate IsSpace(c: char) {
    c == ' ' || c == '\t' || c == '\n' || c == '\r' || c == '\U{000B}' || c == '\U{000C}'
    || c == '\U{00A0}' || c == '\U{1680}' || ('\U{2000}' <= c <= '\U{200A}')
    || c == '\U{2028}' || c == '\U{2029}' || c == '\U{202F}' || c == '\U{205F}'
    || c == '\U{3000}' || c == '\U{FEFF}'
  }

  /** `s` has no white space at either end. */
  predicate IsTrimmed(s: string) {
    s == [] || (!IsSpace(s[0]) && !IsSpace(s[|s| - 1]))
  }

  function TrimStart(s: string): (r: string)
    ensures |r| <= |s| && r == s[|s| - |r|..]
    ensures forall k :: 0 <= k < |s| - |r| ==> IsSpace(s[k])
    ensures r == [] || !IsSpace(r[0])
  {
    if |s| > 0 && IsSpace(s[0]) then
      var r := TrimStart(s[1..]);
      assert s[1..][|s| - 1 - |r|..] == s[|s| - |r|..];
      assert forall k :: 1 <= k < |s| - |r| ==> s[k] == s[1..][k - 1];
      r
    else s
  }

  function TrimEnd(s: string): (r: string)
    ensures |r| <= |s| && r == s[..|r|]
    ensures forall k :: |r| <= k < |s| ==> IsSpace(s[k])
    ensures r == [] || !IsSpace(r[|r| - 1])
  {
    if |s| > 0 && IsSpace(s[|s| - 1]) then
      var r := TrimEnd(s[..|s| - 1]);
      assert s[..|s| - 1][..|r|] == s[..|r|];
      assert forall k :: |r| <= k < |s| - 1 ==> s[k] == s[..|s| - 1][k];
      r
    else s
  }

  /** Every character of `s` before `i` and from `j` on is white space. */
  predicate SpaceOutside(s: string, i: int, j: int)
    requires 0 <= i <= j <= |s|
  {
    (forall k :: 0 <= k < i ==> IsSpace(s[k])) && (forall k :: j <= k < |s| ==> IsSpace(s[k]))
  }

  /**
   * `s.trim()`: the longest infix of `s` without white space at its ends;
   * only white space is cut away on either side.
   */
  function Trim(s: string): (r: string)
    ensures IsTrimmed(r)
    ensures IsTrimmed(s) ==> r == s
    ensures exists i, j :: 0 <= i <= j <= |s| && r == s[i..j] && SpaceOutside(s, i, j)
  {
    var a := TrimStart(s);
    var r := TrimEnd(a);
    TrimCut(s, a, r);
    TrimmedEnds(s, a, r);
    r
  }

  /** The start trim leaves no white space in front and the end trim none behind. */
  lemma TrimmedEnds(s: string, a: string, r: string)
    requires |a| <= |s| && a == s[|s| - |a|..] && forall k :: 0 <= k < |s| - |a| ==> IsSpace(s[k])
    requires a == [] || !IsSpace(a[0])
    requires |r| <= |a| && r == a[..|r|] && forall k :: |r| <= k < |a| ==> IsSpace(a[k])
    requires r == [] || !IsSpace(r[|r| - 1])
    ensures IsTrimmed(r)
    ensures IsTrimmed(s) ==> r == s
  {
    assert r != [] ==> r[0] == a[0];
    if IsTrimmed(s) && s != [] {
      assert !IsSpace(s[0]);
      assert a == s;
      assert !IsSpace(a[|a| - 1]);
    }
  }

  /** Trimming the start and then the end cuts only white space off `s`. */
  lemma TrimCut(s: string, a: string, r: string)
    requires |a| <= |s| && a == s[|s| - |a|..] && forall k :: 0 <= k < |s| - |a| ==> IsSpace(s[k])
    requires |r| <= |a| && r == a[..|r|] && forall k :: |r| <= k < |a| ==> IsSpace(a[k])
    ensures var i := |s| - |a|;
      0 <= i <= i + |r| <= |s| && r == s[i..i + |r|] && SpaceOutside(s, i, i + |r|)
  {
    var i := |s| - |a|;
    assert r == s[i..][..|r|] == s[i..i + |r|];
    SpaceAfter(s, a, r);
  }

  /** What the end trim cuts off the start-trimmed text is white space of `s`. */
  lemma SpaceAfter(s: string, a: string, r: string)
    requires |a| <= |s| && a == s[|s| - |a|..]
    requires |r| <= |a| && forall k :: |r| <= k < |a| ==> IsSpace(a[k])
    ensures forall k :: |s| - |a| + |r| <= k < |s| ==> IsSpace(s[k])
  {
    forall k | |s| - |a| + |r| <= k < |s|
      ensures IsSpace(s[k])
    {
      assert s[k] == a[k - (|s| - |a|)];
    }
  }

  /** A text with any character that is not white space does not trim to nothing. */
  lemma TrimKeepsInner(s: string, k: nat)
    requires k < |s| && !IsSpace(s[k])
    ensures Trim(s) != []
  {
    var r := Trim(s);
    var i, j :| 0 <= i <= j <= |s| && r == s[i..j] && SpaceOutside(s, i, j);
    assert i <= k < j;
  }

  /** `s.indexOf(c)` when `c` occurs: the index of its first occurrence. */
  function IndexOf<T(==)>(s: seq<T>, c: T): (i: nat)
    requires c in s
    ensures i < |s| && s[i] == c && c !in s[..i]
  {
    if s[0] == c then 0 else IndexOf(s[1..], c) + 1
  }

  /** `s || '-'`: an empty text shows as a dash. */
  function OrDash(s: string): (r: string)
    ensures r != ""
    ensures s != "" ==> r == s
  {
    if s == "" then "-" else s
  }

  /** No element occurs twice. */
  predicate Distinct<T(==)>(s: seq<T>) {
    forall i, j :: 0 <= i < j < |s| ==> s[i] != s[j]
  }

  /** `s.replace(c, '')` for a one-character pattern: only the first `c` goes. */
  function RemoveFirst(s: string, c: char): (r: string)
    ensures c !in s ==> r == s
    ensures c in s ==> |r| == |s| - 1
  {
    if c in s then
      var i := IndexOf(s, c);
      s[..i] + s[i + 1..]
    else
      s
  }

  /** Removing the first `c` from `p + [c]` gives `p` back when `p` holds no `c`. */
  lemma RemoveFirstAppended(p: string, c: char)
    requires c !in p
    ensures RemoveFirst(p + [c], c) == p
  {
    var s := p + [c];
    assert s[|p|] == c;
    var i := IndexOf(s, c);
    assert forall k :: 0 <= k < |p| ==> s[k] == p[k];
    assert i == |p|;
    assert s[..i] == p;
  }

  /** `s.split(sep)` for a one-character separator: never empty, pieces hold no separator. */
  function Split(s: string, sep: char): (r: seq<string>)
    ensures |r| >= 1
    ensures forall k :: 0 <= k < |r| ==> sep !in r[k]
    decreases |s|
  {
    if sep in s then
      var i := IndexOf(s, sep);
      [s[..i]] + Split(s[i + 1..], sep)
    else
      [s]
  }

  /** `xs.join(sep)`. */
  function Join(xs: seq<string>, sep: string): (r: string)
    ensures |xs| == 1 ==> r == xs[0]
  {
    if |xs| == 0 then "" else if |xs| == 1 then xs[0] else xs[0] + sep + Join(xs[1..], sep)
  }

  /** Splitting what was joined gives back the pieces, provided none contains the separator. */
  lemma {:induction false} SplitJoin(xs: seq<string>, sep: char)
    requires |xs| >= 1
    requires forall k :: 0 <= k < |xs| ==> sep !in xs[k]
    ensures Split(Join(xs, [sep]), sep) == xs
  {
    if |xs| > 1 {
      var rest := Join(xs[1..], [sep]);
      var s := xs[0] + [sep] + rest;
      assert Join(xs, [sep]) == s;
      SplitAfterPrefix(xs[0], sep, rest);
      SplitJoin(xs[1..], sep);
      assert xs == [xs[0]] + xs[1..];
    }
  }

  /** The first piece of `p + [c] + rest` is `p` when `p` holds no `c`. */
  lemma SplitAfterPrefix(p: string, c: char, rest: string)
    requires c !in p
    ensures Split(p + [c] + rest, c) == [p] + Split(rest, c)
  {
    var s := p + [c] + rest;
    assert s[|p|] == c;
    var i := IndexOf(s, c);
    assert forall k :: 0 <= k < |p| ==> s[k] == p[k];
    assert i >= |p|;
    assert s[..i + 1][|p|] == c;
    assert i == |p|;
    assert s[..i] == p;
    assert s[i + 1..] == rest;
  }

  /** Joining what was split gives back the string. */
  lemma {:induction false} JoinSplit(s: string, sep: char)
    ensures Join(Split(s, sep), [sep]) == s
    decreases |s|
  {
    if sep in s {
      var i := IndexOf(s, sep);
      var rest := Split(s[i + 1..], sep);
      JoinSplit(s[i + 1..], sep);
      var pieces := Split(s, sep);
      assert pieces == [s[..i]] + rest;
      assert |pieces| >= 2 && pieces[0] == s[..i] && pieces[1..] == rest;
      assert Join(pieces, [sep]) == s[..i] + [sep] + Join(rest, [sep]);
      assert s == s[..i] + [sep] + s[i + 1..];
    }
  }

  /** Element-wise `trim`. */
  function TrimAll(xs: seq<string>): (r: seq<string>)
    ensures |r| == |xs|
    ensures forall k :: 0 <= k < |xs| ==> r[k] == Trim(xs[k])
  {
    if xs == [] then [] else [Trim(xs[0])] + TrimAll(xs[1..])
  }

  // ---------------------------------------------------------------
  // Decimal numbers
  // ---------------------------------------------------------------

  predicate IsDigit(c: char) {
    '0' <= c <= '9'
  }

  function DigitValue(c: char): (d: nat)
    requires IsDigit(c)
    ensures d < 10
  {
    (c as int) - ('0' as int)
  }

  function DigitChar(d: nat): (c: char)
    requires d < 10
    ensures IsDigit(c) && DigitValue(c) == d
  {
    (('0' as int) + d) as char
  }

  predicate AllDigits(s: string) {
    forall k :: 0 <= k < |s| ==> IsDigit(s[k])
  }

  /** The value of a string of decimal digits, most significant first. */
  function DigitsValue(s: string): (n: nat)
    requires AllDigits(s)
  {
    if s == [] then 0 else 10 * DigitsValue(s[..|s| - 1]) + DigitValue(s[|s| - 1])
  }

  /** The decimal digits of `n`, without leading zeros. */
  function NatToString(n: nat): (s: string)
    ensures |s| >= 1 && AllDigits(s)
    ensures DigitsValue(s) == n
  {
    if n < 10 then [DigitChar(n)]
    else
      var p := NatToString(n / 10);
      var s := p + [DigitChar(n % 10)];
      assert s[..|s| - 1] == p;
      s
  }

  /** `String(n)` for an integer. */
  function Show(n: int): (s: string)
    ensures |s| >= 1 && IsTrimmed(s)
    ensures forall k :: 0 <= k < |s| ==> s[k] == '-' || IsDigit(s[k])
  {
    if n < 0 then "-" + NatToString(-n) else NatToString(n)
  }

  /** Length of the run of digits at the start of `s`. */
  function DigitRun(s: string): (n: nat)
    ensures n <= |s| && AllDigits(s[..n])
    ensures n < |s| ==> !IsDigit(s[n])
  {
    if s != [] && IsDigit(s[0]) then
      var n := 1 + DigitRun(s[1..]);
      assert forall k :: 1 <= k < n ==> s[..n][k] == s[1..][..n - 1][k - 1];
      n
    else 0
  }

  /**
   * `parseInt(s)` in base ten: leading white space is skipped, then an
   * optional sign and the run of digits that follows; whatever comes after
   * the digits is ignored. No digit at all is NaN (None).
   */
  function ParseInt(s: string): (r: Option<int>)
  {
    var t := TrimStart(s);
    var signed := |t| >= 1 && (t[0] == '-' || t[0] == '+');
    var u := if signed then t[1..] else t;
    var n := DigitRun(u);
    if n == 0 then None
    else if signed && t[0] == '-' then Some(0 - DigitsValue(u[..n]) as int)
    else Some(DigitsValue(u[..n]))
  }

  /** A run of digits followed by a non-digit stops at the non-digit. */
  lemma {:induction false} DigitRunOf(d: string, rest: string)
    requires AllDigits(d)
    requires rest == [] || !IsDigit(rest[0])
    ensures DigitRun(d + rest) == |d|
    decreases |d|
  {
    if d != [] {
      assert (d + rest)[1..] == d[1..] + rest;
      DigitRunOf(d[1..], rest);
    }
  }

  /**
   * Printing a number and parsing it back gives the number, also when
   * other text follows that does not start with a digit (`parseInt("100yen")`
   * is 100).
   */
  lemma ParseShowThen(n: int, rest: string)
    requires rest == [] || !IsDigit(rest[0])
    ensures ParseInt(Show(n) + rest) == Some(n)
  {
    if n < 0 {
      ParseNegativeThen(n, rest);
    } else {
      ParseNaturalThen(n, rest);
    }
  }

  /** A natural number printed and followed by a non-digit parses as itself. */
  lemma ParseNaturalThen(n: int, rest: string)
    requires n >= 0 && (rest == [] || !IsDigit(rest[0]))
    ensures ParseInt(Show(n) + rest) == Some(n)
  {
    var t := NatToString(n);
    assert Show(n) == t;
    NoLeadingSpace(t + rest);
    DigitsThen(t, rest);
  }

  /** A negative number printed and followed by a non-digit parses as itself. */
  lemma ParseNegativeThen(n: int, rest: string)
    requires n < 0 && (rest == [] || !IsDigit(rest[0]))
    ensures ParseInt(Show(n) + rest) == Some(n)
  {
    var t := NatToString(-n);
    var s := Show(n) + rest;
    assert s[0] == '-' && s[1..] == t + rest;
    NoLeadingSpace(s);
    DigitsThen(t, rest);
  }

  /** A string that does not start with white space is its own `TrimStart`. */
  lemma NoLeadingSpace(s: string)
    requires s != [] && !IsSpace(s[0])
    ensures TrimStart(s) == s
  {
  }

  /** Digits followed by a non-digit: the run of digits is exactly those digits. */
  lemma DigitsThen(t: string, rest: string)
    requires AllDigits(t) && (rest == [] || !IsDigit(rest[0]))
    ensures DigitRun(t + rest) == |t| && (t + rest)[..|t|] == t
  {
    DigitRunOf(t, rest);
  }

  /** Printing a number and parsing it back gives the number. */
  lemma ParseShow(n: int)
    ensures ParseInt(Show(n)) == Some(n)
  {
    ParseShowThen(n, []);
    assert Show(n) + [] == Show(n);
  }

  /** Element-wise `String(n)`. */
  function ShowAll(ns: seq<int>): (r: seq<string>)
    ensures |r| == |ns|
    ensures forall k :: 0 <= k < |ns| ==> r[k] == Show(ns[k])
  {
    if ns == [] then [] else [Show(ns[0])] + ShowAll(ns[1..])
  }

  // ---------------------------------------------------------------
  // Case-insensitive search
  // ---------------------------------------------------------------

  /** One character lowercased: an ASCII capital becomes its small letter, anything else is kept. */
  function LowerChar(c: char): (r: char)
    ensures 'A' <= c <= 'Z' ==> 'a' <= r <= 'z' && r as int == c as int + 32
    ensures !('A' <= c <= 'Z') ==> r == c
  {
    if 'A' <= c <= 'Z' then (c as int + 32) as char else c
  }

  /** `toLowerCase` on ASCII letters; other characters are kept. */
  function ToLower(s: string): (r: string)
    ensures |r| == |s|
    ensures forall k :: 0 <= k < |s| ==> r[k] == LowerChar(s[k])
  {
    if s == [] then [] else
      assert forall k :: 1 <= k < |s| ==> s[k] == s[1..][k - 1];
      [LowerChar(s[0])] + ToLower(s[1..])
  }

  predicate IsPrefix(p: string, s: string) {
    |p| <= |s| && s[..|p|] == p
  }

  /** `s.includes(t)`: `t` occurs in `s` at some position. */
  predicate Contains(s: string, t: string)
    decreases |s|
  {
    IsPrefix(t, s) || (|s| > 0 && Contains(s[1..], t))
  }

  predicate OccursAt(s: string, t: string, i: int) {
    0 <= i <= |s| - |t| && s[i..i + |t|] == t
  }

  /** Contains means an occurrence at some index, both ways. */
  lemma {:induction false} ContainsAt(s: string, t: string)
    ensures Contains(s, t) <==> exists i :: OccursAt(s, t, i)
    decreases |s|
  {
    if |s| > 0 {
      ContainsAt(s[1..], t);
      if exists i :: OccursAt(s, t, i) {
        var i :| OccursAt(s, t, i);
        if i > 0 {
          assert OccursAt(s[1..], t, i - 1);
        }
      }
      if Contains(s[1..], t) && !IsPrefix(t, s) {
        var i :| OccursAt(s[1..], t, i);
        assert OccursAt(s, t, i + 1);
      }
    } else if IsPrefix(t, s) {
      assert OccursAt(s, t, 0);
    }
    if IsPrefix(t, s) {
      assert OccursAt(s, t, 0);
    }
  }

  /** Every string includes the empty string. */
  lemma ContainsEmpty(s: string)
    ensures Contains(s, "")
  {
  }
}

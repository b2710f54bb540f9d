/** The Python built-ins on `str` that both plan checkers rely on
    (`startswith`, `find`, `split`, `strip`, `int`), and the exceptions
    they can raise. Strings are sequences of code points, as in Python 3. */
module Py {

  datatype Option<+T> = None | Some(value: T)

  /** A Python exception that the modelled code can raise. */
  datatype Error =
    | ValueError          // int() or strptime() on malformed text
    | IndexError          // `s.split(sep)[1]` when `sep` does not occur
    | KeyError(key: string) // a dictionary lookup of a missing key

  /** The value of a Python expression that either returns or raises. */
  datatype Result<+T> = Ok(value: T) | Err(error: Error)

  /** The characters for which `c.isspace()` holds: the ones Python's
      argument-less `strip()` removes. */
  const Whitespace: set<char> := {
    ' ', '\t', '\n', '\U{0b}', '\U{0c}', '\r', '\U{1c}', '\U{1d}', '\U{1e}', '\U{1f}',
    '\U{85}', '\U{a0}', '\U{1680}', '\U{2000}', '\U{2001}', '\U{2002}', '\U{2003}',
    '\U{2004}', '\U{2005}', '\U{2006}', '\U{2007}', '\U{2008}', '\U{2009}', '\U{200a}',
    '\U{2028}', '\U{2029}', '\U{202f}', '\U{205f}', '\U{3000}'
  }

  /** `c.isspace()`. */
  predicate IsSpace(c: char) {
    c in Whitespace
  }

  predicate IsDigit(c: char) {
    '0' <= c <= '9'
  }

  /** `s.startswith(p)`. */
  predicate StartsWith(s: string, p: string) {
    |p| <= |s| && s[..|p|] == p
  }

  /** `sep` occurs in `s` starting at position `i`. */
  predicate OccursAt(s: string, sep: string, i: nat) {
    i + |sep| <= |s| && s[i..i + |sep|] == sep
  }

  /** `s.find(sep, i)`: the first occurrence of `sep` at or after `i`, or -1. */
  function FindFrom(s: string, sep: string, i: nat): (r: int)
    requires sep != [] && i <= |s|
    ensures r == -1 || (i <= r && OccursAt(s, sep, r))
    ensures forall j: nat :: i <= j && (r == -1 || j < r) ==> !OccursAt(s, sep, j)
    decreases |s| - i
  {
    if i + |sep| > |s| then -1
    else if s[i..i + |sep|] == sep then i
    else FindFrom(s, sep, i + 1)
  }

  /** `s.find(sep)`; `sep in s` is `Find(s, sep) >= 0`. */
  function Find(s: string, sep: string): (r: int)
    requires sep != []
    ensures r == -1 || (0 <= r && OccursAt(s, sep, r))
    ensures forall j: nat :: r == -1 || j < r ==> !OccursAt(s, sep, j)
  {
    FindFrom(s, sep, 0)
  }

  /** `find` reports the first position whose text is `sep`, once no earlier
      position even starts with `sep`'s first character. */
  lemma {:induction false} FindFromAt(s: string, sep: string, i: nat, k: nat)
    requires sep != [] && i <= k && OccursAt(s, sep, k)
    requires forall j :: i <= j < k ==> s[j] != sep[0]
    ensures FindFrom(s, sep, i) == k
    decreases k - i
  {
    if i < k {
      assert s[i..i + |sep|][0] == s[i];
      FindFromAt(s, sep, i + 1, k);
    }
  }

  /** `find` reports `k` when `sep` occurs there and nowhere before. */
  lemma FindFirst(s: string, sep: string, k: nat)
    requires sep != [] && OccursAt(s, sep, k)
    requires forall j :: 0 <= j < k ==> !OccursAt(s, sep, j)
    ensures Find(s, sep) == k
  {
  }

  /** Text appended after the first occurrence of `sep` does not move it. */
  lemma {:induction false} FindPrefixed(x: string, sep: string, rest: string)
    requires sep != [] && Find(x + sep, sep) == |x|
    ensures Find(x + sep + rest, sep) == |x|
  {
    var u := x + sep;
    var s := u + rest;
    assert s[..|u|] == u;
    assert s[|x|..|u|] == sep;
    forall j | 0 <= j < |x|
      ensures !OccursAt(s, sep, j)
    {
      assert s[j..j + |sep|] == u[j..j + |sep|];
      assert !OccursAt(u, sep, j);
    }
    FindFirst(s, sep, |x|);
  }

  /** `(x + sep + rest).split(sep)[0]` is `x` when `sep` first occurs after `x`. */
  lemma {:induction false} HeadBefore(x: string, sep: string, rest: string)
    requires sep != [] && Find(x + sep, sep) == |x|
    ensures SplitHead(x + sep + rest, sep) == x
  {
    FindPrefixed(x, sep, rest);
    assert (x + sep + rest)[..|x|] == x;
  }

  /** `(pre + sep + tail).split(sep)[1]` is `tail` when `sep` first occurs
      after `pre` and not again. */
  lemma {:induction false} SecondAfter(pre: string, sep: string, tail: string)
    requires sep != [] && Find(pre + sep, sep) == |pre| && Find(tail, sep) == -1
    ensures SplitSecond(pre + sep + tail, sep) == Ok(tail)
  {
    FindPrefixed(pre, sep, tail);
    assert (pre + sep + tail)[|pre| + |sep|..] == tail;
  }

  /** A separator whose first character does not occur is not found. */
  lemma FindAbsent(s: string, sep: string)
    requires sep != [] && sep[0] !in s
    ensures Find(s, sep) == -1
  {
  }

  /** `s.split(sep)[0]`: everything before the first `sep`, or all of `s`. */
  function SplitHead(s: string, sep: string): (r: string)
    requires sep != []
    ensures StartsWith(s, r)
    ensures r == s <==> Find(s, sep) == -1
    ensures forall j: nat :: !OccursAt(r, sep, j)
  {
    var k := Find(s, sep);
    if k < 0 then s
    else
      var r := s[..k];
      assert forall j: nat :: OccursAt(r, sep, j) ==> OccursAt(s, sep, j) by {
        forall j: nat | OccursAt(r, sep, j) ensures OccursAt(s, sep, j) {
          assert s[j..j + |sep|] == r[j..j + |sep|];
        }
      }
      r
  }

  /** `s.split(sep)[1]`: the text between the first and the second `sep`
      (or the end); raises IndexError when `sep` does not occur. */
  function SplitSecond(s: string, sep: string): (r: Result<string>)
    requires sep != []
    ensures r.Err? <==> Find(s, sep) == -1
    ensures r.Err? ==> r.error == IndexError
    ensures r.Ok? ==> forall j: nat :: !OccursAt(r.value, sep, j)
    ensures r.Ok? ==> StartsWith(s[Find(s, sep) + |sep|..], r.value)
  {
    var k := Find(s, sep);
    if k < 0 then Err(IndexError) else Ok(SplitHead(s[k + |sep|..], sep))
  }

  /** `s.split(c)` for a one-character separator: the maximal pieces between
      separators, in order, empty pieces included. */
  function Split(s: string, c: char): (r: seq<string>)
    ensures |r| >= 1
    ensures forall k :: 0 <= k < |r| ==> c !in r[k]
    decreases |s|
  {
    if s == [] then [[]]
    else
      var rest := Split(s[1..], c);
      if s[0] == c then [[]] + rest else [[s[0]] + rest[0]] + rest[1..]
  }

  /** `c.join(parts)`: the inverse of `Split`. */
  function Join(parts: seq<string>, c: char): (s: string)
    requires |parts| >= 1
    decreases |parts|
  {
    if |parts| == 1 then parts[0] else parts[0] + [c] + Join(parts[1..], c)
  }

  /** Splitting and re-joining gives the text back. */
  lemma {:induction false} JoinSplit(s: string, c: char)
    ensures Join(Split(s, c), c) == s
    decreases |s|
  {
    if s != [] {
      JoinSplit(s[1..], c);
      var rest := Split(s[1..], c);
      if s[0] != c {
        if |rest| == 1 {
          assert Join(Split(s, c), c) == [s[0]] + rest[0];
        } else {
          assert Join(Split(s, c), c) == [s[0]] + rest[0] + [c] + Join(rest[1..], c);
        }
        assert s == [s[0]] + s[1..];
      } else {
        assert s == [c] + s[1..];
      }
    }
  }

  /** Joining pieces that hold no separator and splitting again gives the
      pieces back, so `Split` loses nothing. */
  lemma {:induction false} SplitJoin(parts: seq<string>, c: char)
    requires |parts| >= 1
    requires forall k :: 0 <= k < |parts| ==> c !in parts[k]
    ensures Split(Join(parts, c), c) == parts
    decreases |parts|, |parts[0]|
  {
    var p := parts[0];
    if p == [] {
      if |parts| > 1 {
        SplitJoin(parts[1..], c);
        assert Join(parts, c) == [c] + Join(parts[1..], c);
        assert ([c] + Join(parts[1..], c))[1..] == Join(parts[1..], c);
        assert parts == [[]] + parts[1..];
      }
    } else {
      var tail := [p[1..]] + parts[1..];
      assert tail[1..] == parts[1..];
      SplitJoin(tail, c);
      var s := Join(parts, c);
      if |parts| == 1 {
        assert s == [p[0]] + Join(tail, c);
      } else {
        assert s == [p[0]] + Join(tail, c);
      }
      assert s[1..] == Join(tail, c);
      assert s[0] == p[0] && p[0] != c;
      assert [p[0]] + p[1..] == p;
      assert parts == [p] + parts[1..];
    }
  }

  /** Appending four pieces one by one appends their concatenation. */
  lemma ConcatRegroup<T>(s: seq<T>, a: seq<T>, b: seq<T>, c: seq<T>, d: seq<T>)
    ensures s + a + b + c + d == s + (a + b + c + d)
  {
  }

  /** `s.strip()`: `s` without its leading and trailing whitespace; the
      result neither starts nor ends with whitespace. */
  function Strip(s: string): (r: string)
    ensures |r| <= |s|
    ensures r == [] || (!IsSpace(r[0]) && !IsSpace(r[|r| - 1]))
    decreases |s|
  {
    if s != [] && IsSpace(s[0]) then Strip(s[1..])
    else if s != [] && IsSpace(s[|s| - 1]) then Strip(s[..|s| - 1])
    else s
  }

  /** `Strip` keeps nothing exactly when its argument is all whitespace. */
  lemma {:induction false} StripEmpty(s: string)
    ensures Strip(s) == [] <==> forall k :: 0 <= k < |s| ==> IsSpace(s[k])
    decreases |s|
  {
    if s != [] && IsSpace(s[0]) {
      StripEmpty(s[1..]);
      assert forall k :: 1 <= k < |s| ==> s[k] == s[1..][k - 1];
    } else if s != [] && IsSpace(s[|s| - 1]) {
      StripEmpty(s[..|s| - 1]);
      assert forall k :: 0 <= k < |s| - 1 ==> s[k] == s[..|s| - 1][k];
    }
  }

  /** Whatever `Strip` keeps was already in its argument. */
  lemma {:induction false} StripKeeps(s: string, c: char)
    requires c in Strip(s)
    ensures c in s
    decreases |s|
  {
    if s != [] && IsSpace(s[0]) {
      StripKeeps(s[1..], c);
    } else if s != [] && IsSpace(s[|s| - 1]) {
      StripKeeps(s[..|s| - 1], c);
    }
  }

  /** Stripping twice strips nothing more. */
  lemma StripIdempotent(s: string)
    ensures Strip(Strip(s)) == Strip(s)
  {
  }

  /** The decimal value of a non-empty run of ASCII digits. */
  function DigitsValue(ds: string): (n: nat)
    requires forall k :: 0 <= k < |ds| ==> IsDigit(ds[k])
    decreases |ds|
  {
    if ds == [] then 0
    else
      var last := ds[|ds| - 1];
      assert IsDigit(last);
      10 * DigitsValue(ds[..|ds| - 1]) + (last as int - '0' as int)
  }

  /** `int(s)` on a `str`: surrounding whitespace is ignored, then the
      text is read by `ReadInt`; anything else raises ValueError. */
  function ParseInt(s: string): (r: Result<int>)
    ensures r.Err? ==> r.error == ValueError
    ensures r.Ok? ==> Strip(s) != []
  {
    ReadInt(Strip(s))
  }

  /** What `int()` accepts once whitespace is stripped: an optional sign and
      one or more ASCII digits. */
  function ReadInt(t: string): (r: Result<int>)
    ensures r.Err? ==> r.error == ValueError
    ensures r.Ok? ==> t != []
  {
    var signed := |t| > 0 && (t[0] == '-' || t[0] == '+');
    var ds := if signed then t[1..] else t;
    if ds != [] && forall k :: 0 <= k < |ds| ==> IsDigit(ds[k]) then
      var v: int := DigitsValue(ds);
      Ok(if signed && t[0] == '-' then -v else v)
    else
      Err(ValueError)
  }

  /** The value of two digits: ten times the first plus the second. */
  lemma DigitPairValue(ds: string)
    requires |ds| == 2 && IsDigit(ds[0]) && IsDigit(ds[1])
    ensures DigitsValue(ds) == 10 * (ds[0] as int - '0' as int) + (ds[1] as int - '0' as int)
  {
    var first := ds[..1];
    assert first[..0] == [];
    assert DigitsValue(first) == 10 * DigitsValue([]) + (ds[0] as int - '0' as int);
    assert ds[..|ds| - 1] == first;
  }

  /** `str(n)` for a natural number: its decimal digits, most significant first. */
  function Decimal(n: nat): (ds: string)
    ensures ds != [] && forall k :: 0 <= k < |ds| ==> IsDigit(ds[k])
    decreases n
  {
    var d := [('0' as int + n % 10) as char];
    if n < 10 then d else Decimal(n / 10) + d
  }

  /** Digits are read back to the number they print. */
  lemma {:induction false} DecimalValue(n: nat)
    ensures DigitsValue(Decimal(n)) == n
    decreases n
  {
    var ds := Decimal(n);
    if n >= 10 {
      DecimalValue(n / 10);
      assert ds[..|ds| - 1] == Decimal(n / 10);
    }
  }

  /** Stripping a string that neither starts nor ends with whitespace keeps it. */
  lemma StripUnpadded(s: string)
    requires s == [] || (!IsSpace(s[0]) && !IsSpace(s[|s| - 1]))
    ensures Strip(s) == s
  {
  }

  /** `int()` reads a decimal number, with an optional minus sign and with
      whitespace around it, as that number. */
  lemma ParseIntDecimal(n: nat, negative: bool, before: string, after: string)
    requires forall k :: 0 <= k < |before| ==> IsSpace(before[k])
    requires forall k :: 0 <= k < |after| ==> IsSpace(after[k])
    ensures ParseInt(before + (if negative then "-" else "") + Decimal(n) + after) == Ok(if negative then -(n as int) else n)
  {
    var ds := Decimal(n);
    var core := (if negative then "-" else "") + ds;
    assert core[|core| - 1] == ds[|ds| - 1];
    DigitNotSpace(ds[|ds| - 1]);
    if negative {
      MinusNotSpace();
    } else {
      assert core == ds;
      DigitNotSpace(ds[0]);
    }
    assert before + (if negative then "-" else "") + ds + after == before + core + after;
    StripPadded(before, core, after);
    ReadDecimal(n);
  }

  /** A digit is not whitespace. */
  lemma DigitNotSpace(c: char)
    requires IsDigit(c)
    ensures !IsSpace(c)
  {
  }

  /** A minus sign is not whitespace. */
  lemma MinusNotSpace()
    ensures !IsSpace('-')
  {
  }

  /** The digits of a number, alone or after a minus sign, are read as the
      number or its negation. */
  lemma ReadDecimal(n: nat)
    ensures ReadInt(Decimal(n)) == Ok(n)
    ensures ReadInt("-" + Decimal(n)) == Ok(-(n as int))
  {
    var ds := Decimal(n);
    DecimalValue(n);
    assert IsDigit(ds[0]);
    assert ("-" + ds)[1..] == ds;
  }

  /** Whitespace added around a string that neither starts nor ends with
      whitespace is what `Strip` removes. */
  lemma {:induction false} StripPadded(before: string, core: string, after: string)
    requires core != [] && !IsSpace(core[0]) && !IsSpace(core[|core| - 1])
    requires forall k :: 0 <= k < |before| ==> IsSpace(before[k])
    requires forall k :: 0 <= k < |after| ==> IsSpace(after[k])
    ensures Strip(before + core + after) == core
    decreases |before| + |after|
  {
    var s := before + core + after;
    if before != [] {
      assert s[0] == before[0];
      assert s[1..] == before[1..] + core + after;
      StripPadded(before[1..], core, after);
    } else if after != [] {
      assert s == core + after;
      assert s[|s| - 1] == after[|after| - 1];
      assert s[..|s| - 1] == [] + core + after[..|after| - 1];
      StripPadded([], core, after[..|after| - 1]);
    } else {
      assert s == core;
      StripUnpadded(core);
    }
  }
}

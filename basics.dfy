/** Optional values and the handful of Python string operations the
    integration relies on: `str.lower`, `p in s`, `str.strip`,
    `str.split`, `str.join`, `str(int)` and `int(str)`. */
module Basics {

  datatype Option<+T> = None | Some(value: T) {
    /** `value if present else default` */
    function GetOr(default: T): T {
      match this
      case Some(v) => v
      case None => default
    }
  }

  /** Python truthiness of an optional text column or field: present and non-empty. */
  predicate Truthy(s: Option<string>) {
    s.Some? && s.value != ""
  }

  // ---------------------------------------------------------------------
  // Case folding

  function LowerChar(c: char): char {
    if 'A' <= c <= 'Z' then (c as int + 32) as char else c
  }

  /** `s.lower()`, folding the ASCII letters. */
  function Lower(s: string): (r: string)
    ensures |r| == |s|
    ensures forall i :: 0 <= i < |s| ==> r[i] == LowerChar(s[i])
  {
    seq(|s|, i requires 0 <= i < |s| => LowerChar(s[i]))
  }

  lemma LowerIdempotent(s: string)
    ensures Lower(Lower(s)) == Lower(s)
  {
  }

  // ---------------------------------------------------------------------
  // Substrings

  /** `p` occurs in `s` starting at index `j`. */
  predicate OccursAt(s: string, p: string, j: int) {
    0 <= j && j + |p| <= |s| && s[j..j + |p|] == p
  }

  /** Index of the first occurrence of `p` in `s`, if any. */
  function FindFirst(s: string, p: string): (r: Option<nat>)
    ensures r.Some? ==> OccursAt(s, p, r.value)
    ensures r.Some? ==> forall j :: 0 <= j < r.value ==> !OccursAt(s, p, j)
    ensures r.None? ==> forall j :: !OccursAt(s, p, j)
    decreases |s|
  {
    if |s| < |p| then None
    else if s[..|p|] == p then Some(0)
    else
      var rest := FindFirst(s[1..], p);
      assert forall j :: 1 <= j ==> (OccursAt(s, p, j) <==> OccursAt(s[1..], p, j - 1)) by {
        forall j | 1 <= j
          ensures OccursAt(s, p, j) <==> OccursAt(s[1..], p, j - 1)
        {
          OccursAtShift(s, p, j);
        }
      }
      match rest
      case None => None
      case Some(k) => Some(k + 1)
  }

  lemma OccursAtShift(s: string, p: string, j: int)
    requires |s| > 0 && 1 <= j
    ensures OccursAt(s, p, j) <==> OccursAt(s[1..], p, j - 1)
  {
    if j + |p| <= |s| {
      assert s[j..j + |p|] == s[1..][j - 1..j - 1 + |p|];
    }
  }

  /** Python's `p in s`. */
  predicate Contains(s: string, p: string) {
    FindFirst(s, p).Some?
  }

  /** `s.split(sep, 1)` when `sep in s`: the text before the first
      occurrence and the text after it; None when `sep` does not occur. */
  function SplitOnce(s: string, sep: string): (r: Option<(string, string)>)
    requires |sep| > 0
    ensures r.None? <==> !Contains(s, sep)
    ensures r.Some? ==> s == r.value.0 + sep + r.value.1
    ensures r.Some? ==> !Contains(r.value.0 + sep[..|sep| - 1], sep)
  {
    match FindFirst(s, sep)
    case None => None
    case Some(k) =>
      var before := s[..k];
      var after := s[k + |sep|..];
      assert s == before + sep + after by {
        assert s == s[..k] + s[k..k + |sep|] + s[k + |sep|..];
      }
      FirstOccurrenceIsAfter(s, sep, k);
      Some((before, after))
  }

  lemma FirstOccurrenceIsAfter(s: string, sep: string, k: nat)
    requires |sep| > 0 && OccursAt(s, sep, k)
    requires forall j :: 0 <= j < k ==> !OccursAt(s, sep, j)
    ensures !Contains(s[..k] + sep[..|sep| - 1], sep)
  {
    var u := s[..k] + sep[..|sep| - 1];
    assert sep[..|sep| - 1] == s[k..k + |sep| - 1] by {
      assert s[k..k + |sep|] == sep;
    }
    assert u == s[..k + |sep| - 1] by {
      assert s[..k + |sep| - 1] == s[..k] + s[k..k + |sep| - 1];
    }
    forall j | 0 <= j
      ensures !OccursAt(u, sep, j)
    {
      if j + |sep| <= |u| {
        assert u[j..j + |sep|] == s[j..j + |sep|];
        assert !OccursAt(s, sep, j);
      }
    }
  }

  /** A pattern missing at `j` from a prefix of `s` that spans that
      position is missing from `s` there too. */
  lemma NotOccursInLonger(s: string, u: string, p: string, j: nat)
    requires |u| <= |s| && (forall m :: 0 <= m < |u| ==> u[m] == s[m])
    requires j + |p| <= |u| && !OccursAt(u, p, j)
    ensures !OccursAt(s, p, j)
  {
    assert u[j..j + |p|] != p;
    var m :| 0 <= m < |p| && u[j..j + |p|][m] != p[m];
    assert s[j..j + |p|][m] == s[j + m] == u[j + m];
  }

  /** Splitting `a + sep + b` at its first `sep` gives back `a` and `b`
      when `a` followed by all but the last character of `sep` holds no `sep`. */
  lemma SplitOnceJoin(a: string, sep: string, b: string)
    requires |sep| > 0
    requires !Contains(a + sep[..|sep| - 1], sep)
    ensures SplitOnce(a + sep + b, sep) == Some((a, b))
  {
    var s := a + sep + b;
    var u := a + sep[..|sep| - 1];
    assert s[|a|..|a| + |sep|] == sep;
    assert OccursAt(s, sep, |a|);
    assert FindFirst(u, sep).None?;
    forall j | 0 <= j < |a|
      ensures !OccursAt(s, sep, j)
    {
      NotOccursInLonger(s, u, sep, j);
    }
    var k := FindFirst(s, sep).value;
    assert !(k < |a|);
    assert !(|a| < k);
    assert s[..k] == a;
    assert s[k + |sep|..] == b;
  }

  // ---------------------------------------------------------------------
  // Whitespace

  /** The characters for which Python's `str.isspace()` holds. */
  predicate IsSpace(c: char) {
    ('\t' <= c <= '\r') || ('\U{1C}' <= c <= ' ') || c == '\U{85}' || c == '\U{A0}' ||
    c == '\U{1680}' || ('\U{2000}' <= c <= '\U{200A}') || c == '\U{2028}' || c == '\U{2029}' ||
    c == '\U{202F}' || c == '\U{205F}' || c == '\U{3000}'
  }

  ghost predicate AllSpace(s: string) {
    forall i :: 0 <= i < |s| ==> IsSpace(s[i])
  }

  function LeadingSpace(s: string): (n: nat)
    ensures n <= |s| && AllSpace(s[..n]) && (n < |s| ==> !IsSpace(s[n]))
  {
    if s == [] || !IsSpace(s[0]) then 0
    else
      var n := 1 + LeadingSpace(s[1..]);
      assert forall i :: 1 <= i < n ==> s[..n][i] == s[1..][..n - 1][i - 1];
      n
  }

  function TrailingSpace(s: string): (n: nat)
    ensures n <= |s| && AllSpace(s[|s| - n..]) && (n < |s| ==> !IsSpace(s[|s| - n - 1]))
  {
    if s == [] || !IsSpace(s[|s| - 1]) then 0
    else
      var n := 1 + TrailingSpace(s[..|s| - 1]);
      n
  }

  /** `s.strip()`: `s` without its leading and trailing whitespace. */
  function Strip(s: string): (r: string)
    ensures |r| <= |s|
    ensures r != [] ==> !IsSpace(r[0]) && !IsSpace(r[|r| - 1])
  {
    var i := LeadingSpace(s);
    var rest := s[i..];
    var n := TrailingSpace(rest);
    var r := rest[..|rest| - n];
    assert r != [] ==> r[0] == s[i];
    r
  }

  /** What `strip()` removes is whitespace on either side of the result. */
  lemma StripRemovesOnlySpace(s: string)
    ensures var r := Strip(s);
            exists i :: 0 <= i <= |s| - |r| && s[i..i + |r|] == r && AllSpace(s[..i]) && AllSpace(s[i + |r|..])
  {
    var i := LeadingSpace(s);
    var rest := s[i..];
    var n := TrailingSpace(rest);
    var r := rest[..|rest| - n];
    assert Strip(s) == r;
    StripSlices(s, i, rest, n, r);
  }

  lemma StripSlices(s: string, i: nat, rest: string, n: nat, r: string)
    requires i <= |s| && AllSpace(s[..i]) && rest == s[i..]
    requires n <= |rest| && AllSpace(rest[|rest| - n..]) && r == rest[..|rest| - n]
    ensures 0 <= i <= |s| - |r| && s[i..i + |r|] == r && AllSpace(s[..i]) && AllSpace(s[i + |r|..])
  {
    assert s[i..i + |r|] == r;
    assert s[i + |r|..] == rest[|rest| - n..];
  }

  /** Text that `strip()` leaves alone: no whitespace at either end. */
  lemma StripUnpadded(s: string)
    requires s == [] || (!IsSpace(s[0]) && !IsSpace(s[|s| - 1]))
    ensures Strip(s) == s
  {
    assert LeadingSpace(s) == 0;
    assert s[0..] == s;
    if s != [] {
      assert TrailingSpace(s) == 0;
    }
  }

  // ---------------------------------------------------------------------
  // Splitting and joining on one separator character

  function IndexOf(s: string, c: char): (k: nat)
    ensures k <= |s| && c !in s[..k] && (k < |s| ==> s[k] == c)
  {
    if s == [] || s[0] == c then 0
    else
      var k := 1 + IndexOf(s[1..], c);
      assert s[..k] == [s[0]] + s[1..][..k - 1];
      k
  }

  /** `",".join(parts)`. */
  function Join(parts: seq<string>, sep: char): string {
    if parts == [] then ""
    else if |parts| == 1 then parts[0]
    else parts[0] + [sep] + Join(parts[1..], sep)
  }

  /** `s.split(sep)`: the maximal separator-free pieces, which joined with
      `sep` give back `s`. */
  function Split(s: string, sep: char): (parts: seq<string>)
    ensures |parts| >= 1
    ensures forall i :: 0 <= i < |parts| ==> sep !in parts[i]
    ensures Join(parts, sep) == s
    decreases |s|
  {
    var k := IndexOf(s, sep);
    if k == |s| then
      assert s[..k] == s;
      [s]
    else
      var rest := Split(s[k + 1..], sep);
      assert s == s[..k] + [sep] + s[k + 1..];
      [s[..k]] + rest
  }

  lemma {:induction false} SplitJoin(parts: seq<string>, sep: char)
    requires |parts| >= 1
    requires forall i :: 0 <= i < |parts| ==> sep !in parts[i]
    ensures Split(Join(parts, sep), sep) == parts
    decreases |parts|
  {
    var s := Join(parts, sep);
    if |parts| == 1 {
      assert s == parts[0];
      assert IndexOf(s, sep) == |s|;
    } else {
      var tail := Join(parts[1..], sep);
      assert s == parts[0] + [sep] + tail;
      assert IndexOf(s, sep) == |parts[0]| by {
        var k := IndexOf(s, sep);
        assert s[|parts[0]|] == sep;
        assert s[..|parts[0]|] == parts[0];
        assert forall i :: 0 <= i < |parts[0]| ==> s[i] != sep;
        assert forall i :: 0 <= i < k ==> s[i] != sep;
      }
      assert s[|parts[0]| + 1..] == tail;
      assert s[..|parts[0]|] == parts[0];
      SplitJoin(parts[1..], sep);
    }
  }

  // ---------------------------------------------------------------------
  // Decimal integers: `str(n)` and `int(s)`

  predicate IsDigit(c: char) {
    '0' <= c <= '9'
  }

  function DigitChar(d: nat): (c: char)
    requires d < 10
    ensures IsDigit(c) && (c as int) - ('0' as int) == d
  {
    (('0' as int) + d) as char
  }

  /** `str(n)` for a natural number: its decimal digits, no leading zero. */
  function NatToString(n: nat): (r: string)
    ensures |r| >= 1 && forall i :: 0 <= i < |r| ==> IsDigit(r[i])
  {
    if n < 10 then [DigitChar(n)] else NatToString(n / 10) + [DigitChar(n % 10)]
  }

  /** `str(i)`. */
  function IntToString(i: int): (r: string)
    ensures |r| >= 1 && (',' !in r) && !IsSpace(r[0]) && !IsSpace(r[|r| - 1])
  {
    var digits := if i < 0 then NatToString(-i) else NatToString(i);
    assert ',' !in digits by {
      forall k | 0 <= k < |digits| ensures digits[k] != ',' {
        assert IsDigit(digits[k]);
      }
    }
    assert !IsSpace(digits[0]) && !IsSpace(digits[|digits| - 1]);
    if i < 0 then "-" + digits else digits
  }

  /** `str(i)` is made of digits and a leading minus sign only. */
  lemma IntToStringChars(i: int)
    ensures forall k :: 0 <= k < |IntToString(i)| ==> IntToString(i)[k] == '-' || IsDigit(IntToString(i)[k])
  {
    var digits := if i < 0 then NatToString(-i) else NatToString(i);
    if i < 0 {
      assert IntToString(i) == "-" + digits;
    }
  }

  function DigitValue(c: char): nat
    requires IsDigit(c)
  {
    (c as int) - ('0' as int)
  }

  function DigitsValue(s: string): nat
    requires AllDigits(s)
  {
    if s == [] then 0 else 10 * DigitsValue(s[..|s| - 1]) + DigitValue(s[|s| - 1])
  }

  /** Every character of `s` is a decimal digit. */
  predicate AllDigits(s: string) {
    forall i :: 0 <= i < |s| ==> IsDigit(s[i])
  }

  /** `s` without its leading sign, if it has one. */
  function Unsigned(s: string): string
    requires s != []
  {
    if s[0] in "+-" then s[1..] else s
  }

  /** `int(s)` applied to already stripped text: an optional sign followed
      by one or more decimal digits, anything else is a ValueError (None). */
  function ParseInt(s: string): (r: Option<int>)
    ensures r.Some? ==> |s| >= 1
    ensures r.Some? <==> s != [] && Unsigned(s) != [] && AllDigits(Unsigned(s))
    ensures r.Some? ==> r.value == (if s[0] == '-' then -1 else 1) * DigitsValue(Unsigned(s))
    ensures r.Some? ==> (r.value < 0 ==> s[0] == '-')
  {
    if s == [] then None
    else
      var neg := s[0] == '-';
      var body := Unsigned(s);
      if body != [] && AllDigits(body) then
        var v: int := DigitsValue(body);
        Some(if neg then -v else v)
      else None
  }

  lemma {:induction false} NatToStringValue(n: nat)
    ensures DigitsValue(NatToString(n)) == n
  {
    if n >= 10 {
      var s := NatToString(n);
      assert s[..|s| - 1] == NatToString(n / 10);
      NatToStringValue(n / 10);
    }
  }

  /** `int(str(i)) == i` */
  lemma ParseIntToString(i: int)
    ensures ParseInt(IntToString(i)) == Some(i)
  {
    var n: nat := if i < 0 then -i else i;
    var d := NatToString(n);
    NatToStringValue(n);
    ParseDigits(d);
    if i < 0 {
      assert IntToString(i) == "-" + d;
    } else {
      assert IntToString(i) == d;
    }
  }

  /** Digits read back with and without a minus sign. */
  lemma ParseDigits(d: string)
    requires d != [] && AllDigits(d)
    ensures ParseInt(d) == Some(DigitsValue(d))
    ensures ParseInt("-" + d) == Some(-(DigitsValue(d) as int))
  {
    assert IsDigit(d[0]) && d[0] != '-' && d[0] != '+';
    var m := "-" + d;
    assert m[0] == '-' && m[1..] == d;
  }
}

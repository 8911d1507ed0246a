/** The pieces of Python's `str` behaviour the core relies on: whitespace, strip, lower,
    decimal rendering and parsing of integers, float literals and code-point ordering. */
module Text {
  import opened Wrappers

  /** Python's `str.isspace()`, which is also what `\s` matches in a `str` regular expression. */
  predicate IsSpace(c: char) {
    || c == ' ' || c == '\t' || c == '\n' || c == '\r' || c == '\U{000B}' || c == '\U{000C}'
    || ('\U{001C}' <= c <= '\U{001F}') || c == '\U{0085}' || c == '\U{00A0}' || c == '\U{1680}'
    || ('\U{2000}' <= c <= '\U{200A}') || c == '\U{2028}' || c == '\U{2029}' || c == '\U{202F}'
    || c == '\U{205F}' || c == '\U{3000}'
  }

  /** Neither the first nor the last character is whitespace. */
  predicate NoEdgeSpace(s: string) {
    s == [] || (!IsSpace(s[0]) && !IsSpace(s[|s| - 1]))
  }

  function StripLeft(s: string): (r: string)
    ensures |r| <= |s|
    ensures r == [] || !IsSpace(r[0])
  {
    if s != [] && IsSpace(s[0]) then StripLeft(s[1..]) else s
  }

  /** `StripLeft` keeps a suffix of its input. */
  lemma {:induction false} StripLeftSuffix(s: string)
    ensures StripLeft(s) == s[|s| - |StripLeft(s)|..]
    decreases |s|
  {
    if s != [] && IsSpace(s[0]) {
      StripLeftSuffix(s[1..]);
      assert s[1..][|s| - 1 - |StripLeft(s)|..] == s[|s| - |StripLeft(s)|..];
    }
  }

  /** What `StripLeft` removes is whitespace. */
  lemma {:induction false} StripLeftSpaces(s: string)
    ensures forall k :: 0 <= k < |s| - |StripLeft(s)| ==> IsSpace(s[k])
    decreases |s|
  {
    if s != [] && IsSpace(s[0]) {
      StripLeftSpaces(s[1..]);
      forall k | 1 <= k < |s| - |StripLeft(s)|
        ensures IsSpace(s[k])
      {
        assert s[k] == s[1..][k - 1];
      }
    }
  }

  function StripRight(s: string): (r: string)
    ensures |r| <= |s| && forall k :: 0 <= k < |r| ==> r[k] == s[k]
    ensures r == [] || !IsSpace(r[|r| - 1])
  {
    if s != [] && IsSpace(s[|s| - 1]) then StripRight(s[..|s| - 1]) else s
  }

  /** What `StripRight` removes is whitespace. */
  lemma {:induction false} StripRightSpaces(s: string)
    ensures forall k :: |StripRight(s)| <= k < |s| ==> IsSpace(s[k])
    decreases |s|
  {
    if s != [] && IsSpace(s[|s| - 1]) {
      StripRightSpaces(s[..|s| - 1]);
      forall k | |StripRight(s)| <= k < |s| - 1
        ensures IsSpace(s[k])
      {
        assert s[k] == s[..|s| - 1][k];
      }
    }
  }

  /** Python's `str.strip()` with no argument. */
  function Strip(s: string): (r: string)
    ensures NoEdgeSpace(r)
    ensures |r| <= |s|
  {
    StripEdges(s);
    StripRight(StripLeft(s))
  }

  /** What `Strip` keeps is one contiguous slice of its input, starting at `i`. */
  lemma {:induction false} StripSlice(s: string) returns (i: nat)
    ensures i + |Strip(s)| <= |s| && Strip(s) == s[i..i + |Strip(s)|]
    decreases |s|
  {
    if s != [] && IsSpace(s[0]) {
      var j := StripSlice(s[1..]);
      i := StripSliceOfTail(s, j);
    } else {
      i := 0;
      StripSliceUnspaced(s);
    }
  }

  lemma StripSliceOfTail(s: string, j: nat) returns (i: nat)
    requires s != [] && IsSpace(s[0])
    requires j + |Strip(s[1..])| <= |s[1..]| && Strip(s[1..]) == s[1..][j..j + |Strip(s[1..])|]
    ensures i + |Strip(s)| <= |s| && Strip(s) == s[i..i + |Strip(s)|]
  {
    assert StripLeft(s) == StripLeft(s[1..]);
    i := j + 1;
    assert s[1..][j..j + |Strip(s)|] == s[i..i + |Strip(s)|];
  }

  lemma StripSliceUnspaced(s: string)
    requires s == [] || !IsSpace(s[0])
    ensures Strip(s) == s[..|Strip(s)|]
  {
    assert StripLeft(s) == s;
    var r := StripRight(s);
    assert r == s[..|r|];
  }

  lemma StripEdges(s: string)
    ensures NoEdgeSpace(StripRight(StripLeft(s)))
  {
    var l := StripLeft(s);
    var r := StripRight(l);
    if r != [] {
      assert r[0] == l[0];
    }
  }

  lemma StripLeftNoSpace(s: string)
    requires s == [] || !IsSpace(s[0])
    ensures StripLeft(s) == s
  {
  }

  lemma StripRightNoSpace(s: string)
    requires s == [] || !IsSpace(s[|s| - 1])
    ensures StripRight(s) == s
  {
  }

  /** A string without whitespace at either end is left as it is by strip. */
  lemma StripOfTrimmed(s: string)
    requires NoEdgeSpace(s)
    ensures Strip(s) == s
  {
    StripLeftNoSpace(s);
    StripRightNoSpace(s);
  }

  /** Python's `str.rstrip(c)` for a single character. */
  function RStripChar(s: string, c: char): (r: string)
    ensures |r| <= |s| && r == s[..|r|]
    ensures r == [] || r[|r| - 1] != c
    ensures forall k :: |r| <= k < |s| ==> s[k] == c
  {
    if s != [] && s[|s| - 1] == c then RStripChar(s[..|s| - 1], c) else s
  }

  predicate IsUpperAscii(c: char) {
    'A' <= c <= 'Z'
  }

  function LowerChar(c: char): (r: char)
    ensures !IsUpperAscii(r)
    ensures !IsUpperAscii(c) ==> r == c
  {
    if IsUpperAscii(c) then (c as int + 32) as char else c
  }

  /** `str.lower()` restricted to ASCII letters. */
  function ToLower(s: string): (r: string)
    ensures |r| == |s|
    ensures forall k :: 0 <= k < |r| ==> r[k] == LowerChar(s[k])
  {
    if s == [] then [] else [LowerChar(s[0])] + ToLower(s[1..])
  }

  predicate StartsWith(s: string, prefix: string) {
    |prefix| <= |s| && s[..|prefix|] == prefix
  }

  predicate EndsWith(s: string, suffix: string) {
    |suffix| <= |s| && s[|s| - |suffix|..] == suffix
  }

  // ---------------------------------------------------------------------------
  // Integers in decimal
  // ---------------------------------------------------------------------------

  predicate IsDigit(c: char) {
    '0' <= c <= '9'
  }

  predicate AllDigits(s: string) {
    forall k :: 0 <= k < |s| ==> IsDigit(s[k])
  }

  function DigitChar(d: nat): (c: char)
    requires d < 10
    ensures IsDigit(c)
  {
    ('0' as int + d) as char
  }

  /** The value of a string of decimal digits. */
  function DigitsValue(s: string): nat
    requires AllDigits(s)
  {
    if s == [] then 0 else DigitsValue(s[..|s| - 1]) * 10 + (s[|s| - 1] as int - '0' as int)
  }

  function NatToDecimal(n: nat): (r: string)
    ensures |r| > 0 && AllDigits(r)
  {
    if n < 10 then [DigitChar(n)] else NatToDecimal(n / 10) + [DigitChar(n % 10)]
  }

  /** What Python's `str(i)` and f-string formatting print for an `int`. */
  function IntToDecimal(i: int): (r: string)
    ensures |r| > 0 && NoEdgeSpace(r)
  {
    if i < 0 then "-" + NatToDecimal(-i) else NatToDecimal(i)
  }

  /** One or more ASCII digits, read as a number. */
  function ParseDigits(d: string): Option<nat> {
    if |d| > 0 && AllDigits(d) then Some(DigitsValue(d)) else None
  }

  /** An optional sign followed by digits. */
  function ParseSigned(t: string): Option<int> {
    var signed := |t| > 0 && (t[0] == '-' || t[0] == '+');
    var digits := if signed then t[1..] else t;
    match ParseDigits(digits)
    case Some(v) => Some(if signed && t[0] == '-' then -(v as int) else v as int)
    case None => None
  }

  /** Python's `int(s)` on a string: surrounding whitespace, an optional sign, one or more
      ASCII digits; `None` where Python raises `ValueError`. */
  function ParseInt(s: string): Option<int> {
    ParseSigned(Strip(s))
  }

  lemma {:induction false} NatToDecimalValue(n: nat)
    ensures DigitsValue(NatToDecimal(n)) == n
  {
    if n >= 10 {
      NatToDecimalValue(n / 10);
      var s := NatToDecimal(n);
      assert s[..|s| - 1] == NatToDecimal(n / 10);
    }
  }

  lemma ParseIntOfDigits(d: string)
    requires |d| > 0 && AllDigits(d)
    ensures ParseInt(d) == Some(DigitsValue(d))
  {
    DigitNotSpace(d[0]);
    DigitNotSpace(d[|d| - 1]);
    StripOfTrimmed(d);
    assert ParseSigned(d) == ParseDigits(d) by {
      assert d[0] != '-' && d[0] != '+';
    }
  }

  lemma DigitNotSpace(c: char)
    requires IsDigit(c)
    ensures !IsSpace(c)
  {
  }

  lemma ParseSignedOfMinus(t: string, v: nat)
    requires |t| > 1 && t[0] == '-' && ParseDigits(t[1..]) == Some(v)
    ensures ParseSigned(t) == Some(-(v as int))
  {
  }

  /** Decimal rendering and integer parsing are inverse: `int(str(i)) == i`. */
  lemma {:induction false} ParseIntOfDecimal(i: int)
    ensures ParseInt(IntToDecimal(i)) == Some(i)
  {
    var d := NatToDecimal(if i < 0 then -i else i);
    NatToDecimalValue(if i < 0 then -i else i);
    if i < 0 {
      ParseIntOfNegated(IntToDecimal(i), d);
    } else {
      ParseIntOfDigits(d);
    }
  }

  /** A minus sign followed by digits reads as the negated digits. */
  lemma ParseIntOfNegated(t: string, d: string)
    requires |d| > 0 && AllDigits(d)
    requires t == "-" + d
    ensures ParseInt(t) == Some(-(DigitsValue(d) as int))
  {
    assert NoEdgeSpace(t) by {
      assert t[0] == '-';
      assert t[|t| - 1] == d[|d| - 1] && IsDigit(d[|d| - 1]);
    }
    assert ParseDigits(t[1..]) == Some(DigitsValue(d)) by {
      assert t[1..] == d;
    }
    ParseSignedOfMinus(t, DigitsValue(d));
    StripOfTrimmed(t);
  }


  // ---------------------------------------------------------------------------
  // Float literals
  // ---------------------------------------------------------------------------

  /** Index just after the run of digits that starts at `i`. */
  function DigitRunEnd(s: string, i: nat): (j: nat)
    requires i <= |s|
    ensures i <= j <= |s|
    ensures forall k :: i <= k < j ==> IsDigit(s[k])
    ensures j == |s| || !IsDigit(s[j])
    decreases |s| - i
  {
    if i < |s| && IsDigit(s[i]) then DigitRunEnd(s, i + 1) else i
  }

  /** digits [ '.' digits ] | '.' digits, then an optional exponent. */
  predicate IsDecimalLiteral(u: string) {
    var a := DigitRunEnd(u, 0);
    var b := if a < |u| && u[a] == '.' then DigitRunEnd(u, a + 1) else a;
    var fracDigits := if a < |u| && u[a] == '.' then b - (a + 1) else 0;
    && (a > 0 || fracDigits > 0)
    && (b == |u|
        || (&& (u[b] == 'e' || u[b] == 'E')
            && var c := if b + 1 < |u| && (u[b + 1] == '+' || u[b + 1] == '-') then b + 2 else b + 1;
            && c <= |u|
            && var d := DigitRunEnd(u, c);
            && d > c && d == |u|))
  }

  /** The strings Python's `float()` accepts, ignoring `_` digit separators. */
  predicate IsFloatLiteral(s: string) {
    var t := Strip(s);
    var u := if |t| > 0 && (t[0] == '+' || t[0] == '-') then t[1..] else t;
    var l := ToLower(u);
    l == "inf" || l == "infinity" || l == "nan" || IsDecimalLiteral(u)
  }

  // ---------------------------------------------------------------------------
  // Code-point order on strings (Python's `<` on `str`, used by `sorted`)
  // ---------------------------------------------------------------------------

  predicate StrLt(a: string, b: string)
    decreases |a|
  {
    if |a| == 0 then |b| > 0
    else if |b| == 0 then false
    else if a[0] != b[0] then a[0] < b[0]
    else StrLt(a[1..], b[1..])
  }

  lemma {:induction false} StrLtIrreflexive(a: string)
    ensures !StrLt(a, a)
    decreases |a|
  {
    if |a| > 0 {
      StrLtIrreflexive(a[1..]);
    }
  }

  lemma {:induction false} StrLtTransitive(a: string, b: string, c: string)
    requires StrLt(a, b) && StrLt(b, c)
    ensures StrLt(a, c)
    decreases |a|
  {
    if |a| > 0 && a[0] == b[0] && b[0] == c[0] {
      StrLtTransitive(a[1..], b[1..], c[1..]);
    }
  }

  lemma {:induction false} StrLtTotal(a: string, b: string)
    requires a != b
    ensures StrLt(a, b) || StrLt(b, a)
    decreases |a|
  {
    if |a| > 0 && |b| > 0 && a[0] == b[0] {
      assert a == [a[0]] + a[1..] && b == [b[0]] + b[1..];
      StrLtTotal(a[1..], b[1..]);
    }
  }

  lemma {:induction false} StrLtAsymmetric(a: string, b: string)
    requires StrLt(a, b)
    ensures !StrLt(b, a)
  {
    if StrLt(b, a) {
      StrLtTransitive(a, b, a);
      StrLtIrreflexive(a);
    }
  }
}

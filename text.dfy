/**
 * The two string/number conversions the viewer relies on: rendering an
 * integer in decimal (a JavaScript template literal `${n}`, `String(n)`,
 * PHP's `%d`) and reading one back with JavaScript's `parseInt(s)`.
 */
module JsText {
  import opened Opt

  /** `\s` of a JavaScript regular expression, which is also the set `parseInt` skips:
      WhiteSpace and LineTerminator code points of ECMAScript. */
  predicate IsWhitespace(c: char) {
    c == '\t' || c == '\n' || c == '\U{B}' || c == '\U{C}' || c == '\r' || c == ' '
    || c == '\U{A0}' || c == '\U{1680}' || ('\U{2000}' <= c <= '\U{200A}')
    || c == '\U{2028}' || c == '\U{2029}' || c == '\U{202F}' || c == '\U{205F}'
    || c == '\U{3000}' || c == '\U{FEFF}'
  }

  /** `\d`: the ASCII digits only. */
  predicate IsDigit(c: char) {
    '0' <= c <= '9'
  }

  predicate AllDigits(s: string) {
    forall i | 0 <= i < |s| :: IsDigit(s[i])
  }

  function DigitChar(d: nat): (c: char)
    requires d < 10
    ensures IsDigit(c) && c as int - '0' as int == d
  {
    ('0' as int + d) as char
  }

  /** Decimal digits of a natural number, most significant first, no leading zeros. */
  function NatToDecimal(n: nat): (s: string)
    ensures |s| >= 1 && AllDigits(s)
    ensures s[0] == '0' ==> n == 0
  {
    if n < 10 then [DigitChar(n)] else NatToDecimal(n / 10) + [DigitChar(n % 10)]
  }

  /** How JavaScript and PHP print an integer: a minus sign for negatives, then the digits. */
  function IntToDecimal(n: int): (s: string)
    ensures |s| >= 1
    ensures n >= 0 <==> IsDigit(s[0])
    ensures forall i | 0 <= i < |s| :: IsDigit(s[i]) || (i == 0 && s[i] == '-')
  {
    if n < 0 then "-" + NatToDecimal(-n) else NatToDecimal(n)
  }

  /** The value of a string of decimal digits (0 for the empty string). */
  function DigitsValue(d: string): nat
    requires AllDigits(d)
  {
    if d == [] then 0 else DigitsValue(d[..|d| - 1]) * 10 + (d[|d| - 1] as int - '0' as int)
  }

  /** Drops the leading whitespace, as `parseInt` does before anything else. */
  function SkipWhitespace(s: string): (r: string)
    ensures |r| <= |s| && r == s[|s| - |r|..]
    ensures r == [] || !IsWhitespace(r[0])
    ensures forall i | 0 <= i < |s| - |r| :: IsWhitespace(s[i])
  {
    if s != [] && IsWhitespace(s[0]) then SkipWhitespace(s[1..]) else s
  }

  /** Length of the longest prefix of `s` made of digits. */
  function DigitRun(s: string): (k: nat)
    ensures k <= |s| && AllDigits(s[..k])
    ensures k == |s| || !IsDigit(s[k])
  {
    if s != [] && IsDigit(s[0]) then 1 + DigitRun(s[1..]) else 0
  }

  /** `parseInt(s)` with no radix on a decimal string: skip whitespace, read an optional
      sign, then the longest run of digits; `None` stands for `NaN` (no digit there). */
  function ParseInt(s: string): (r: Option<int>)
    ensures (forall i | 0 <= i < |s| :: !IsDigit(s[i])) ==> r == None
  {
    var t := SkipWhitespace(s);
    var negative := t != [] && t[0] == '-';
    var u := if t != [] && (t[0] == '-' || t[0] == '+') then t[1..] else t;
    var k := DigitRun(u);
    if k == 0 then None
    else
      var magnitude: int := DigitsValue(u[..k]);
      Some(if negative then -magnitude else magnitude)
  }

  /** PHP's `intval` on a string: the same leading-integer reading, with 0 where JavaScript has `NaN`. */
  function PhpIntVal(s: string): (n: int)
    ensures (forall i | 0 <= i < |s| :: !IsDigit(s[i])) ==> n == 0
  {
    ParseInt(s).GetOr(0)
  }

  lemma {:induction false} DigitsValueOfDecimal(n: nat)
    ensures DigitsValue(NatToDecimal(n)) == n
  {
    if n >= 10 {
      var s := NatToDecimal(n);
      assert s[..|s| - 1] == NatToDecimal(n / 10);
      DigitsValueOfDecimal(n / 10);
    }
  }

  /** A plain run of digits reads as its value. */
  lemma ParseDigits(d: string)
    requires d != [] && AllDigits(d)
    ensures ParseInt(d) == Some(DigitsValue(d))
  {
    assert !IsWhitespace(d[0]);
    assert SkipWhitespace(d) == d;
    assert DigitRun(d) == |d|;
    assert d[..|d|] == d;
  }

  /** Reading back a printed integer gives the integer: `parseInt(String(n)) === n`. */
  lemma ParseIntRoundTrip(n: int)
    ensures ParseInt(IntToDecimal(n)) == Some(n)
  {
    if n >= 0 {
      ParseDigits(NatToDecimal(n));
      DigitsValueOfDecimal(n);
    } else {
      var digits := NatToDecimal(-n);
      var s := "-" + digits;
      assert SkipWhitespace(s) == s;
      assert s[1..] == digits;
      assert DigitRun(digits) == |digits|;
      assert digits[..|digits|] == digits;
      DigitsValueOfDecimal(-n);
    }
  }
}

/** The two JavaScript string operations the core relies on:
    `String.prototype.trim` (the form's submit gate) and the decimal
    rendering of an integer inside a template literal (the not-found message). */
module JsString {

  /** ECMAScript WhiteSpace and LineTerminator code points: what `trim` strips. */
  predicate IsWhitespace(c: char) {
    || c == '\U{0009}' || c == '\U{000A}' || c == '\U{000B}' || c == '\U{000C}' || c == '\U{000D}'
    || c == '\U{0020}' || c == '\U{00A0}' || c == '\U{1680}'
    || ('\U{2000}' <= c <= '\U{200A}')
    || c == '\U{2028}' || c == '\U{2029}' || c == '\U{202F}' || c == '\U{205F}'
    || c == '\U{3000}' || c == '\U{FEFF}'
  }

  predicate AllWhitespace(s: string) {
    forall k :: 0 <= k < |s| ==> IsWhitespace(s[k])
  }

  /** Drops leading whitespace: the result is a suffix of `s`, everything cut off
      was whitespace, and the result does not start with whitespace. */
  function TrimStart(s: string): (r: string)
    ensures |r| <= |s| && r == s[|s| - |r|..]
    ensures AllWhitespace(s[..|s| - |r|])
    ensures r != [] ==> !IsWhitespace(r[0])
  {
    if |s| > 0 && IsWhitespace(s[0]) then TrimStart(s[1..]) else s
  }

  /** Drops trailing whitespace: the result is a prefix of `s`, everything cut off
      was whitespace, and the result does not end with whitespace. */
  function TrimEnd(s: string): (r: string)
    ensures |r| <= |s| && r == s[..|r|]
    ensures AllWhitespace(s[|r|..])
    ensures r != [] ==> !IsWhitespace(r[|r| - 1])
  {
    if |s| > 0 && IsWhitespace(s[|s| - 1]) then TrimEnd(s[..|s| - 1]) else s
  }

  /** `s.trim()`: a contiguous slice of `s`, surrounded in `s` by whitespace only,
      that neither starts nor ends with whitespace. */
  function Trim(s: string): (r: string)
    ensures exists i :: 0 <= i <= |s| - |r| && r == s[i..i + |r|]
                        && AllWhitespace(s[..i]) && AllWhitespace(s[i + |r|..])
    ensures r != [] ==> !IsWhitespace(r[0]) && !IsWhitespace(r[|r| - 1])
  {
    var t := TrimStart(s);
    var r := TrimEnd(t);
    var i := |s| - |t|;
    assert r == s[i..i + |r|];
    assert s[i + |r|..] == t[|r|..];
    r
  }

  /** Trimming a string that already has no whitespace at either end changes nothing. */
  lemma TrimOfTrimmed(s: string)
    requires s != [] ==> !IsWhitespace(s[0]) && !IsWhitespace(s[|s| - 1])
    ensures Trim(s) == s
  {
  }

  /** `trim` is idempotent. */
  lemma TrimIdempotent(s: string)
    ensures Trim(Trim(s)) == Trim(s)
  {
    TrimOfTrimmed(Trim(s));
  }

  /** The trimmed string is empty exactly when every character is whitespace. */
  lemma TrimEmptyIffAllWhitespace(s: string)
    ensures Trim(s) == [] <==> AllWhitespace(s)
  {
    var r := Trim(s);
    var i :| 0 <= i <= |s| - |r| && r == s[i..i + |r|]
             && AllWhitespace(s[..i]) && AllWhitespace(s[i + |r|..]);
    if r == [] {
      forall k | 0 <= k < |s| ensures IsWhitespace(s[k]) {
        if k < i { assert s[..i][k] == s[k]; } else { assert s[i..][k - i] == s[k]; }
      }
    } else {
      assert s[i] == r[0];
    }
  }

  function DigitChar(d: nat): (c: char)
    requires d < 10
    ensures '0' <= c <= '9'
  {
    ['0', '1', '2', '3', '4', '5', '6', '7', '8', '9'][d]
  }

  function DigitValue(c: char): int {
    c as int - '0' as int
  }

  /** The value of a string of decimal digits, most significant first. */
  function DecimalValue(s: string): int {
    if s == [] then 0 else 10 * DecimalValue(s[..|s| - 1]) + DigitValue(s[|s| - 1])
  }

  /** Decimal digits of `n` without leading zeros. */
  function NatToDecimal(n: nat): (r: string)
    ensures |r| >= 1 && forall k :: 0 <= k < |r| ==> '0' <= r[k] <= '9'
    ensures |r| > 1 ==> r[0] != '0'
    ensures DecimalValue(r) == n
  {
    if n < 10 then [DigitChar(n)]
    else
      var r := NatToDecimal(n / 10) + [DigitChar(n % 10)];
      assert r[..|r| - 1] == NatToDecimal(n / 10);
      r
  }

  /** How an integer appears in a template literal: `-` before the digits of a negative. */
  function NumberToString(n: int): (r: string)
    ensures |r| >= 1
    ensures forall k :: (if n < 0 then 1 else 0) <= k < |r| ==> '0' <= r[k] <= '9'
    ensures n >= 0 ==> DecimalValue(r) == n && (|r| > 1 ==> r[0] != '0')
    ensures n < 0 ==> |r| >= 2 && r[0] == '-' && DecimalValue(r[1..]) == -n && (|r| > 2 ==> r[1] != '0')
  {
    if n >= 0 then NatToDecimal(n) else "-" + NatToDecimal(-n)
  }
}

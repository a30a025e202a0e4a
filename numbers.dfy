/** The two conversions the session's stored expiry goes through: `Number.prototype.toString`
    when login writes it and the global `parseInt` when boot reads it back. */
module Numbers {
  import opened Wrappers
  import opened Text

  predicate IsDigit(c: char) {
    '0' <= c <= '9'
  }

  predicate AllDigits(s: string) {
    forall i :: 0 <= i < |s| ==> IsDigit(s[i])
  }

  function DigitChar(d: int): char
    requires 0 <= d < 10
  {
    ('0' as int + d) as char
  }

  function DigitValue(c: char): int
    requires IsDigit(c)
  {
    c as int - '0' as int
  }

  /** Decimal digits of n, most significant first, no leading zeros. */
  function NatToString(n: nat): (s: string)
    ensures |s| > 0 && AllDigits(s)
  {
    if n < 10 then [DigitChar(n)] else NatToString(n / 10) + [DigitChar(n % 10)]
  }

  /** `n.toString()` for an integer n. */
  function IntToString(n: int): (s: string)
    ensures |s| > 0 && (n >= 0 ==> AllDigits(s))
  {
    if n < 0 then "-" + NatToString(-n) else NatToString(n)
  }

  /** The value of a string of decimal digits. */
  function DigitsValue(s: string): nat
    requires AllDigits(s)
  {
    if s == [] then 0 else DigitsValue(s[..|s| - 1]) * 10 + DigitValue(s[|s| - 1])
  }

  /** The length of the longest prefix of s made of digits. */
  function DigitPrefixLength(s: string): (k: nat)
    ensures k <= |s| && AllDigits(s[..k])
    ensures k < |s| ==> !IsDigit(s[k])
  {
    if s == [] || !IsDigit(s[0]) then 0
    else
      var k := 1 + DigitPrefixLength(s[1..]);
      assert s[..k] == [s[0]] + s[1..][..k - 1];
      k
  }

  /** The longest run of leading digits, read in base 10; None when there is none. */
  function ReadDigits(body: string): Option<int> {
    var k := DigitPrefixLength(body);
    if k == 0 then None else Some(DigitsValue(body[..k]))
  }

  /** What `parseInt` reads once the white space is skipped: an optional sign, then the
      run of digits; None stands for NaN (no digit at all). */
  function ParseSigned(t: string): Option<int> {
    if |t| > 0 && t[0] == '-' then
      match ReadDigits(t[1..])
      case None => None
      case Some(m) => Some(-m)
    else if |t| > 0 && t[0] == '+' then ReadDigits(t[1..])
    else ReadDigits(t)
  }

  /** `parseInt(s)` in base 10: leading white space skipped, then a signed run of digits. */
  function ParseInt(s: string): Option<int> {
    ParseSigned(TrimStart(s))
  }

  lemma {:induction false} NatToStringValue(n: nat)
    ensures DigitsValue(NatToString(n)) == n
  {
    if n >= 10 {
      var s := NatToString(n);
      NatToStringValue(n / 10);
      assert s[..|s| - 1] == NatToString(n / 10);
    }
  }

  /** The digit run of a string of digits followed by a non-digit is that string. */
  lemma {:induction false} DigitPrefixOfDigits(d: string, rest: string)
    requires AllDigits(d)
    requires rest == [] || !IsDigit(rest[0])
    ensures DigitPrefixLength(d + rest) == |d|
  {
    if d != [] {
      assert (d + rest)[1..] == d[1..] + rest;
      DigitPrefixOfDigits(d[1..], rest);
    }
  }

  /** Digits, then a non-digit: the digits are read. */
  lemma ReadDigitsOf(body: string, d: string, rest: string)
    requires |d| > 0 && AllDigits(d)
    requires rest == [] || !IsDigit(rest[0])
    requires body == d + rest
    ensures ReadDigits(body) == Some(DigitsValue(d) as int)
  {
    DigitPrefixOfDigits(d, rest);
    assert body[..|d|] == d;
  }

  /** A minus sign, digits, then a non-digit: the negated digits are read. */
  lemma ParseSignedNegative(t: string, d: string, rest: string)
    requires |d| > 0 && AllDigits(d)
    requires rest == [] || !IsDigit(rest[0])
    requires |t| > 0 && t[0] == '-' && t[1..] == d + rest
    ensures ParseSigned(t) == Some(-(DigitsValue(d) as int))
  {
    ReadDigitsOf(t[1..], d, rest);
  }

  /** Digits, then a non-digit: the digits are read. */
  lemma ParseSignedUnsigned(t: string, d: string, rest: string)
    requires |d| > 0 && AllDigits(d)
    requires rest == [] || !IsDigit(rest[0])
    requires t == d + rest
    ensures ParseSigned(t) == Some(DigitsValue(d) as int)
  {
    assert t[0] == d[0];
    ReadDigitsOf(t, d, rest);
  }

  /** toString writes a minus sign for a negative number, then digits worth its magnitude. */
  lemma WrittenDigits(n: int) returns (d: string)
    ensures |d| > 0 && AllDigits(d) && DigitsValue(d) == if n < 0 then -n else n
    ensures n < 0 ==> |IntToString(n)| > 0 && IntToString(n)[0] == '-' && IntToString(n)[1..] == d
    ensures n >= 0 ==> IntToString(n) == d
  {
    d := NatToString(if n < 0 then -n else n);
    NatToStringValue(if n < 0 then -n else n);
  }

  /** A signed string of digits, followed by a non-digit, is read as its value. */
  lemma ParseSignedForm(w: string, d: string, rest: string, v: int)
    requires |d| > 0 && AllDigits(d)
    requires rest == [] || !IsDigit(rest[0])
    requires v < 0 ==> |w| > 0 && w[0] == '-' && w[1..] == d && DigitsValue(d) == -v
    requires v >= 0 ==> w == d && DigitsValue(d) == v
    ensures ParseSigned(w + rest) == Some(v)
  {
    var t := w + rest;
    if v < 0 {
      assert t[0] == '-' && t[1..] == d + rest;
      ParseSignedNegative(t, d, rest);
    } else {
      ParseSignedUnsigned(t, d, rest);
    }
  }

  /** What toString wrote, followed by a non-digit, is read back as the same integer. */
  lemma ParseSignedWritten(n: int, rest: string)
    requires rest == [] || !IsDigit(rest[0])
    ensures ParseSigned(IntToString(n) + rest) == Some(n)
  {
    var d := WrittenDigits(n);
    ParseSignedForm(IntToString(n), d, rest, n);
  }

  /** A string that does not start with white space has none to skip. */
  lemma TrimStartNothing(t: string)
    requires t == [] || !IsSpace(t[0])
    ensures TrimStart(t) == t
  {
  }

  /** `parseInt` reads a written integer back whatever non-digit text follows it. */
  lemma ParseIntPrefix(n: int, rest: string)
    requires rest == [] || !IsDigit(rest[0])
    ensures ParseInt(IntToString(n) + rest) == Some(n)
  {
    var t := IntToString(n) + rest;
    assert t[0] == IntToString(n)[0];
    TrimStartNothing(t);
    ParseSignedWritten(n, rest);
  }

  /** ... and through whatever white space precedes it. */
  lemma ParseIntSurrounded(ws: string, n: int, rest: string)
    requires forall i :: 0 <= i < |ws| ==> IsSpace(ws[i])
    requires rest == [] || !IsDigit(rest[0])
    ensures ParseInt(ws + IntToString(n) + rest) == Some(n)
  {
    var t := IntToString(n) + rest;
    assert t[0] == IntToString(n)[0];
    TrimStartSkipsSpace(ws, t);
    assert ws + IntToString(n) + rest == ws + t;
    ParseSignedWritten(n, rest);
  }

  /** Reading back what toString wrote gives the same integer. */
  lemma ParseIntToString(n: int)
    ensures ParseInt(IntToString(n)) == Some(n)
  {
    ParseIntPrefix(n, []);
    assert IntToString(n) + [] == IntToString(n);
  }
}

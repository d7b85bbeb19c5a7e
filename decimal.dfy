/** The decimal text of numbers: digits, `ToString()` of an integer, and
  * `Int32.Parse`, with the round trips between them. */
module Decimal {
  import opened Common

  predicate IsDigit(c: char) { '0' <= c <= '9' }

  function DigitValue(c: char): (d: nat)
    requires IsDigit(c)
    ensures d < 10
  {
    c as int - '0' as int
  }

  function DigitChar(d: nat): (c: char)
    requires d < 10
    ensures IsDigit(c) && DigitValue(c) == d
  {
    ('0' as int + d) as char
  }

  lemma DigitRoundTrip(c: char)
    requires IsDigit(c)
    ensures DigitChar(DigitValue(c)) == c
  {
  }

  lemma DivMod10(q: nat, r: nat)
    requires r < 10
    ensures (q * 10 + r) / 10 == q && (q * 10 + r) % 10 == r
  {
  }

  /** `n.ToString()` of a non-negative integer: its canonical decimal form. */
  function NatToString(n: nat): (s: string)
    ensures |s| >= 1
    ensures forall i :: 0 <= i < |s| ==> IsDigit(s[i])
    ensures s[0] == '0' ==> n == 0
    decreases n
  {
    if n < 10 then [DigitChar(n)] else NatToString(n / 10) + [DigitChar(n % 10)]
  }

  /** `n.ToString()` of a signed integer: decimal digits with a leading '-' when negative. */
  function IntToString(n: int): (s: string)
    ensures |s| >= 1
    ensures n < 0 <==> s[0] == '-'
  {
    if n < 0 then "-" + NatToString(-n) else NatToString(n)
  }

  /** The value of a string of decimal digits, most significant first. */
  function DecimalValue(s: string): (n: nat)
    requires forall i :: 0 <= i < |s| ==> IsDigit(s[i])
    decreases |s|
  {
    if |s| == 0 then 0 else DecimalValue(s[..|s| - 1]) * 10 + DigitValue(s[|s| - 1])
  }

  lemma {:induction false} DecimalOfNatToString(n: nat)
    ensures DecimalValue(NatToString(n)) == n
    decreases n
  {
    var s := NatToString(n);
    if n >= 10 {
      DecimalOfNatToString(n / 10);
      assert s[..|s| - 1] == NatToString(n / 10);
    }
  }

  /** A digit string without a leading zero (or the single digit "0") is the
    * printed form of its own value. */
  lemma {:induction false} NatToStringOfDecimal(t: string)
    requires |t| >= 1 && AllDigits(t) && (t[0] != '0' || |t| == 1)
    ensures NatToString(DecimalValue(t)) == t
    decreases |t|
  {
    var last := t[|t| - 1];
    var p := t[..|t| - 1];
    DigitRoundTrip(last);
    if |t| == 1 {
      assert p == [];
      assert [last] == t;
    } else {
      assert p[0] == t[0];
      NatToStringOfDecimal(p);
      var q := DecimalValue(p);
      var r := DigitValue(last);
      assert q != 0;
      DivMod10(q, r);
      assert NatToString(q * 10 + r) == p + [last];
      assert p + [last] == t;
    }
  }

  /** Two different numbers never print the same, so a decimal suffix identifies its number. */
  lemma NatToStringInjective(m: nat, n: nat)
    requires NatToString(m) == NatToString(n)
    ensures m == n
  {
    DecimalOfNatToString(m);
    DecimalOfNatToString(n);
  }

  /** The same holds with a sign: `ToString` of an `int` determines it. */
  lemma IntToStringInjective(m: int, n: int)
    requires IntToString(m) == IntToString(n)
    ensures m == n
  {
    var s := IntToString(m);
    if m < 0 {
      assert NatToString(-m) == s[1..] == NatToString(-n);
      NatToStringInjective(-m, -n);
    } else {
      NatToStringInjective(m, n);
    }
  }

  /** Text made only of ASCII decimal digits. */
  predicate AllDigits(s: string) { forall i :: 0 <= i < |s| ==> IsDigit(s[i]) }

  predicate IsAsciiWhiteSpace(c: char) { c == ' ' || '\t' <= c <= '\r' }

  /** `Int32.Parse` / `Convert.ToInt32(string)` with the default number style:
    * optional surrounding ASCII white space, an optional sign, ASCII digits. */
  function ParseInt32(s: string): (r: Result<int>)
    ensures r.Ok? ==> INT_MIN <= r.value <= INT_MAX
  {
    var t := TrimSpaces(s);
    if |t| == 0 then Err(FormatError)
    else
      var neg := t[0] == '-';
      var digits := if t[0] == '-' || t[0] == '+' then t[1..] else t;
      if |digits| == 0 || !AllDigits(digits) then Err(FormatError)
      else
        var v := if neg then -(DecimalValue(digits) as int) else DecimalValue(digits);
        if v < INT_MIN || v > INT_MAX then Err(OverflowError) else Ok(v)
  }

  function TrimSpaces(s: string): (t: string)
    ensures |t| <= |s|
    decreases |s|
  {
    if |s| > 0 && IsAsciiWhiteSpace(s[0]) then TrimSpaces(s[1..])
    else if |s| > 0 && IsAsciiWhiteSpace(s[|s| - 1]) then TrimSpaces(s[..|s| - 1])
    else s
  }

  lemma {:induction false} ParseInt32OfToString(n: nat)
    requires n <= INT_MAX
    ensures ParseInt32(NatToString(n)) == Ok(n)
  {
    var s := NatToString(n);
    DecimalOfNatToString(n);
    assert TrimSpaces(s) == s;
  }
}

/** Base-10 spelling of integers, as `strconv.FormatInt(n, 10)` produces it,
    together with the parse that reads such a spelling back.

    A spelling is canonical when it is a non-empty run of ASCII digits with no
    leading zero (the single digit "0" aside), optionally preceded by one '-'
    that is never followed by "0" alone. `FormatInt` produces exactly the
    canonical spellings, and `ParseInt` inverts it on them. */
module Decimal {

  predicate IsDigit(c: char) {
    '0' <= c <= '9'
  }

  predicate AllDigits(s: string) {
    forall i :: 0 <= i < |s| ==> IsDigit(s[i])
  }

  function DigitValue(c: char): (d: nat)
    requires IsDigit(c)
    ensures d < 10
  {
    c as int - '0' as int
  }

  function DigitChar(d: nat): (c: char)
    requires d < 10
    ensures IsDigit(c) && DigitValue(c) == d
  {
    (d + '0' as int) as char
  }

  /** Unsigned canonical spelling: digits only, no leading zero unless the number is zero. */
  predicate IsCanonicalNat(s: string) {
    && |s| >= 1
    && AllDigits(s)
    && (s[0] == '0' ==> |s| == 1)
  }

  /** Signed canonical spelling: an unsigned one, or '-' before a non-zero unsigned one. */
  predicate IsCanonicalInt(s: string) {
    || IsCanonicalNat(s)
    || (|s| >= 2 && s[0] == '-' && IsCanonicalNat(s[1..]) && s[1] != '0')
  }

  /** The decimal digits of `n`, most significant first. */
  function FormatNat(n: nat): (s: string)
    ensures IsCanonicalNat(s)
    ensures s[0] == '0' <==> n == 0
    decreases n
  {
    if n < 10 then [DigitChar(n)]
    else FormatNat(n / 10) + [DigitChar(n % 10)]
  }

  /** Base-10 formatting of a signed integer: a '-' sign only for negatives. */
  function FormatInt(n: int): (s: string)
    ensures IsCanonicalInt(s)
    ensures s[0] == '-' <==> n < 0
    ensures n == 0 <==> s == "0"
  {
    if n < 0 then "-" + FormatNat(-n) else FormatNat(n)
  }

  /** The number a run of digits denotes (leading zeros allowed, empty run is 0). */
  function ValueOf(s: string): nat
    requires AllDigits(s)
    decreases |s|
  {
    if |s| == 0 then 0
    else ValueOf(s[..|s| - 1]) * 10 + DigitValue(s[|s| - 1])
  }

  /** Reads a canonical signed spelling back into the integer it denotes. */
  function ParseInt(s: string): int
    requires IsCanonicalInt(s)
  {
    if s[0] == '-' then -(ValueOf(s[1..]) as int) else ValueOf(s)
  }

  lemma {:induction false} FormatNatRoundTrip(n: nat)
    ensures ValueOf(FormatNat(n)) == n
    decreases n
  {
    if n >= 10 {
      var s := FormatNat(n);
      assert s[..|s| - 1] == FormatNat(n / 10);
      FormatNatRoundTrip(n / 10);
    }
  }

  /** A run of digits that does not start with '0' denotes a positive number. */
  lemma {:induction false} LeadingDigitPositive(s: string)
    requires |s| >= 1 && AllDigits(s) && s[0] != '0'
    ensures ValueOf(s) >= 1
    decreases |s|
  {
    if |s| > 1 {
      LeadingDigitPositive(s[..|s| - 1]);
    }
  }

  lemma {:induction false} CanonicalNatRoundTrip(s: string)
    requires IsCanonicalNat(s)
    ensures FormatNat(ValueOf(s)) == s
    decreases |s|
  {
    if |s| > 1 {
      var p := s[..|s| - 1];
      LeadingDigitPositive(p);
      CanonicalNatRoundTrip(p);
      assert s == p + [s[|s| - 1]];
    }
  }

  /** Formatting then parsing gives the integer back. */
  lemma FormatIntRoundTrip(n: int)
    ensures ParseInt(FormatInt(n)) == n
  {
    if n < 0 {
      assert FormatInt(n)[1..] == FormatNat(-n);
      FormatNatRoundTrip(-n);
    } else {
      FormatNatRoundTrip(n);
    }
  }

  /** Parsing then formatting gives the spelling back: the canonical spellings
      are exactly the images of `FormatInt`. */
  lemma CanonicalIntRoundTrip(s: string)
    requires IsCanonicalInt(s)
    ensures FormatInt(ParseInt(s)) == s
  {
    if s[0] == '-' {
      var t := s[1..];
      LeadingDigitPositive(t);
      CanonicalNatRoundTrip(t);
      assert s == "-" + t;
    } else {
      CanonicalNatRoundTrip(s);
    }
  }

  /** Distinct integers have distinct spellings. */
  lemma FormatIntInjective(a: int, b: int)
    ensures FormatInt(a) == FormatInt(b) ==> a == b
  {
    FormatIntRoundTrip(a);
    FormatIntRoundTrip(b);
  }
}

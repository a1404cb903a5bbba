/** `Int32.ToString()` with the invariant culture: an optional '-' followed by
    decimal digits without leading zeros. The repository keys its dictionary
    by this text, so what matters is that distinct ids give distinct keys. */
module DecimalText {

  predicate IsDigit(c: char) {
    '0' <= c <= '9'
  }

  function DigitChar(d: nat): (c: char)
    requires d < 10
    ensures IsDigit(c) && c as int - '0' as int == d
  {
    ('0' as int + d) as char
  }

  /** The decimal digits of n, most significant first. */
  function NatToDigits(n: nat): (s: string)
    ensures |s| > 0
    ensures forall k :: 0 <= k < |s| ==> IsDigit(s[k])
    ensures |s| > 1 ==> s[0] != '0'
    decreases n
  {
    if n < 10 then [DigitChar(n)] else NatToDigits(n / 10) + [DigitChar(n % 10)]
  }

  /** The text `n.ToString()` produces. */
  function IntToString(n: int): (s: string)
    ensures |s| > 0
  {
    if n < 0 then "-" + NatToDigits(-n) else NatToDigits(n)
  }

  /** The value of a string of decimal digits, read most significant first. */
  function DigitsValue(s: string): nat
    requires forall k :: 0 <= k < |s| ==> IsDigit(s[k])
  {
    if s == [] then 0 else DigitsValue(s[..|s| - 1]) * 10 + DigitValue(s[|s| - 1])
  }

  function DigitValue(c: char): nat
    requires IsDigit(c)
  {
    c as int - '0' as int
  }

  /** Reading the digits back gives the number that was written. */
  lemma {:induction false} DigitsRoundTrip(n: nat)
    ensures DigitsValue(NatToDigits(n)) == n
    decreases n
  {
    if n >= 10 {
      var init := NatToDigits(n / 10);
      var s := init + [DigitChar(n % 10)];
      assert s[..|s| - 1] == init;
      DigitsRoundTrip(n / 10);
    }
  }

  /** Digit strings are injective: the digits determine the number. */
  lemma NatToDigitsInjective(m: nat, n: nat)
    requires NatToDigits(m) == NatToDigits(n)
    ensures m == n
  {
    DigitsRoundTrip(m);
    DigitsRoundTrip(n);
  }

  /** `ToString` is injective: two ids with the same text are the same id. */
  lemma IntToStringInjective(a: int, b: int)
    requires IntToString(a) == IntToString(b)
    ensures a == b
  {
    var sa, sb := IntToString(a), IntToString(b);
    if a < 0 && b < 0 {
      assert NatToDigits(-a) == sa[1..] == sb[1..] == NatToDigits(-b);
      NatToDigitsInjective(-a, -b);
    } else if a >= 0 && b >= 0 {
      NatToDigitsInjective(a, b);
    }
  }

  /** Distinct ids are stored under distinct dictionary keys. */
  lemma DistinctIdsDistinctKeys(a: int, b: int)
    requires a != b
    ensures IntToString(a) != IntToString(b)
  {
    if IntToString(a) == IntToString(b) {
      IntToStringInjective(a, b);
    }
  }

  /** No other number shares the text of n. */
  lemma DistinctKeysFrom(n: int)
    ensures forall other :: other != n ==> IntToString(other) != IntToString(n)
  {
    forall other | other != n
      ensures IntToString(other) != IntToString(n)
    {
      DistinctIdsDistinctKeys(other, n);
    }
  }
}

/** Unsigned decimal text, as `%u` and `inet_ntop` print it and `atoi` reads it back. */
module Decimals {

  predicate IsDigit(c: char) { '0' <= c <= '9' }

  function Digit(d: nat): (c: char)
    requires d < 10
    ensures IsDigit(c) && c as int - '0' as int == d
  {
    ('0' as int + d) as char
  }

  function Decimal(n: nat): (s: string)
    ensures |s| > 0 && IsDigit(s[0])
  {
    if n < 10 then [Digit(n)] else Decimal(n / 10) + [Digit(n % 10)]
  }

  /** Reads leading digits onto `acc`; returns the value and what follows. */
  function ScanNumber(s: string, acc: nat): (nat, string) {
    if |s| > 0 && IsDigit(s[0]) then ScanNumber(s[1..], acc * 10 + (s[0] as int - '0' as int))
    else (acc, s)
  }

  predicate NoDigitNext(rest: string) {
    |rest| == 0 || !IsDigit(rest[0])
  }

  lemma {:induction false} ScanDecimal(n: nat, rest: string)
    ensures ScanNumber(Decimal(n) + rest, 0) == ScanNumber(rest, n)
    ensures NoDigitNext(rest) ==> ScanNumber(Decimal(n) + rest, 0) == (n, rest)
  {
    if n < 10 {
      assert ([Digit(n)] + rest)[1..] == rest;
    } else {
      var tail := [Digit(n % 10)] + rest;
      ScanDecimal(n / 10, tail);
      assert Decimal(n) + rest == Decimal(n / 10) + tail;
      assert tail[1..] == rest;
    }
  }

  lemma {:induction false} DecimalDigits(n: nat)
    ensures forall i :: 0 <= i < |Decimal(n)| ==> IsDigit(Decimal(n)[i])
  {
    if n >= 10 {
      DecimalDigits(n / 10);
    }
  }

  function Pow10(k: nat): nat {
    if k == 0 then 1 else 10 * Pow10(k - 1)
  }

  lemma {:induction false} DecimalLength(n: nat, k: nat)
    requires 0 < k && n < Pow10(k)
    ensures |Decimal(n)| <= k
  {
    if n >= 10 {
      assert k > 1;
      DecimalLength(n / 10, k - 1);
    }
  }
}

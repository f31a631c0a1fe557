/** Decimal digits as strings: what typed and transmitted numbers are made of. */
module Decimals {

  /** The greatest integer a JavaScript number represents exactly with its neighbours. */
  const MAX_SAFE_INTEGER: nat := 9_007_199_254_740_991

  predicate IsDigit(c: char) {
    '0' <= c <= '9'
  }

  predicate AllDigits(s: string) {
    forall i :: 0 <= i < |s| ==> IsDigit(s[i])
  }

  /** White space as JavaScript strings know it. */
  predicate IsSpace(c: char) {
    || '\t' <= c <= '\r' || c == ' ' || c == '\U{A0}' || c == '\U{1680}' || '\U{2000}' <= c <= '\U{200A}'
    || c == '\U{2028}' || c == '\U{2029}' || c == '\U{202F}' || c == '\U{205F}' || c == '\U{3000}' || c == '\U{FEFF}'
  }

  function DigitValue(c: char): nat
    requires IsDigit(c)
  {
    c as int - '0' as int
  }

  function DigitChar(d: nat): (c: char)
    requires d < 10
    ensures IsDigit(c) && DigitValue(c) == d
  {
    ('0' as int + d) as char
  }

  /** The number a string of digits denotes. */
  function Number(s: string): nat
    requires AllDigits(s)
  {
    if |s| == 0 then 0 else 10 * Number(s[..|s| - 1]) + DigitValue(s[|s| - 1])
  }

  /** The digits of a number, without leading zeros. */
  function Digits(n: nat): (s: string)
    ensures |s| > 0 && AllDigits(s)
  {
    if n < 10 then [DigitChar(n)] else Digits(n / 10) + [DigitChar(n % 10)]
  }

  lemma {:induction false} NumberPush(s: string, c: char)
    requires AllDigits(s) && IsDigit(c)
    ensures AllDigits(s + [c]) && Number(s + [c]) == 10 * Number(s) + DigitValue(c)
  {
    assert (s + [c])[..|s|] == s;
  }

  lemma {:induction false} DigitsDenote(n: nat)
    ensures Number(Digits(n)) == n
  {
    if n >= 10 {
      DigitsDenote(n / 10);
      NumberPush(Digits(n / 10), DigitChar(n % 10));
    } else {
      NumberPush("", DigitChar(n));
      assert "" + [DigitChar(n)] == [DigitChar(n)];
    }
  }

  function Zeros(n: nat): string {
    seq(n, i => '0')
  }

  function PadStart(s: string, n: nat): string {
    if |s| >= n then s else Zeros(n - |s|) + s
  }

  function PadEnd(s: string, n: nat): string {
    if |s| >= n then s else s + Zeros(n - |s|)
  }

  lemma {:induction false} LeadingZeros(n: nat, s: string)
    requires AllDigits(s)
    ensures AllDigits(Zeros(n) + s) && Number(Zeros(n) + s) == Number(s)
    decreases |s|, n
  {
    if |s| > 0 {
      LeadingZeros(n, s[..|s| - 1]);
      assert (Zeros(n) + s)[..n + |s| - 1] == Zeros(n) + s[..|s| - 1];
    } else if n > 0 {
      LeadingZeros(n - 1, s);
      assert (Zeros(n) + s)[..n - 1] == Zeros(n - 1) + s;
    }
  }

  lemma {:induction false} ShortDigits(n: nat)
    ensures n < 10 ==> |Digits(n)| == 1
    ensures 10 <= n < 100 ==> |Digits(n)| == 2
    ensures 100 <= n < 1000 ==> |Digits(n)| == 3
  {
    if 10 <= n < 1000 { ShortDigits(n / 10); }
  }

  /** Three digits, padded on the left, denote the same number. */
  lemma {:induction false} PaddedThousandths(n: nat)
    requires n < 1000
    ensures var s := PadStart(Digits(n), 3);
            |s| == 3 && AllDigits(s) && Number(s) == n
  {
    ShortDigits(n);
    DigitsDenote(n);
    LeadingZeros(3 - |Digits(n)|, Digits(n));
  }
}

/** Quantities in thousandths, typed, printed and exchanged as decimal strings. */
module Quantity {
  import opened Sums
  import opened Rounding
  import opened Decimals

  // ---------- Reading ----------

  function TrimStart(s: string): (t: string)
    ensures |t| <= |s|
  {
    if |s| > 0 && IsSpace(s[0]) then TrimStart(s[1..]) else s
  }

  function TrimEnd(s: string): (t: string)
    ensures |t| <= |s|
  {
    if |s| > 0 && IsSpace(s[|s| - 1]) then TrimEnd(s[..|s| - 1]) else s
  }

  function Trim(s: string): string {
    TrimEnd(TrimStart(s))
  }

  /** The position of the first `c`, or the length. */
  function IndexOf(s: string, c: char): (at: nat)
    ensures at <= |s| && (forall i :: 0 <= i < at ==> s[i] != c) && (at < |s| ==> s[at] == c)
  {
    if |s| == 0 || s[0] == c then 0 else 1 + IndexOf(s[1..], c)
  }

  /** Only the first comma is read as a point. */
  function FirstCommaAsPoint(s: string): string {
    var at := IndexOf(s, ',');
    if at < |s| then s[at := '.'] else s
  }

  /** Digits, then possibly a point and up to three digits. */
  predicate IsQuantity(s: string) {
    var point := IndexOf(s, '.');
    && point > 0 && AllDigits(s[..point])
    && (point < |s| ==> |s| - point <= 4 && AllDigits(s[point + 1..]))
  }

  function Fraction(s: string): string {
    var point := IndexOf(s, '.');
    if point < |s| then s[point + 1..] else ""
  }

  lemma {:induction false} PaddedFraction(s: string)
    requires IsQuantity(s)
    ensures AllDigits(PadEnd(Fraction(s), 3))
  {
  }

  function QuantityValue(s: string): nat
    requires IsQuantity(s)
  {
    PaddedFraction(s);
    Number(s[..IndexOf(s, '.')]) * QUANTITY_SCALE + Number(PadEnd(Fraction(s), 3))
  }

  function ParseQuantityToMilli(value: string): Option<nat> {
    var normalized := FirstCommaAsPoint(Trim(value));
    if !IsQuantity(normalized) then None
    else
      var milli := QuantityValue(normalized);
      if 0 < milli <= MAX_SAFE_INTEGER then Some(milli) else None
  }

  /** "0", "0.0", "0.00" or "0.000". */
  predicate IsZero(s: string) {
    |s| > 0 && s[0] == '0' && (|s| == 1 || (3 <= |s| <= 5 && s[1] == '.' && forall i :: 2 <= i < |s| ==> s[i] == '0'))
  }

  function BackendQuantityToMilli(value: string): Option<nat> {
    if IsZero(value) then Some(0) else ParseQuantityToMilli(value)
  }

  // ---------- Writing ----------

  function MilliToBackendQuantity(value: nat): string {
    BackendParts(value / QUANTITY_SCALE, value % QUANTITY_SCALE)
  }

  function BackendParts(whole: nat, thousandths: nat): string {
    Digits(whole) + "." + PadStart(Digits(thousandths), 3)
  }

  function WithoutTrailingZeros(s: string): string {
    if |s| > 0 && s[|s| - 1] == '0' then WithoutTrailingZeros(s[..|s| - 1]) else s
  }

  function MilliToDisplayQuantity(value: nat): string {
    DisplayParts(value / QUANTITY_SCALE, value % QUANTITY_SCALE)
  }

  function DisplayParts(whole: nat, thousandths: nat): string {
    var fraction := WithoutTrailingZeros(PadStart(Digits(thousandths), 3));
    if fraction == "" then Digits(whole) else Digits(whole) + "," + fraction
  }

  // ---------- Round trips ----------

  lemma {:induction false} NothingToTrim(s: string)
    requires |s| > 0 && !IsSpace(s[0]) && !IsSpace(s[|s| - 1])
    ensures Trim(s) == s
  {
  }

  /** A whole part, a separator and one to three digits are read as their value. */
  lemma {:induction false} ReadsParts(whole: string, separator: char, fraction: string)
    requires |whole| > 0 && AllDigits(whole) && AllDigits(fraction) && 0 < |fraction| <= 3
    requires separator == '.' || separator == ','
    ensures AllDigits(PadEnd(fraction, 3))
    ensures var milli := Number(whole) * QUANTITY_SCALE + Number(PadEnd(fraction, 3));
            ParseQuantityToMilli(whole + [separator] + fraction) == if 0 < milli <= MAX_SAFE_INTEGER then Some(milli)
              else None
  {
    var s := whole + [separator] + fraction;
    assert s[0] == whole[0] && s[|s| - 1] == fraction[|fraction| - 1];
    NothingToTrim(s);
    NormalizedParts(whole, separator, fraction);
    ValueOfParts(whole, fraction);
  }

  /** More than three digits after the separator are refused. */
  lemma {:induction false} RefusesLongFractions(whole: string, separator: char, fraction: string)
    requires |whole| > 0 && AllDigits(whole) && AllDigits(fraction) && |fraction| > 3
    requires separator == '.' || separator == ','
    ensures ParseQuantityToMilli(whole + [separator] + fraction) == None
  {
    var s := whole + [separator] + fraction;
    assert s[0] == whole[0] && s[|s| - 1] == fraction[|fraction| - 1];
    NothingToTrim(s);
    NormalizedParts(whole, separator, fraction);
    SeparatorAt(whole, '.', fraction);
  }

  lemma {:induction false} ValueOfParts(whole: string, fraction: string)
    requires |whole| > 0 && AllDigits(whole) && AllDigits(fraction) && |fraction| <= 3
    ensures IsQuantity(whole + ['.'] + fraction) && AllDigits(PadEnd(fraction, 3))
    ensures QuantityValue(whole + ['.'] + fraction) == Number(whole) * QUANTITY_SCALE + Number(PadEnd(fraction, 3))
  {
    var t := whole + ['.'] + fraction;
    SeparatorAt(whole, '.', fraction);
    assert t[..|whole|] == whole && t[|whole| + 1..] == fraction;
  }

  lemma {:induction false} NormalizedParts(whole: string, separator: char, fraction: string)
    requires AllDigits(whole) && AllDigits(fraction) && (separator == '.' || separator == ',')
    ensures FirstCommaAsPoint(whole + [separator] + fraction) == whole + ['.'] + fraction
  {
    if separator == ',' {
      SeparatorAt(whole, ',', fraction);
      assert (whole + [','] + fraction)[|whole| := '.'] == whole + ['.'] + fraction;
    } else {
      NoComma(whole, fraction);
    }
  }

  lemma {:induction false} NoComma(whole: string, fraction: string)
    requires AllDigits(whole) && AllDigits(fraction)
    ensures IndexOf(whole + ['.'] + fraction, ',') == |whole + ['.'] + fraction|
  {
    var s := whole + ['.'] + fraction;
    forall i | 0 <= i < |s| ensures s[i] != ',' {
    }
  }

  lemma {:induction false} SeparatorAt(whole: string, separator: char, rest: string)
    requires AllDigits(whole) && !IsDigit(separator)
    ensures IndexOf(whole + [separator] + rest, separator) == |whole|
  {
    var t := whole + [separator] + rest;
    assert t[|whole|] == separator;
    assert forall i :: 0 <= i < |whole| ==> t[i] == whole[i];
  }

  lemma {:induction false} ReadsWhole(whole: string)
    requires |whole| > 0 && AllDigits(whole)
    ensures var milli := Number(whole) * QUANTITY_SCALE;
            ParseQuantityToMilli(whole) == if 0 < milli <= MAX_SAFE_INTEGER then Some(milli) else None
  {
    NothingToTrim(whole);
    assert IndexOf(whole, ',') == |whole| && IndexOf(whole, '.') == |whole|;
    assert whole[..|whole|] == whole;
    LeadingZeros(3, "");
    assert Zeros(3) + "" == Zeros(3) && PadEnd("", 3) == "" + Zeros(3) == Zeros(3);
  }

  lemma {:induction false} BackendPartsReadBack(whole: nat, thousandths: nat)
    requires thousandths < QUANTITY_SCALE && 0 < whole * QUANTITY_SCALE + thousandths <= MAX_SAFE_INTEGER
    ensures ParseQuantityToMilli(BackendParts(whole, thousandths)) == Some(whole * QUANTITY_SCALE + thousandths)
  {
    var fraction := PadStart(Digits(thousandths), 3);
    PaddedThousandths(thousandths);
    assert PadEnd(fraction, 3) == fraction;
    DigitsDenote(whole);
    ReadsParts(Digits(whole), '.', fraction);
    assert Digits(whole) + "." + fraction == Digits(whole) + ['.'] + fraction;
  }

  /** What is sent to the server reads back as the same thousandths. */
  lemma {:induction false} BackendRoundTrip(value: nat)
    requires 0 < value <= MAX_SAFE_INTEGER
    ensures ParseQuantityToMilli(MilliToBackendQuantity(value)) == Some(value)
  {
    BackendPartsReadBack(value / QUANTITY_SCALE, value % QUANTITY_SCALE);
  }

  lemma {:induction false} ZerosComeBack(s: string, n: nat)
    requires |s| <= n
    ensures |WithoutTrailingZeros(s)| <= |s|
    ensures WithoutTrailingZeros(s) == s[..|WithoutTrailingZeros(s)|]
    ensures |s| == n ==> PadEnd(WithoutTrailingZeros(s), n) == s
    ensures forall i :: |WithoutTrailingZeros(s)| <= i < |s| ==> s[i] == '0'
  {
    if |s| > 0 && s[|s| - 1] == '0' { ZerosComeBack(s[..|s| - 1], n); }
  }

  lemma {:induction false} ShortenedFraction(r: nat)
    requires r < QUANTITY_SCALE
    ensures var fraction := WithoutTrailingZeros(PadStart(Digits(r), 3));
            && |fraction| <= 3 && AllDigits(fraction) && AllDigits(PadEnd(fraction, 3))
              && Number(PadEnd(fraction, 3)) == r
            && (fraction == "" ==> r == 0)
  {
    var padded := PadStart(Digits(r), 3);
    PaddedThousandths(r);
    ZerosComeBack(padded, 3);
    if WithoutTrailingZeros(padded) == "" {
      assert padded == Zeros(3) + "";
      LeadingZeros(3, "");
    }
  }

  lemma {:induction false} PartsReadBack(whole: nat, thousandths: nat)
    requires thousandths < QUANTITY_SCALE && 0 < whole * QUANTITY_SCALE + thousandths <= MAX_SAFE_INTEGER
    ensures ParseQuantityToMilli(DisplayParts(whole, thousandths)) == Some(whole * QUANTITY_SCALE + thousandths)
  {
    var fraction := WithoutTrailingZeros(PadStart(Digits(thousandths), 3));
    ShortenedFraction(thousandths);
    DigitsDenote(whole);
    if fraction == "" {
      ReadsWhole(Digits(whole));
    } else {
      FractionReadsBack(whole, fraction, thousandths);
    }
  }

  lemma {:induction false} FractionReadsBack(whole: nat, fraction: string, thousandths: nat)
    requires 0 < whole * QUANTITY_SCALE + thousandths <= MAX_SAFE_INTEGER && 0 < |fraction| <= 3
    requires AllDigits(fraction) && AllDigits(PadEnd(fraction, 3)) && Number(PadEnd(fraction, 3)) == thousandths
    ensures ParseQuantityToMilli(Digits(whole) + "," + fraction) == Some(whole * QUANTITY_SCALE + thousandths)
  {
    DigitsDenote(whole);
    ReadsParts(Digits(whole), ',', fraction);
    assert Digits(whole) + "," + fraction == Digits(whole) + [','] + fraction;
  }

  /** So does what is shown to the cashier, comma form and shortened fraction included. */
  lemma {:induction false} DisplayRoundTrip(value: nat)
    requires 0 < value <= MAX_SAFE_INTEGER
    ensures ParseQuantityToMilli(MilliToDisplayQuantity(value)) == Some(value)
  {
    PartsReadBack(value / QUANTITY_SCALE, value % QUANTITY_SCALE);
  }

  // ---------- Stock levels sent by the server ----------

  /** A stock level as the server prints it: a sign when it is negative. */
  function ServerQuantity(level: int): string {
    if level < 0 then "-" + MilliToBackendQuantity(-level) else MilliToBackendQuantity(level)
  }

  lemma {:induction false} SignIsNoQuantity(s: string)
    requires |s| > 0 && s[0] == '-' && !IsSpace(s[|s| - 1])
    ensures BackendQuantityToMilli(s) == None
  {
    NothingToTrim(s);
    var normalized := FirstCommaAsPoint(s);
    assert normalized[0] == '-';
    if IndexOf(normalized, '.') > 0 { assert normalized[..IndexOf(normalized, '.')][0] == '-'; }
  }

  /** The till reads a stock level back if and only if it is not negative. */
  lemma {:induction false} ReadsStockIff(level: int)
    requires level <= MAX_SAFE_INTEGER
    ensures BackendQuantityToMilli(ServerQuantity(level)) == if level >= 0 then Some(level) else None
  {
    var n := if level < 0 then -level else level;
    PaddedThousandths(n % QUANTITY_SCALE);
    if level < 0 {
      var s := ServerQuantity(level);
      assert s[|s| - 1] == PadStart(Digits(n % QUANTITY_SCALE), 3)[2];
      SignIsNoQuantity(s);
    } else if level > 0 {
      BackendRoundTrip(level);
      NotZero(level);
    } else {
      assert Digits(0) == "0" && Zeros(2) == "00";
      assert MilliToBackendQuantity(0) == "0.000";
    }
  }

  lemma {:induction false} NotZero(value: nat)
    requires value > 0
    ensures !IsZero(MilliToBackendQuantity(value))
  {
    var whole, fraction := Digits(value / QUANTITY_SCALE), PadStart(Digits(value % QUANTITY_SCALE), 3);
    var s := MilliToBackendQuantity(value);
    PaddedThousandths(value % QUANTITY_SCALE);
    if IsZero(s) {
      assert s[|whole|] == '.';
      assert |whole| == 1;
      DigitsDenote(value / QUANTITY_SCALE);
      assert whole == "" + [s[0]];
      NumberPush("", s[0]);
      assert forall i :: 0 <= i < 3 ==> fraction[i] == s[i + 2];
      assert fraction == Zeros(3) + "";
      LeadingZeros(3, "");
    }
  }
}

/** Amounts typed at the till, grouped by thousands as they are typed. */
module Money {
  import opened Sums
  import opened Decimals

  const MAX_AMOUNT: nat := 999_999_999_999

  function Digit(): char -> bool {
    (c: char) => IsDigit(c)
  }

  function NotSpace(): char -> bool {
    (c: char) => !IsSpace(c)
  }

  function ParseMoneyInput(value: string): Option<nat> {
    var normalized := Filter(value, NotSpace());
    if |normalized| > 0 && AllDigits(normalized) && Number(normalized) <= MAX_AMOUNT then Some(Number(normalized))
      else None
  }

  function WithoutLeadingZeros(digits: string): string {
    if |digits| > 1 && digits[0] == '0' then WithoutLeadingZeros(digits[1..]) else digits
  }

  /** A space before every group of three digits counted from the right. */
  function Grouped(digits: string): string {
    if |digits| <= 3 then digits else Grouped(digits[..|digits| - 3]) + " " + digits[|digits| - 3..]
  }

  function FormatMoneyInput(value: string): string {
    Grouped(WithoutLeadingZeros(Filter(value, Digit())))
  }

  /** Whole FCFA with the two decimals the server expects. */
  function ToBackendMoney(amount: nat): string {
    Digits(amount) + ".00"
  }

  lemma {:induction false} FilteredDigits(s: string)
    ensures AllDigits(Filter(s, Digit()))
  {
    if |s| > 0 { FilteredDigits(s[..|s| - 1]); }
  }

  /** What keeps digits and drops spaces undoes the grouping. */
  lemma {:induction false} Ungrouped(digits: string, keep: char -> bool)
    requires AllDigits(digits) && !keep(' ') && forall c: char :: IsDigit(c) ==> keep(c)
    ensures Filter(Grouped(digits), keep) == digits
  {
    if |digits| <= 3 {
      FilterAll(digits, keep);
    } else {
      var front, last := digits[..|digits| - 3], digits[|digits| - 3..];
      Ungrouped(front, keep);
      FilterAll(last, keep);
      FilterNone(" ", keep);
      FilterConcat(Grouped(front), " ", keep);
      FilterConcat(Grouped(front) + " ", last, keep);
      assert front + "" == front && digits == front + last;
    }
  }

  lemma {:induction false} UngroupedDigits(digits: string)
    requires AllDigits(digits)
    ensures Filter(Grouped(digits), Digit()) == digits && Filter(Grouped(digits), NotSpace()) == digits
  {
    Ungrouped(digits, Digit());
    Ungrouped(digits, NotSpace());
  }

  lemma {:induction false} ZerosDropped(digits: string)
    requires AllDigits(digits)
    ensures var kept := WithoutLeadingZeros(digits);
            && AllDigits(kept) && Number(kept) == Number(digits) && (|kept| > 0 <==> |digits| > 0)
            && WithoutLeadingZeros(kept) == kept
  {
    if |digits| > 1 && digits[0] == '0' {
      ZerosDropped(digits[1..]);
      LeadingZeros(1, digits[1..]);
      assert digits == Zeros(1) + digits[1..];
    }
  }

  /** Whatever is typed, what is shown reads as the number its digits denote. */
  lemma {:induction false} FormattedReadsBack(value: string)
    ensures AllDigits(Filter(value, Digit()))
    ensures var digits := Filter(value, Digit());
            ParseMoneyInput(FormatMoneyInput(value)) ==
              if |digits| > 0 && Number(digits) <= MAX_AMOUNT then Some(Number(digits)) else None
  {
    var digits := Filter(value, Digit());
    FilteredDigits(value);
    ZerosDropped(digits);
    UngroupedDigits(WithoutLeadingZeros(digits));
  }

  /** An amount that parses keeps its value when it is formatted. */
  lemma {:induction false} FormattingKeepsAmounts(value: string)
    requires ParseMoneyInput(value).Some?
    ensures ParseMoneyInput(FormatMoneyInput(value)) == ParseMoneyInput(value)
  {
    SameDigits(value);
    FormattedReadsBack(value);
  }

  lemma {:induction false} SameDigits(value: string)
    requires AllDigits(Filter(value, NotSpace()))
    ensures Filter(value, Digit()) == Filter(value, NotSpace())
  {
    if |value| > 0 {
      var front, last := value[..|value| - 1], value[|value| - 1];
      var kept := Filter(front, NotSpace());
      if !IsSpace(last) {
        assert Filter(value, NotSpace())[|kept|] == last && Filter(value, NotSpace())[..|kept|] == kept;
      }
      SameDigits(front);
    }
  }

  /** Formatting what is already formatted changes nothing, so it can follow every key. */
  lemma {:induction false} FormattingIsIdempotent(value: string)
    ensures FormatMoneyInput(FormatMoneyInput(value)) == FormatMoneyInput(value)
  {
    FilteredDigits(value);
    ZerosDropped(Filter(value, Digit()));
    UngroupedDigits(WithoutLeadingZeros(Filter(value, Digit())));
  }

  /** Without its point, the transmitted amount is the amount in cents. */
  lemma {:induction false} BackendMoneyIsCents(amount: nat)
    ensures var s := ToBackendMoney(amount);
            && |s| >= 4 && s[|s| - 3] == '.'
            && AllDigits(s[..|s| - 3] + s[|s| - 2..]) && Number(s[..|s| - 3] + s[|s| - 2..]) == 100 * amount
  {
    var s, digits := ToBackendMoney(amount), Digits(amount);
    assert s[..|s| - 3] == digits && s[|s| - 2..] == "00";
    assert digits + "00" == (digits + ['0']) + ['0'];
    DigitsDenote(amount);
    NumberPush(digits, '0');
    NumberPush(digits + ['0'], '0');
  }

  lemma {:induction false} FirstDigit(digits: string)
    ensures |WithoutLeadingZeros(digits)| > 1 ==> WithoutLeadingZeros(digits)[0] != '0'
  {
    if |digits| > 1 && digits[0] == '0' { FirstDigit(digits[1..]); }
  }

  lemma {:induction false} GroupedFromTheRight(digits: string)
    requires AllDigits(digits)
    ensures |Grouped(digits)| >= |digits|
    ensures |digits| > 0 ==> |Grouped(digits)| > 0 && Grouped(digits)[0] == digits[0]
    ensures forall i :: 0 <= i < |Grouped(digits)| ==>
              (Grouped(digits)[|Grouped(digits)| - 1 - i] == ' ' <==> i % 4 == 3)
  {
    if |digits| > 3 {
      var front, last := digits[..|digits| - 3], digits[|digits| - 3..];
      GroupedFromTheRight(front);
      var all := Grouped(digits);
      assert all == Grouped(front) + " " + last;
      forall i | 0 <= i < |all| ensures all[|all| - 1 - i] == ' ' <==> i % 4 == 3 {
        if i > 3 {
          assert all[|all| - 1 - i] == Grouped(front)[|Grouped(front)| - 1 - (i - 4)];
          assert (i - 4) % 4 == 3 <==> i % 4 == 3;
        } else if i < 3 {
          assert all[|all| - 1 - i] == digits[|digits| - 1 - i] && IsDigit(digits[|digits| - 1 - i]);
        }
      }
    }
  }

  /** What is shown has no useless zero in front, and a space before every third digit from
      the right, and nowhere else. */
  lemma {:induction false} ShownInGroups(value: string)
    ensures var shown := FormatMoneyInput(value);
            && (|shown| > 1 ==> shown[0] != '0')
            && forall i :: 0 <= i < |shown| ==> (shown[|shown| - 1 - i] == ' ' <==> i % 4 == 3)
  {
    var digits := WithoutLeadingZeros(Filter(value, Digit()));
    FilteredDigits(value);
    StillDigits(Filter(value, Digit()));
    FirstDigit(Filter(value, Digit()));
    GroupedFromTheRight(digits);
  }

  lemma {:induction false} StillDigits(digits: string)
    requires AllDigits(digits)
    ensures AllDigits(WithoutLeadingZeros(digits))
  {
    if |digits| > 1 && digits[0] == '0' { StillDigits(digits[1..]); }
  }
}

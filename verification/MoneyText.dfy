/** Amounts as people type and read them: the three rupee parsers and the rupee printer. */
module MoneyText {
  import opened Basics
  import opened Texts

  datatype AmountError = BadAmount | ZeroAmount

  predicate IsDigit(c: char) { '0' <= c <= '9' }

  predicate AllDigits(s: string) { forall c <- s :: IsDigit(c) }

  function DigitValue(c: char): nat
    requires IsDigit(c)
  {
    c as int - '0' as int
  }

  /** `BigInt` of a text of digits; the empty text is 0. */
  function ValueOf(digits: string): nat
    requires AllDigits(digits)
  {
    if digits == "" then 0 else 10 * ValueOf(digits[..|digits| - 1]) + DigitValue(digits[|digits| - 1])
  }

  /** Every letter but those `drop` names (`replace(/…/g, '')`). */
  function Without(s: string, drop: char -> bool): string {
    if s == "" then "" else (if drop(s[0]) then "" else [s[0]]) + Without(s[1..], drop)
  }

  predicate IsComma(c: char) { c == ',' }

  predicate IsCreditMark(c: char) { c == '₹' || c == ',' || IsSpace(c) }

  /** A text that is digits, or digits, a point and one or two digits. */
  datatype Decimal = Decimal(whole: string, fraction: string)

  /** The pattern the three parsers share; `most` bounds the digits before the point. */
  function ReadDecimal(text: string, most: Option<nat>): Option<Decimal> {
    var parts := Split(text, '.');
    if |parts| <= 2 && AllDigits(parts[0]) && 1 <= |parts[0]| && (most.Some? ==> |parts[0]| <= most.value) &&
       (|parts| == 2 ==> AllDigits(parts[1]) && 1 <= |parts[1]| <= 2)
    then Some(Decimal(parts[0], if |parts| == 2 then parts[1] else ""))
    else None
  }

  predicate Readable(d: Decimal) {
    AllDigits(d.whole) && AllDigits(d.fraction) && |d.fraction| <= 2
  }

  /** `padEnd(2, '0')` */
  function PadEnd(fraction: string): (r: string)
    requires AllDigits(fraction)
    ensures AllDigits(r)
  {
    if |fraction| >= 2 then fraction else if |fraction| == 1 then fraction + "0" else "00"
  }

  /** `amountOf` in the books. */
  function AmountOf(value: string, optional: bool): Result<nat, AmountError> {
    var text := Without(Trim(value, IsSpace), IsComma);
    if text == "" && optional then Ok(0)
    else
      match ReadDecimal(text, Some(11))
      case None => Refused(BadAmount)
      case Some(d) =>
        var minor := ValueOf(d.whole) * 100 + ValueOf(PadEnd(d.fraction));
        if minor == 0 && !optional then Refused(ZeroAmount) else Ok(minor)
  }

  /** `pricePaise` in the catalogue: the fraction is padded by appending and cutting. */
  function PricePaise(value: string): Result<Option<nat>, AmountError> {
    var text := Without(Trim(value, IsSpace), IsComma);
    if text == "" then Ok(None)
    else
      match ReadDecimal(text, None)
      case None => Refused(BadAmount)
      case Some(d) => Ok(Some(ValueOf(d.whole) * 100 + ValueOf((d.fraction + "00")[..2])))
  }

  /** `creditLimitPaiseOf` in the catalogue: the rupee sign and white space go too. */
  function CreditLimitPaise(value: string): Result<Option<nat>, AmountError> {
    var text := Without(Trim(value, IsSpace), IsCreditMark);
    if text == "" then Ok(None)
    else
      match ReadDecimal(text, Some(13))
      case None => Refused(BadAmount)
      case Some(d) => Ok(Some(ValueOf(d.whole) * 100 + ValueOf(PadEnd(d.fraction))))
  }

  // ------------------------------------------------------------------ printing

  function Digit(n: nat): (c: char)
    requires n < 10
    ensures IsDigit(c) && DigitValue(c) == n
  {
    ('0' as int + n) as char
  }

  function Digits(n: nat): (s: string)
    ensures |s| >= 1 && AllDigits(s) && ValueOf(s) == n
  {
    if n < 10 then
      assert [Digit(n)][..0] == [];
      [Digit(n)]
    else
      var s := Digits(n / 10) + [Digit(n % 10)];
      assert s[..|s| - 1] == Digits(n / 10);
      s
  }

  /** Commas the Indian way: after the last three digits, then after every two. */
  function Grouped(digits: string): string {
    if |digits| <= 3 then digits else Pairs(digits[..|digits| - 3]) + "," + digits[|digits| - 3..]
  }

  function Pairs(digits: string): string {
    if |digits| <= 2 then digits else Pairs(digits[..|digits| - 2]) + "," + digits[|digits| - 2..]
  }

  /** `rupees` without its sign. */
  function Plain(paise: nat): string {
    Grouped(Digits(paise / 100)) + "." + [Digit(paise % 100 / 10), Digit(paise % 10)]
  }

  function Rupees(paise: nat): string { "₹" + Plain(paise) }

  // ------------------------------------------------------------------ the round trip

  lemma {:induction false} WithoutOfConcat(a: string, b: string, drop: char -> bool)
    ensures Without(a + b, drop) == Without(a, drop) + Without(b, drop)
  {
    if a == "" {
      assert a + b == b;
    } else {
      assert (a + b)[1..] == a[1..] + b;
      WithoutOfConcat(a[1..], b, drop);
    }
  }

  lemma {:induction false} WithoutNothing(s: string, drop: char -> bool)
    requires forall c <- s :: !drop(c)
    ensures Without(s, drop) == s
  {
    if s != "" {
      WithoutNothing(s[1..], drop);
    }
  }

  /** `drop` takes the comma and keeps every digit. */
  ghost predicate DropsMarks(drop: char -> bool) {
    drop(',') && forall c :: IsDigit(c) ==> !drop(c)
  }

  /** A comma put before the last digits goes again. */
  lemma CommaGoes(front: string, back: string, drop: char -> bool)
    requires DropsMarks(drop) && AllDigits(back)
    ensures Without(front + "," + back, drop) == Without(front, drop) + back
  {
    var tail := "," + back;
    assert Without(tail, drop) == back by {
      forall c | c in back ensures !drop(c) {}
      WithoutNothing(back, drop);
      assert tail[1..] == back;
    }
    WithoutOfConcat(front, tail, drop);
    assert front + "," + back == front + tail;
  }

  lemma {:induction false} PairsStripped(digits: string, drop: char -> bool)
    requires AllDigits(digits) && DropsMarks(drop)
    ensures Without(Pairs(digits), drop) == digits
  {
    if |digits| <= 2 {
      WithoutNothing(digits, drop);
    } else {
      PairsStripped(digits[..|digits| - 2], drop);
      CommaGoes(Pairs(digits[..|digits| - 2]), digits[|digits| - 2..], drop);
      assert digits[..|digits| - 2] + digits[|digits| - 2..] == digits;
    }
  }

  lemma GroupedStripped(digits: string, drop: char -> bool)
    requires AllDigits(digits) && DropsMarks(drop)
    ensures Without(Grouped(digits), drop) == digits
  {
    if |digits| <= 3 {
      WithoutNothing(digits, drop);
    } else {
      PairsStripped(digits[..|digits| - 3], drop);
      CommaGoes(Pairs(digits[..|digits| - 3]), digits[|digits| - 3..], drop);
      assert digits[..|digits| - 3] + digits[|digits| - 3..] == digits;
    }
  }

  function Cents(paise: nat): (s: string)
    ensures |s| == 2 && AllDigits(s) && ValueOf(s) == paise % 100
  {
    var s := [Digit(paise % 100 / 10), Digit(paise % 10)];
    assert s[..1] == [s[0]] && s[..1][..0] == [];
    assert ValueOf(s) == 10 * ValueOf(s[..1]) + DigitValue(s[1]);
    assert ValueOf(s[..1]) == paise % 100 / 10;
    s
  }

  /** Taking the marks out of a printed amount leaves its digits and its point. */
  lemma PlainStripped(paise: nat, drop: char -> bool)
    requires DropsMarks(drop) && !drop('.')
    ensures Without(Plain(paise), drop) == Digits(paise / 100) + "." + Cents(paise)
  {
    var end := "." + Cents(paise);
    GroupedStripped(Digits(paise / 100), drop);
    WithoutOfConcat(Grouped(Digits(paise / 100)), end, drop);
    WithoutNothing(end, drop);
    assert Plain(paise) == Grouped(Digits(paise / 100)) + end;
  }

  /** A whole and a fraction around a point are read back, when the whole is not too long. */
  lemma ReadBack(d: Decimal, most: Option<nat>)
    requires Readable(d) && |d.fraction| == 2 && |d.whole| >= 1
    ensures ReadDecimal(d.whole + "." + d.fraction, most) ==
            if most.Some? && |d.whole| > most.value then None else Some(d)
  {
    SplitOfMarked(d.whole, '.', d.fraction);
    SplitOfPlain(d.fraction, '.');
  }

  lemma {:induction false} LengthBound(n: nat, k: nat)
    requires k >= 1
    ensures |Digits(n)| <= k <==> n < Pow10(k)
  {
    if k == 1 {
      assert Pow10(1) == 10 * Pow10(0);
    } else if n >= 10 {
      LengthBound(n / 10, k - 1);
    } else {
      Pow10Positive(k - 1);
    }
  }

  lemma {:induction false} Pow10Positive(k: nat)
    ensures Pow10(k) >= 1
  {
    if k > 0 { Pow10Positive(k - 1); }
  }

  function Pow10(k: nat): nat { if k == 0 then 1 else 10 * Pow10(k - 1) }

  lemma Bounds()
    ensures Pow10(11) == 100_000_000_000 && Pow10(13) == 10_000_000_000_000
  {
    assert Pow10(3) == 1000;
    assert Pow10(6) == 1_000_000;
    assert Pow10(9) == 1_000_000_000;
    assert Pow10(11) == 100_000_000_000;
  }

  predicate Tidy(s: string) { s != "" && !IsSpace(s[0]) && !IsSpace(s[|s| - 1]) }

  lemma TrimTidy(s: string)
    requires Tidy(s)
    ensures Trim(s, IsSpace) == s
  {}

  lemma {:induction false} PairsStart(digits: string)
    requires AllDigits(digits) && digits != ""
    ensures Pairs(digits) != "" && Pairs(digits)[0] == digits[0]
  {
    if |digits| > 2 { PairsStart(digits[..|digits| - 2]); }
  }

  lemma PlainIsTidy(paise: nat)
    ensures Tidy(Plain(paise)) && Tidy(Rupees(paise))
  {
    var digits := Digits(paise / 100);
    if |digits| > 3 { PairsStart(digits[..|digits| - 3]); }
    assert Plain(paise)[0] == digits[0] && digits[0] in digits;
    assert Plain(paise)[|Plain(paise)| - 1] == Digit(paise % 10);
  }

  lemma RupeesStripped(paise: nat)
    ensures Without(Rupees(paise), IsCreditMark) == Digits(paise / 100) + "." + Cents(paise)
  {
    PlainStripped(paise, IsCreditMark);
    WithoutOfConcat("₹", Plain(paise), IsCreditMark);
    assert Without("₹", IsCreditMark) == "";
  }

  /**
   * What the screen prints, the credit-limit box reads back to the paisa — up to 13 digits of rupees,
   * and it refuses anything longer.
   */
  lemma CreditLimitReadsRupees(paise: nat)
    ensures CreditLimitPaise(Rupees(paise)) ==
      if paise < 1_000_000_000_000_000 then Ok(Some(paise)) else Refused(BadAmount)
  {
    PlainIsTidy(paise);
    TrimTidy(Rupees(paise));
    RupeesStripped(paise);
    ReadBack(Decimal(Digits(paise / 100), Cents(paise)), Some(13));
    LengthBound(paise / 100, 13);
    Bounds();
  }

  /** Without its sign a printed amount is read back by the books' box, for 1 paisa up to 11 digits of rupees. */
  lemma AmountReadsPlain(paise: nat, optional: bool)
    ensures AmountOf(Plain(paise), optional) ==
            if paise >= 10_000_000_000_000 then Refused(BadAmount)
            else if paise == 0 && !optional then Refused(ZeroAmount) else Ok(paise)
  {
    PlainIsTidy(paise);
    TrimTidy(Plain(paise));
    PlainStripped(paise, IsComma);
    ReadBack(Decimal(Digits(paise / 100), Cents(paise)), Some(11));
    LengthBound(paise / 100, 11);
    Bounds();
  }

  /** The price box reads every printed amount back. */
  lemma PriceReadsPlain(paise: nat)
    ensures PricePaise(Plain(paise)) == Ok(Some(paise))
  {
    PlainIsTidy(paise);
    TrimTidy(Plain(paise));
    PlainStripped(paise, IsComma);
    ReadBack(Decimal(Digits(paise / 100), Cents(paise)), None);
    assert (Cents(paise) + "00")[..2] == Cents(paise);
  }

  /** The sign itself is what the books' box and the price box refuse, whatever the amount. */
  lemma SignIsRefused(paise: nat, optional: bool)
    ensures AmountOf(Rupees(paise), optional) == Refused(BadAmount)
    ensures PricePaise(Rupees(paise)) == Refused(BadAmount)
  {
    PlainIsTidy(paise);
    TrimTidy(Rupees(paise));
    PlainStripped(paise, IsComma);
    WithoutOfConcat("₹", Plain(paise), IsComma);
    var whole := "₹" + Digits(paise / 100);
    assert Without(Rupees(paise), IsComma) == whole + "." + Cents(paise);
    assert '.' !in whole;
    SplitOfMarked(whole, '.', Cents(paise));
    assert !IsDigit(whole[0]);
  }

  // ------------------------------------------------------------------ what is read

  /** Digits, at most so many, and after a point one or two more: a whole, and tenths or hundredths of it. */
  predicate Writes(text: string, whole: string, fraction: string, most: Option<nat>, value: nat) {
    && AllDigits(whole) && AllDigits(fraction) && |whole| >= 1 && |fraction| <= 2
    && (most.Some? ==> |whole| <= most.value)
    && text == (if fraction == "" then whole else whole + "." + fraction)
    && value == 100 * ValueOf(whole) + (if |fraction| == 1 then 10 else 1) * ValueOf(fraction)
  }

  ghost predicate IsWritten(text: string, most: Option<nat>, value: nat) {
    exists whole, fraction :: Writes(text, whole, fraction, most, value)
  }

  lemma PaddedValue(fraction: string)
    requires AllDigits(fraction) && |fraction| <= 2
    ensures ValueOf(PadEnd(fraction)) == (if |fraction| == 1 then 10 else 1) * ValueOf(fraction)
  {
    assert DigitValue('0') == 0;
    if |fraction| == 1 {
      assert (fraction + "0")[..1] == fraction;
    } else if fraction == "" {
      assert "00"[..1] == "0" && "0"[..0] == "";
      assert ValueOf("0") == 0;
    }
  }

  lemma WrittenIsRead(text: string, whole: string, fraction: string, most: Option<nat>, value: nat)
    requires Writes(text, whole, fraction, most, value)
    ensures ReadDecimal(text, most) == Some(Decimal(whole, fraction))
  {
    if fraction == "" {
      SplitOfPlain(whole, '.');
    } else {
      SplitOfMarked(whole, '.', fraction);
      SplitOfPlain(fraction, '.');
    }
  }

  lemma ReadIsWritten(text: string, most: Option<nat>) returns (value: nat)
    requires ReadDecimal(text, most).Some?
    ensures var d := ReadDecimal(text, most).value; Writes(text, d.whole, d.fraction, most, value)
  {
    var parts := Split(text, '.');
    JoinSplit(text, '.');
    if |parts| == 2 { assert parts[1..] == [parts[1]]; }
    var d := ReadDecimal(text, most).value;
    value := 100 * ValueOf(d.whole) + (if |d.fraction| == 1 then 10 else 1) * ValueOf(d.fraction);
  }

  /** The shared pattern reads a text as a number exactly when the text writes it. */
  lemma ReadIff(text: string, most: Option<nat>, value: nat)
    ensures IsWritten(text, most, value) <==>
            var d := ReadDecimal(text, most);
            d.Some? && value == ValueOf(d.value.whole) * 100 + ValueOf(PadEnd(d.value.fraction))
  {
    if IsWritten(text, most, value) {
      var whole, fraction :| Writes(text, whole, fraction, most, value);
      WrittenIsRead(text, whole, fraction, most, value);
      PaddedValue(fraction);
    }
    if ReadDecimal(text, most).Some? {
      var read := ReadIsWritten(text, most);
      PaddedValue(ReadDecimal(text, most).value.fraction);
    }
  }

  /** The books' box takes exactly the amounts written so, and nothing at all only where it is optional. */
  lemma AmountIff(value: string, optional: bool, paise: nat)
    ensures var text := Without(Trim(value, IsSpace), IsComma);
      AmountOf(value, optional) == Ok(paise) <==>
        (optional || paise > 0) && ((text == "" && paise == 0) || IsWritten(text, Some(11), paise))
  {
    ReadIff(Without(Trim(value, IsSpace), IsComma), Some(11), paise);
  }

  /** The catalogue's two boxes take exactly what is written so, and nothing typed is no amount. */
  lemma CatalogueIff(value: string, paise: nat)
    ensures PricePaise(value) == Ok(Some(paise)) <==> IsWritten(Without(Trim(value, IsSpace), IsComma), None, paise)
    ensures CreditLimitPaise(value) == Ok(Some(paise)) <==>
            IsWritten(Without(Trim(value, IsSpace), IsCreditMark), Some(13), paise)
    ensures PricePaise(value) == Ok(None) <==> Without(Trim(value, IsSpace), IsComma) == ""
    ensures CreditLimitPaise(value) == Ok(None) <==> Without(Trim(value, IsSpace), IsCreditMark) == ""
  {
    var (text, text') := (Without(Trim(value, IsSpace), IsComma), Without(Trim(value, IsSpace), IsCreditMark));
    ReadIff(text, None, paise);
    ReadIff(text', Some(13), paise);
    if ReadDecimal(text, None).Some? { SamePadding(ReadDecimal(text, None).value.fraction); }
  }

  // ------------------------------------------------------------------ the parsers agree

  lemma SamePadding(fraction: string)
    requires AllDigits(fraction) && |fraction| <= 2
    ensures (fraction + "00")[..2] == PadEnd(fraction)
  {}

  lemma {:induction false} DecimalLetters(text: string, most: Option<nat>)
    requires ReadDecimal(text, most).Some?
    ensures forall c <- text :: IsDigit(c) || c == '.'
  {
    JoinSplit(text, '.');
    var parts := Split(text, '.');
    if |parts| == 2 {
      assert parts[1..] == [parts[1]];
      assert text == parts[0] + ['.'] + parts[1];
    }
  }

  lemma {:induction false} WithoutMore(s: string, drop: char -> bool, more: char -> bool)
    requires forall c | drop(c) :: more(c)
    requires forall c <- Without(s, drop) :: !more(c)
    ensures Without(s, more) == Without(s, drop)
  {
    if s != "" {
      assert Without(s, drop) == (if drop(s[0]) then "" else [s[0]]) + Without(s[1..], drop);
      forall c | c in Without(s[1..], drop) ensures !more(c) {}
      WithoutMore(s[1..], drop, more);
      if !drop(s[0]) { assert s[0] in Without(s, drop); }
    }
  }

  /** What the books' box reads, the price box and the credit-limit box read as the same number of paise. */
  lemma ParsersAgree(value: string, optional: bool)
    requires AmountOf(value, optional).Ok? && Without(Trim(value, IsSpace), IsComma) != ""
    ensures PricePaise(value) == Ok(Some(AmountOf(value, optional).value))
    ensures CreditLimitPaise(value) == Ok(Some(AmountOf(value, optional).value))
  {
    var trimmed := Trim(value, IsSpace);
    var text := Without(trimmed, IsComma);
    var d := ReadDecimal(text, Some(11)).value;
    SamePadding(d.fraction);
    DecimalLetters(text, Some(11));
    WithoutMore(trimmed, IsComma, IsCreditMark);
  }

  /** The two catalogue parsers never read one text as two different amounts. */
  lemma PriceAndCreditLimitAgree(value: string)
    requires PricePaise(value).Ok? && CreditLimitPaise(value).Ok?
    ensures PricePaise(value) == CreditLimitPaise(value)
  {
    var trimmed := Trim(value, IsSpace);
    var text := Without(trimmed, IsComma);
    if text != "" {
      DecimalLetters(text, None);
      WithoutMore(trimmed, IsComma, IsCreditMark);
      SamePadding(ReadDecimal(text, None).value.fraction);
    } else {
      WithoutMore(trimmed, IsComma, IsCreditMark);
    }
  }
}

/**
 * Display formatting of phone and card numbers (src/utils/formatters.js).
 *
 * Every formatter first treats an empty input as `''`, and reduces the rest to its
 * ASCII digits (`replace(/\D/g, '')`, `Text.Digits`).
 */
module Formatters {
  import opened Text

  /** `cleanPhoneNumber`: the digits only, for storage. */
  function CleanPhoneNumber(phone: string): (r: string)
    ensures All(r, IsDigit)
    ensures All(phone, IsDigit) ==> r == phone
    ensures r == Digits(phone)
  {
    if phone == "" then "" else Digits(phone)
  }

  /** Cleaning an already clean number changes nothing. */
  lemma CleanPhoneIdempotent(phone: string)
    ensures CleanPhoneNumber(CleanPhoneNumber(phone)) == CleanPhoneNumber(phone)
  {
  }

  /**
   * `formatPhoneNumber`: ten digits are shown as `ddd ddd dddd`; any other count is
   * shown as the bare digits.
   */
  function FormatPhoneNumber(phone: string): (r: string)
    ensures phone == "" ==> r == ""
    ensures |CleanPhoneNumber(phone)| == 10 ==>
      && |r| == 12 && r[3] == ' ' && r[7] == ' '
      && r[..3] == CleanPhoneNumber(phone)[..3]
      && r[4..7] == CleanPhoneNumber(phone)[3..6]
      && r[8..] == CleanPhoneNumber(phone)[6..]
    ensures |CleanPhoneNumber(phone)| != 10 ==> r == CleanPhoneNumber(phone)
  {
    if phone == "" then ""
    else
      var clean := Digits(phone);
      if |clean| == 10 then clean[..3] + " " + clean[3..6] + " " + clean[6..]
      else clean
  }

  /** A non-digit separator vanishes from the digit projection. */
  lemma {:induction false} DigitsSkipSeparator(a: string, sep: char, b: string)
    requires !IsDigit(sep)
    ensures Digits(a + [sep] + b) == Digits(a) + Digits(b)
  {
    DigitsAppend(a + [sep], b);
    DigitsAppend(a, [sep]);
    assert Digits([sep]) == [];
  }

  /** Round trip: cleaning the formatted number gives back the clean number. */
  lemma {:induction false} FormatThenClean(phone: string)
    ensures CleanPhoneNumber(FormatPhoneNumber(phone)) == CleanPhoneNumber(phone)
  {
    var clean := CleanPhoneNumber(phone);
    if |clean| == 10 {
      var a, b, c := clean[..3], clean[3..6], clean[6..];
      assert FormatPhoneNumber(phone) == a + [' '] + (b + [' '] + c);
      assert All(a, IsDigit) && All(b, IsDigit) && All(c, IsDigit);
      SpacedDigits(a, b, c);
      assert clean == a + b + c;
    }
  }

  /** Digits separated by two spaces clean back to the digits. */
  lemma {:induction false} SpacedDigits(a: string, b: string, c: string)
    requires All(a, IsDigit) && All(b, IsDigit) && All(c, IsDigit)
    ensures Digits(a + [' '] + (b + [' '] + c)) == a + b + c
  {
    DigitsSkipSeparator(a, ' ', b + [' '] + c);
    DigitsSkipSeparator(b, ' ', c);
  }

  /** The mask shown before the last four digits. */
  const CARD_MASK := "**** **** **** "

  /**
   * `formatCardNumber`: with at least four digits, the mask and the last four
   * digits; with fewer, the input exactly as given.
   */
  function FormatCardNumber(cardNumber: string): (r: string)
    ensures cardNumber == "" ==> r == ""
    ensures |Digits(cardNumber)| >= 4 ==>
      |r| == 19 && r[..15] == CARD_MASK && r[15..] == Digits(cardNumber)[|Digits(cardNumber)| - 4..]
    ensures |Digits(cardNumber)| < 4 ==> r == cardNumber
  {
    if cardNumber == "" then ""
    else
      var clean := Digits(cardNumber);
      if |clean| >= 4 then CARD_MASK + clean[|clean| - 4..] else cardNumber
  }

  /** A masked number reveals no digit but the last four. */
  lemma {:induction false} MaskRevealsLastFour(cardNumber: string)
    requires |Digits(cardNumber)| >= 4
    ensures Digits(FormatCardNumber(cardNumber)) == Digits(cardNumber)[|Digits(cardNumber)| - 4..]
  {
    var clean := Digits(cardNumber);
    var last := clean[|clean| - 4..];
    assert FormatCardNumber(cardNumber) == CARD_MASK + last;
    DigitsAppend(CARD_MASK, last);
    MaskHasNoDigits();
    DigitSuffix(clean, |clean| - 4);
  }

  /** A suffix of a digit string is its own digit projection. */
  lemma DigitSuffix(clean: string, k: nat)
    requires All(clean, IsDigit) && k <= |clean|
    ensures Digits(clean[k..]) == clean[k..]
  {
    assert All(clean[k..], IsDigit);
  }

  lemma MaskHasNoDigits()
    ensures Digits(CARD_MASK) == []
  {
    var g := "**** ";
    assert Digits(g) == [] by {
      forall i | 0 <= i < |g| ensures !IsDigit(g[i]) {
        assert g[i] == '*' || g[i] == ' ';
      }
    }
    assert CARD_MASK == g + g + g;
    DigitsAppend(g, g);
    DigitsAppend(g + g, g);
  }
}

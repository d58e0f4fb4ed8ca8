/**
 * The card form of the payment-method manager
 * (src/features/profile/components/PaymentManager.js): how typed input is
 * normalised, which submissions are refused, and what reaches the account store.
 *
 * Only the last four digits of a card are ever stored.
 */
module PaymentForm {
  import opened Wrappers
  import opened Text
  import opened Rules
  import opened Records
  import opened DataService
  import opened Formatters
  import opened Items

  datatype CardForm = CardForm(cardType: string, cardNumber: string, expiry: string, cardName: string)

  /** The blank form `resetForm` restores. */
  const BLANK_FORM := CardForm("Visa", "", "", "")

  /** The four inputs of the form. */
  datatype Input = CardType | CardNumber | Expiry | CardName

  // ---------------------------------------------------------------------------
  // Input normalisation
  // ---------------------------------------------------------------------------

  /**
   * `replace(/(\d{4})(?=\d)/g, '$1 ')` on a digit string: a space after every full
   * group of four that another digit follows.
   */
  function GroupCard(c: string): (r: string)
    ensures c == [] ==> r == []
    ensures c != [] ==> |r| == |c| + (|c| - 1) / 4
    decreases |c|
  {
    if |c| <= 4 then c else c[..4] + " " + GroupCard(c[4..])
  }

  /**
   * The layout of a grouped number: every fifth character is a space, and the
   * others are the digits in order.
   */
  lemma {:induction false} GroupCardLayout(c: string)
    ensures forall i :: 0 <= i < |GroupCard(c)| ==>
      (if i % 5 == 4 then GroupCard(c)[i] == ' ' else GroupCard(c)[i] == c[i - i / 5])
    decreases |c|
  {
    if |c| > 4 {
      var rest := GroupCard(c[4..]);
      GroupCardLayout(c[4..]);
      var r := GroupCard(c);
      assert r == c[..4] + " " + rest;
      forall i | 0 <= i < |r|
        ensures if i % 5 == 4 then r[i] == ' ' else r[i] == c[i - i / 5]
      {
        if i >= 5 {
          var j := i - 5;
          assert r[i] == rest[j];
          assert j % 5 == i % 5 && j / 5 == i / 5 - 1;
          if j % 5 != 4 {
            assert rest[j] == c[4..][j - j / 5];
          }
        }
      }
    }
  }

  /** The grouping neither starts nor ends with a space: it starts and ends with a digit of the number. */
  lemma GroupCardEnds(c: string)
    requires c != []
    ensures GroupCard(c)[0] == c[0]
    ensures GroupCard(c)[|GroupCard(c)| - 1] == c[|c| - 1]
  {
    GroupCardLayout(c);
    var r := GroupCard(c);
    LastSlot(|c| - 1);
  }

  /** The last character of a grouping of `m + 1` digits sits in no space slot. */
  lemma LastSlot(m: nat)
    ensures (m + m / 4) % 5 == m % 4 && (m + m / 4) / 5 == m / 4
  {
    var q, k := m / 4, m % 4;
    assert m == 4 * q + k;
    assert m + m / 4 == 5 * q + k;
  }

  /** Removing the spaces (indeed every non-digit) of a grouped digit string gives back the digits. */
  lemma {:induction false} GroupCardDigits(c: string)
    requires All(c, IsDigit)
    ensures Digits(GroupCard(c)) == c
    decreases |c|
  {
    if |c| > 4 {
      assert All(c[4..], IsDigit);
      GroupCardDigits(c[4..]);
      assert All(c[..4], IsDigit);
      DigitsSkipSeparator(c[..4], ' ', GroupCard(c[4..]));
      assert c[..4] + " " + GroupCard(c[4..]) == c[..4] + [' '] + GroupCard(c[4..]);
      assert c == c[..4] + c[4..];
    }
  }

  /** The card-number input: the digits typed, grouped by four. */
  function FormatCardInput(value: string): (r: string)
    ensures Digits(r) == Digits(value)
  {
    GroupCardDigits(Digits(value));
    GroupCard(Digits(value))
  }

  /** `replace(/(\d{2})(\d{2})/, '$1/$2')` on the digits typed: a slash after the first two of four or more. */
  function FormatExpiryInput(value: string): (r: string)
    ensures |Digits(value)| < 4 ==> r == Digits(value)
    ensures |Digits(value)| >= 4 ==> |r| == |Digits(value)| + 1 && r[2] == '/'
  {
    var c := Digits(value);
    if |c| >= 4 then c[..2] + "/" + c[2..] else c
  }

  /** The slash is the only character added: the digits are kept. */
  lemma {:induction false} ExpiryInputDigits(value: string)
    ensures Digits(FormatExpiryInput(value)) == Digits(value)
  {
    var c := Digits(value);
    if |c| >= 4 {
      assert FormatExpiryInput(value) == c[..2] + ['/'] + c[2..];
      DigitsSkipSeparator(c[..2], '/', c[2..]);
      assert All(c[..2], IsDigit) && All(c[2..], IsDigit);
      assert c == c[..2] + c[2..];
    }
  }

  /** A formatted expiry has the `MM/YY` shape exactly when four digits were typed. */
  lemma ExpiryInputShape(value: string)
    ensures ExpiryRegex(FormatExpiryInput(value)) <==> |Digits(value)| == 4
  {
    var c := Digits(value);
    if |c| >= 4 {
      var r := FormatExpiryInput(value);
      assert r == c[..2] + "/" + c[2..];
      assert r[0] == c[0] && r[1] == c[1] && r[3] == c[2];
      if |c| == 4 {
        assert r[4] == c[3];
      }
    } else {
      assert FormatExpiryInput(value) == c;
      assert |c| == 0 || c[|c| - 1] != '/';
      if |c| >= 3 {
        assert IsDigit(c[2]);
      }
    }
  }

  /** `handleInputChange(name, value)`: only the named input changes. */
  function InputChange(form: CardForm, input: Input, value: string): (r: CardForm)
    ensures input == CardNumber ==> r == form.(cardNumber := FormatCardInput(value))
    ensures input == Expiry ==> r == form.(expiry := FormatExpiryInput(value))
    ensures input == CardType ==> r == form.(cardType := value)
    ensures input == CardName ==> r == form.(cardName := value)
  {
    match input
    case CardNumber => form.(cardNumber := FormatCardInput(value))
    case Expiry => form.(expiry := FormatExpiryInput(value))
    case CardType => form.(cardType := value)
    case CardName => form.(cardName := value)
  }

  // ---------------------------------------------------------------------------
  // Editing and submitting
  // ---------------------------------------------------------------------------

  /** A template literal shows an absent property as `undefined`. */
  function Shown(fields: map<string, string>, key: string): string {
    if key in fields then fields[key] else UNDEFINED
  }

  const UNDEFINED := "undefined"

  /** An absent property is falsy; the form reads it as an empty input. */
  function Prop(fields: map<string, string>, key: string): string {
    if key in fields then fields[key] else ""
  }

  /** `handleEditPayment(payment)`: the number field shows `****` and the stored last four. */
  function EditPrefill(payment: Item): (r: CardForm)
    ensures r.cardType == Prop(payment.fields, "type")
    ensures r.cardNumber == "****" + Shown(payment.fields, "last4")
    ensures r.expiry == Prop(payment.fields, "expiry") && r.cardName == Prop(payment.fields, "cardName")
  {
    CardForm(Prop(payment.fields, "type"), "****" + Shown(payment.fields, "last4"),
      Prop(payment.fields, "expiry"), Prop(payment.fields, "cardName"))
  }

  const FILL_ALL := "Vui lòng điền đầy đủ thông tin"
  const CARD_INVALID := "Số thẻ không hợp lệ"
  const EXPIRY_INVALID := "Định dạng ngày hết hạn không hợp lệ (MM/YY)"
  const SAVE_FAILED := "Có lỗi xảy ra khi lưu thẻ"
  const UPDATED := "Cập nhật thẻ thành công!"
  const ADDED := "Thêm thẻ thành công!"

  const CARD_MIN_DIGITS := 13
  const CARD_MAX_DIGITS := 19

  datatype Toast = ErrorToast(message: string) | SuccessToast(message: string)

  /** The checks of `handleSubmit`, in order: the message of the first that fails. */
  function SubmitCheck(form: CardForm): (r: Option<string>)
    ensures r == Some(FILL_ALL) <==> form.cardNumber == "" || form.expiry == "" || form.cardName == ""
    ensures r == Some(CARD_INVALID) <==>
      && form.cardNumber != "" && form.expiry != "" && form.cardName != ""
      && !(CARD_MIN_DIGITS <= |Digits(form.cardNumber)| <= CARD_MAX_DIGITS)
    ensures r.None? <==>
      && form.cardNumber != "" && form.expiry != "" && form.cardName != ""
      && CARD_MIN_DIGITS <= |Digits(form.cardNumber)| <= CARD_MAX_DIGITS
      && ExpiryRegex(form.expiry)
    ensures r.Some? ==> r.value in {FILL_ALL, CARD_INVALID, EXPIRY_INVALID}
  {
    if form.cardNumber == "" || form.expiry == "" || form.cardName == "" then Some(FILL_ALL)
    else
      var clean := Digits(form.cardNumber);
      if |clean| < CARD_MIN_DIGITS || |clean| > CARD_MAX_DIGITS then Some(CARD_INVALID)
      else if !ExpiryRegex(form.expiry) then Some(EXPIRY_INVALID)
      else None
  }

  /** The record handed to the store: type, expiry, name and only the last four digits. */
  function PaymentData(form: CardForm): (d: ItemData)
    requires |Digits(form.cardNumber)| >= 4
    ensures d.id.None? && d.isDefault.None?
    ensures d.fields.Keys == {"type", "last4", "expiry", "cardName"}
    ensures |d.fields["last4"]| == 4
    ensures Digits(form.cardNumber) == Digits(form.cardNumber)[..|Digits(form.cardNumber)| - 4] + d.fields["last4"]
    ensures d.fields["type"] == form.cardType && d.fields["expiry"] == form.expiry
    ensures d.fields["cardName"] == form.cardName
  {
    var clean := Digits(form.cardNumber);
    ItemData(None,
      map["type" := form.cardType, "last4" := clean[|clean| - 4..], "expiry" := form.expiry,
          "cardName" := form.cardName],
      None)
  }

  /**
   * `handleSubmit`: a refused form writes nothing; an accepted one adds a card, or
   * updates the card being edited, and reports whether the store found the user
   * (and the card).
   */
  function Submit(s: Store, userId: int, form: CardForm, editing: Option<int>, freshId: int): (r: (Store, Toast))
    ensures SubmitCheck(form).Some? ==> r == (s, ErrorToast(SubmitCheck(form).value))
    ensures SubmitCheck(form).None? && editing.None? ==>
      && r.0 == AddPaymentMethod(s, userId, PaymentData(form), freshId).0
      && (r.1 == SuccessToast(ADDED) <==> UserIndex(s, userId).Some?)
      && (r.1 == ErrorToast(SAVE_FAILED) <==> UserIndex(s, userId).None?)
    ensures SubmitCheck(form).None? && editing.Some? ==>
      && r.0 == UpdatePaymentMethod(s, userId, editing.value, PaymentData(form)).0
      && (r.1 == SuccessToast(UPDATED) <==>
            UserIndex(s, userId).Some? && IndexOf(ItemsOf(s.users[UserIndex(s, userId).value], PaymentMethods), editing.value).Some?)
      && (r.1.SuccessToast? || r.1 == ErrorToast(SAVE_FAILED))
  {
    match SubmitCheck(form)
    case Some(message) => (s, ErrorToast(message))
    case None =>
      var data := PaymentData(form);
      match editing
      case Some(paymentId) =>
        var (s', result) := UpdatePaymentMethod(s, userId, paymentId, data);
        (s', if result.Some? then SuccessToast(UPDATED) else ErrorToast(SAVE_FAILED))
      case None =>
        var (s', result) := AddPaymentMethod(s, userId, data, freshId);
        (s', if result.Some? then SuccessToast(ADDED) else ErrorToast(SAVE_FAILED))
  }

  lemma UndefinedHasNoDigits()
    ensures Digits("****" + UNDEFINED) == []
  {
    assert Digits("****") == [] by {
      assert forall i :: 0 <= i < 4 ==> "****"[i] == '*';
    }
    assert Digits(UNDEFINED) == [] by {
      forall i | 0 <= i < |UNDEFINED| ensures !IsDigit(UNDEFINED[i]) {
        assert IsLower(UNDEFINED[i]);
      }
    }
    DigitsAppend("****", UNDEFINED);
  }

  /** A digit string of at most four characters shown after `****` is too short for a card. */
  lemma PrefillDigits(last4: string)
    requires |last4| <= 4
    ensures |Digits("****" + last4)| <= 4
  {
    DigitsAppend("****", last4);
    assert forall i :: 0 <= i < 4 ==> "****"[i] == '*';
  }

  /**
   * Editing a card without retyping its number is always refused: the prefilled
   * `****` and last four clean to at most four digits.
   */
  lemma EditWithoutRetypingRefused(s: Store, userId: int, payment: Item, freshId: int)
    requires "last4" in payment.fields ==> |payment.fields["last4"]| <= 4
    ensures Submit(s, userId, EditPrefill(payment), Some(payment.id), freshId).0 == s
    ensures Submit(s, userId, EditPrefill(payment), Some(payment.id), freshId).1.ErrorToast?
  {
    var form := EditPrefill(payment);
    if "last4" in payment.fields {
      PrefillDigits(payment.fields["last4"]);
    } else {
      UndefinedHasNoDigits();
    }
  }

  /** The card the form adds carries the last four digits of what was typed, and is the default iff it is the first. */
  lemma AddedCardKeepsLastFour(s: Store, userId: int, form: CardForm, freshId: int, i: nat)
    requires SubmitCheck(form).None? && UserIndex(s, userId) == Some(i)
    ensures var r := Submit(s, userId, form, None, freshId);
      var cards := r.0.users[i].paymentMethods;
      && |cards| == |s.users[i].paymentMethods| + 1
      && cards[|cards| - 1].fields["last4"] == Digits(form.cardNumber)[|Digits(form.cardNumber)| - 4..]
      && (cards[|cards| - 1].isDefault <==> s.users[i].paymentMethods == [])
  {
    var data := PaymentData(form);
    var a := AddPaymentMethod(s, userId, data, freshId);
    assert AddSpec(s, userId, PaymentMethods, data, freshId, a);
  }
}

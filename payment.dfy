/**
 * The payment page's form: the formatters applied to the card number, expiry
 * and CVV inputs on every keystroke (client/src/pages/Payment.jsx,
 * handleInputChange), and the ordered chain of checks run before a payment
 * is submitted (validateForm). The React setters become return values.
 */
module Payment {
  import opened Wrappers
  import opened JsText

  function Min(a: int, b: int): int {
    if a <= b then a else b
  }

  // ---------------------------------------------------------------------
  // Card number
  // ---------------------------------------------------------------------

  /**
   * `s.replace(/(\d{4})/g, '$1 ')`: the global match scans left to right;
   * where four digits start at the scan position they are copied followed by
   * a blank and the scan resumes after them, otherwise one character is
   * copied unchanged.
   */
  function GroupDigits(s: string): string
    decreases |s|
  {
    if s == [] then []
    else if |s| >= 4 && AllDigits(s[..4]) then s[..4] + " " + GroupDigits(s[4..])
    else [s[0]] + GroupDigits(s[1..])
  }

  /** Card number as typed into the field: whitespace removed, a blank after every four digits, trimmed. */
  function FormatCardNumber(v: string): string {
    Trim(GroupDigits(RemoveWhitespace(v)))
  }

  /** Reference layout of a digit string: groups of four separated by single blanks. */
  function Grouped(d: string): string
    decreases |d|
  {
    if |d| <= 4 then d else d[..4] + " " + Grouped(d[4..])
  }

  /** The card-number check: `/^\d{16}$/` on the value with whitespace removed. */
  predicate CardNumberOk(s: string) {
    var w := RemoveWhitespace(s);
    |w| == 16 && AllDigits(w)
  }

  /** The grouping only inserts blanks: removing whitespace undoes it. */
  lemma {:induction false} GroupDigitsKeepsContent(s: string)
    ensures RemoveWhitespace(GroupDigits(s)) == RemoveWhitespace(s)
    decreases |s|
  {
    if s == [] {
    } else if |s| >= 4 && AllDigits(s[..4]) {
      var a, t := s[..4], s[4..];
      assert GroupDigits(s) == (a + " ") + GroupDigits(t);
      GroupDigitsKeepsContent(t);
      RemoveWhitespaceAppend(a + " ", GroupDigits(t));
      RemoveWhitespaceBlankAfter(a);
      assert s == a + t;
      RemoveWhitespaceAppend(a, t);
    } else {
      var t := s[1..];
      assert GroupDigits(s) == [s[0]] + GroupDigits(t);
      GroupDigitsKeepsContent(t);
      RemoveWhitespaceAppend([s[0]], GroupDigits(t));
      assert s == [s[0]] + t;
      RemoveWhitespaceAppend([s[0]], t);
    }
  }

  /** Formatting the card number changes nothing but whitespace. */
  lemma FormatCardNumberKeepsContent(v: string)
    ensures RemoveWhitespace(FormatCardNumber(v)) == RemoveWhitespace(v)
  {
    var w := RemoveWhitespace(v);
    RemoveWhitespaceTrim(GroupDigits(w));
    GroupDigitsKeepsContent(w);
    RemoveWhitespaceIdempotent(v);
  }

  /** Re-formatting an already formatted card number leaves it as it is. */
  lemma FormatCardNumberIdempotent(v: string)
    ensures FormatCardNumber(FormatCardNumber(v)) == FormatCardNumber(v)
  {
    FormatCardNumberKeepsContent(v);
  }

  /** Formatting never changes the card-number check's verdict; in particular 16 digits always pass. */
  lemma CardNumberAccepted(v: string)
    ensures CardNumberOk(FormatCardNumber(v)) <==> CardNumberOk(v)
    ensures AllDigits(v) && |v| == 16 ==> CardNumberOk(FormatCardNumber(v))
  {
    FormatCardNumberKeepsContent(v);
    if AllDigits(v) {
      RemoveWhitespaceFixed(v);
    }
  }

  lemma {:induction false} GroupDigitsShort(s: string)
    requires |s| < 4
    ensures GroupDigits(s) == s
    decreases |s|
  {
    if s != [] {
      GroupDigitsShort(s[1..]);
      assert s == [s[0]] + s[1..];
    }
  }

  /** On digits, the regular-expression grouping is the reference layout plus a blank after a final full group. */
  lemma {:induction false} GroupDigitsOfDigits(d: string)
    requires AllDigits(d)
    ensures GroupDigits(d) == Grouped(d) + (if |d| > 0 && |d| % 4 == 0 then " " else "")
    decreases |d|
  {
    if |d| < 4 {
      GroupDigitsShort(d);
    } else if |d| == 4 {
      assert d[..4] == d;
      assert d[4..] == [];
    } else {
      assert AllDigits(d[..4]);
      GroupDigitsOfDigits(d[4..]);
    }
  }

  lemma {:induction false} GroupedEnds(d: string)
    requires AllDigits(d) && d != []
    ensures var g := Grouped(d); g != [] && IsDigit(g[0]) && IsDigit(g[|g| - 1])
    decreases |d|
  {
    if |d| > 4 {
      GroupedEnds(d[4..]);
    }
  }

  lemma TrimGroupedSpace(g: string)
    requires g != [] && !IsWhitespace(g[0]) && !IsWhitespace(g[|g| - 1])
    ensures Trim(g + " ") == g
  {
    assert (g + " ")[0] == g[0];
    assert TrimStart(g + " ") == g + " ";
    TrimEndSpace(g);
  }

  /** A digit string is formatted into groups of four separated by single blanks, with nothing trailing. */
  lemma CardNumberLayout(d: string)
    requires AllDigits(d)
    ensures FormatCardNumber(d) == Grouped(d)
  {
    RemoveWhitespaceFixed(d);
    GroupDigitsOfDigits(d);
    if d != [] {
      GroupedEnds(d);
      var g := Grouped(d);
      if |d| % 4 == 0 {
        assert GroupDigits(d) == g + " ";
        TrimGroupedSpace(g);
      } else {
        assert GroupDigits(d) == g;
        TrimOfSolid(g);
      }
    }
  }

  /** Sixteen digits are shown as four blocks of four, nineteen characters in all. */
  lemma SixteenDigitLayout(d: string)
    requires AllDigits(d) && |d| == 16
    ensures FormatCardNumber(d) == d[..4] + " " + d[4..8] + " " + d[8..12] + " " + d[12..]
    ensures |FormatCardNumber(d)| == 19
  {
    CardNumberLayout(d);
    assert d[8..][..4] == d[8..12] && d[8..][4..] == d[12..];
    assert Grouped(d[8..]) == d[8..12] + " " + d[12..];
    assert d[4..][..4] == d[4..8] && d[4..][4..] == d[8..];
    assert Grouped(d[4..]) == d[4..8] + " " + d[8..12] + " " + d[12..];
  }

  // ---------------------------------------------------------------------
  // Expiry and CVV
  // ---------------------------------------------------------------------

  /**
   * Expiry as typed: digits only; from two digits on, the first two, a slash,
   * then at most the next two.
   */
  function FormatExpiry(v: string): string {
    var d := KeepDigits(v);
    if |d| >= 2 then d[..2] + "/" + d[2..Min(4, |d|)] else d
  }

  /**
   * The formatted expiry has at most five characters, all digits but a slash
   * at index 2 once two digits were typed; with fewer it is just those digits.
   */
  lemma ExpiryShape(v: string)
    ensures var r := FormatExpiry(v);
      && |r| <= 5
      && (|KeepDigits(v)| < 2 ==> r == KeepDigits(v))
      && (|KeepDigits(v)| >= 2 ==> |r| >= 3 && r[2] == '/')
      && forall i :: 0 <= i < |r| && i != 2 ==> IsDigit(r[i])
  {
    KeepDigitsShape(v);
  }

  /** The expiry check: `/^\d{2}\/\d{2}$/`. */
  predicate ExpiryOk(s: string) {
    |s| == 5 && IsDigit(s[0]) && IsDigit(s[1]) && s[2] == '/' && IsDigit(s[3]) && IsDigit(s[4])
  }

  /** The digits of the formatted expiry are the first (at most four) digits typed. */
  lemma ExpiryKeepsDigits(v: string)
    ensures var d := KeepDigits(v); KeepDigits(FormatExpiry(v)) == d[..Min(4, |d|)]
  {
    KeepDigitsShape(v);
    var d := KeepDigits(v);
    if |d| >= 2 {
      KeepDigitsAppend(d[..2] + "/", d[2..Min(4, |d|)]);
      KeepDigitsAppend(d[..2], "/");
      KeepDigitsFixed(d[..2]);
      KeepDigitsFixed(d[2..Min(4, |d|)]);
      assert d[..Min(4, |d|)] == d[..2] + d[2..Min(4, |d|)];
    } else {
      KeepDigitsFixed(d);
    }
  }

  /** A formatted expiry passes the check exactly when at least four digits were typed. */
  lemma ExpiryAccepted(v: string)
    ensures ExpiryOk(FormatExpiry(v)) <==> |KeepDigits(v)| >= 4
  {
    ExpiryShape(v);
  }

  lemma FormatExpiryIdempotent(v: string)
    ensures FormatExpiry(FormatExpiry(v)) == FormatExpiry(v)
  {
    ExpiryKeepsDigits(v);
    var d := KeepDigits(v);
    var e := d[..Min(4, |d|)];
    assert e[..Min(2, |e|)] == d[..Min(2, |d|)];
    if |e| >= 2 {
      assert e[2..Min(4, |e|)] == d[2..Min(4, |d|)];
    }
  }

  /** CVV as typed: digits only, at most four. */
  function FormatCvv(v: string): string {
    var d := KeepDigits(v);
    d[..Min(4, |d|)]
  }

  /** The formatted CVV is the first (at most four) digits typed. */
  lemma CvvShape(v: string)
    ensures var r := FormatCvv(v);
      && AllDigits(r)
      && |r| == Min(4, |KeepDigits(v)|)
      && r == KeepDigits(v)[..|r|]
  {
    KeepDigitsShape(v);
  }

  /** The CVV check: `/^\d{3,4}$/`. */
  predicate CvvOk(s: string) {
    3 <= |s| <= 4 && AllDigits(s)
  }

  /** A formatted CVV passes the check exactly when at least three digits were typed. */
  lemma CvvAccepted(v: string)
    ensures CvvOk(FormatCvv(v)) <==> |KeepDigits(v)| >= 3
  {
    CvvShape(v);
  }

  lemma FormatCvvIdempotent(v: string)
    ensures FormatCvv(FormatCvv(v)) == FormatCvv(v)
  {
    CvvShape(v);
    KeepDigitsFixed(FormatCvv(v));
  }

  // ---------------------------------------------------------------------
  // The form state and its update
  // ---------------------------------------------------------------------

  datatype Field = CardName | CardNumber | Expiry | Cvv | BillingEmail | BillingAddress | BillingCity | BillingZip

  datatype FormData = FormData(
    cardName: string,
    cardNumber: string,
    expiry: string,
    cvv: string,
    billingEmail: string,
    billingAddress: string,
    billingCity: string,
    billingZip: string)

  function Get(f: FormData, field: Field): string {
    match field
    case CardName => f.cardName
    case CardNumber => f.cardNumber
    case Expiry => f.expiry
    case Cvv => f.cvv
    case BillingEmail => f.billingEmail
    case BillingAddress => f.billingAddress
    case BillingCity => f.billingCity
    case BillingZip => f.billingZip
  }

  /** The value stored for a field: only the card number, expiry and CVV are reformatted. */
  function Formatted(field: Field, value: string): string {
    match field
    case CardNumber => FormatCardNumber(value)
    case Expiry => FormatExpiry(value)
    case Cvv => FormatCvv(value)
    case _ => value
  }

  /** The form when the page opens: every field empty but the e-mail, which is the signed-in user's if known. */
  function InitialForm(email: Option<string>): (r: FormData)
    ensures forall g :: g != BillingEmail ==> Get(r, g) == ""
    ensures Get(r, BillingEmail) == (if email.Some? then email.value else "")
  {
    FormData("", "", "", "", if email.Some? then email.value else "", "", "", "")
  }

  /** One change event: the named field takes the formatted value and every other field keeps its value. */
  function HandleInputChange(f: FormData, field: Field, value: string): (r: FormData)
    ensures Get(r, field) == Formatted(field, value)
    ensures forall g :: g != field ==> Get(r, g) == Get(f, g)
  {
    var x := Formatted(field, value);
    match field
    case CardName => f.(cardName := x)
    case CardNumber => f.(cardNumber := x)
    case Expiry => f.(expiry := x)
    case Cvv => f.(cvv := x)
    case BillingEmail => f.(billingEmail := x)
    case BillingAddress => f.(billingAddress := x)
    case BillingCity => f.(billingCity := x)
    case BillingZip => f.(billingZip := x)
  }

  /** Every formatted field is already in its formatted shape. */
  predicate WellFormatted(f: FormData) {
    && f.cardNumber == FormatCardNumber(f.cardNumber)
    && f.expiry == FormatExpiry(f.expiry)
    && f.cvv == FormatCvv(f.cvv)
  }

  lemma InitialFormWellFormatted(email: Option<string>)
    ensures WellFormatted(InitialForm(email))
  {
    assert FormatCardNumber("") == "";
    assert FormatExpiry("") == "";
  }

  /** Change events keep the form well formatted, so the formatted values are fixed points of their formatters. */
  lemma HandleInputChangeKeepsWellFormatted(f: FormData, field: Field, value: string)
    requires WellFormatted(f)
    ensures WellFormatted(HandleInputChange(f, field, value))
  {
    match field
    case CardNumber => FormatCardNumberIdempotent(value);
    case Expiry => FormatExpiryIdempotent(value);
    case Cvv => FormatCvvIdempotent(value);
    case _ =>
  }

  // ---------------------------------------------------------------------
  // Validation
  // ---------------------------------------------------------------------

  /** The checks of validateForm, in the order they run. */
  datatype FormError = MissingName | BadCardNumber | BadExpiry | BadCvv | MissingAddress | MissingCity | MissingZip

  function Message(e: FormError): string {
    match e
    case MissingName => "Cardholder name is required"
    case BadCardNumber => "Card number must be 16 digits"
    case BadExpiry => "Expiry date must be MM/YY"
    case BadCvv => "CVV must be 3-4 digits"
    case MissingAddress => "Billing address is required"
    case MissingCity => "City is required"
    case MissingZip => "ZIP code is required"
  }

  /** Position of a check in the chain. */
  function Rank(e: FormError): nat {
    match e
    case MissingName => 0
    case BadCardNumber => 1
    case BadExpiry => 2
    case BadCvv => 3
    case MissingAddress => 4
    case MissingCity => 5
    case MissingZip => 6
  }

  /** Whether the form gets past check `e`. */
  predicate Passes(f: FormData, e: FormError) {
    match e
    case MissingName => NonBlank(f.cardName)
    case BadCardNumber => CardNumberOk(f.cardNumber)
    case BadExpiry => ExpiryOk(f.expiry)
    case BadCvv => CvvOk(f.cvv)
    case MissingAddress => NonBlank(f.billingAddress)
    case MissingCity => NonBlank(f.billingCity)
    case MissingZip => NonBlank(f.billingZip)
  }

  /**
   * validateForm: None when the form may be submitted; otherwise the first
   * check, in chain order, that the form fails (its Message is what is shown).
   */
  function ValidateForm(f: FormData): (r: Option<FormError>)
    ensures r.None? <==> forall e :: Passes(f, e)
    ensures r.Some? ==> !Passes(f, r.value) && forall e :: Rank(e) < Rank(r.value) ==> Passes(f, e)
  {
    var r :=
      if !NonBlank(f.cardName) then Some(MissingName)
      else if !CardNumberOk(f.cardNumber) then Some(BadCardNumber)
      else if !ExpiryOk(f.expiry) then Some(BadExpiry)
      else if !CvvOk(f.cvv) then Some(BadCvv)
      else if !NonBlank(f.billingAddress) then Some(MissingAddress)
      else if !NonBlank(f.billingCity) then Some(MissingCity)
      else if !NonBlank(f.billingZip) then Some(MissingZip)
      else None;
    assert r.Some? ==> !Passes(f, r.value);
    r
  }

  /** Every message names its own check. */
  lemma MessagesDistinct(e1: FormError, e2: FormError)
    ensures Message(e1) == Message(e2) ==> e1 == e2
  {
  }

  /**
   * A form whose card number, expiry and CVV were typed through the change
   * handler is accepted exactly when the name, address, city and ZIP are not
   * blank, the typed card number is 16 digits apart from whitespace, and at
   * least four expiry digits and three CVV digits were typed.
   */
  lemma TypedFormAccepted(f: FormData, card: string, expiry: string, cvv: string)
    ensures var g := HandleInputChange(HandleInputChange(HandleInputChange(f, CardNumber, card), Expiry, expiry), Cvv, cvv);
      ValidateForm(g).None? <==>
        && NonBlank(f.cardName)
        && CardNumberOk(card)
        && |KeepDigits(expiry)| >= 4
        && |KeepDigits(cvv)| >= 3
        && NonBlank(f.billingAddress)
        && NonBlank(f.billingCity)
        && NonBlank(f.billingZip)
  {
    CardNumberAccepted(card);
    ExpiryAccepted(expiry);
    CvvAccepted(cvv);
    var g := HandleInputChange(HandleInputChange(HandleInputChange(f, CardNumber, card), Expiry, expiry), Cvv, cvv);
    assert g == f.(cardNumber := FormatCardNumber(card), expiry := FormatExpiry(expiry), cvv := FormatCvv(cvv));
  }
}

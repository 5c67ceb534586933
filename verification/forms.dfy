/** The booking form and the product form: the per-field checks, including
    the start-time rules and the weekly limit on an email. */
module Forms {
  import opened Base
  import opened Models

  const LEAD_TIME: int := 24 * HOUR
  const OPENING_HOUR: int := 5
  const CLOSING_HOUR: int := 18
  /** Every service is assumed to take two hours. */
  const SERVICE_DURATION: int := 2 * HOUR

  /** The two clocks the validators read: `datetime.now()` for the lead
      time and `datetime.utcnow()` for the weekly limit. */
  datatype Clocks = Clocks(localNow: int, utcNow: int)

  datatype Field = ProductField | NameField | EmailField | PhoneField | StartField | NotesField
                 | DescriptionField | PriceField | StatusField | StripePriceField

  /** One message attached to one field of a submitted form. */
  datatype FieldError =
    | Required(field: Field)
    | NotAValidChoice(field: Field)
    | BadLength(field: Field)
    | TooSoon            // at least 24 hours in advance
    | OutsideHours       // only between 5 AM and 6 PM
    | SlotTaken          // this time slot is not available
    | WeeklyLimit        // one service per 7-day period
    | BelowMinimum(field: Field)

  /** What a customer submits on the booking page. */
  datatype BookingForm = BookingForm(
    productId: int,
    name: string,
    email: string,
    phone: string,
    start: int,
    notes: string)

  /** What an administrator submits for a product. The price is in cents. */
  datatype ProductForm = ProductForm(
    name: string,
    description: string,
    priceCents: int,
    status: string,
    isMembership: bool,
    stripePriceId: string)

  /** The choices offered in the service drop-down: the ACTIVE products. */
  function ProductChoices(products: map<int, Product>): (ids: set<int>)
    ensures ids <= products.Keys
    ensures forall id :: id in products ==> (id in ids <==> products[id].status == Active)
  {
    set id | id in products && products[id].status == Active
  }

  /** The ASCII characters `str.strip` removes: the space, the tab, the
      line and page breaks, and the four separators from 0x1C to 0x1F. */
  predicate IsSpace(c: char) {
    c == ' ' || c == '\t' || c == '\n' || c == '\r' || c == '\U{B}' || c == '\U{C}'
    || ('\U{1C}' <= c <= '\U{1F}')
  }

  /** `DataRequired` on a text field: the text has a non-space character. */
  predicate Present(s: string) {
    exists i :: 0 <= i < |s| && !IsSpace(s[i])
  }

  predicate LengthWithin(s: string, lo: int, hi: int) {
    lo <= |s| <= hi
  }

  /** A required text field with a length range: a blank value stops the
      chain at `DataRequired`, otherwise the length is checked. */
  function RequiredText(f: Field, s: string, lo: int, hi: int): (errs: set<FieldError>)
    ensures errs == {} <==> Present(s) && LengthWithin(s, lo, hi)
    ensures !Present(s) ==> errs == {Required(f)}
    ensures Present(s) && !LengthWithin(s, lo, hi) ==> errs == {BadLength(f)}
    ensures |errs| <= 1 && errs <= {Required(f), BadLength(f)}
  {
    if !Present(s) then {Required(f)}
    else if !LengthWithin(s, lo, hi) then {BadLength(f)}
    else {}
  }

  /** An optional text field with only a maximum length. */
  function OptionalText(f: Field, s: string, hi: int): (errs: set<FieldError>)
    ensures errs == {} <==> |s| <= hi
    ensures |errs| <= 1 && errs <= {BadLength(f)}
  {
    if |s| <= hi then {} else {BadLength(f)}
  }

  predicate InBusinessHours(t: int) {
    OPENING_HOUR <= HourOf(t) < CLOSING_HOUR
  }

  /** `BookingForm.validate_start`: three rules in order, the first that
      fails is the one reported. */
  function ValidateStart(store: Store, start: int, localNow: int): (err: Option<FieldError>)
    ensures start < localNow + LEAD_TIME ==> err == Some(TooSoon)
    ensures start >= localNow + LEAD_TIME && !InBusinessHours(start) ==> err == Some(OutsideHours)
    ensures start >= localNow + LEAD_TIME && InBusinessHours(start) ==>
      err == (if CheckAvailability(store, start, start + SERVICE_DURATION, None) then None else Some(SlotTaken))
  {
    if start < localNow + LEAD_TIME then Some(TooSoon)
    else if HourOf(start) < OPENING_HOUR || HourOf(start) >= CLOSING_HOUR then Some(OutsideHours)
    else
      var end := start + SERVICE_DURATION;
      if !CheckAvailability(store, start, end, None) then Some(SlotTaken) else None
  }

  /** Bookings whose end follows their start (every row the site writes). */
  predicate WellFormed(store: Store) {
    forall k :: k in store ==> store[k].start < store[k].end
  }

  /** What an accepted start means: far enough ahead, starting in an hour
      from 5 through 17, and its two hours meet no active booking. */
  lemma AcceptedStart(store: Store, start: int, localNow: int)
    requires WellFormed(store)
    ensures ValidateStart(store, start, localNow).None? <==>
      && start >= localNow + LEAD_TIME
      && 5 * HOUR <= start % DAY < 18 * HOUR
      && forall k :: k in store && IsActive(store[k].status) ==>
           !Intersects(store[k].start, store[k].end, start, start + SERVICE_DURATION)
  {
    var h := HourOf(start);
    assert h * HOUR <= start % DAY < (h + 1) * HOUR;
    assert InBusinessHours(start) <==> 5 * HOUR <= start % DAY < 18 * HOUR by {
      if 5 <= h < 18 {
        assert 5 * HOUR <= h * HOUR && (h + 1) * HOUR <= 18 * HOUR;
      } else if h < 5 {
        assert (h + 1) * HOUR <= 5 * HOUR;
      } else {
        assert 18 * HOUR <= h * HOUR;
      }
    }
  }

  /** Only the start hour is checked: on an empty calendar a booking may
      start at 17:30 and so run past 18:00. */
  lemma {:induction false} EndMayFollowClosing(d: int, localNow: int)
    requires At(d, 17, 30) >= localNow + LEAD_TIME
    ensures ValidateStart(map[], At(d, 17, 30), localNow).None?
    ensures HourOf(At(d, 17, 30) + SERVICE_DURATION) == 19
  {
    HourOfAt(d, 17, 30);
    assert At(d, 17, 30) + SERVICE_DURATION == At(d, 19, 30);
    HourOfAt(d, 19, 30);
  }

  /** `BookingForm.validate_email`: the form's own copy of the weekly-limit
      query. */
  function ValidateEmail(store: Store, email: string, utcNow: int): (err: Option<FieldError>)
    ensures err.None? <==> CanBook(store, email, utcNow)
    ensures err.Some? ==> err.value == WeeklyLimit
  {
    var cutoff := utcNow - WEEK;
    var recent := exists k :: k in store && store[k].email == email && store[k].start >= cutoff
                              && (store[k].status == Pending || store[k].status == Confirmed);
    if recent then Some(WeeklyLimit) else None
  }

  /** The product drop-down: `pre_validate` wants one of the choices, and
      `DataRequired` refuses the falsy id 0. `DataRequired` clears the
      field's earlier messages before it stops the chain, so id 0 reports
      only that the field is required. */
  function ProductErrors(products: map<int, Product>, productId: int): (errs: set<FieldError>)
    ensures errs == {} <==> productId in products && products[productId].status == Active && productId != 0
    ensures productId == 0 ==> errs == {Required(ProductField)}
    ensures productId != 0 ==>
      (errs == {NotAValidChoice(ProductField)} <==> productId !in products || products[productId].status != Active)
  {
    if productId == 0 then {Required(ProductField)}
    else if productId in ProductChoices(products) then {}
    else {NotAValidChoice(ProductField)}
  }

  /** The email field: a blank value stops at `DataRequired`, otherwise the
      weekly limit is checked. */
  function EmailErrors(store: Store, email: string, utcNow: int): (errs: set<FieldError>)
    ensures errs == {} <==> Present(email) && CanBook(store, email, utcNow)
    ensures Required(EmailField) in errs <==> !Present(email)
    ensures WeeklyLimit in errs <==> Present(email) && !CanBook(store, email, utcNow)
    ensures errs <= {Required(EmailField), WeeklyLimit}
  {
    if !Present(email) then {Required(EmailField)}
    else match ValidateEmail(store, email, utcNow)
      case None => {}
      case Some(e) => {e}
  }

  /** The start field: at most the one message `validate_start` raised. */
  function StartErrors(store: Store, start: int, localNow: int): (errs: set<FieldError>)
    ensures errs == {} <==> ValidateStart(store, start, localNow).None?
    ensures ValidateStart(store, start, localNow).Some? ==> errs == {ValidateStart(store, start, localNow).value}
    ensures errs <= {TooSoon, OutsideHours, SlotTaken}
  {
    match ValidateStart(store, start, localNow)
    case None => {}
    case Some(e) => {e}
  }

  /** Every field of the booking form, each with its own messages: the
      form is accepted when no field has one, and every failing field
      reports its message together with the others. The email's format
      check is not modelled. */
  function ValidateBookingForm(products: map<int, Product>, store: Store, form: BookingForm, clocks: Clocks)
    : (errs: set<FieldError>)
    ensures errs == {} <==>
      && ProductErrors(products, form.productId) == {}
      && RequiredText(NameField, form.name, 2, 100) == {}
      && EmailErrors(store, form.email, clocks.utcNow) == {}
      && RequiredText(PhoneField, form.phone, 10, 20) == {}
      && StartErrors(store, form.start, clocks.localNow) == {}
      && OptionalText(NotesField, form.notes, 500) == {}
    ensures errs <= {Required(ProductField), NotAValidChoice(ProductField), Required(NameField), BadLength(NameField),
                     Required(EmailField), WeeklyLimit, Required(PhoneField), BadLength(PhoneField),
                     TooSoon, OutsideHours, SlotTaken, BadLength(NotesField)}
    ensures WeeklyLimit in errs <==> Present(form.email) && !CanBook(store, form.email, clocks.utcNow)
  {
    var p := ProductErrors(products, form.productId);
    var n := RequiredText(NameField, form.name, 2, 100);
    var m := EmailErrors(store, form.email, clocks.utcNow);
    var ph := RequiredText(PhoneField, form.phone, 10, 20);
    var st := StartErrors(store, form.start, clocks.localNow);
    var no := OptionalText(NotesField, form.notes, 500);
    FieldMessages(p, n, m, ph, st, no);
    p + n + m + ph + st + no
  }

  /** Which message each field of the booking form reports: a blank
      required field only that it is required, otherwise a length outside
      its bounds; the service, email and start messages as their own rules
      decide. A start that is too soon is reported as such, whatever else
      is wrong with it. */
  lemma BookingFormMessages(products: map<int, Product>, store: Store, form: BookingForm, clocks: Clocks)
    ensures var errs := ValidateBookingForm(products, store, form, clocks);
      && (Required(ProductField) in errs <==> form.productId == 0)
      && (NotAValidChoice(ProductField) in errs <==>
            form.productId != 0 && (form.productId !in products || products[form.productId].status != Active))
      && (Required(NameField) in errs <==> !Present(form.name))
      && (BadLength(NameField) in errs <==> Present(form.name) && !LengthWithin(form.name, 2, 100))
      && (Required(EmailField) in errs <==> !Present(form.email))
      && (Required(PhoneField) in errs <==> !Present(form.phone))
      && (BadLength(PhoneField) in errs <==> Present(form.phone) && !LengthWithin(form.phone, 10, 20))
      && (TooSoon in errs <==> ValidateStart(store, form.start, clocks.localNow) == Some(TooSoon))
      && (OutsideHours in errs <==> ValidateStart(store, form.start, clocks.localNow) == Some(OutsideHours))
      && (SlotTaken in errs <==> ValidateStart(store, form.start, clocks.localNow) == Some(SlotTaken))
      && (form.start < clocks.localNow + LEAD_TIME ==> TooSoon in errs && OutsideHours !in errs && SlotTaken !in errs)
      && (BadLength(NotesField) in errs <==> |form.notes| > 500)
  {
    var p := ProductErrors(products, form.productId);
    var n := RequiredText(NameField, form.name, 2, 100);
    var m := EmailErrors(store, form.email, clocks.utcNow);
    var ph := RequiredText(PhoneField, form.phone, 10, 20);
    var st := StartErrors(store, form.start, clocks.localNow);
    var no := OptionalText(NotesField, form.notes, 500);
    assert ValidateBookingForm(products, store, form, clocks) == p + n + m + ph + st + no;
    FieldMessages(p, n, m, ph, st, no);
    var v := ValidateStart(store, form.start, clocks.localNow);
    assert TooSoon in st <==> v == Some(TooSoon);
    assert OutsideHours in st <==> v == Some(OutsideHours);
    assert SlotTaken in st <==> v == Some(SlotTaken);
  }

  /** The messages of the six booking-form fields never overlap, so a
      message is in the whole form's list exactly when its own field
      reports it. */
  lemma FieldMessages(p: set<FieldError>, n: set<FieldError>, m: set<FieldError>,
                      ph: set<FieldError>, st: set<FieldError>, no: set<FieldError>)
    requires p <= {Required(ProductField), NotAValidChoice(ProductField)}
    requires n <= {Required(NameField), BadLength(NameField)}
    requires m <= {Required(EmailField), WeeklyLimit}
    requires ph <= {Required(PhoneField), BadLength(PhoneField)}
    requires st <= {TooSoon, OutsideHours, SlotTaken}
    requires no <= {BadLength(NotesField)}
    ensures var all := p + n + m + ph + st + no;
      && (Required(ProductField) in all <==> Required(ProductField) in p)
      && (NotAValidChoice(ProductField) in all <==> NotAValidChoice(ProductField) in p)
      && (Required(NameField) in all <==> Required(NameField) in n)
      && (BadLength(NameField) in all <==> BadLength(NameField) in n)
      && (Required(EmailField) in all <==> Required(EmailField) in m)
      && (WeeklyLimit in all <==> WeeklyLimit in m)
      && (Required(PhoneField) in all <==> Required(PhoneField) in ph)
      && (BadLength(PhoneField) in all <==> BadLength(PhoneField) in ph)
      && (TooSoon in all <==> TooSoon in st)
      && (OutsideHours in all <==> OutsideHours in st)
      && (SlotTaken in all <==> SlotTaken in st)
      && (BadLength(NotesField) in all <==> BadLength(NotesField) in no)
  {
  }

  /** An accepted booking form names an ACTIVE product, carries contact
      fields within their bounds, an email that may book this week, and a
      start that passes every start rule. */
  lemma AcceptedBookingForm(products: map<int, Product>, store: Store, form: BookingForm, clocks: Clocks)
    ensures ValidateBookingForm(products, store, form, clocks) == {} <==>
      && form.productId in products && products[form.productId].status == Active
      && form.productId != 0
      && Present(form.name) && 2 <= |form.name| <= 100
      && Present(form.email) && CanBook(store, form.email, clocks.utcNow)
      && Present(form.phone) && 10 <= |form.phone| <= 20
      && |form.notes| <= 500
      && ValidateStart(store, form.start, clocks.localNow).None?
  {
  }

  /** The status choices of the product form. */
  const STATUS_CHOICES: set<string> := {"active", "coming_soon"}

  /** The price field: `DataRequired` treats a zero price as missing and
      stops the chain, otherwise `NumberRange(min=0)` refuses a negative
      price. The price must therefore be strictly positive. */
  function PriceErrors(priceCents: int): (errs: set<FieldError>)
    ensures errs == {} <==> priceCents > 0
    ensures Required(PriceField) in errs <==> priceCents == 0
    ensures BelowMinimum(PriceField) in errs <==> priceCents < 0
    ensures |errs| <= 1 && errs <= {Required(PriceField), BelowMinimum(PriceField)}
  {
    if priceCents == 0 then {Required(PriceField)}
    else if priceCents < 0 then {BelowMinimum(PriceField)}
    else {}
  }

  /** The status drop-down: a blank value (empty or only spaces) reports
      only that the field is required, since `DataRequired` clears the
      choice message first. */
  function StatusErrors(status: string): (errs: set<FieldError>)
    ensures errs == {} <==> ProductStatusFromValue(status).Some?
    ensures Required(StatusField) in errs <==> !Present(status)
    ensures NotAValidChoice(StatusField) in errs <==> Present(status) && ProductStatusFromValue(status).None?
    ensures |errs| <= 1 && errs <= {Required(StatusField), NotAValidChoice(StatusField)}
  {
    assert !IsSpace("active"[0]) && !IsSpace("coming_soon"[0]);
    assert Present("active") && Present("coming_soon");
    if !Present(status) then {Required(StatusField)}
    else if status in STATUS_CHOICES then {}
    else {NotAValidChoice(StatusField)}
  }

  /** Every field of the product form, each with its own messages. */
  function ValidateProductForm(form: ProductForm): (errs: set<FieldError>)
    ensures errs == {} <==>
      && RequiredText(NameField, form.name, 2, 100) == {}
      && OptionalText(DescriptionField, form.description, 500) == {}
      && PriceErrors(form.priceCents) == {}
      && StatusErrors(form.status) == {}
      && OptionalText(StripePriceField, form.stripePriceId, 100) == {}
    ensures errs <= {Required(NameField), BadLength(NameField), BadLength(DescriptionField), Required(PriceField),
                     BelowMinimum(PriceField), Required(StatusField), NotAValidChoice(StatusField),
                     BadLength(StripePriceField)}
  {
    var n := RequiredText(NameField, form.name, 2, 100);
    var d := OptionalText(DescriptionField, form.description, 500);
    var p := PriceErrors(form.priceCents);
    var st := StatusErrors(form.status);
    var sp := OptionalText(StripePriceField, form.stripePriceId, 100);
    n + d + p + st + sp
  }

  /** Which message each field of the product form reports: a blank name
      or status only that it is required, a zero price as missing and a
      negative one as below the minimum, otherwise the length or choice
      message of the field. */
  lemma ProductFormMessages(form: ProductForm)
    ensures var errs := ValidateProductForm(form);
      && (Required(NameField) in errs <==> !Present(form.name))
      && (BadLength(NameField) in errs <==> Present(form.name) && !LengthWithin(form.name, 2, 100))
      && (BadLength(DescriptionField) in errs <==> |form.description| > 500)
      && (Required(PriceField) in errs <==> form.priceCents == 0)
      && (BelowMinimum(PriceField) in errs <==> form.priceCents < 0)
      && (Required(StatusField) in errs <==> !Present(form.status))
      && (NotAValidChoice(StatusField) in errs <==> Present(form.status) && ProductStatusFromValue(form.status).None?)
      && (BadLength(StripePriceField) in errs <==> |form.stripePriceId| > 100)
  {
    var n := RequiredText(NameField, form.name, 2, 100);
    var d := OptionalText(DescriptionField, form.description, 500);
    var p := PriceErrors(form.priceCents);
    var st := StatusErrors(form.status);
    var sp := OptionalText(StripePriceField, form.stripePriceId, 100);
    assert ValidateProductForm(form) == n + d + p + st + sp;
    ProductFieldMessages(n, d, p, st, sp);
  }

  /** The messages of the five product-form fields never overlap, so a
      message is in the whole form's list exactly when its own field
      reports it. */
  lemma ProductFieldMessages(n: set<FieldError>, d: set<FieldError>, p: set<FieldError>,
                             st: set<FieldError>, sp: set<FieldError>)
    requires n <= {Required(NameField), BadLength(NameField)}
    requires d <= {BadLength(DescriptionField)}
    requires p <= {Required(PriceField), BelowMinimum(PriceField)}
    requires st <= {Required(StatusField), NotAValidChoice(StatusField)}
    requires sp <= {BadLength(StripePriceField)}
    ensures var all := n + d + p + st + sp;
      && (Required(NameField) in all <==> Required(NameField) in n)
      && (BadLength(NameField) in all <==> BadLength(NameField) in n)
      && (BadLength(DescriptionField) in all <==> BadLength(DescriptionField) in d)
      && (Required(PriceField) in all <==> Required(PriceField) in p)
      && (BelowMinimum(PriceField) in all <==> BelowMinimum(PriceField) in p)
      && (Required(StatusField) in all <==> Required(StatusField) in st)
      && (NotAValidChoice(StatusField) in all <==> NotAValidChoice(StatusField) in st)
      && (BadLength(StripePriceField) in all <==> BadLength(StripePriceField) in sp)
  {
  }

  /** An accepted product form has a name of 2 to 100 characters, a
      description of at most 500, a strictly positive price, a known status
      and a price id of at most 100 characters. */
  lemma AcceptedProductForm(form: ProductForm)
    ensures ValidateProductForm(form) == {} <==>
      && Present(form.name) && 2 <= |form.name| <= 100
      && |form.description| <= 500
      && form.priceCents > 0
      && ProductStatusFromValue(form.status).Some?
      && |form.stripePriceId| <= 100
  {
  }
}

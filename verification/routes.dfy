/** The reservation lifecycle: the booking route that reserves a slot and
    hands over to the payment processor, the two callbacks that resolve the
    reservation, and the guarded product deletion. Every route is a
    function from the site's state (and its request) to the next state. */
module Routes {
  import opened Base
  import opened Decimal
  import opened Models
  import opened Forms
  import opened Utils

  /** The site's tables: bookings with the next value of their id
      sequence, and products. */
  datatype Site = Site(bookings: Store, nextId: int, products: map<int, Product>)

  /** The id sequence is ahead of every id it has handed out. */
  predicate FreshIds(site: Site) {
    site.nextId >= 1 && forall k :: k in site.bookings ==> 1 <= k < site.nextId
  }

  /** No two active bookings occupy intersecting slots. */
  predicate NoDoubleBooking(store: Store) {
    forall i, j ::
      i in store && j in store && i != j && IsActive(store[i].status) && IsActive(store[j].status) ==>
        !Intersects(store[i].start, store[i].end, store[j].start, store[j].end)
  }

  /** What the routes of the site keep true of its tables. Every booking
      lasts the service duration and names an existing product; bookings
      are PENDING or CONFIRMED, since no route of the site ever sets the
      other two statuses; and active bookings never overlap. */
  predicate Valid(site: Site) {
    && FreshIds(site)
    && (forall k :: k in site.bookings ==> site.bookings[k].end == site.bookings[k].start + SERVICE_DURATION)
    && (forall k :: k in site.bookings ==> site.bookings[k].productId in site.products)
    && (forall k :: k in site.bookings ==> IsActive(site.bookings[k].status))
    && NoDoubleBooking(site.bookings)
  }

  /** The messages the routes flash. */
  datatype Message =
    | InvalidService
    | PaymentUnavailable
    | BookingConfirmed
    | ContactUsToVerify
    | BookingCancelled
    | CannotDeleteProduct
    | ProductDeleted

  /** Python's rendering of the domain inside an f-string: a missing domain
      prints as "None". */
  function DomainText(d: Option<string>): string {
    if d.Some? then d.value else "None"
  }

  const SUCCESS_PATH: string := "/booking/success?booking_id="
  const CANCEL_PATH: string := "/booking/cancel?booking_id="

  /** The callback URLs handed to the processor; each ends in the booking's id. */
  function CallbackUrl(domain: string, path: string, id: nat): (url: string)
    ensures url == "https://" + domain + path + DecimalString(id)
    ensures ParseDecimal(url[|url| - |DecimalString(id)|..]) == Some(id)
  {
    ParseDecimalString(id);
    var url := "https://" + domain + path + DecimalString(id);
    assert url[|url| - |DecimalString(id)|..] == DecimalString(id);
    url
  }

  /** What the booking route answers. */
  datatype BookOutcome =
    | ShowFormErrors(errors: set<FieldError>)
    | Flash(msg: Message)
    | RedirectToCheckout(url: string)

  /** The next state, the session's pending booking id, the answer, and the
      checkout request sent to the processor, if one was sent. */
  datatype BookResult = BookResult(site: Site, pendingId: Option<int>, outcome: BookOutcome,
                                   request: Option<SessionParams>)

  /** The row the booking route builds from an accepted form: the form's
      contact fields, a two-hour slot, the column default status, and the
      signed-in user if there is one. */
  function BookingFromForm(form: BookingForm, currentUser: Option<int>): (b: Booking)
    ensures b.status == Pending && b.paymentId.None?
    ensures b.start == form.start && b.end == form.start + SERVICE_DURATION
    ensures b.productId == form.productId && b.name == form.name && b.email == form.email
    ensures b.phone == form.phone && b.notes == form.notes && b.userId == currentUser
  {
    var b := NewBooking(form.productId, form.name, form.email, form.phone,
                        form.start, form.start + SERVICE_DURATION, form.notes);
    if currentUser.Some? then b.(userId := currentUser) else b
  }

  /** The booking route after the form was accepted and the product found:
      reserve the slot as PENDING, request a checkout, and keep the
      reservation if the processor answers or delete it again if not. The
      processor's answer is the input `gateway`: a checkout URL, or None
      for failure. */
  function Reserve(site: Site, pendingId: Option<int>, form: BookingForm, currentUser: Option<int>,
                   env: Environment, gateway: Option<string>): (r: BookResult)
    requires FreshIds(site) && form.productId in site.products
    // a checkout request is sent exactly when a key is set
    ensures r.request.Some? <==> Truthy(env.stripeKey)
    ensures r.request.Some? ==>
      && r.request.value.lineItems == LineItems(site.products[form.productId])
      && r.request.value.mode == "payment"
      && r.request.value.successUrl == CallbackUrl(DomainText(GetDomain(env)), SUCCESS_PATH, site.nextId)
      && r.request.value.cancelUrl == CallbackUrl(DomainText(GetDomain(env)), CANCEL_PATH, site.nextId)
    // a successful checkout keeps one new PENDING booking and remembers its id
    ensures r.outcome.RedirectToCheckout? <==> Truthy(env.stripeKey) && gateway.Some?
    ensures r.outcome.RedirectToCheckout? ==>
      && r.outcome.url == gateway.value
      && site.nextId !in site.bookings
      && r.site.bookings == site.bookings[site.nextId := BookingFromForm(form, currentUser)]
      && r.pendingId == Some(site.nextId)
    // a failed checkout leaves the bookings as they were
    ensures !r.outcome.RedirectToCheckout? ==>
      r.outcome == Flash(PaymentUnavailable) && r.site.bookings == site.bookings && r.pendingId == pendingId
    ensures r.site.products == site.products && r.site.nextId == site.nextId + 1
  {
    var product := site.products[form.productId];
    var id := site.nextId;
    var reserved := site.(bookings := site.bookings[id := BookingFromForm(form, currentUser)],
                          nextId := id + 1);
    var domain := DomainText(GetDomain(env));
    var successUrl := CallbackUrl(domain, SUCCESS_PATH, id);
    var cancelUrl := CallbackUrl(domain, CANCEL_PATH, id);
    var request := CheckoutParams(env.stripeKey, product, successUrl, cancelUrl);
    var checkout := CreateCheckout(env.stripeKey, product, successUrl, cancelUrl, gateway);
    if checkout.Some? then
      BookResult(reserved, Some(id), RedirectToCheckout(checkout.value), request)
    else
      assert reserved.bookings - {id} == site.bookings;
      BookResult(reserved.(bookings := reserved.bookings - {id}), pendingId,
                 Flash(PaymentUnavailable), request)
  }

  /** The POST of the booking page: a refused form or an unknown product
      changes nothing; otherwise the slot is reserved. */
  function Book(site: Site, pendingId: Option<int>, form: BookingForm, clocks: Clocks,
                currentUser: Option<int>, env: Environment, gateway: Option<string>): (r: BookResult)
    requires FreshIds(site)
    ensures r.outcome.ShowFormErrors? <==> ValidateBookingForm(site.products, site.bookings, form, clocks) != {}
    ensures r.outcome.ShowFormErrors? ==>
      && r.outcome.errors == ValidateBookingForm(site.products, site.bookings, form, clocks)
      && r.site == site && r.pendingId == pendingId && r.request.None?
    ensures r.outcome == Flash(InvalidService) <==>
      ValidateBookingForm(site.products, site.bookings, form, clocks) == {} && form.productId !in site.products
    ensures r.outcome == Flash(InvalidService) ==> r.site == site && r.pendingId == pendingId && r.request.None?
    ensures ValidateBookingForm(site.products, site.bookings, form, clocks) == {} && form.productId in site.products ==>
      r == Reserve(site, pendingId, form, currentUser, env, gateway)
  {
    var errors := ValidateBookingForm(site.products, site.bookings, form, clocks);
    if errors != {} then
      BookResult(site, pendingId, ShowFormErrors(errors), None)
    else if form.productId !in site.products then
      BookResult(site, pendingId, Flash(InvalidService), None)
    else
      Reserve(site, pendingId, form, currentUser, env, gateway)
  }

  /** The product check of the route never fails after the form was
      accepted against the same catalogue: the drop-down offers only
      existing ACTIVE products. */
  lemma NoInvalidServiceAfterAcceptedForm(site: Site, pendingId: Option<int>, form: BookingForm,
                                          clocks: Clocks, currentUser: Option<int>,
                                          env: Environment, gateway: Option<string>)
    requires FreshIds(site)
    ensures Book(site, pendingId, form, clocks, currentUser, env, gateway).outcome != Flash(InvalidService)
  {
    AcceptedBookingForm(site.products, site.bookings, form, clocks);
  }

  /** The booking route keeps every invariant of the site: in particular
      the new PENDING booking meets no active booking. */
  lemma {:induction false} BookPreservesValid(site: Site, pendingId: Option<int>, form: BookingForm,
                                              clocks: Clocks, currentUser: Option<int>,
                                              env: Environment, gateway: Option<string>)
    requires Valid(site)
    ensures Valid(Book(site, pendingId, form, clocks, currentUser, env, gateway).site)
  {
    var r := Book(site, pendingId, form, clocks, currentUser, env, gateway);
    if r.outcome.RedirectToCheckout? {
      var n := site.nextId;
      var b := BookingFromForm(form, currentUser);
      var store := r.site.bookings;
      assert store == site.bookings[n := b];
      AcceptedBookingForm(site.products, site.bookings, form, clocks);
      assert ValidateStart(site.bookings, form.start, clocks.localNow).None?;
      AcceptedStart(site.bookings, form.start, clocks.localNow);
      forall i, j | i in store && j in store && i != j && IsActive(store[i].status) && IsActive(store[j].status)
        ensures !Intersects(store[i].start, store[i].end, store[j].start, store[j].end)
      {
        if i == n {
          assert !Intersects(site.bookings[j].start, site.bookings[j].end, b.start, b.end);
        } else if j == n {
          assert !Intersects(site.bookings[i].start, site.bookings[i].end, b.start, b.end);
        } else {
          assert store[i] == site.bookings[i] && store[j] == site.bookings[j];
        }
      }
    }
  }

  /** Where a callback finds its booking id, and what is left in the
      session afterwards. */
  datatype Resolution = Resolution(key: Option<int>, pendingId: Option<int>)

  /** The callbacks take `booking_id` from the query when it is non-empty
      (the database reads it as an integer, so text that is not a run of
      digits finds nothing), and otherwise pop the session's pending id,
      which counts only when it is non-zero. */
  function ResolveBookingId(arg: Option<string>, pendingId: Option<int>): (r: Resolution)
    ensures Truthy(arg) ==> r.pendingId == pendingId
    ensures Truthy(arg) ==> (r.key.Some? <==> AllDigits(arg.value))
    ensures forall n: nat :: arg == Some(DecimalString(n)) ==> r.key == Some(n)
    ensures !Truthy(arg) ==> r.pendingId.None?
    ensures !Truthy(arg) ==> (r.key.Some? <==> pendingId.Some? && pendingId.value != 0)
    ensures !Truthy(arg) && r.key.Some? ==> r.key == pendingId
  {
    forall n: nat | arg == Some(DecimalString(n))
      ensures ParseDecimal(arg.value) == Some(n)
    {
      ParseDecimalString(n);
    }
    if Truthy(arg) then
      var key := ParseDecimal(arg.value);
      Resolution(if key.Some? then Some(key.value as int) else None, pendingId)
    else
      var popped := pendingId;
      Resolution(if popped.Some? && popped.value != 0 then popped else None, None)
  }

  /** The next state, the session's pending id, and the flashed message. */
  datatype CallbackResult = CallbackResult(site: Site, pendingId: Option<int>, msg: Message)

  /** The payment reference recorded on confirmation: the processor's
      `payment_intent` when the query has one (even an empty one), else the
      marker "completed". */
  function PaymentRef(paymentIntent: Option<string>): (ref: string)
    ensures paymentIntent.Some? ==> ref == paymentIntent.value
    ensures paymentIntent.None? ==> ref == "completed"
  {
    if paymentIntent.Some? then paymentIntent.value else "completed"
  }

  /** The booking the callback resolves to exists. */
  predicate Found(site: Site, res: Resolution) {
    res.key.Some? && res.key.value in site.bookings
  }

  /** The success callback: confirm the booking it resolves to, or ask the
      customer to get in touch. */
  function BookingSuccess(site: Site, pendingId: Option<int>, arg: Option<string>,
                          paymentIntent: Option<string>): (r: CallbackResult)
    ensures r.pendingId == ResolveBookingId(arg, pendingId).pendingId
    ensures r.site.products == site.products && r.site.nextId == site.nextId
    ensures r.site.bookings.Keys == site.bookings.Keys
    ensures var res := ResolveBookingId(arg, pendingId);
      Found(site, res) ==>
        && r.msg == BookingConfirmed
        && r.site.bookings[res.key.value].status == Confirmed
        && r.site.bookings[res.key.value].paymentId == Some(PaymentRef(paymentIntent))
        && r.site.bookings[res.key.value]
           == site.bookings[res.key.value].(status := Confirmed, paymentId := Some(PaymentRef(paymentIntent)))
        && forall j :: j in site.bookings && j != res.key.value ==> r.site.bookings[j] == site.bookings[j]
    ensures !Found(site, ResolveBookingId(arg, pendingId)) ==> r.site == site && r.msg == ContactUsToVerify
  {
    var res := ResolveBookingId(arg, pendingId);
    if Found(site, res) then
      var id := res.key.value;
      var b := site.bookings[id];
      var confirmed := b.(status := Confirmed, paymentId := Some(PaymentRef(paymentIntent)));
      CallbackResult(site.(bookings := site.bookings[id := confirmed]), res.pendingId, BookingConfirmed)
    else
      CallbackResult(site, res.pendingId, ContactUsToVerify)
  }

  /** The cancel callback: delete the booking it resolves to, whatever its
      status; always report the cancellation. */
  function BookingCancel(site: Site, pendingId: Option<int>, arg: Option<string>): (r: CallbackResult)
    ensures r.msg == BookingCancelled
    ensures r.pendingId == ResolveBookingId(arg, pendingId).pendingId
    ensures r.site.products == site.products && r.site.nextId == site.nextId
    ensures var res := ResolveBookingId(arg, pendingId);
      Found(site, res) ==> r.site.bookings == site.bookings - {res.key.value}
    ensures !Found(site, ResolveBookingId(arg, pendingId)) ==> r.site == site
    ensures forall j :: j in r.site.bookings ==> j in site.bookings && r.site.bookings[j] == site.bookings[j]
  {
    var res := ResolveBookingId(arg, pendingId);
    if Found(site, res) then
      CallbackResult(site.(bookings := site.bookings - {res.key.value}), res.pendingId, BookingCancelled)
    else
      CallbackResult(site, res.pendingId, BookingCancelled)
  }

  /** Repeating the cancel callback with the same query changes nothing
      more: the second call finds no booking, or no id at all. */
  lemma {:induction false} CancelIdempotent(site: Site, pendingId: Option<int>, arg: Option<string>)
    ensures var once := BookingCancel(site, pendingId, arg);
            var twice := BookingCancel(once.site, once.pendingId, arg);
            twice.site == once.site && twice.pendingId == once.pendingId && twice.msg == once.msg
  {
    var once := BookingCancel(site, pendingId, arg);
    var res := ResolveBookingId(arg, pendingId);
    var res2 := ResolveBookingId(arg, once.pendingId);
    if Truthy(arg) {
      assert res2.key == res.key;
      assert !Found(once.site, res2);
    } else {
      assert res2.key.None?;
    }
  }

  /** A success reached through its URL leaves the pending id in the
      session, because the session is only read when the query has no id.
      A later cancel without a query id therefore deletes the booking that
      was just confirmed. */
  lemma {:induction false} CancelAfterSuccessDeletesConfirmed(site: Site, id: int, paymentIntent: Option<string>)
    requires id > 0 && id in site.bookings
    ensures var once := BookingSuccess(site, Some(id), Some(DecimalString(id)), paymentIntent);
            var later := BookingCancel(once.site, once.pendingId, None);
            && once.pendingId == Some(id)
            && once.site.bookings[id].status == Confirmed
            && later.site.bookings == once.site.bookings - {id}
  {
    var res := ResolveBookingId(Some(DecimalString(id)), Some(id));
    assert res.key == Some(id);
    assert Truthy(Some(DecimalString(id)));
  }

  /** Repeating the success callback with the same query leaves the same
      state: the booking is already CONFIRMED with the same reference. */
  lemma {:induction false} SuccessIdempotent(site: Site, pendingId: Option<int>, arg: Option<string>,
                                             paymentIntent: Option<string>)
    ensures var once := BookingSuccess(site, pendingId, arg, paymentIntent);
            var twice := BookingSuccess(once.site, once.pendingId, arg, paymentIntent);
            twice.site == once.site && twice.pendingId == once.pendingId
  {
    var once := BookingSuccess(site, pendingId, arg, paymentIntent);
    var res := ResolveBookingId(arg, pendingId);
    var res2 := ResolveBookingId(arg, once.pendingId);
    if Truthy(arg) {
      assert res2.key == res.key;
      if Found(site, res) {
        var id := res.key.value;
        var twice := BookingSuccess(once.site, once.pendingId, arg, paymentIntent);
        assert Found(once.site, res2);
        assert twice.site.bookings[id] == once.site.bookings[id];
        assert twice.site.bookings == once.site.bookings;
      }
    } else {
      assert res2.key.None?;
    }
  }

  /** Both callbacks keep every invariant of the site. */
  lemma {:induction false} CallbacksPreserveValid(site: Site, pendingId: Option<int>, arg: Option<string>,
                                                  paymentIntent: Option<string>)
    requires Valid(site)
    ensures Valid(BookingSuccess(site, pendingId, arg, paymentIntent).site)
    ensures Valid(BookingCancel(site, pendingId, arg).site)
  {
    var s := BookingSuccess(site, pendingId, arg, paymentIntent).site;
    var store := s.bookings;
    forall i, j | i in store && j in store && i != j && IsActive(store[i].status) && IsActive(store[j].status)
      ensures !Intersects(store[i].start, store[i].end, store[j].start, store[j].end)
    {
      assert store[i].start == site.bookings[i].start && store[i].end == site.bookings[i].end;
      assert store[j].start == site.bookings[j].start && store[j].end == site.bookings[j].end;
    }
  }

  /** Reserving and then following the cancel URL puts the bookings back as
      they were before the reservation. */
  lemma {:induction false} BookThenCancelRestores(site: Site, pendingId: Option<int>, form: BookingForm,
                                                  clocks: Clocks, currentUser: Option<int>,
                                                  env: Environment, gateway: Option<string>)
    requires FreshIds(site)
    requires Book(site, pendingId, form, clocks, currentUser, env, gateway).outcome.RedirectToCheckout?
    ensures var r := Book(site, pendingId, form, clocks, currentUser, env, gateway);
            BookingCancel(r.site, r.pendingId, Some(DecimalString(site.nextId))).site.bookings == site.bookings
    ensures var r := Book(site, pendingId, form, clocks, currentUser, env, gateway);
            var c := BookingCancel(r.site, r.pendingId, None);
            c.site.bookings == site.bookings && c.pendingId.None?
  {
    var r := Book(site, pendingId, form, clocks, currentUser, env, gateway);
    var n := site.nextId;
    ParseDecimalString(n);
    assert DecimalString(n) != "";
    assert ResolveBookingId(Some(DecimalString(n)), r.pendingId).key == Some(n);
    assert r.site.bookings - {n} == site.bookings;
    assert ResolveBookingId(None, r.pendingId).key == Some(n);
  }

  /** Reserving and then following the success URL confirms exactly the new
      booking, with the processor's payment reference. */
  lemma {:induction false} BookThenSuccessConfirms(site: Site, pendingId: Option<int>, form: BookingForm,
                                                   clocks: Clocks, currentUser: Option<int>,
                                                   env: Environment, gateway: Option<string>,
                                                   paymentIntent: Option<string>)
    requires FreshIds(site)
    requires Book(site, pendingId, form, clocks, currentUser, env, gateway).outcome.RedirectToCheckout?
    ensures var r := Book(site, pendingId, form, clocks, currentUser, env, gateway);
            var s := BookingSuccess(r.site, r.pendingId, Some(DecimalString(site.nextId)), paymentIntent);
            && s.msg == BookingConfirmed
            && s.site.bookings == site.bookings[site.nextId := BookingFromForm(form, currentUser)
                 .(status := Confirmed, paymentId := Some(PaymentRef(paymentIntent)))]
  {
    var r := Book(site, pendingId, form, clocks, currentUser, env, gateway);
    var n := site.nextId;
    ParseDecimalString(n);
    assert DecimalString(n) != "";
    assert ResolveBookingId(Some(DecimalString(n)), r.pendingId).key == Some(n);
  }

  /** What the product-deletion route answers. */
  datatype AdminOutcome = NotFound | AdminFlash(msg: Message)

  datatype AdminResult = AdminResult(site: Site, outcome: AdminOutcome)

  /** The product is referenced by some booking. */
  predicate Referenced(store: Store, productId: int) {
    exists k :: k in store && store[k].productId == productId
  }

  /** The admin's delete-product route: a product with bookings is kept. */
  function AdminDeleteProduct(site: Site, productId: int): (r: AdminResult)
    ensures r.site.bookings == site.bookings && r.site.nextId == site.nextId
    ensures productId !in site.products ==> r.site == site && r.outcome == NotFound
    ensures productId in site.products && Referenced(site.bookings, productId) ==>
      r.site == site && r.outcome == AdminFlash(CannotDeleteProduct)
    ensures productId in site.products && !Referenced(site.bookings, productId) ==>
      r.site.products == site.products - {productId} && r.outcome == AdminFlash(ProductDeleted)
    ensures forall k :: k in site.bookings && site.bookings[k].productId in site.products ==>
      site.bookings[k].productId in r.site.products
  {
    if productId !in site.products then AdminResult(site, NotFound)
    else if Referenced(site.bookings, productId) then AdminResult(site, AdminFlash(CannotDeleteProduct))
    else AdminResult(site.(products := site.products - {productId}), AdminFlash(ProductDeleted))
  }

  lemma DeleteProductPreservesValid(site: Site, productId: int)
    requires Valid(site)
    ensures Valid(AdminDeleteProduct(site, productId).site)
  {
  }
}

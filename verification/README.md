# Booking admission and reservation lifecycle

A Dafny model of the scheduling core of a small appointment-booking site
for a mobile detailing business. Customers pick a service, a start time and
their contact details. The site decides whether the slot may be booked. It
then reserves the slot as a PENDING booking and hands the customer to the
payment processor. The processor's return confirms the reservation or
throws it away. The admin side has two small rules here: a product with
bookings cannot be deleted, and the dashboard shows booking counts and
revenue.

The modules follow the source files:

- `base.dfy`: `Base` has the optional values, Python truthiness of
  optional strings, and the clock. Timestamps are whole seconds;
  `HourOf(t) = (t / 3600) % 24`. `Decimal` is `str(int)` for booking ids,
  plus the integer reading of the `booking_id` query argument.
- `models.dfy`: `Models` has the records and their statuses, the
  availability query `CheckAvailability` and the weekly limit `CanBook`.
- `forms.dfy`: `Forms` has the booking form and the product form: the
  ACTIVE-only service choices, the per-field checks, `validate_start` and
  `validate_email`.
- `utils.dfy`: `Utils` has `get_domain` and the request that
  `create_stripe_checkout_session` sends.
- `routes.dfy`: `Routes` has the site state `Site` (the bookings table with
  its id sequence, and the products table). It also has the booking route,
  the success and cancel callbacks, product deletion, and the invariant
  `Valid` that they all keep.
- `dashboard.dfy`: `Dashboard` has the admin dashboard's counts and
  revenue.

Inputs that the source reads from its surroundings are parameters here:

- the two clocks, `datetime.now()` and `datetime.utcnow()`, in `Clocks`;
- the environment variables, in `Environment`;
- the signed-in user, as `currentUser`;
- the session's `pending_booking_id`, as `pendingId`;
- the query arguments;
- the payment processor's answer, as `gateway`: a checkout URL, or None
  when the call fails.

Behaviour of the code worth knowing:

- The booking route checks only that the product exists, not that it is
  ACTIVE. `NoInvalidServiceAfterAcceptedForm` shows that its "invalid
  service" branch cannot be reached. The form has already required one of
  the ACTIVE products.
- The weekly limit counts every active booking of the email that starts at
  or after now − 7 days, and future bookings count too. The boundary is
  inclusive: a request exactly 7 days after an existing booking's start is
  still refused (`WeeklyWindow`).
- The form reports every failing field together. It does not stop at the
  first failing rule across fields. Within the start field, the first
  failing rule is the one reported.
- The product form's `DataRequired` treats a price of 0 as missing, so the
  price must be strictly positive, even though `NumberRange(min=0)` alone
  would admit 0.
- The three-part overlap test equals half-open interval intersection only
  when both intervals are non-empty. `SlotClashNeedsNonEmptyCandidate`
  gives an inverted candidate for which the two differ. The site always
  tests a two-hour candidate.
- The success callback reads the session only when the query has no id,
  so a success reached through its URL leaves the pending id in the
  session. A later cancel without a query id then deletes the booking that
  was just confirmed and paid for (`CancelAfterSuccessDeletesConfirmed`).

## Model

| member | source | states |
|---|---|---|
| `Models.SlotClashIsIntersection` | models.py:103-107 | For a non-empty booking and candidate, the three-disjunct filter holds exactly when the half-open intervals intersect |
| `Base.HourOf` | forms.py:35 | The hour of a timestamp is in [0, 24) and is the hour of the day in which the timestamp falls: h hours after midnight and before h + 1 |
| `Models.SlotClashNeedsNonEmptyCandidate` | models.py:103-107 | An inverted candidate that starts inside a booking passes the filter without intersecting it, so the equivalence needs a non-empty candidate |
| `Models.SlotClashSymmetric` | models.py:103-107 | Between two non-empty bookings, each clashes with the other's slot exactly when the other clashes with its own |
| `Models.CheckAvailability` | models.py:98-113 | For well-formed bookings and a non-empty candidate, the slot is free exactly when no active, non-excluded booking's interval intersects it |
| `Models.AvailabilityIgnoresInactive` | models.py:101-102 | Dropping every COMPLETED and CANCELLED booking changes no availability answer |
| `Models.ExclusionRemovesOne` | models.py:110-111 | A truthy excluded id ignores exactly that booking; the answer equals the unexcluded query on the store without it |
| `Models.ExclusionOfZeroIsNone` | models.py:110-111 | An excluded id of 0 is falsy and excludes nothing |
| `Models.WeeklyWindow` | models.py:49-57 | With one active booking starting at t, its email may book again only strictly after t + 7 days |
| `Models.CanBook` | models.py:49-57 | An email may book exactly when every PENDING or CONFIRMED booking with exactly that email started more than seven days before the check time |
| `Models.CanBookStaysTrue` | models.py:51-57 | If an email may book at time t, it may still book at every later time on the same bookings |
| `Models.CanBookIgnoresOthers` | models.py:52-56 | Bookings with another email (exact comparison) or an inactive status never affect whether an email may book |
| `Models.ProductStatusFromValue` | models.py:12-14 | Reading a stored status value gives the status with that value, or nothing when no status has it |
| `Models.ProductStatusRoundTrip` | models.py:12-14 | Reading back the stored value of a product status gives that status |
| `Models.NewBooking` | models.py:75-96 | A booking built without a status is PENDING, with no owner and no payment id |
| `Forms.ProductChoices` | forms.py:24-27 | The service drop-down offers exactly the ACTIVE products |
| `Forms.ValidateStart` | forms.py:29-41 | A start less than 24h ahead is refused as too soon whatever else holds; otherwise a start hour outside [5, 18) is refused as outside opening hours; otherwise the start is refused with the slot-taken message exactly when its 2-hour slot is not available (checked with no exclusion), and accepted when it is |
| `Forms.AcceptedStart` | forms.py:29-41 | An accepted start is at least 24h ahead, lies between 05:00 and 18:00 of its day, and its two hours intersect no active booking |
| `Forms.EndMayFollowClosing` | forms.py:35-39 | Only the start hour is checked: a 17:30 start is accepted on an empty calendar although its slot ends at 19:30 |
| `Forms.ValidateEmail` | forms.py:43-52 | The form's own copy of the query refuses an email exactly when the weekly-limit rule of the user model refuses it |
| `Forms.RequiredText` | forms.py:15-17 | A required text field passes exactly when it has a non-space character and its length is within the bounds. A blank value reports only that it is required; a present value of the wrong length reports only the length message |
| `Forms.OptionalText` | forms.py:19 | An optional text field passes exactly when its length is within the maximum |
| `Forms.ProductErrors` | forms.py:14 | The service field passes exactly when it names an existing ACTIVE product and the id is non-zero. Id 0 reports only that the field is required, because `DataRequired` clears the choice message; any other unoffered id reports only that it is not a valid choice |
| `Forms.EmailErrors` | forms.py:16 | A blank email is refused as required and the weekly limit is not consulted; otherwise it is refused exactly when the weekly limit applies |
| `Forms.StartErrors` | forms.py:18 | The start field carries exactly the one message `validate_start` raised, and none exactly when every start rule passes |
| `Forms.ValidateBookingForm` | forms.py:13-52 | The form is accepted exactly when every field passes, its messages are only those of the six fields, and it reports the weekly-limit message exactly when a present email may not book |
| `Forms.BookingFormMessages` | forms.py:13-52 | Every failing field reports its own message alongside the others: required or length for name and phone, required or not-a-valid-choice for the service, required for a blank email, length for the notes, and exactly the message the start rules raised. A start less than 24h ahead always carries the lead-time message and no other start message |
| `Forms.AcceptedBookingForm` | forms.py:13-52 | An accepted form names an existing ACTIVE product, has name length in [2, 100], phone length in [10, 20], notes of at most 500 characters, an email that may book, and a start that passes every rule |
| `Forms.ValidateProductForm` | forms.py:58-64 | The product form is accepted exactly when every field passes, and its messages are only those of its five fields |
| `Forms.ProductFormMessages` | forms.py:58-64 | A blank name or a blank status (empty or only spaces) is reported only as required. A zero price is reported as missing and a negative one as below the minimum. A present name of the wrong length, a long description or price id, and a present unknown status each report their own message |
| `Forms.PriceErrors` | forms.py:61 | The price passes exactly when it is strictly positive. Zero is reported as missing, a negative price as below the minimum, and never both |
| `Forms.StatusErrors` | forms.py:62 | The status passes exactly when it is the value of a product status. A blank value (empty or only spaces) is reported only as missing, and any other unknown value only as not a valid choice |
| `Forms.AcceptedProductForm` | forms.py:58-64 | An accepted product form has a name of 2 to 100 characters with a non-space character, a description of at most 500, a strictly positive price, a known status and a price id of at most 100 characters, and every such form is accepted |
| `Utils.FirstSegment` | utils.py:18 | The first comma-separated segment has no comma, is a prefix of the list, and is the whole list or ends just before a comma |
| `Utils.FirstSegmentOfJoin` | utils.py:18 | The first segment of `a,b` is `a` when `a` has no comma |
| `Utils.GetDomain` | utils.py:11-19 | When deployed the result is the dev domain (possibly missing); otherwise it is the first listed domain when the list is non-empty; otherwise `localhost:5000` |
| `Utils.LineItems` | utils.py:70-90 | Exactly one line item of quantity 1: the stored price id when present, otherwise a one-off price in "usd" carrying the product's name, description and price |
| `Utils.CheckoutParams` | utils.py:59-109 | No request is made without an API key; otherwise the request carries the product's line items, mode "payment" and the given success and cancel URLs unchanged |
| `Utils.CreateCheckout` | utils.py:59-117 | A checkout exists exactly when an API key is set and the processor answers, and it is the processor's answer |
| `Decimal.DecimalString` | routes.py:69-70 | An id is written as one or more digits with no leading zero |
| `Decimal.ParseDecimalString` | routes.py:69-93 | Reading back the digits written for an id gives the id |
| `Decimal.ParseDecimal` | routes.py:93 | A query value reads as an id exactly when it is a non-empty run of ASCII digits |
| `Decimal.LeadingZeroIgnored` | routes.py:93 | A leading zero on a non-empty run of digits does not change the booking key it denotes |
| `Decimal.DecimalStringInjective` | routes.py:69-70 | Different ids are written differently, so a callback URL names exactly one booking |
| `Routes.CallbackUrl` | routes.py:68-70 | The callback URL is `https://<domain><path><id>`, and its trailing digits read back as the id |
| `Routes.BookingFromForm` | routes.py:48-62 | The new row has the form's contact fields and notes, end = start + 2h, status PENDING, no payment id, and the user id exactly when someone is signed in |
| `Routes.Reserve` | routes.py:48-81 | Once the form passes and the product exists, a checkout request is sent exactly when a key is set, with the product's line items and callback URLs for the new id. With a checkout, exactly one new PENDING booking is added under a fresh id, the session remembers that id, and the customer is sent to the checkout URL. Without one, the bookings and session are as before and payment is reported unavailable |
| `Routes.Book` | routes.py:35-83 | A refused form shows its errors and changes nothing, an unknown product changes nothing, and otherwise the slot is reserved |
| `Routes.NoInvalidServiceAfterAcceptedForm` | routes.py:42-45 | After the form is accepted against the same catalogue, the route's unknown-product branch is never taken |
| `Routes.BookPreservesValid` | routes.py:48-81 | The booking route keeps the site's invariant: fresh ids, two-hour slots, existing products, only active statuses, and no two active bookings overlapping |
| `Routes.ResolveBookingId` | routes.py:88-90 | A non-empty query id is used and the session is left alone, and the digits of an id resolve to that id; otherwise the session id is popped and used only when it is non-zero |
| `Routes.BookingSuccess` | routes.py:85-107 | When the booking is found, only that booking changes: it becomes CONFIRMED whatever its prior status, and its payment id becomes the query's `payment_intent` or "completed". Otherwise nothing changes and the customer is asked to get in touch |
| `Routes.PaymentRef` | routes.py:96 | The recorded payment reference is the query's `payment_intent` when the query has one, even an empty one, and "completed" when it has none |
| `Routes.BookingCancel` | routes.py:109-124 | A found booking is deleted whatever its status, nothing else changes, and the cancellation message is always shown |
| `Routes.CancelIdempotent` | routes.py:109-124 | Repeating the cancel callback with the same query leaves the same state and the same message |
| `Routes.CancelAfterSuccessDeletesConfirmed` | routes.py:88-121 | After a success reached through its URL the session still holds the pending id, so a later cancel without a query id deletes the booking that was just confirmed |
| `Routes.SuccessIdempotent` | routes.py:85-97 | Repeating the success callback with the same query leaves the same state |
| `Routes.CallbacksPreserveValid` | routes.py:85-124 | Both callbacks keep the site's invariant |
| `Routes.BookThenCancelRestores` | routes.py:69-124 | Reserving and then following the cancel URL, or the session fallback, puts the bookings back exactly as before |
| `Routes.BookThenSuccessConfirms` | routes.py:69-97 | Reserving and then following the success URL confirms exactly the new booking, with the processor's payment reference |
| `Routes.AdminDeleteProduct` | routes.py:287-305 | An unknown product is not found. A product that some booking references is kept. Otherwise only that product is removed, and no booking ever loses its product |
| `Routes.DeleteProductPreservesValid` | routes.py:297-303 | Product deletion keeps the site's invariant |
| `Dashboard.TallyRemove` | routes.py:204-213 | A dashboard sum does not depend on the order in which the bookings are visited |
| `Dashboard.CountIsCardinality` | routes.py:205-206 | Summing one per booking gives the number of bookings with the counted status |
| `Dashboard.CountsWithinTotal` | routes.py:204-206 | The pending count plus the confirmed count is at most the number of bookings |
| `Dashboard.DashboardStats` | routes.py:204-213 | Shows the total, the number of PENDING and of CONFIRMED bookings (together at most the total), and the sum of product prices over CONFIRMED bookings only. The revenue is missing exactly when a confirmed booking's product is missing |
| `Dashboard.ValidRevenueDefined` | routes.py:211-213 | On a site that keeps its invariant every CONFIRMED booking has its product, so the revenue is always defined and the dashboard never fails on a missing product |
| `Dashboard.ConfirmationAddsRevenue` | routes.py:93-97 | Confirming a PENDING booking adds its product's price to the revenue and moves one booking from the pending to the confirmed count |

## Left out

- Web plumbing is left out: Flask routing, templates, HTTP methods and redirects to site pages. Flashed messages are kept only as the enum `Routes.Message`. Flask-Login is reduced to an optional user id, and the session to one optional pending id. The form's CSRF token, a seventh field that `validate_on_submit` also checks, is left out, so `Forms.ValidateBookingForm` accepts a form on its six fields alone.
- Persistence is an in-memory map: SQLAlchemy queries, commits and rollbacks become map operations. The database id sequence is `Site.nextId`, a sequence that never hands out an id twice, as PostgreSQL's does. After the compensating delete the id is not handed out again, so the bookings table is as before but the sequence has advanced. The database is chosen by `DATABASE_URL`. On SQLite the id column has no AUTOINCREMENT, so a new row takes the largest existing id plus one. The id of a deleted newest booking, from the compensating delete or from a cancel, then goes to the next booking, and an old cancel or success URL opened again can delete or confirm another customer's booking. This id reuse is not modelled.
- Column widths and decimal precision are not modelled. `Booking.email` is `String(120)`, but the form puts no length limit on the email. `stripe_payment_id` is `String(100)`, and the `payment_intent` query value is unbounded. On a database that enforces widths, a longer value makes the insert or the confirming commit fail, and the request ends on the server-error page. In that case the booking is not added, or it stays PENDING. `Routes.Reserve` and `Routes.BookingSuccess` instead always write the value. Prices are whole cents, so a `DecimalField` value with more than two decimal places, such as 0.004, cannot be expressed.
- The call to the payment processor and its logging are left out. The processor's answer is the input `gateway`, and any exception it raises is None.
- Utils.LineItems: the one-off price's amount is the price in exact cents. The source computes `int(float(price) * 100)`, which truncates a binary floating-point product; for some two-place prices this gives one cent less than the price. Floating point is not modelled.
- Confirmation and notification emails, the email helpers and the contact route are left out. They are I/O, and their failures never change a booking.
- Admin login, password hashing, role checks, seeding of default data, the product add/edit routes and application configuration are left out; they are library and environment wiring. Product deletion's `get_or_404` is kept as the `NotFound` answer.
- The read-then-write race between validating a slot and inserting the booking is left out. It is concurrency; the model runs requests one at a time.
- Some WTForms checks that belong to the library are left out: the `Email()` format check, parsing of the start timestamp and of the service id, and `DataRequired` on the start field. The start arrives as a timestamp in seconds, so sub-second clock precision is dropped.
- `DataRequired` on text fields: only the ASCII characters that `str.strip` removes count as blank, namely space, tab, the line and page breaks, and the separators 0x1C to 0x1F. Python's `str.strip` also strips non-ASCII whitespace such as U+0085, U+00A0 and U+2028, and these are not modelled.
- Reading the `booking_id` argument as an integer: a run of ASCII digits is read as its value, leading zeros allowed, and anything else finds no booking. That is how SQLite compares a text key with an integer id. On PostgreSQL a non-numeric value makes `Booking.query.get` raise a data error instead, and the request ends on the server-error page with no flash message; that error path is not modelled. Database-specific coercions, such as signs or surrounding spaces, are left out.
- The dashboard's list of the ten most recent bookings is left out. It is display ordering by creation time, which the model does not keep.
- Memberships, media, users other than an id, and the contact record are left out. They are outside the reservation core.

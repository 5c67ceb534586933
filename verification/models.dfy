/** The records of the booking site and the two queries defined on them:
    slot availability and the one-booking-per-week rule. */
module Models {
  import opened Base

  datatype ProductStatus = Active | ComingSoon
  datatype BookingStatus = Pending | Confirmed | Completed | Cancelled

  /** The stored value of each product status, as the admin form submits it. */
  function ProductStatusValue(s: ProductStatus): string {
    match s
    case Active => "active"
    case ComingSoon => "coming_soon"
  }

  /** `ProductStatus(value)`: the status whose stored value is `v`, if any. */
  function ProductStatusFromValue(v: string): (r: Option<ProductStatus>)
    ensures r.Some? ==> ProductStatusValue(r.value) == v
    ensures r.None? ==> forall s: ProductStatus :: ProductStatusValue(s) != v
  {
    if v == "active" then Some(Active)
    else if v == "coming_soon" then Some(ComingSoon)
    else None
  }

  lemma ProductStatusRoundTrip(s: ProductStatus)
    ensures ProductStatusFromValue(ProductStatusValue(s)) == Some(s)
  {
  }

  /** A product; the price is held in cents (a two-place decimal). */
  datatype Product = Product(
    name: string,
    description: string,
    priceCents: int,
    status: ProductStatus,
    isMembership: bool,
    stripePriceId: Option<string>)

  /** A booking row. The contact fields are a snapshot taken from the form,
      independent of any user account; `start` and `end` are seconds. */
  datatype Booking = Booking(
    userId: Option<int>,
    productId: int,
    name: string,
    email: string,
    phone: string,
    start: int,
    end: int,
    notes: string,
    paymentId: Option<string>,
    status: BookingStatus)

  /** The bookings table, keyed by booking id. */
  type Store = map<int, Booking>

  /** A booking freshly built from its fields: no owner, no payment yet,
      and the column default status. */
  function NewBooking(productId: int, name: string, email: string, phone: string,
                      start: int, end: int, notes: string): (b: Booking)
    ensures b.status == Pending && b.paymentId.None? && b.userId.None?
    ensures b.productId == productId && b.email == email && b.start == start && b.end == end
  {
    Booking(None, productId, name, email, phone, start, end, notes, None, Pending)
  }

  /** PENDING and CONFIRMED bookings hold their slot and count towards the
      weekly limit; COMPLETED and CANCELLED ones do not. */
  predicate IsActive(s: BookingStatus) {
    s == Pending || s == Confirmed
  }

  /** The availability query's overlap filter for an existing booking `b`
      and a candidate slot from `s` to `e`: the candidate starts inside `b`,
      or ends inside `b`, or contains `b`. */
  predicate SlotClash(b: Booking, s: int, e: int) {
    || (b.start <= s && b.end > s)
    || (b.start < e && b.end >= e)
    || (b.start >= s && b.end <= e)
  }

  /** Ordinary intersection of the half-open intervals [a0, a1) and [b0, b1). */
  predicate Intersects(a0: int, a1: int, b0: int, b1: int) {
    a0 < b1 && b0 < a1
  }

  /** For a non-empty booking and a non-empty candidate, the three-part
      filter is exactly half-open interval intersection. */
  lemma SlotClashIsIntersection(b: Booking, s: int, e: int)
    requires b.start < b.end && s < e
    ensures SlotClash(b, s, e) <==> Intersects(b.start, b.end, s, e)
  {
  }

  /** The non-emptiness of the candidate is needed: an inverted candidate
      that starts inside a booking clashes without intersecting it. */
  lemma SlotClashNeedsNonEmptyCandidate()
    ensures var b := NewBooking(1, "", "", "", 0, 10, "");
            SlotClash(b, 5, 0) && !Intersects(b.start, b.end, 5, 0)
  {
  }

  /** Between two non-empty bookings the filter is symmetric: each clashes
      with the other's slot or neither does. */
  lemma SlotClashSymmetric(a: Booking, b: Booking)
    requires a.start < a.end && b.start < b.end
    ensures SlotClash(a, b.start, b.end) <==> SlotClash(b, a.start, a.end)
  {
    SlotClashIsIntersection(a, b.start, b.end);
    SlotClashIsIntersection(b, a.start, a.end);
  }

  /** `exclude_booking_id` is applied only when it is truthy, so an id of
      0 excludes nothing. */
  predicate Excluded(exclude: Option<int>, id: int) {
    exclude.Some? && exclude.value != 0 && id == exclude.value
  }

  /** Booking `k` of the store keeps the slot from `s` to `e` taken. */
  predicate Blocks(store: Store, k: int, s: int, e: int, exclude: Option<int>)
    requires k in store
  {
    IsActive(store[k].status) && SlotClash(store[k], s, e) && !Excluded(exclude, k)
  }

  /** `Booking.check_availability(start, end, exclude_booking_id)`. */
  function CheckAvailability(store: Store, s: int, e: int, exclude: Option<int>): (free: bool)
    ensures s < e && (forall k :: k in store ==> store[k].start < store[k].end) ==>
      (free <==> forall k :: k in store && IsActive(store[k].status) && !Excluded(exclude, k) ==>
                   !Intersects(store[k].start, store[k].end, s, e))
  {
    var free := !exists k :: k in store && Blocks(store, k, s, e, exclude);
    assert s < e && (forall k :: k in store ==> store[k].start < store[k].end) ==>
      (free <==> forall k :: k in store && IsActive(store[k].status) && !Excluded(exclude, k) ==>
                   !Intersects(store[k].start, store[k].end, s, e)) by {
      if s < e && (forall k :: k in store ==> store[k].start < store[k].end) {
        forall k | k in store {
          SlotClashIsIntersection(store[k], s, e);
        }
      }
    }
    free
  }

  /** The bookings that can hold a slot. */
  function ActiveOnly(store: Store): (a: Store)
    ensures a.Keys <= store.Keys
    ensures forall k :: k in store ==> (k in a <==> IsActive(store[k].status))
    ensures forall k :: k in a ==> a[k] == store[k]
  {
    map k | k in store && IsActive(store[k].status) :: store[k]
  }

  /** Only PENDING and CONFIRMED bookings can make a slot unavailable:
      dropping every other booking changes no answer. */
  lemma AvailabilityIgnoresInactive(store: Store, s: int, e: int, exclude: Option<int>)
    ensures CheckAvailability(store, s, e, exclude) == CheckAvailability(ActiveOnly(store), s, e, exclude)
  {
    var a := ActiveOnly(store);
    if exists k :: k in store && Blocks(store, k, s, e, exclude) {
      var k :| k in store && Blocks(store, k, s, e, exclude);
      assert k in a && Blocks(a, k, s, e, exclude);
    }
    if exists k :: k in a && Blocks(a, k, s, e, exclude) {
      var k :| k in a && Blocks(a, k, s, e, exclude);
      assert k in store && Blocks(store, k, s, e, exclude);
    }
  }

  /** A truthy excluded id removes exactly that booking from the comparison;
      every other booking is still checked. */
  lemma ExclusionRemovesOne(store: Store, s: int, e: int, x: int)
    requires x != 0
    ensures CheckAvailability(store, s, e, Some(x)) == CheckAvailability(store - {x}, s, e, None)
  {
    var r := store - {x};
    if exists k :: k in store && Blocks(store, k, s, e, Some(x)) {
      var k :| k in store && Blocks(store, k, s, e, Some(x));
      assert k in r && Blocks(r, k, s, e, None);
    }
    if exists k :: k in r && Blocks(r, k, s, e, None) {
      var k :| k in r && Blocks(r, k, s, e, None);
      assert k in store && Blocks(store, k, s, e, Some(x));
    }
  }

  /** An excluded id of 0 is falsy and excludes nothing. */
  lemma ExclusionOfZeroIsNone(store: Store, s: int, e: int)
    ensures CheckAvailability(store, s, e, Some(0)) == CheckAvailability(store, s, e, None)
  {
  }

  /** Booking `b` counts against `email` for a check made at `utcNow`:
      the same email exactly, active, starting no earlier than seven days
      before the check (later starts, future ones included, all count). */
  predicate CountsAgainst(b: Booking, email: string, utcNow: int) {
    b.email == email && b.start >= utcNow - WEEK && IsActive(b.status)
  }

  /** `User.can_book` for a user with this email. */
  function CanBook(store: Store, email: string, utcNow: int): (ok: bool)
    ensures ok <==> forall k :: k in store && store[k].email == email && IsActive(store[k].status) ==>
                      store[k].start + WEEK < utcNow
  {
    !exists k :: k in store && CountsAgainst(store[k], email, utcNow)
  }

  /** The rolling window: with one active booking starting at `t` on the
      books, the same email is refused up to and including `t` + 7 days and
      admitted at any later moment. */
  lemma {:induction false} WeeklyWindow(k: int, b: Booking, utcNow: int)
    requires IsActive(b.status)
    ensures CanBook(map[k := b], b.email, utcNow) <==> utcNow > b.start + WEEK
  {
    var store := map[k := b];
    if utcNow <= b.start + WEEK {
      assert k in store && CountsAgainst(store[k], b.email, utcNow);
    }
  }

  /** Once an email may book, it may still book at any later moment on the
      same bookings: the window only moves forward. */
  lemma {:induction false} CanBookStaysTrue(store: Store, email: string, t: int, t': int)
    requires t <= t' && CanBook(store, email, t)
    ensures CanBook(store, email, t')
  {
    forall k | k in store
      ensures !CountsAgainst(store[k], email, t')
    {
      assert !CountsAgainst(store[k], email, t);
    }
  }

  /** Bookings of other emails and inactive bookings never affect the rule. */
  lemma CanBookIgnoresOthers(store: Store, email: string, utcNow: int, k: int, b: Booking)
    requires b.email != email || !IsActive(b.status)
    ensures CanBook(store[k := b], email, utcNow) == CanBook(store - {k}, email, utcNow)
  {
    var s1 := store[k := b];
    var s2 := store - {k};
    if !CanBook(s1, email, utcNow) {
      var j :| j in s1 && CountsAgainst(s1[j], email, utcNow);
      assert j in s2 && s2[j] == s1[j];
    }
    if !CanBook(s2, email, utcNow) {
      var j :| j in s2 && CountsAgainst(s2[j], email, utcNow);
      assert j in s1 && s1[j] == s2[j];
    }
  }
}

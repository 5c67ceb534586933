/** The admin dashboard's figures: how many bookings there are, how many
    are PENDING and CONFIRMED, and the revenue of the CONFIRMED ones. */
module Dashboard {
  import opened Base
  import opened Models
  import opened Routes

  /** What each booking contributes to one figure. */
  datatype Figure = PendingCount | ConfirmedCount | Revenue

  /** The contribution of booking `k`: one to the count of its status, and
      its product's price to the revenue when it is CONFIRMED. */
  function Weight(store: Store, products: map<int, Product>, k: int, f: Figure): int
    requires k in store
  {
    var b := store[k];
    match f
    case PendingCount => if b.status == Pending then 1 else 0
    case ConfirmedCount => if b.status == Confirmed then 1 else 0
    case Revenue =>
      if b.status == Confirmed && b.productId in products then products[b.productId].priceCents else 0
  }

  /** The sum of one figure over the bookings `keys`. */
  ghost function Tally(store: Store, products: map<int, Product>, keys: set<int>, f: Figure): int
    requires keys <= store.Keys
    decreases keys
  {
    if exists k :: k in keys then
      var k :| k in keys;
      Weight(store, products, k, f) + Tally(store, products, keys - {k}, f)
    else 0
  }

  /** The sum does not depend on the order the bookings are visited in:
      any booking can be taken out first. */
  lemma {:induction false} TallyRemove(store: Store, products: map<int, Product>, keys: set<int>, k: int, f: Figure)
    requires keys <= store.Keys && k in keys
    ensures Tally(store, products, keys, f)
            == Weight(store, products, k, f) + Tally(store, products, keys - {k}, f)
    decreases keys
  {
    var j :| j in keys && Tally(store, products, keys, f)
             == Weight(store, products, j, f) + Tally(store, products, keys - {j}, f);
    if j != k {
      TallyRemove(store, products, keys - {j}, k, f);
      TallyRemove(store, products, keys - {k}, j, f);
      assert keys - {j} - {k} == keys - {k} - {j};
    }
  }

  /** Two stores whose bookings weigh the same on `keys` have the same sum. */
  lemma {:induction false} TallyFrame(s1: Store, s2: Store, products: map<int, Product>, keys: set<int>, f: Figure)
    requires keys <= s1.Keys && keys <= s2.Keys
    requires forall k :: k in keys ==> Weight(s1, products, k, f) == Weight(s2, products, k, f)
    ensures Tally(s1, products, keys, f) == Tally(s2, products, keys, f)
    decreases keys
  {
    if k :| k in keys {
      TallyRemove(s1, products, keys, k, f);
      TallyRemove(s2, products, keys, k, f);
      TallyFrame(s1, s2, products, keys - {k}, f);
    }
  }

  /** A booking is PENDING or CONFIRMED but never both, so the two counts
      together never exceed the number of bookings. */
  lemma {:induction false} CountsWithinTotal(store: Store, products: map<int, Product>, keys: set<int>)
    requires keys <= store.Keys
    ensures 0 <= Tally(store, products, keys, PendingCount)
    ensures 0 <= Tally(store, products, keys, ConfirmedCount)
    ensures Tally(store, products, keys, PendingCount) + Tally(store, products, keys, ConfirmedCount) <= |keys|
    decreases keys
  {
    if k :| k in keys {
      TallyRemove(store, products, keys, k, PendingCount);
      TallyRemove(store, products, keys, k, ConfirmedCount);
      CountsWithinTotal(store, products, keys - {k});
    }
  }

  /** The bookings among `keys` with status `s`: the rows that
      `filter_by(status=s).count()` counts. */
  function WithStatus(store: Store, keys: set<int>, s: BookingStatus): (ids: set<int>)
    requires keys <= store.Keys
    ensures ids <= keys
    ensures forall k :: k in keys ==> (k in ids <==> store[k].status == s)
  {
    set k | k in keys && store[k].status == s
  }

  /** The status a counting figure counts. */
  function Counted(f: Figure): BookingStatus
    requires f != Revenue
  {
    if f == PendingCount then Pending else Confirmed
  }

  /** Summing the one-per-booking weights gives the number of bookings
      with the counted status. */
  lemma {:induction false} CountIsCardinality(store: Store, products: map<int, Product>, keys: set<int>, f: Figure)
    requires keys <= store.Keys && f != Revenue
    ensures Tally(store, products, keys, f) == |WithStatus(store, keys, Counted(f))|
    decreases keys
  {
    var s := Counted(f);
    if k :| k in keys {
      TallyRemove(store, products, keys, k, f);
      CountIsCardinality(store, products, keys - {k}, f);
      if store[k].status == s {
        assert WithStatus(store, keys, s) == WithStatus(store, keys - {k}, s) + {k};
      } else {
        assert WithStatus(store, keys, s) == WithStatus(store, keys - {k}, s);
      }
    } else {
      var w := WithStatus(store, keys, s);
      assert forall j :: j !in w;
      assert w == {};
    }
  }

  /** Every CONFIRMED booking among `keys` has its product, so the revenue
      sum can be read (otherwise the page fails on the missing product). */
  predicate RevenueDefined(store: Store, products: map<int, Product>, keys: set<int>)
    requires keys <= store.Keys
  {
    forall k :: k in keys && store[k].status == Confirmed ==> store[k].productId in products
  }

  datatype Stats = Stats(total: nat, pending: nat, confirmed: nat, revenue: Option<int>)

  /** The dashboard figures, computed by visiting every booking once. */
  method DashboardStats(site: Site) returns (stats: Stats)
    ensures stats.total == |site.bookings|
    ensures stats.pending == |WithStatus(site.bookings, site.bookings.Keys, Pending)|
    ensures stats.confirmed == |WithStatus(site.bookings, site.bookings.Keys, Confirmed)|
    ensures stats.pending + stats.confirmed <= stats.total
    ensures stats.revenue.Some? <==> RevenueDefined(site.bookings, site.products, site.bookings.Keys)
    ensures stats.revenue.Some? ==>
      stats.revenue.value == Tally(site.bookings, site.products, site.bookings.Keys, Revenue)
  {
    var store, products := site.bookings, site.products;
    var remaining := store.Keys;
    var pending, confirmed, revenue := 0, 0, 0;
    var defined := true;
    CountsWithinTotal(store, products, store.Keys);
    while exists k :: k in remaining
      invariant remaining <= store.Keys
      invariant pending + Tally(store, products, remaining, PendingCount)
                == Tally(store, products, store.Keys, PendingCount)
      invariant confirmed + Tally(store, products, remaining, ConfirmedCount)
                == Tally(store, products, store.Keys, ConfirmedCount)
      invariant revenue + Tally(store, products, remaining, Revenue)
                == Tally(store, products, store.Keys, Revenue)
      invariant defined <==> RevenueDefined(store, products, store.Keys - remaining)
      decreases remaining
    {
      var k :| k in remaining;
      TallyRemove(store, products, remaining, k, PendingCount);
      TallyRemove(store, products, remaining, k, ConfirmedCount);
      TallyRemove(store, products, remaining, k, Revenue);
      var b := store[k];
      if b.status == Pending {
        pending := pending + 1;
      }
      if b.status == Confirmed {
        confirmed := confirmed + 1;
        if b.productId in products {
          revenue := revenue + products[b.productId].priceCents;
        } else {
          defined := false;
        }
      }
      assert store.Keys - (remaining - {k}) == (store.Keys - remaining) + {k};
      remaining := remaining - {k};
    }
    assert store.Keys - remaining == store.Keys;
    CountIsCardinality(store, products, store.Keys, PendingCount);
    CountIsCardinality(store, products, store.Keys, ConfirmedCount);
    stats := Stats(|store|, pending, confirmed, if defined then Some(revenue) else None);
  }

  /** On a valid site the revenue is always defined. */
  lemma ValidRevenueDefined(site: Site)
    requires Valid(site)
    ensures RevenueDefined(site.bookings, site.products, site.bookings.Keys)
  {
  }

  /** Confirming a PENDING booking through the success callback adds the
      price of its product to the revenue, and moves one booking from the
      PENDING count to the CONFIRMED count. */
  lemma {:induction false} ConfirmationAddsRevenue(site: Site, pendingId: Option<int>, arg: Option<string>,
                                                   paymentIntent: Option<string>)
    requires var res := ResolveBookingId(arg, pendingId);
             Found(site, res) && site.bookings[res.key.value].status == Pending
             && site.bookings[res.key.value].productId in site.products
    ensures var res := ResolveBookingId(arg, pendingId);
            var after := BookingSuccess(site, pendingId, arg, paymentIntent).site;
            var price := site.products[site.bookings[res.key.value].productId].priceCents;
            && Tally(after.bookings, after.products, after.bookings.Keys, Revenue)
               == Tally(site.bookings, site.products, site.bookings.Keys, Revenue) + price
            && Tally(after.bookings, after.products, after.bookings.Keys, PendingCount)
               == Tally(site.bookings, site.products, site.bookings.Keys, PendingCount) - 1
            && Tally(after.bookings, after.products, after.bookings.Keys, ConfirmedCount)
               == Tally(site.bookings, site.products, site.bookings.Keys, ConfirmedCount) + 1
  {
    var res := ResolveBookingId(arg, pendingId);
    var id := res.key.value;
    var after := BookingSuccess(site, pendingId, arg, paymentIntent).site;
    var keys := site.bookings.Keys;
    assert after.bookings.Keys == keys && after.products == site.products;
    var rest := keys - {id};
    forall f: Figure
      ensures Tally(after.bookings, site.products, keys, f)
              == Weight(after.bookings, site.products, id, f) + Tally(site.bookings, site.products, rest, f)
      ensures Tally(site.bookings, site.products, keys, f)
              == Weight(site.bookings, site.products, id, f) + Tally(site.bookings, site.products, rest, f)
    {
      TallyRemove(after.bookings, site.products, keys, id, f);
      TallyRemove(site.bookings, site.products, keys, id, f);
      TallyFrame(after.bookings, site.bookings, site.products, rest, f);
    }
  }
}

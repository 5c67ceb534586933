/** The redirect domain and the parameters of a checkout session. The call
    to the payment processor itself is outside the model: its answer is an
    input of the booking route. */
module Utils {
  import opened Base
  import opened Models

  /** The environment values the helpers read. */
  datatype Environment = Environment(
    deployment: Option<string>,    // REPLIT_DEPLOYMENT
    devDomain: Option<string>,     // REPLIT_DEV_DOMAIN
    domains: Option<string>,       // REPLIT_DOMAINS
    stripeKey: Option<string>)     // STRIPE_SECRET_KEY

  const FALLBACK_DOMAIN: string := "localhost:5000"

  /** `s.split(',')[0]`: everything before the first comma. */
  function FirstSegment(s: string): (r: string)
    ensures ',' !in r
    ensures |r| <= |s| && r == s[..|r|]
    ensures r == s || s[|r|] == ','
    decreases |s|
  {
    if s == [] || s[0] == ',' then [] else [s[0]] + FirstSegment(s[1..])
  }

  /** The first segment of a list joined with commas is its first entry. */
  lemma {:induction false} FirstSegmentOfJoin(a: string, b: string)
    requires ',' !in a
    ensures FirstSegment(a + [','] + b) == a
    decreases |a|
  {
    if a == [] {
      assert (a + [','] + b)[0] == ',';
    } else {
      assert (a + [','] + b)[0] == a[0];
      assert (a + [','] + b)[1..] == a[1..] + [','] + b;
      FirstSegmentOfJoin(a[1..], b);
    }
  }

  /** `get_domain()`: the dev domain when deployed (possibly None), else the
      first listed domain, else the local fallback. */
  function GetDomain(env: Environment): (r: Option<string>)
    ensures Truthy(env.deployment) ==> r == env.devDomain
    ensures !Truthy(env.deployment) && Truthy(env.domains) ==>
      r.Some? && ',' !in r.value && r.value <= env.domains.value
      && (r.value == env.domains.value || env.domains.value[|r.value|] == ',')
    ensures !Truthy(env.deployment) && !Truthy(env.domains) ==> r == Some(FALLBACK_DOMAIN)
  {
    if Truthy(env.deployment) then env.devDomain
    else
      var domains := if env.domains.Some? then env.domains.value else "";
      if domains != "" then Some(FirstSegment(domains))
      else Some(FALLBACK_DOMAIN)
  }

  /** A checkout line item: either a stored price reference, or a one-off
      price built from the product. */
  datatype LineItem =
    | PriceRef(price: string, quantity: nat)
    | PriceData(currency: string, name: string, description: string, unitAmount: int, quantity: nat)

  datatype SessionParams = SessionParams(
    lineItems: seq<LineItem>,
    mode: string,
    successUrl: string,
    cancelUrl: string,
    automaticTax: bool,
    billingAddressCollection: string,
    customerCreation: string)

  /** The line items for one unit of `p`. */
  function LineItems(p: Product): (items: seq<LineItem>)
    ensures |items| == 1 && items[0].quantity == 1
    ensures Truthy(p.stripePriceId) <==> items[0].PriceRef?
    ensures items[0].PriceRef? ==> items[0].price == p.stripePriceId.value
    ensures items[0].PriceData? ==>
      items[0].currency == "usd" && items[0].name == p.name
      && items[0].description == p.description && items[0].unitAmount == p.priceCents
  {
    if Truthy(p.stripePriceId) then [PriceRef(p.stripePriceId.value, 1)]
    else [PriceData("usd", p.name, p.description, p.priceCents, 1)]
  }

  /** The session request `create_stripe_checkout_session` would send, or
      None when no API key is configured and nothing is sent. */
  function CheckoutParams(stripeKey: Option<string>, p: Product, successUrl: string, cancelUrl: string)
    : (r: Option<SessionParams>)
    ensures r.Some? <==> Truthy(stripeKey)
    ensures r.Some? ==>
      && r.value.lineItems == LineItems(p)
      && r.value.mode == "payment"
      && r.value.successUrl == successUrl && r.value.cancelUrl == cancelUrl
      && r.value.automaticTax
      && r.value.billingAddressCollection == "required"
      && r.value.customerCreation == "always"
  {
    if !Truthy(stripeKey) then None
    else Some(SessionParams(LineItems(p), "payment", successUrl, cancelUrl, true, "required", "always"))
  }

  /** `create_stripe_checkout_session`: the processor's answer `gateway`
      (a checkout URL, or None for any failure) is used only if a request
      was made at all. */
  function CreateCheckout(stripeKey: Option<string>, p: Product, successUrl: string, cancelUrl: string,
                          gateway: Option<string>): (r: Option<string>)
    ensures r.Some? <==> Truthy(stripeKey) && gateway.Some?
    ensures r.Some? ==> r == gateway
  {
    if CheckoutParams(stripeKey, p, successUrl, cancelUrl).Some? then gateway else None
  }
}

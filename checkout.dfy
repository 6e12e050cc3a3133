/**
 * Starting a checkout: the caller's cart becomes the line items and metadata
 * of a session request to the payment provider.  The request is the result;
 * creating the session and its redirect url belong to the provider.
 */
module Checkout {
  import opened Wrappers
  import opened Storage
  import opened Payments

  /** One `line_items` entry: `price_data` (currency, product name and images, unit amount in cents) and quantity. */
  datatype LineItem = LineItem(currency: string, name: string, images: seq<string>, unitAmountCents: nat, quantity: int)

  datatype SessionRequest = SessionRequest(
    paymentMethodTypes: seq<string>,
    lineItems: seq<LineItem>,
    mode: string,
    successUrl: string,
    cancelUrl: string,
    metadata: Metadata)

  /** The request, or the message of the error thrown instead. */
  datatype CheckoutResult = Request(request: SessionRequest) | Thrown(message: string)

  /** The line item for one cart item, priced from its product. */
  function LineItemFor(x: CartItem, p: Product): LineItem {
    LineItem("usd", p.name, [p.image], p.priceCents, x.quantity)
  }

  function LineItems(items: seq<CartItem>, products: seq<Product>): (r: seq<LineItem>)
    requires forall x | x in items :: HasProduct(products, x.productId)
    ensures |r| == |items|
    ensures forall k | 0 <= k < |r| ::
              exists p | p in products && p.id == items[k].productId :: r[k] == LineItemFor(items[k], p)
  {
    if items == [] then []
    else [LineItemFor(items[0], ProductWithId(products, items[0].productId).value)] + LineItems(items[1..], products)
  }

  /**
   * `createCheckoutSession` up to the provider call, for the signed-in user
   * and the deployment's `NEXT_PUBLIC_APP_URL`.
   */
  function CreateCheckoutSession(t: Tables, user: Option<UserId>, appUrl: string): (r: CheckoutResult)
    requires ValidTables(t)
    ensures r.Thrown? ==> r.message == "Unauthorized" || r.message == "Cart is empty"
  {
    if !Present(user) then Thrown("Unauthorized")
    else
      match CartOfOwner(t.carts, user.value)
      case None => Thrown("Cart is empty")
      case Some(cart) =>
        var mine := ItemsOfCart(t.items, cart.id);
        if |mine| == 0 then Thrown("Cart is empty")
        else
          Request(SessionRequest(
            ["card"],
            LineItems(mine, t.products),
            "payment",
            appUrl + "/success?session_id={CHECKOUT_SESSION_ID}",
            appUrl + "/?canceled=true",
            Metadata(Some(user.value), Some(cart.id))))
  }

  // ---------------------------------------------------------------------
  // Properties
  // ---------------------------------------------------------------------

  /**
   * The guards: no user is "Unauthorized"; a user with no cart, or with an
   * empty one, is "Cart is empty"; otherwise a request is made.
   */
  lemma CheckoutGuards(t: Tables, user: Option<UserId>, appUrl: string)
    requires ValidTables(t)
    ensures var r := CreateCheckoutSession(t, user, appUrl);
            && (!Present(user) <==> r == Thrown("Unauthorized"))
            && (Present(user) ==>
                  (r == Thrown("Cart is empty") <==>
                     CartOfOwner(t.carts, user.value).None?
                     || ItemsOfCart(t.items, CartOfOwner(t.carts, user.value).value.id) == []))
            && (r.Request? <==> Present(user) && CartOfOwner(t.carts, user.value).Some?
                                && ItemsOfCart(t.items, CartOfOwner(t.carts, user.value).value.id) != [])
  {
  }

  /**
   * One line item per cart item, in cart order: the product's name and image,
   * its price in cents as the unit amount, in dollars (usd), and the item's
   * quantity; the metadata names the caller and the cart.
   */
  lemma RequestMirrorsCart(t: Tables, user: Option<UserId>, appUrl: string)
    requires ValidTables(t)
    requires CreateCheckoutSession(t, user, appUrl).Request?
    ensures var req := CreateCheckoutSession(t, user, appUrl).request;
            var cart := CartOfOwner(t.carts, user.value).value;
            var mine := ItemsOfCart(t.items, cart.id);
            && cart.owner == user.value
            && req.metadata == Metadata(Some(user.value), Some(cart.id))
            && |req.lineItems| == |mine| > 0
            && forall k | 0 <= k < |mine| ::
                 && req.lineItems[k].currency == "usd"
                 && req.lineItems[k].quantity == mine[k].quantity
                 && exists p | p in t.products && p.id == mine[k].productId ::
                      && req.lineItems[k].name == p.name
                      && req.lineItems[k].images == [p.image]
                      && req.lineItems[k].unitAmountCents == p.priceCents
  {
  }
}

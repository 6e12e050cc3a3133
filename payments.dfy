/**
 * What the two fulfilment entry points (the confirmation page and the payment
 * callback) share: the checkout session as the payment provider reports it,
 * the order lines copied from a cart, and the database calls that can fail.
 */
module Payments {
  import opened Wrappers
  import opened Storage

  datatype PaymentStatus = Paid | Unpaid | NoPaymentRequired

  /**
   * The metadata written at checkout.  A missing or empty entry is `None`;
   * the cart id is the store's id of the cart.
   */
  datatype Metadata = Metadata(userId: Option<UserId>, cartId: Option<Id>)

  /** A checkout session: its id, payment status, `amount_total` in cents and metadata. */
  datatype Session = Session(id: string, paymentStatus: PaymentStatus, amountTotal: Option<nat>, metadata: Metadata)

  /**
   * The database calls of a fulfilment, any of which may throw.  A fault names
   * the call that throws; the calls before it have taken effect, the ones
   * after it are not issued.
   */
  datatype DbCall = FindOrder | FindCart | CreateOrder | ClearItems

  /**
   * The order total in cents.  The order stores `amount_total / 100` dollars,
   * which is `amount_total` cents; a missing amount converts to 0.
   */
  function TotalCents(s: Session): (cents: nat)
    ensures s.amountTotal.Some? ==> cents == s.amountTotal.value
    ensures s.amountTotal.None? ==> cents == 0
  {
    match s.amountTotal
    case Some(a) => a
    case None => 0
  }

  /** The order lines for a cart's items: product, quantity and the product's current price. */
  function Snapshot(items: seq<CartItem>, products: seq<Product>): (lines: seq<OrderItem>)
    requires forall x | x in items :: HasProduct(products, x.productId)
    ensures |lines| == |items|
    ensures forall k | 0 <= k < |lines| ::
              && lines[k].productId == items[k].productId
              && lines[k].quantity == items[k].quantity
              && exists p | p in products :: p.id == items[k].productId && lines[k].priceCents == p.priceCents
  {
    if items == [] then []
    else
      var p := ProductWithId(products, items[0].productId).value;
      [OrderItem(items[0].productId, items[0].quantity, p.priceCents)] + Snapshot(items[1..], products)
  }

  /** What order lines add up to: unit price times quantity, summed. */
  function LinesValue(lines: seq<OrderItem>): int {
    if lines == [] then 0 else lines[0].priceCents * lines[0].quantity + LinesValue(lines[1..])
  }

  /** A cart none of whose items is left has no items. */
  lemma {:induction false} NoItemsOfCart(items: seq<CartItem>, cartId: Id)
    requires forall x | x in items :: x.cartId != cartId
    ensures ItemsOfCart(items, cartId) == []
  {
    if items != [] {
      NoItemsOfCart(items[1..], cartId);
    }
  }

  /** Clearing a cart twice is clearing it once. */
  lemma {:induction false} ClearTwice(items: seq<CartItem>, cartId: Id)
    ensures ItemsOutsideCart(ItemsOutsideCart(items, cartId), cartId) == ItemsOutsideCart(items, cartId)
  {
    if items != [] {
      ClearTwice(items[1..], cartId);
    }
  }

  /**
   * The shape both entry points leave after a successful create and clear:
   * the order appended behind the old ones, the cart's items gone, the other
   * tables as they were, and nothing left for a second clear to remove.
   */
  lemma OrderThenClear(t: Tables, o: Order, cartId: Id)
    ensures var t' := ClearCart(t.(orders := t.orders + [o], nextId := t.nextId + 1), cartId);
            && t'.orders == t.orders + [o]
            && |t'.orders| == |t.orders| + 1
            && t'.orders[..|t.orders|] == t.orders
            && t'.orders[|t.orders|] == o
            && HasSessionOrder(t'.orders, o.sessionId)
            && t'.carts == t.carts && t'.products == t.products && t'.categories == t.categories
            && (forall x :: x in t'.items <==> x in t.items && x.cartId != cartId)
            && ClearCart(t', cartId) == t'
  {
    var t' := ClearCart(t.(orders := t.orders + [o], nextId := t.nextId + 1), cartId);
    assert (t.orders + [o])[..|t.orders|] == t.orders;
    assert o in t'.orders;
    ClearTwice(t.items, cartId);
  }
}

/**
 * The confirmation page and the payment callback both fulfil the same
 * checkout session, in whichever order they happen to run.  These lemmas
 * compose the two, one after the other.
 */
module Races {
  import opened Wrappers
  import opened Storage
  import opened Payments
  import SuccessPage
  import Webhook
  import Checkout

  /** At most one order per checkout session. */
  ghost predicate OneOrderPerSession(orders: seq<Order>) {
    forall sid :: SessionOrderCount(orders, sid) <= 1
  }

  /** `after` is `before`, or `before` with one order appended for a session that had none. */
  ghost predicate SameOrOneFresh(before: seq<Order>, after: seq<Order>) {
    || after == before
    || (&& |after| == |before| + 1
        && after[..|before|] == before
        && !HasSessionOrder(before, after[|before|].sessionId))
  }

  lemma SameOrOneFreshKeepsOne(before: seq<Order>, after: seq<Order>)
    requires OneOrderPerSession(before) && SameOrOneFresh(before, after)
    ensures OneOrderPerSession(after)
  {
    if after != before {
      var o := after[|before|];
      assert after == before + [o];
      forall sid ensures SessionOrderCount(after, sid) <= 1 {
        SessionOrderCountAppend(before, o, sid);
      }
    }
  }

  /** A fulfilment that runs the existence check first adds an order only for a session without one. */
  lemma PageAddsOnlyFresh(t: Tables, retrieved: Option<Session>, fault: Option<DbCall>, now: nat)
    requires ItemsReferenced(t)
    ensures SameOrOneFresh(t.orders, SuccessPage.Fulfil(t, retrieved, fault, now).orders)
  {
    if retrieved.Some? && SuccessPage.Fulfillable(retrieved.value) && fault != Some(FindOrder) {
      var s := retrieved.value;
      if !HasSessionOrder(t.orders, s.id) && fault != Some(FindCart) {
        var c := CartWithId(t.carts, s.metadata.cartId.value);
        if c.Some? && ItemsOfCart(t.items, c.value.id) != [] {
          OrderFromCartAddsFresh(t, s, c.value, fault, now);
        }
      }
    }
  }

  lemma OrderFromCartAddsFresh(t: Tables, s: Session, c: Cart, fault: Option<DbCall>, now: nat)
    requires ItemsReferenced(t) && SuccessPage.Fulfillable(s) && !HasSessionOrder(t.orders, s.id)
    ensures SameOrOneFresh(t.orders, SuccessPage.OrderFromCart(t, s, c, fault, now).orders)
  {
    if fault != Some(CreateOrder) {
      var lines := Snapshot(ItemsOfCart(t.items, c.id), t.products);
      var o := Order(t.nextId, s.metadata.userId.value, TotalCents(s), s.id, Processing, lines, now);
      assert (t.orders + [o])[..|t.orders|] == t.orders;
    }
  }

  lemma CreateAndClearAddsFresh(t: Tables, s: Session, c: Cart, fault: Option<DbCall>, now: nat)
    requires ItemsReferenced(t) && Present(s.metadata.userId) && !HasSessionOrder(t.orders, s.id)
    ensures SameOrOneFresh(t.orders, Webhook.CreateAndClear(t, s, c, fault, now).0.orders)
  {
    if fault != Some(CreateOrder) {
      var lines := Snapshot(ItemsOfCart(t.items, c.id), t.products);
      var o := Order(t.nextId, s.metadata.userId.value, TotalCents(s), s.id, Processing, lines, now);
      assert (t.orders + [o])[..|t.orders|] == t.orders;
    }
  }

  /** The confirmation page never makes a second order for a session. */
  lemma PageKeepsOneOrderPerSession(t: Tables, sessionParam: Option<string>, retrieved: Option<Session>,
                                    fault: Option<DbCall>, now: nat)
    requires ItemsReferenced(t) && OneOrderPerSession(t.orders)
    ensures OneOrderPerSession(SuccessPage.LoadEffect(t, sessionParam, retrieved, fault, now).0.orders)
  {
    if Present(sessionParam) {
      PageAddsOnlyFresh(t, retrieved, fault, now);
      SameOrOneFreshKeepsOne(t.orders, SuccessPage.Fulfil(t, retrieved, fault, now).orders);
    }
  }

  /** The callback with the existence check never makes a second order for a session. */
  lemma GuardedCallbackKeepsOneOrderPerSession(t: Tables, verified: Option<Webhook.Event>, fault: Option<DbCall>, now: nat)
    requires ItemsReferenced(t) && OneOrderPerSession(t.orders)
    ensures OneOrderPerSession(Webhook.GuardedPostEffect(t, verified, fault, now).0.orders)
  {
    GuardedCallbackAddsOnlyFresh(t, verified, fault, now);
    SameOrOneFreshKeepsOne(t.orders, Webhook.GuardedPostEffect(t, verified, fault, now).0.orders);
  }

  lemma GuardedCallbackAddsOnlyFresh(t: Tables, verified: Option<Webhook.Event>, fault: Option<DbCall>, now: nat)
    requires ItemsReferenced(t)
    ensures SameOrOneFresh(t.orders, Webhook.GuardedPostEffect(t, verified, fault, now).0.orders)
  {
    if verified.Some? && verified.value.eventType == Webhook.CheckoutCompleted {
      var s := verified.value.session;
      if Present(s.metadata.userId) && s.metadata.cartId.Some? && fault != Some(FindOrder)
         && !HasSessionOrder(t.orders, s.id) && fault != Some(FindCart)
      {
        var c := CartWithId(t.carts, s.metadata.cartId.value);
        if c.Some? {
          CreateAndClearAddsFresh(t, s, c.value, fault, now);
        }
      }
    }
  }

  /**
   * The page fulfils first, then the callback arrives for the same session.
   * The callback has no existence check and the cart row is still there, so
   * it creates a second order for the session, with no lines, and answers 200.
   */
  lemma PageThenCallbackDuplicates(t: Tables, sessionParam: Option<string>, s: Session, c: Cart, now: nat, later: nat)
    requires ItemsReferenced(t) && !t.uniqueSessionIds && Present(sessionParam)
    requires SuccessPage.Fulfillable(s) && !HasSessionOrder(t.orders, s.id)
    requires c.id == s.metadata.cartId.value && CartWithId(t.carts, c.id) == Some(c) && ItemsOfCart(t.items, c.id) != []
    ensures var t1 := SuccessPage.LoadEffect(t, sessionParam, Some(s), None, now).0;
            var (t2, status) := Webhook.PostEffect(t1, Some(Webhook.Event(Webhook.CheckoutCompleted, s)), None, later);
            && SessionOrderCount(t1.orders, s.id) == 1
            && status == Webhook.Ok
            && SessionOrderCount(t2.orders, s.id) == 2
            && t2.orders[|t2.orders| - 1].items == []
  {
    var t1 := SuccessPage.LoadEffect(t, sessionParam, Some(s), None, now).0;
    assert t1 == SuccessPage.Fulfil(t, Some(s), None, now);
    SuccessPage.FirstVisitCreatesOrder(t, s, c, now);
    CallbackAfterFulfilment(t1, s, c, later);
  }

  /** The callback for a session whose order exists and whose cart has been emptied. */
  lemma CallbackAfterFulfilment(t1: Tables, s: Session, c: Cart, later: nat)
    requires ItemsReferenced(t1) && !t1.uniqueSessionIds && SuccessPage.Fulfillable(s)
    requires c.id == s.metadata.cartId.value && CartWithId(t1.carts, c.id) == Some(c)
    requires forall x | x in t1.items :: x.cartId != c.id
    ensures var (t2, status) := Webhook.PostEffect(t1, Some(Webhook.Event(Webhook.CheckoutCompleted, s)), None, later);
            && status == Webhook.Ok
            && SessionOrderCount(t2.orders, s.id) == SessionOrderCount(t1.orders, s.id) + 1
            && t2.orders[|t2.orders| - 1].items == []
  {
    var e := Webhook.Event(Webhook.CheckoutCompleted, s);
    Webhook.CompletedCheckoutCreatesOrder(t1, e, c, later);
    var t2 := Webhook.PostEffect(t1, Some(e), None, later).0;
    NoItemsOfCart(t1.items, c.id);
    var o := t2.orders[|t1.orders|];
    assert t2.orders == t1.orders + [o];
    SessionOrderCountAppend(t1.orders, o, s.id);
  }

  /** With the session id unique in the schema, that late callback is refused with a 500 and changes nothing. */
  lemma PageThenCallbackRefusedWhenUnique(t: Tables, sessionParam: Option<string>, s: Session, c: Cart, now: nat, later: nat)
    requires ItemsReferenced(t) && t.uniqueSessionIds && Present(sessionParam)
    requires SuccessPage.Fulfillable(s) && !HasSessionOrder(t.orders, s.id)
    requires c.id == s.metadata.cartId.value && CartWithId(t.carts, c.id) == Some(c) && ItemsOfCart(t.items, c.id) != []
    ensures var t1 := SuccessPage.LoadEffect(t, sessionParam, Some(s), None, now).0;
            Webhook.PostEffect(t1, Some(Webhook.Event(Webhook.CheckoutCompleted, s)), None, later) == (t1, Webhook.ServerError)
  {
    var t1 := SuccessPage.LoadEffect(t, sessionParam, Some(s), None, now).0;
    SuccessPage.FirstVisitCreatesOrder(t, s, c, now);
    assert t1.carts == t.carts;
    Webhook.DuplicateRefusedByUniqueSessionIds(t1, Webhook.Event(Webhook.CheckoutCompleted, s), None, later);
  }

  /**
   * The callback fulfils first, then the buyer lands on the page.  The page
   * finds the callback's order and only clears the already empty cart, so
   * the session keeps exactly one order and the store is unchanged.
   */
  lemma CallbackThenPageKeepsOne(t: Tables, sessionParam: Option<string>, s: Session, c: Cart, now: nat, later: nat)
    requires ItemsReferenced(t) && Present(sessionParam)
    requires SuccessPage.Fulfillable(s) && !HasSessionOrder(t.orders, s.id)
    requires c.id == s.metadata.cartId.value && CartWithId(t.carts, c.id) == Some(c)
    ensures var (t1, status) := Webhook.PostEffect(t, Some(Webhook.Event(Webhook.CheckoutCompleted, s)), None, now);
            && status == Webhook.Ok
            && SessionOrderCount(t1.orders, s.id) == 1
            && SuccessPage.LoadEffect(t1, sessionParam, Some(s), None, later) == (t1, SuccessPage.PaymentSuccessful)
  {
    var e := Webhook.Event(Webhook.CheckoutCompleted, s);
    var lines := Snapshot(ItemsOfCart(t.items, c.id), t.products);
    var o := Order(t.nextId, s.metadata.userId.value, TotalCents(s), s.id, Processing, lines, now);
    var t1 := ClearCart(t.(orders := t.orders + [o], nextId := t.nextId + 1), c.id);
    Webhook.CompletedCheckoutShape(t, e, c, now);
    OrderThenClear(t, o, c.id);
    SessionOrderCountAppend(t.orders, o, s.id);
    PageAfterFulfilment(t1, sessionParam, s, later);
  }

  /** The page for a session whose order exists and whose cart has been emptied changes nothing. */
  lemma PageAfterFulfilment(t1: Tables, sessionParam: Option<string>, s: Session, later: nat)
    requires ItemsReferenced(t1) && Present(sessionParam) && SuccessPage.Fulfillable(s)
    requires HasSessionOrder(t1.orders, s.id)
    requires forall x | x in t1.items :: x.cartId != s.metadata.cartId.value
    ensures SuccessPage.LoadEffect(t1, sessionParam, Some(s), None, later) == (t1, SuccessPage.PaymentSuccessful)
  {
    SuccessPage.ExistingOrderOnlyClears(t1, s, later);
    var t2 := SuccessPage.Fulfil(t1, Some(s), None, later);
    assert t2.items == t1.items by {
      NoneOutside(t1.items, s.metadata.cartId.value);
    }
  }

  lemma {:induction false} NoneOutside(items: seq<CartItem>, cartId: Id)
    requires forall x | x in items :: x.cartId != cartId
    ensures ItemsOutsideCart(items, cartId) == items
  {
    if items != [] {
      NoneOutside(items[1..], cartId);
    }
  }

  /**
   * The metadata written at checkout is what fulfilment reads back: once the
   * session is paid, the confirmation page turns the caller's cart into an
   * order for the caller whose lines match the checkout's line items in
   * quantity and unit price, and empties that cart.
   */
  lemma CheckoutThenPage(t: Tables, user: Option<UserId>, appUrl: string, sessionParam: Option<string>,
                         sid: string, amountTotal: Option<nat>, now: nat)
    requires ValidTables(t) && Present(sessionParam) && !HasSessionOrder(t.orders, sid)
    requires Checkout.CreateCheckoutSession(t, user, appUrl).Request?
    ensures var req := Checkout.CreateCheckoutSession(t, user, appUrl).request;
            var s := Session(sid, Paid, amountTotal, req.metadata);
            var t' := SuccessPage.LoadEffect(t, sessionParam, Some(s), None, now).0;
            && |t'.orders| == |t.orders| + 1
            && t'.orders[|t.orders|].owner == user.value
            && |t'.orders[|t.orders|].items| == |req.lineItems|
            && (forall k | 0 <= k < |req.lineItems| ::
                  && t'.orders[|t.orders|].items[k].quantity == req.lineItems[k].quantity
                  && t'.orders[|t.orders|].items[k].priceCents == req.lineItems[k].unitAmountCents)
            && ItemsOfCart(t'.items, req.metadata.cartId.value) == []
  {
    var req := Checkout.CreateCheckoutSession(t, user, appUrl).request;
    var s := Session(sid, Paid, amountTotal, req.metadata);
    var cart := CartOfOwner(t.carts, user.value).value;
    Checkout.RequestMirrorsCart(t, user, appUrl);
    SuccessPage.FirstVisitCreatesOrder(t, s, cart, now);
    var t' := SuccessPage.Fulfil(t, Some(s), None, now);
    assert SuccessPage.LoadEffect(t, sessionParam, Some(s), None, now).0 == t';
    LinesMatchLineItems(t.products, ItemsOfCart(t.items, cart.id), t'.orders[|t.orders|].items, req.lineItems);
    NoItemsOfCart(t'.items, cart.id);
  }

  /** Order lines and line items made from the same cart items agree in quantity and price. */
  lemma LinesMatchLineItems(products: seq<Product>, mine: seq<CartItem>, lines: seq<OrderItem>, lineItems: seq<Checkout.LineItem>)
    requires forall p, q | p in products && q in products && p.id == q.id :: p == q
    requires |lines| == |mine| == |lineItems|
    requires forall k | 0 <= k < |lines| ::
               && lines[k].quantity == mine[k].quantity
               && exists p | p in products :: p.id == mine[k].productId && lines[k].priceCents == p.priceCents
    requires forall k | 0 <= k < |mine| ::
               && lineItems[k].quantity == mine[k].quantity
               && exists p | p in products && p.id == mine[k].productId :: lineItems[k].unitAmountCents == p.priceCents
    ensures forall k | 0 <= k < |lines| ::
              lines[k].quantity == lineItems[k].quantity && lines[k].priceCents == lineItems[k].unitAmountCents
  {
    forall k | 0 <= k < |lines| ensures lines[k].priceCents == lineItems[k].unitAmountCents {
      assert exists p | p in products :: p.id == mine[k].productId && lines[k].priceCents == p.priceCents;
      var p :| p in products && p.id == mine[k].productId && lines[k].priceCents == p.priceCents;
      var q :| q in products && q.id == mine[k].productId && lineItems[k].unitAmountCents == q.priceCents;
    }
  }

  /**
   * Both entry points store the amount the provider charged, not what the
   * order lines add up to: two $25 items paid with a $5 discount give lines
   * worth $50 and an order total of $45.
   */
  lemma DiscountedCartStoresAmountCharged(now: nat)
    ensures var t := Tables([Cart(2, "u")], [CartItem(3, 2, 1, 2)], [Product(1, "Apples", 2500, "apples.png")], [], [], 4, false);
            var s := Session("cs_1", Paid, Some(4500), Metadata(Some("u"), Some(2)));
            var (t1, status) := Webhook.PostEffect(t, Some(Webhook.Event(Webhook.CheckoutCompleted, s)), None, now);
            var t2 := SuccessPage.Fulfil(t, Some(s), None, now);
            && status == Webhook.Ok
            && |t1.orders| == 1 && LinesValue(t1.orders[0].items) == 5000 && t1.orders[0].totalCents == 4500
            && |t2.orders| == 1 && LinesValue(t2.orders[0].items) == 5000 && t2.orders[0].totalCents == 4500
  {
    var c := Cart(2, "u");
    var x := CartItem(3, 2, 1, 2);
    var t := Tables([c], [x], [Product(1, "Apples", 2500, "apples.png")], [], [], 4, false);
    var s := Session("cs_1", Paid, Some(4500), Metadata(Some("u"), Some(2)));
    assert ItemsReferenced(t) by {
      assert c in t.carts && t.products[0] in t.products;
    }
    assert ItemsOfCart(t.items, c.id) == [x];
    var lines := Snapshot([x], t.products);
    assert lines == [OrderItem(1, 2, 2500)];
    assert LinesValue(lines) == 5000;
    var o := Order(t.nextId, "u", 4500, s.id, Processing, lines, now);
    var t' := ClearCart(t.(orders := [o], nextId := t.nextId + 1), c.id);
    assert t.orders + [o] == [o];
    Webhook.CompletedCheckoutShape(t, Webhook.Event(Webhook.CheckoutCompleted, s), c, now);
    SuccessPage.FirstVisitShape(t, s, c, now);
    assert t'.orders == [o];
  }
}

/**
 * The order confirmation page.  Stripe redirects the buyer here with the
 * checkout session id; the page fulfils the order itself when the payment
 * callback has not done so yet, so that a lost callback does not lose the
 * order.  Only its fulfilment logic is modelled: the view it renders is one
 * of two outcomes.
 */
module SuccessPage {
  import opened Wrappers
  import opened Storage
  import opened Payments

  datatype View = InvalidSession | PaymentSuccessful

  /**
   * The page for the `session_id` query parameter.  `retrieved` is what the
   * payment provider returns for that id (`None` when the retrieval throws),
   * `fault` the database call that throws, if any, and `now` the clock.
   */
  function LoadEffect(t: Tables, sessionParam: Option<string>, retrieved: Option<Session>,
                      fault: Option<DbCall>, now: nat): (r: (Tables, View))
    requires ItemsReferenced(t)
    ensures r.1 == InvalidSession <==> !Present(sessionParam)
    ensures ItemsReferenced(r.0)
  {
    if !Present(sessionParam) then (t, InvalidSession)
    else (Fulfil(t, retrieved, fault, now), PaymentSuccessful)
  }

  /** The fulfilment inside the page's try block; a throw keeps what was done before it. */
  function Fulfil(t: Tables, retrieved: Option<Session>, fault: Option<DbCall>, now: nat): (t': Tables)
    requires ItemsReferenced(t)
    ensures ItemsReferenced(t')
  {
    if retrieved.None? || !Fulfillable(retrieved.value) || fault == Some(FindOrder) then t
    else
      var s := retrieved.value;
      if HasSessionOrder(t.orders, s.id) then
        if fault == Some(ClearItems) then t
        else ClearCart(t, s.metadata.cartId.value)
      else if fault == Some(FindCart) then t
      else
        match CartWithId(t.carts, s.metadata.cartId.value)
        case None => t
        case Some(c) => if ItemsOfCart(t.items, c.id) == [] then t else OrderFromCart(t, s, c, fault, now)
  }

  /** order.create from the cart's items, then deleteMany on the cart. */
  function OrderFromCart(t: Tables, s: Session, c: Cart, fault: Option<DbCall>, now: nat): (t': Tables)
    requires ItemsReferenced(t) && Fulfillable(s)
    ensures ItemsReferenced(t')
  {
    if fault == Some(CreateOrder) then t
    else
      var lines := Snapshot(ItemsOfCart(t.items, c.id), t.products);
      var (t1, ok) := AddOrder(t, s.metadata.userId.value, TotalCents(s), s.id, Processing, lines, now);
      if !ok || fault == Some(ClearItems) then t1 else ClearCart(t1, c.id)
  }

  /** Whether the session calls for fulfilment: paid, with both metadata entries. */
  predicate Fulfillable(s: Session) {
    s.paymentStatus == Paid && Present(s.metadata.userId) && s.metadata.cartId.Some?
  }

  // ---------------------------------------------------------------------
  // Properties
  // ---------------------------------------------------------------------

  /** The page keeps the whole store invariant. */
  lemma LoadKeepsValid(t: Tables, sessionParam: Option<string>, retrieved: Option<Session>,
                       fault: Option<DbCall>, now: nat)
    requires ValidTables(t)
    ensures ValidTables(LoadEffect(t, sessionParam, retrieved, fault, now).0)
  {
    if Present(sessionParam) && retrieved.Some? && Fulfillable(retrieved.value) && fault != Some(FindOrder) {
      var s := retrieved.value;
      var t' := LoadEffect(t, sessionParam, retrieved, fault, now).0;
      if HasSessionOrder(t.orders, s.id) {
        if fault != Some(ClearItems) {
          assert t' == ClearCart(t, s.metadata.cartId.value);
          ClearCartKeepsValid(t, s.metadata.cartId.value);
        }
      } else if fault != Some(FindCart) {
        var c := CartWithId(t.carts, s.metadata.cartId.value);
        if c.Some? && ItemsOfCart(t.items, c.value.id) != [] {
          assert t' == OrderFromCart(t, s, c.value, fault, now);
          OrderFromCartKeepsValid(t, s, c.value, fault, now);
        }
      }
    }
  }

  lemma OrderFromCartKeepsValid(t: Tables, s: Session, c: Cart, fault: Option<DbCall>, now: nat)
    requires ValidTables(t) && Fulfillable(s)
    ensures ValidTables(OrderFromCart(t, s, c, fault, now))
  {
    if fault != Some(CreateOrder) {
      var lines := Snapshot(ItemsOfCart(t.items, c.id), t.products);
      var (t1, ok) := AddOrder(t, s.metadata.userId.value, TotalCents(s), s.id, Processing, lines, now);
      AddOrderKeepsValid(t, s.metadata.userId.value, TotalCents(s), s.id, Processing, lines, now);
      ClearCartKeepsValid(t1, c.id);
    }
  }

  /** Without a session id the page shows the invalid-session view and changes nothing. */
  lemma NoSessionChangesNothing(t: Tables, sessionParam: Option<string>, retrieved: Option<Session>,
                                fault: Option<DbCall>, now: nat)
    requires ItemsReferenced(t) && !Present(sessionParam)
    ensures LoadEffect(t, sessionParam, retrieved, fault, now) == (t, InvalidSession)
  {
  }

  /**
   * The store changes only for a retrieved, paid session with both metadata
   * entries, and whatever happens, a page with a session id shows success.
   */
  lemma ChangesOnlyWhenFulfillable(t: Tables, sessionParam: Option<string>, retrieved: Option<Session>,
                                   fault: Option<DbCall>, now: nat)
    requires ItemsReferenced(t) && Present(sessionParam)
    ensures var (t', v) := LoadEffect(t, sessionParam, retrieved, fault, now);
            && v == PaymentSuccessful
            && (t' != t ==> retrieved.Some? && Fulfillable(retrieved.value))
  {
  }

  /**
   * When an order for the session exists, no order is created and the items
   * of the metadata's cart are deleted; everything else stays.
   */
  lemma ExistingOrderOnlyClears(t: Tables, s: Session, now: nat)
    requires ItemsReferenced(t) && Fulfillable(s) && HasSessionOrder(t.orders, s.id)
    ensures var t' := Fulfil(t, Some(s), None, now);
            && t' == t.(items := t'.items)
            && forall x :: x in t'.items <==> x in t.items && x.cartId != s.metadata.cartId.value
  {
  }

  /**
   * With no order for the session and a cart holding items, exactly one order
   * is appended: the buyer, the session's total, the session id, status
   * PROCESSING and one line per cart item, in cart order.  The cart's items
   * are then deleted; the cart row and all other tables stay.
   */
  lemma FirstVisitCreatesOrder(t: Tables, s: Session, c: Cart, now: nat)
    requires ItemsReferenced(t) && Fulfillable(s) && !HasSessionOrder(t.orders, s.id)
    requires c.id == s.metadata.cartId.value && CartWithId(t.carts, c.id) == Some(c) && ItemsOfCart(t.items, c.id) != []
    ensures var t' := Fulfil(t, Some(s), None, now);
            && |t'.orders| == |t.orders| + 1
            && t'.orders[..|t.orders|] == t.orders
            && OrderOfCart(t, s, c, t'.orders[|t.orders|], now)
            && SessionOrderCount(t'.orders, s.id) == 1
            && t'.carts == t.carts && t'.products == t.products && t'.categories == t.categories
            && forall x :: x in t'.items <==> x in t.items && x.cartId != c.id
  {
    var lines := Snapshot(ItemsOfCart(t.items, c.id), t.products);
    var o := Order(t.nextId, s.metadata.userId.value, TotalCents(s), s.id, Processing, lines, now);
    FirstVisitShape(t, s, c, now);
    SnapshotIsOrderOfCart(t, s, c, now);
    AppendOrderThenClear(t, o, c.id);
  }

  /** The store a first visit leaves: the new order appended, then the cart cleared. */
  lemma FirstVisitShape(t: Tables, s: Session, c: Cart, now: nat)
    requires ItemsReferenced(t) && Fulfillable(s) && !HasSessionOrder(t.orders, s.id)
    requires c.id == s.metadata.cartId.value && CartWithId(t.carts, c.id) == Some(c) && ItemsOfCart(t.items, c.id) != []
    ensures var lines := Snapshot(ItemsOfCart(t.items, c.id), t.products);
            var o := Order(t.nextId, s.metadata.userId.value, TotalCents(s), s.id, Processing, lines, now);
            Fulfil(t, Some(s), None, now) == ClearCart(t.(orders := t.orders + [o], nextId := t.nextId + 1), c.id)
  {
    OrderFromCartShape(t, s, c, now);
    assert Fulfil(t, Some(s), None, now) == OrderFromCart(t, s, c, None, now);
  }

  lemma OrderFromCartShape(t: Tables, s: Session, c: Cart, now: nat)
    requires ItemsReferenced(t) && Fulfillable(s) && !HasSessionOrder(t.orders, s.id)
    ensures var lines := Snapshot(ItemsOfCart(t.items, c.id), t.products);
            var o := Order(t.nextId, s.metadata.userId.value, TotalCents(s), s.id, Processing, lines, now);
            OrderFromCart(t, s, c, None, now) == ClearCart(t.(orders := t.orders + [o], nextId := t.nextId + 1), c.id)
  {
    var lines := Snapshot(ItemsOfCart(t.items, c.id), t.products);
    var o := Order(t.nextId, s.metadata.userId.value, TotalCents(s), s.id, Processing, lines, now);
    assert AddOrder(t, s.metadata.userId.value, TotalCents(s), s.id, Processing, lines, now)
        == (t.(orders := t.orders + [o], nextId := t.nextId + 1), true);
  }

  lemma SnapshotIsOrderOfCart(t: Tables, s: Session, c: Cart, now: nat)
    requires ItemsReferenced(t) && Fulfillable(s)
    ensures var lines := Snapshot(ItemsOfCart(t.items, c.id), t.products);
            OrderOfCart(t, s, c, Order(t.nextId, s.metadata.userId.value, TotalCents(s), s.id, Processing, lines, now), now)
  {
  }

  lemma AppendOrderThenClear(t: Tables, o: Order, cartId: Id)
    requires !HasSessionOrder(t.orders, o.sessionId)
    ensures var t' := ClearCart(t.(orders := t.orders + [o], nextId := t.nextId + 1), cartId);
            && |t'.orders| == |t.orders| + 1
            && t'.orders[..|t.orders|] == t.orders
            && t'.orders[|t.orders|] == o
            && SessionOrderCount(t'.orders, o.sessionId) == 1
            && t'.carts == t.carts && t'.products == t.products && t'.categories == t.categories
            && forall x :: x in t'.items <==> x in t.items && x.cartId != cartId
  {
    SessionOrderCountAppend(t.orders, o, o.sessionId);
    OrderThenClear(t, o, cartId);
  }

  /**
   * `o` is the order fulfilment makes from cart `c` for session `s`: the
   * buyer, the session's total, the session id, status PROCESSING, the time,
   * and one line per cart item in cart order with the product's current price.
   */
  ghost predicate OrderOfCart(t: Tables, s: Session, c: Cart, o: Order, now: nat)
    requires Fulfillable(s)
  {
    var mine := ItemsOfCart(t.items, c.id);
    && o.owner == s.metadata.userId.value
    && o.totalCents == (if s.amountTotal.Some? then s.amountTotal.value else 0)
    && o.sessionId == s.id && o.status == Processing && o.createdAt == now
    && |o.items| == |mine|
    && forall k | 0 <= k < |o.items| ::
         && o.items[k].productId == mine[k].productId && o.items[k].quantity == mine[k].quantity
         && exists p | p in t.products :: p.id == mine[k].productId && o.items[k].priceCents == p.priceCents
  }

  /** With no order for the session and a missing or empty cart, nothing changes. */
  lemma NoCartOrNoItemsChangesNothing(t: Tables, s: Session, now: nat)
    requires ItemsReferenced(t) && Fulfillable(s) && !HasSessionOrder(t.orders, s.id)
    requires || !HasCart(t.carts, s.metadata.cartId.value)
             || ItemsOfCart(t.items, s.metadata.cartId.value) == []
    ensures Fulfil(t, Some(s), None, now) == t
  {
  }

  /**
   * A storage failure is swallowed: the page still shows success.  A failing
   * existence check changes nothing, and only a failure of the final clear
   * can leave a new order behind.
   */
  lemma FaultsAreSwallowed(t: Tables, sessionParam: Option<string>, retrieved: Option<Session>,
                           fault: DbCall, now: nat)
    requires ItemsReferenced(t) && Present(sessionParam)
    ensures var (t', v) := LoadEffect(t, sessionParam, retrieved, Some(fault), now);
            && v == PaymentSuccessful
            && (fault == FindOrder ==> t' == t)
            && (fault != ClearItems ==> t'.orders == t.orders)
  {
  }

  /** A page with no working session leaves the store as it is (the retrieval threw). */
  lemma RetrieveFailureChangesNothing(t: Tables, sessionParam: Option<string>, fault: Option<DbCall>, now: nat)
    requires ItemsReferenced(t) && Present(sessionParam)
    ensures LoadEffect(t, sessionParam, None, fault, now) == (t, PaymentSuccessful)
  {
  }

  /**
   * Loading the page a second time for the same session changes nothing: the
   * first visit either did nothing, or left an order for the session and an
   * empty cart, which the second visit only clears again.
   */
  lemma {:induction false} ReloadIsIdempotent(t: Tables, sessionParam: Option<string>, s: Session, now: nat, later: nat)
    requires ItemsReferenced(t)
    ensures var (t1, v1) := LoadEffect(t, sessionParam, Some(s), None, now);
            LoadEffect(t1, sessionParam, Some(s), None, later) == (t1, v1)
  {
    if Present(sessionParam) && Fulfillable(s) {
      var cartId := s.metadata.cartId.value;
      var t1 := Fulfil(t, Some(s), None, now);
      if HasSessionOrder(t.orders, s.id) {
        assert t1 == ClearCart(t, cartId);
        SecondVisitOnlyClears(t1, s, later);
        ClearTwice(t.items, cartId);
      } else {
        match CartWithId(t.carts, cartId)
        case None =>
          NoCartOrNoItemsChangesNothing(t, s, now);
          NoCartOrNoItemsChangesNothing(t, s, later);
        case Some(c) =>
          if ItemsOfCart(t.items, c.id) == [] {
            NoCartOrNoItemsChangesNothing(t, s, now);
            NoCartOrNoItemsChangesNothing(t, s, later);
          } else {
            assert t1 == OrderFromCart(t, s, c, None, now);
            CreatedOrderIsSettled(t, s, c, now);
            SecondVisitOnlyClears(t1, s, later);
          }
      }
    }
  }

  /** With an order for the session, a fault-free visit only clears the cart. */
  lemma SecondVisitOnlyClears(t: Tables, s: Session, later: nat)
    requires ItemsReferenced(t) && Fulfillable(s) && HasSessionOrder(t.orders, s.id)
    ensures Fulfil(t, Some(s), None, later) == ClearCart(t, s.metadata.cartId.value)
  {
  }

  /** An order just made from a cart belongs to the session, and the cart is already empty. */
  lemma CreatedOrderIsSettled(t: Tables, s: Session, c: Cart, now: nat)
    requires ItemsReferenced(t) && Fulfillable(s) && !HasSessionOrder(t.orders, s.id)
    ensures var t1 := OrderFromCart(t, s, c, None, now);
            HasSessionOrder(t1.orders, s.id) && ClearCart(t1, c.id) == t1
  {
    var lines := Snapshot(ItemsOfCart(t.items, c.id), t.products);
    var o := Order(t.nextId, s.metadata.userId.value, TotalCents(s), s.id, Processing, lines, now);
    var t0 := t.(orders := t.orders + [o], nextId := t.nextId + 1);
    assert OrderFromCart(t, s, c, None, now) == ClearCart(t0, c.id);
    OrderThenClear(t, o, c.id);
  }

  // ---------------------------------------------------------------------
  // The page, as the database calls it issues
  // ---------------------------------------------------------------------

  method Load(db: Database, sessionParam: Option<string>, retrieved: Option<Session>,
              fault: Option<DbCall>, now: nat) returns (v: View)
    requires db.Valid()
    modifies db
    ensures db.Valid()
    ensures (db.State(), v) == LoadEffect(old(db.State()), sessionParam, retrieved, fault, now)
  {
    if !Present(sessionParam) {
      return InvalidSession;
    }
    v := PaymentSuccessful;
    if retrieved.None? {
      return;
    }
    var s := retrieved.value;
    if !Fulfillable(s) || fault == Some(FindOrder) {
      return;
    }
    var cartId := s.metadata.cartId.value;
    var existing := HasSessionOrder(db.orders, s.id);
    if existing {
      if fault != Some(ClearItems) {
        ClearCartKeepsValid(db.State(), cartId);
        db.DeleteItemsOfCart(cartId);
      }
      return;
    }
    if fault == Some(FindCart) {
      return;
    }
    var cart := CartWithId(db.carts, cartId);
    if cart.None? || ItemsOfCart(db.items, cart.value.id) == [] {
      return;
    }
    CreateFromCart(db, s, cart.value, fault, now);
  }

  method CreateFromCart(db: Database, s: Session, c: Cart, fault: Option<DbCall>, now: nat)
    requires db.Valid() && Fulfillable(s)
    modifies db
    ensures db.Valid()
    ensures db.State() == OrderFromCart(old(db.State()), s, c, fault, now)
  {
    if fault == Some(CreateOrder) {
      return;
    }
    ghost var t := db.State();
    OrderFromCartKeepsValid(t, s, c, fault, now);
    var lines := Snapshot(ItemsOfCart(db.items, c.id), db.products);
    var ok := db.CreateOrder(s.metadata.userId.value, TotalCents(s), s.id, Processing, lines, now);
    ghost var t1 := db.State();
    assert (t1, ok) == AddOrder(t, s.metadata.userId.value, TotalCents(s), s.id, Processing, lines, now);
    if ok && fault != Some(ClearItems) {
      db.DeleteItemsOfCart(c.id);
      assert db.State() == ClearCart(t1, c.id);
    }
    assert db.State() == OrderFromCart(t, s, c, fault, now);
  }
}

/**
 * The payment provider's callback.  It verifies the event signature, and on a
 * completed checkout turns the cart named in the session metadata into an
 * order and empties the cart.  Responses are HTTP status codes.
 */
module Webhook {
  import opened Wrappers
  import opened Storage
  import opened Payments

  /** A signed event: its type and the checkout session it carries. */
  datatype Event = Event(eventType: string, session: Session)

  const CheckoutCompleted: string := "checkout.session.completed"

  const Ok: nat := 200
  const BadRequest: nat := 400
  const NotFound: nat := 404
  const ServerError: nat := 500

  /**
   * The callback for one request.  `verified` is the event when its signature
   * checks out and `None` when the check throws; `fault` is the database call
   * that throws, if any.
   */
  function PostEffect(t: Tables, verified: Option<Event>, fault: Option<DbCall>, now: nat): (r: (Tables, nat))
    requires ItemsReferenced(t)
    ensures ItemsReferenced(r.0)
    ensures r.1 == Ok || r.1 == BadRequest || r.1 == NotFound || r.1 == ServerError
  {
    if verified.None? then (t, BadRequest)
    else
      var e := verified.value;
      if e.eventType != CheckoutCompleted then (t, Ok)
      else
        var s := e.session;
        if !Present(s.metadata.userId) || s.metadata.cartId.None? then (t, BadRequest)
        else if fault == Some(FindCart) then (t, ServerError)
        else
          match CartWithId(t.carts, s.metadata.cartId.value)
          case None => (t, NotFound)
          case Some(c) => CreateAndClear(t, s, c, fault, now)
  }

  /** order.create from whatever the cart holds, then deleteMany on the cart. */
  function CreateAndClear(t: Tables, s: Session, c: Cart, fault: Option<DbCall>, now: nat): (r: (Tables, nat))
    requires ItemsReferenced(t) && Present(s.metadata.userId)
    ensures ItemsReferenced(r.0)
    ensures r.1 == Ok || r.1 == ServerError
  {
    if fault == Some(CreateOrder) then (t, ServerError)
    else
      var lines := Snapshot(ItemsOfCart(t.items, c.id), t.products);
      var (t1, ok) := AddOrder(t, s.metadata.userId.value, TotalCents(s), s.id, Processing, lines, now);
      if !ok || fault == Some(ClearItems) then (t1, ServerError)
      else (ClearCart(t1, c.id), Ok)
  }

  /**
   * The callback with the confirmation page's existence check added: when an
   * order for the session already exists, it only clears the cart.
   */
  function GuardedPostEffect(t: Tables, verified: Option<Event>, fault: Option<DbCall>, now: nat): (r: (Tables, nat))
    requires ItemsReferenced(t)
    ensures ItemsReferenced(r.0)
    ensures r.1 == Ok || r.1 == BadRequest || r.1 == NotFound || r.1 == ServerError
  {
    if verified.None? then (t, BadRequest)
    else
      var e := verified.value;
      if e.eventType != CheckoutCompleted then (t, Ok)
      else
        var s := e.session;
        if !Present(s.metadata.userId) || s.metadata.cartId.None? then (t, BadRequest)
        else if fault == Some(FindOrder) then (t, ServerError)
        else if HasSessionOrder(t.orders, s.id) then
          if fault == Some(ClearItems) then (t, ServerError)
          else (ClearCart(t, s.metadata.cartId.value), Ok)
        else if fault == Some(FindCart) then (t, ServerError)
        else
          match CartWithId(t.carts, s.metadata.cartId.value)
          case None => (t, NotFound)
          case Some(c) => CreateAndClear(t, s, c, fault, now)
  }

  // ---------------------------------------------------------------------
  // Properties
  // ---------------------------------------------------------------------

  /** The callback keeps the whole store invariant. */
  lemma PostKeepsValid(t: Tables, verified: Option<Event>, fault: Option<DbCall>, now: nat)
    requires ValidTables(t)
    ensures ValidTables(PostEffect(t, verified, fault, now).0)
  {
    if verified.Some? && verified.value.eventType == CheckoutCompleted {
      var s := verified.value.session;
      if Present(s.metadata.userId) && s.metadata.cartId.Some? && fault != Some(FindCart) {
        var c := CartWithId(t.carts, s.metadata.cartId.value);
        if c.Some? {
          CreateAndClearKeepsValid(t, s, c.value, fault, now);
        }
      }
    }
  }

  lemma CreateAndClearKeepsValid(t: Tables, s: Session, c: Cart, fault: Option<DbCall>, now: nat)
    requires ValidTables(t) && Present(s.metadata.userId)
    ensures ValidTables(CreateAndClear(t, s, c, fault, now).0)
  {
    if fault != Some(CreateOrder) {
      var lines := Snapshot(ItemsOfCart(t.items, c.id), t.products);
      var (t1, ok) := AddOrder(t, s.metadata.userId.value, TotalCents(s), s.id, Processing, lines, now);
      AddOrderKeepsValid(t, s.metadata.userId.value, TotalCents(s), s.id, Processing, lines, now);
      ClearCartKeepsValid(t1, c.id);
    }
  }

  /** So does the callback with the existence check. */
  lemma GuardedPostKeepsValid(t: Tables, verified: Option<Event>, fault: Option<DbCall>, now: nat)
    requires ValidTables(t)
    ensures ValidTables(GuardedPostEffect(t, verified, fault, now).0)
  {
    if verified.Some? && verified.value.eventType == CheckoutCompleted {
      var s := verified.value.session;
      if Present(s.metadata.userId) && s.metadata.cartId.Some? && fault != Some(FindOrder) {
        if HasSessionOrder(t.orders, s.id) {
          ClearCartKeepsValid(t, s.metadata.cartId.value);
        } else if fault != Some(FindCart) {
          var c := CartWithId(t.carts, s.metadata.cartId.value);
          if c.Some? {
            CreateAndClearKeepsValid(t, s, c.value, fault, now);
          }
        }
      }
    }
  }

  /**
   * The early exits: a bad signature or missing metadata is a 400, an event
   * of another type a 200, an unknown cart a 404; none of them, nor a failed
   * cart lookup or order create, changes the store.
   */
  lemma EarlyExitsChangeNothing(t: Tables, verified: Option<Event>, fault: Option<DbCall>, now: nat)
    requires ItemsReferenced(t)
    ensures var (t', status) := PostEffect(t, verified, fault, now);
            && (verified.None? ==> status == BadRequest)
            && (verified.Some? && verified.value.eventType != CheckoutCompleted ==> status == Ok && t' == t)
            && (verified.Some? && verified.value.eventType == CheckoutCompleted
                && !(Present(verified.value.session.metadata.userId) && verified.value.session.metadata.cartId.Some?)
                ==> status == BadRequest)
            && (status == BadRequest || status == NotFound ==> t' == t)
            && (t' != t ==> verified.Some? && verified.value.eventType == CheckoutCompleted)
            && (fault == Some(FindCart) || fault == Some(CreateOrder) ==> t' == t)
  {
  }

  /**
   * A completed checkout with both metadata entries whose cart lookup throws,
   * or whose order create throws on an existing cart, answers 500 and
   * changes nothing.
   */
  lemma LookupOrCreateFaultIsServerError(t: Tables, e: Event, fault: Option<DbCall>, now: nat)
    requires ItemsReferenced(t) && e.eventType == CheckoutCompleted
    requires Present(e.session.metadata.userId) && e.session.metadata.cartId.Some?
    requires fault == Some(FindCart) || (fault == Some(CreateOrder) && HasCart(t.carts, e.session.metadata.cartId.value))
    ensures PostEffect(t, Some(e), fault, now) == (t, ServerError)
  {
  }

  /** A completed checkout naming a cart that does not exist is a 404. */
  lemma MissingCartIsNotFound(t: Tables, e: Event, fault: Option<DbCall>, now: nat)
    requires ItemsReferenced(t) && e.eventType == CheckoutCompleted
    requires Present(e.session.metadata.userId) && e.session.metadata.cartId.Some?
    requires !HasCart(t.carts, e.session.metadata.cartId.value) && fault != Some(FindCart)
    ensures PostEffect(t, Some(e), fault, now) == (t, NotFound)
  {
  }

  /**
   * A completed checkout for an existing cart: one order is appended, however
   * many items the cart holds, and, unless the schema makes the session id
   * unique, whether or not an order for the session exists already; its lines snapshot the cart's items; the cart's items are then
   * deleted, the cart row stays, and the answer is 200.
   */
  lemma CompletedCheckoutCreatesOrder(t: Tables, e: Event, c: Cart, now: nat)
    requires ItemsReferenced(t) && e.eventType == CheckoutCompleted
    requires !t.uniqueSessionIds || !HasSessionOrder(t.orders, e.session.id)
    requires Present(e.session.metadata.userId) && e.session.metadata.cartId == Some(c.id) && CartWithId(t.carts, c.id) == Some(c)
    ensures var (t', status) := PostEffect(t, Some(e), None, now);
            var s := e.session;
            var mine := ItemsOfCart(t.items, c.id);
            && status == Ok
            && |t'.orders| == |t.orders| + 1
            && t'.orders[..|t.orders|] == t.orders
            && var o := t'.orders[|t.orders|];
            && o.owner == s.metadata.userId.value
            && o.totalCents == (if s.amountTotal.Some? then s.amountTotal.value else 0)
            && o.sessionId == s.id && o.status == Processing && o.createdAt == now
            && o.items == Snapshot(mine, t.products)
            && t'.carts == t.carts && t'.products == t.products && t'.categories == t.categories
            && (forall x :: x in t'.items <==> x in t.items && x.cartId != c.id)
  {
    var s := e.session;
    var lines := Snapshot(ItemsOfCart(t.items, c.id), t.products);
    var o := Order(t.nextId, s.metadata.userId.value, TotalCents(s), s.id, Processing, lines, now);
    CompletedCheckoutShape(t, e, c, now);
    OrderThenClear(t, o, c.id);
  }

  /** The store a successful callback leaves: the new order appended, then the cart cleared. */
  lemma CompletedCheckoutShape(t: Tables, e: Event, c: Cart, now: nat)
    requires ItemsReferenced(t) && e.eventType == CheckoutCompleted
    requires !t.uniqueSessionIds || !HasSessionOrder(t.orders, e.session.id)
    requires Present(e.session.metadata.userId) && e.session.metadata.cartId == Some(c.id) && CartWithId(t.carts, c.id) == Some(c)
    ensures var s := e.session;
            var lines := Snapshot(ItemsOfCart(t.items, c.id), t.products);
            var o := Order(t.nextId, s.metadata.userId.value, TotalCents(s), s.id, Processing, lines, now);
            PostEffect(t, Some(e), None, now) == (ClearCart(t.(orders := t.orders + [o], nextId := t.nextId + 1), c.id), Ok)
  {
    CreateAndClearShape(t, e.session, c, now);
    assert PostEffect(t, Some(e), None, now) == CreateAndClear(t, e.session, c, None, now);
  }

  lemma CreateAndClearShape(t: Tables, s: Session, c: Cart, now: nat)
    requires ItemsReferenced(t) && Present(s.metadata.userId)
    requires !t.uniqueSessionIds || !HasSessionOrder(t.orders, s.id)
    ensures var lines := Snapshot(ItemsOfCart(t.items, c.id), t.products);
            var o := Order(t.nextId, s.metadata.userId.value, TotalCents(s), s.id, Processing, lines, now);
            CreateAndClear(t, s, c, None, now) == (ClearCart(t.(orders := t.orders + [o], nextId := t.nextId + 1), c.id), Ok)
  {
    var lines := Snapshot(ItemsOfCart(t.items, c.id), t.products);
    var o := Order(t.nextId, s.metadata.userId.value, TotalCents(s), s.id, Processing, lines, now);
    assert AddOrder(t, s.metadata.userId.value, TotalCents(s), s.id, Processing, lines, now)
        == (t.(orders := t.orders + [o], nextId := t.nextId + 1), true);
  }

  /**
   * With the session id unique in the schema, the create for a session that
   * already has an order throws: the answer is 500 and nothing changes.
   */
  lemma DuplicateRefusedByUniqueSessionIds(t: Tables, e: Event, fault: Option<DbCall>, now: nat)
    requires ItemsReferenced(t) && t.uniqueSessionIds && e.eventType == CheckoutCompleted
    requires Present(e.session.metadata.userId) && e.session.metadata.cartId.Some?
    requires HasCart(t.carts, e.session.metadata.cartId.value) && HasSessionOrder(t.orders, e.session.id)
    ensures PostEffect(t, Some(e), fault, now) == (t, ServerError)
  {
  }

  /** A failure while clearing the cart is a 500 that keeps the new order. */
  lemma ClearFailureKeepsOrder(t: Tables, e: Event, c: Cart, now: nat)
    requires ItemsReferenced(t) && e.eventType == CheckoutCompleted
    requires !t.uniqueSessionIds || !HasSessionOrder(t.orders, e.session.id)
    requires Present(e.session.metadata.userId) && e.session.metadata.cartId == Some(c.id) && CartWithId(t.carts, c.id) == Some(c)
    ensures var (t', status) := PostEffect(t, Some(e), Some(ClearItems), now);
            && status == ServerError
            && |t'.orders| == |t.orders| + 1
            && t'.items == t.items
  {
  }

  // ---------------------------------------------------------------------
  // The handler, as the database calls it issues
  // ---------------------------------------------------------------------

  method Post(db: Database, verified: Option<Event>, fault: Option<DbCall>, now: nat) returns (status: nat)
    requires db.Valid()
    modifies db
    ensures db.Valid()
    ensures (db.State(), status) == PostEffect(old(db.State()), verified, fault, now)
  {
    if verified.None? {
      return BadRequest;
    }
    var e := verified.value;
    if e.eventType != CheckoutCompleted {
      return Ok;
    }
    var s := e.session;
    if !Present(s.metadata.userId) || s.metadata.cartId.None? {
      return BadRequest;
    }
    if fault == Some(FindCart) {
      return ServerError;
    }
    var cart := CartWithId(db.carts, s.metadata.cartId.value);
    if cart.None? {
      return NotFound;
    }
    status := CreateOrderAndClear(db, s, cart.value, fault, now);
  }

  method CreateOrderAndClear(db: Database, s: Session, c: Cart, fault: Option<DbCall>, now: nat) returns (status: nat)
    requires db.Valid() && Present(s.metadata.userId)
    modifies db
    ensures db.Valid()
    ensures (db.State(), status) == CreateAndClear(old(db.State()), s, c, fault, now)
  {
    if fault == Some(CreateOrder) {
      return ServerError;
    }
    ghost var t := db.State();
    CreateAndClearKeepsValid(t, s, c, fault, now);
    var lines := Snapshot(ItemsOfCart(db.items, c.id), db.products);
    var ok := db.CreateOrder(s.metadata.userId.value, TotalCents(s), s.id, Processing, lines, now);
    status := if ok && fault != Some(ClearItems) then Ok else ServerError;
    if status == Ok {
      db.DeleteItemsOfCart(c.id);
    }
    assert (db.State(), status) == CreateAndClear(t, s, c, fault, now);
  }
}

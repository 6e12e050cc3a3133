/** Optional values: a lookup that may find nothing, an input that may be absent. */
module Wrappers {
  datatype Option<+T> = None | Some(value: T)

  /** JavaScript truthiness of an optional string: absent and "" are both falsy. */
  predicate Present(s: Option<string>) {
    s.Some? && s.value != ""
  }
}

/**
 * The relational store behind the shop, as the server code sees it through
 * its ORM: tables of carts, cart items, products, categories and orders,
 * the lookups the code runs on them, and the single database calls
 * (create, update where id, delete where id, delete many where cartId) that
 * change them.
 *
 * Every table is a sequence of rows in storage order.  Row ids are handed out
 * by the store from a counter, so a created row always has a fresh id.
 */
module Storage {
  import opened Wrappers

  type Id = nat
  type UserId = string

  datatype Cart = Cart(id: Id, owner: UserId)
  datatype CartItem = CartItem(id: Id, cartId: Id, productId: Id, quantity: int)
  /** A catalog row; the price is kept in integer cents. */
  datatype Product = Product(id: Id, name: string, priceCents: nat, image: string)
  datatype Category = Category(id: Id, name: string, slug: string)
  datatype OrderStatus = Pending | Processing | Shipped | Delivered
  /** One line of an order: the product's price is copied at fulfilment time. */
  datatype OrderItem = OrderItem(productId: Id, quantity: int, priceCents: nat)
  datatype Order = Order(id: Id, owner: UserId, totalCents: int, sessionId: string,
                         status: OrderStatus, items: seq<OrderItem>, createdAt: nat)

  /** A snapshot of the whole store. */
  datatype Tables = Tables(
    carts: seq<Cart>,
    items: seq<CartItem>,
    products: seq<Product>,
    categories: seq<Category>,
    orders: seq<Order>,
    nextId: nat,             // the id the next created row receives
    uniqueSessionIds: bool)  // whether the schema makes Order.stripeSessionId unique

  // ---------------------------------------------------------------------
  // Lookups (findUnique / findFirst)
  // ---------------------------------------------------------------------

  predicate HasCart(carts: seq<Cart>, id: Id) {
    exists c | c in carts :: c.id == id
  }

  predicate HasProduct(products: seq<Product>, id: Id) {
    exists p | p in products :: p.id == id
  }

  predicate HasSessionOrder(orders: seq<Order>, sessionId: string) {
    exists o | o in orders :: o.sessionId == sessionId
  }

  /** The cart owned by `owner` (the first such row). */
  function CartOfOwner(carts: seq<Cart>, owner: UserId): (r: Option<Cart>)
    ensures r.Some? ==> r.value in carts && r.value.owner == owner
    ensures r.None? ==> forall c | c in carts :: c.owner != owner
  {
    if carts == [] then None
    else if carts[0].owner == owner then Some(carts[0])
    else CartOfOwner(carts[1..], owner)
  }

  /** The cart whose id is `id`. */
  function CartWithId(carts: seq<Cart>, id: Id): (r: Option<Cart>)
    ensures r.Some? ==> r.value in carts && r.value.id == id
    ensures r.None? <==> !HasCart(carts, id)
  {
    if carts == [] then None
    else if carts[0].id == id then Some(carts[0])
    else CartWithId(carts[1..], id)
  }

  /** The product whose id is `id`. */
  function ProductWithId(products: seq<Product>, id: Id): (r: Option<Product>)
    ensures r.Some? ==> r.value in products && r.value.id == id
    ensures r.None? <==> !HasProduct(products, id)
  {
    if products == [] then None
    else if products[0].id == id then Some(products[0])
    else ProductWithId(products[1..], id)
  }

  /** The cart item whose id is `id`. */
  function ItemWithId(items: seq<CartItem>, id: Id): (r: Option<CartItem>)
    ensures r.Some? ==> r.value in items && r.value.id == id
    ensures r.None? ==> forall x | x in items :: x.id != id
  {
    if items == [] then None
    else if items[0].id == id then Some(items[0])
    else ItemWithId(items[1..], id)
  }

  /** The first item of cart `cartId` for product `productId`. */
  function ItemFor(items: seq<CartItem>, cartId: Id, productId: Id): (r: Option<CartItem>)
    ensures r.Some? ==> r.value in items && r.value.cartId == cartId && r.value.productId == productId
    ensures r.None? ==> forall x | x in items :: !(x.cartId == cartId && x.productId == productId)
  {
    if items == [] then None
    else if items[0].cartId == cartId && items[0].productId == productId then Some(items[0])
    else ItemFor(items[1..], cartId, productId)
  }

  /** The items of cart `cartId`, in storage order. */
  function ItemsOfCart(items: seq<CartItem>, cartId: Id): (r: seq<CartItem>)
    ensures |r| <= |items|
    ensures forall x :: x in r <==> x in items && x.cartId == cartId
  {
    if items == [] then []
    else if items[0].cartId == cartId then [items[0]] + ItemsOfCart(items[1..], cartId)
    else ItemsOfCart(items[1..], cartId)
  }

  /** The items that do not belong to cart `cartId`, in storage order. */
  function ItemsOutsideCart(items: seq<CartItem>, cartId: Id): (r: seq<CartItem>)
    ensures |r| <= |items|
    ensures forall x :: x in r <==> x in items && x.cartId != cartId
  {
    if items == [] then []
    else if items[0].cartId != cartId then [items[0]] + ItemsOutsideCart(items[1..], cartId)
    else ItemsOutsideCart(items[1..], cartId)
  }

  /**
   * The items whose id is not `id`, in storage order: what `delete` by
   * primary key leaves.  It filters on the item's id where `ItemsOutsideCart`,
   * the delete-many by cart, filters on its cart id.
   */
  function ItemsWithoutId(items: seq<CartItem>, id: Id): (r: seq<CartItem>)
    ensures |r| <= |items|
    ensures forall x :: x in r <==> x in items && x.id != id
  {
    if items == [] then []
    else if items[0].id != id then [items[0]] + ItemsWithoutId(items[1..], id)
    else ItemsWithoutId(items[1..], id)
  }

  /** The number of orders recorded for a payment session. */
  function SessionOrderCount(orders: seq<Order>, sessionId: string): (n: nat)
    ensures n <= |orders|
    ensures n == 0 <==> !HasSessionOrder(orders, sessionId)
  {
    if orders == [] then 0
    else
      var last := orders[|orders| - 1];
      assert forall o :: o in orders <==> o in orders[..|orders| - 1] || o == last;
      SessionOrderCount(orders[..|orders| - 1], sessionId) + (if last.sessionId == sessionId then 1 else 0)
  }

  lemma SessionOrderCountAppend(orders: seq<Order>, o: Order, sessionId: string)
    ensures SessionOrderCount(orders + [o], sessionId)
         == SessionOrderCount(orders, sessionId) + (if o.sessionId == sessionId then 1 else 0)
  {
    assert (orders + [o])[..|orders|] == orders;
  }

  // ---------------------------------------------------------------------
  // The store invariant: primary keys, the unique owner of a cart, at most
  // one item per (cart, product), and the foreign keys of cart items.
  // ---------------------------------------------------------------------

  ghost predicate IdsFresh(t: Tables) {
    && (forall c | c in t.carts :: c.id < t.nextId)
    && (forall x | x in t.items :: x.id < t.nextId)
    && (forall p | p in t.products :: p.id < t.nextId)
    && (forall g | g in t.categories :: g.id < t.nextId)
    && (forall o | o in t.orders :: o.id < t.nextId)
  }

  ghost predicate KeysUnique(t: Tables) {
    && (forall c, d | c in t.carts && d in t.carts && c.id == d.id :: c == d)
    && (forall x, y | x in t.items && y in t.items && x.id == y.id :: x == y)
    && (forall p, q | p in t.products && q in t.products && p.id == q.id :: p == q)
    && (forall g, h | g in t.categories && h in t.categories && g.id == h.id :: g == h)
    && (forall o, p | o in t.orders && p in t.orders && o.id == p.id :: o == p)
  }

  /** One cart per user. */
  ghost predicate OwnersUnique(carts: seq<Cart>) {
    forall c, d | c in carts && d in carts && c.owner == d.owner :: c == d
  }

  /** At most one item per (cart, product); repeated adds raise its quantity. */
  ghost predicate OneItemPerProduct(items: seq<CartItem>) {
    forall x, y | x in items && y in items && x.cartId == y.cartId && x.productId == y.productId :: x == y
  }

  ghost predicate ItemsReferenced(t: Tables) {
    forall x | x in t.items :: HasCart(t.carts, x.cartId) && HasProduct(t.products, x.productId)
  }

  ghost predicate SessionsUnique(orders: seq<Order>) {
    forall o, p | o in orders && p in orders && o.sessionId == p.sessionId :: o == p
  }

  ghost predicate ValidTables(t: Tables) {
    && IdsFresh(t)
    && KeysUnique(t)
    && OwnersUnique(t.carts)
    && OneItemPerProduct(t.items)
    && ItemsReferenced(t)
    && (t.uniqueSessionIds ==> SessionsUnique(t.orders))
  }

  function EmptyTables(uniqueSessionIds: bool): Tables {
    Tables([], [], [], [], [], 0, uniqueSessionIds)
  }

  // ---------------------------------------------------------------------
  // Single database calls, as functions of the tables
  // ---------------------------------------------------------------------

  /** cart.create({ clerkUserId: owner }) */
  function AddCart(t: Tables, owner: UserId): (Tables, Cart) {
    var c := Cart(t.nextId, owner);
    (t.(carts := t.carts + [c], nextId := t.nextId + 1), c)
  }

  /** cartItem.update({ where: { id }, data: { quantity } }) */
  function SetQuantity(t: Tables, id: Id, quantity: int): Tables {
    t.(items := seq(|t.items|, k requires 0 <= k < |t.items| => Updated(t.items[k], id, quantity)))
  }

  function Updated(x: CartItem, id: Id, quantity: int): CartItem {
    if x.id == id then x.(quantity := quantity) else x
  }

  /**
   * cartItem.create({ cartId, productId, quantity }).  The schema's relations
   * are required (the code dereferences `item.product` and `item.cart`), so a
   * create that names a missing cart or product is refused.
   */
  function AddItem(t: Tables, cartId: Id, productId: Id, quantity: int): (Tables, bool) {
    if HasCart(t.carts, cartId) && HasProduct(t.products, productId) then
      (t.(items := t.items + [CartItem(t.nextId, cartId, productId, quantity)], nextId := t.nextId + 1), true)
    else
      (t, false)
  }

  /** cartItem.delete({ where: { id } }) */
  function DeleteItem(t: Tables, id: Id): Tables {
    t.(items := ItemsWithoutId(t.items, id))
  }

  /** cartItem.deleteMany({ where: { cartId } }): the cart row itself stays. */
  function ClearCart(t: Tables, cartId: Id): Tables {
    t.(items := ItemsOutsideCart(t.items, cartId))
  }

  /**
   * order.create with nested order items.  When the schema makes the session
   * id unique, a second order for the same session is refused.
   */
  function AddOrder(t: Tables, owner: UserId, totalCents: int, sessionId: string,
                    status: OrderStatus, lines: seq<OrderItem>, now: nat): (Tables, bool)
  {
    if t.uniqueSessionIds && HasSessionOrder(t.orders, sessionId) then (t, false)
    else
      var o := Order(t.nextId, owner, totalCents, sessionId, status, lines, now);
      (t.(orders := t.orders + [o], nextId := t.nextId + 1), true)
  }

  /** category.create */
  function AddCategory(t: Tables, name: string, slug: string): Tables {
    t.(categories := t.categories + [Category(t.nextId, name, slug)], nextId := t.nextId + 1)
  }

  /** product.create */
  function AddProduct(t: Tables, name: string, priceCents: nat, image: string): Tables {
    t.(products := t.products + [Product(t.nextId, name, priceCents, image)], nextId := t.nextId + 1)
  }

  // ---------------------------------------------------------------------
  // What each call does to the tables
  // ---------------------------------------------------------------------

  /** A created cart belongs to the owner, takes an id no cart has, and only the carts and the counter change. */
  lemma AddCartAppends(t: Tables, owner: UserId)
    ensures var (t', c) := AddCart(t, owner);
            && c.owner == owner && t'.carts == t.carts + [c]
            && t' == t.(carts := t'.carts, nextId := t.nextId + 1)
            && (IdsFresh(t) ==> !HasCart(t.carts, c.id))
  {
  }

  /** Only the quantity of the item with the id changes; every item keeps its place, id, cart and product. */
  lemma SetQuantityChangesOne(t: Tables, id: Id, quantity: int)
    ensures var t' := SetQuantity(t, id, quantity);
            && t' == t.(items := t'.items) && |t'.items| == |t.items|
            && forall k | 0 <= k < |t.items| ::
                 && t'.items[k].id == t.items[k].id && t'.items[k].cartId == t.items[k].cartId
                 && t'.items[k].productId == t.items[k].productId
                 && t'.items[k].quantity == (if t.items[k].id == id then quantity else t.items[k].quantity)
  {
  }

  /**
   * An item is created exactly when its cart and product exist; it is
   * appended with an id no item has, and only the items and the counter change.
   */
  lemma AddItemAppends(t: Tables, cartId: Id, productId: Id, quantity: int)
    ensures var (t', ok) := AddItem(t, cartId, productId, quantity);
            && (ok <==> HasCart(t.carts, cartId) && HasProduct(t.products, productId))
            && (!ok ==> t' == t)
            && (ok ==> && t' == t.(items := t'.items, nextId := t.nextId + 1)
                       && t'.items == t.items + [CartItem(t.nextId, cartId, productId, quantity)]
                       && (IdsFresh(t) ==> forall x | x in t.items :: x.id != t.nextId))
  {
  }

  /** Exactly the item with the id goes; nothing else changes. */
  lemma DeleteItemRemovesOne(t: Tables, id: Id)
    ensures var t' := DeleteItem(t, id);
            && t' == t.(items := t'.items)
            && forall x :: x in t'.items <==> x in t.items && x.id != id
  {
  }

  /** Exactly the cart's items go; the cart row and everything else stay. */
  lemma ClearCartRemovesItems(t: Tables, cartId: Id)
    ensures var t' := ClearCart(t, cartId);
            && t' == t.(items := t'.items)
            && forall x :: x in t'.items <==> x in t.items && x.cartId != cartId
  {
  }

  /**
   * An order is created unless the session id is unique and already taken;
   * it is appended with an id no order has and with the session id, and only
   * the orders and the counter change.
   */
  lemma AddOrderAppends(t: Tables, owner: UserId, totalCents: int, sessionId: string,
                        status: OrderStatus, lines: seq<OrderItem>, now: nat)
    ensures var (t', ok) := AddOrder(t, owner, totalCents, sessionId, status, lines, now);
            && (ok <==> !(t.uniqueSessionIds && HasSessionOrder(t.orders, sessionId)))
            && (!ok ==> t' == t)
            && (ok ==> && t' == t.(orders := t'.orders, nextId := t.nextId + 1)
                       && t'.orders == t.orders + [Order(t.nextId, owner, totalCents, sessionId, status, lines, now)]
                       && HasSessionOrder(t'.orders, sessionId)
                       && (IdsFresh(t) ==> forall o | o in t.orders :: o.id != t.nextId))
  {
    var (t', ok) := AddOrder(t, owner, totalCents, sessionId, status, lines, now);
    if ok {
      assert t'.orders[|t.orders|] in t'.orders;
    }
  }

  /** A created category takes an id no category has; only the categories and the counter change. */
  lemma AddCategoryAppends(t: Tables, name: string, slug: string)
    ensures var t' := AddCategory(t, name, slug);
            && t' == t.(categories := t'.categories, nextId := t.nextId + 1)
            && t'.categories == t.categories + [Category(t.nextId, name, slug)]
            && (IdsFresh(t) ==> forall g | g in t.categories :: g.id != t.nextId)
  {
  }

  /** A created product takes an id no product has; only the products and the counter change. */
  lemma AddProductAppends(t: Tables, name: string, priceCents: nat, image: string)
    ensures var t' := AddProduct(t, name, priceCents, image);
            && t' == t.(products := t'.products, nextId := t.nextId + 1)
            && t'.products == t.products + [Product(t.nextId, name, priceCents, image)]
            && (IdsFresh(t) ==> !HasProduct(t.products, t.nextId))
  {
  }

  // ---------------------------------------------------------------------
  // Each call keeps the store invariant, given what its callers check first
  // ---------------------------------------------------------------------

  lemma AddCartKeepsValid(t: Tables, owner: UserId)
    requires ValidTables(t) && CartOfOwner(t.carts, owner).None?
    ensures ValidTables(AddCart(t, owner).0)
  {
    var (t', c) := AddCart(t, owner);
    assert forall d :: d in t'.carts <==> d in t.carts || d == c;
    assert IdsFresh(t');
    assert KeysUnique(t');
    assert OwnersUnique(t'.carts);
    forall x | x in t'.items ensures HasCart(t'.carts, x.cartId) {
      var d :| d in t.carts && d.id == x.cartId;
      assert d in t'.carts;
    }
  }

  lemma SetQuantityKeepsValid(t: Tables, id: Id, quantity: int)
    requires ValidTables(t)
    ensures ValidTables(SetQuantity(t, id, quantity))
  {
    var t' := SetQuantity(t, id, quantity);
    forall y | y in t'.items ensures exists x | x in t.items :: y == Updated(x, id, quantity) {
      var k :| 0 <= k < |t'.items| && t'.items[k] == y;
      assert t.items[k] in t.items;
    }
    forall y, z | y in t'.items && z in t'.items && (y.id == z.id || (y.cartId == z.cartId && y.productId == z.productId))
      ensures y == z
    {
      var x :| x in t.items && y == Updated(x, id, quantity);
      var w :| w in t.items && z == Updated(w, id, quantity);
      assert x == w;
    }
    assert IdsFresh(t');
    assert ItemsReferenced(t');
  }

  lemma AddItemKeepsValid(t: Tables, cartId: Id, productId: Id, quantity: int)
    requires ValidTables(t) && ItemFor(t.items, cartId, productId).None?
    ensures ValidTables(AddItem(t, cartId, productId, quantity).0)
  {
    var (t', ok) := AddItem(t, cartId, productId, quantity);
    if ok {
      var x := CartItem(t.nextId, cartId, productId, quantity);
      assert t' == t.(items := t.items + [x], nextId := t.nextId + 1);
      assert forall y :: y in t'.items <==> y in t.items || y == x;
      assert IdsFresh(t');
      assert KeysUnique(t');
      assert OneItemPerProduct(t'.items);
      assert ItemsReferenced(t');
    }
  }

  lemma DeleteItemKeepsValid(t: Tables, id: Id)
    requires ValidTables(t)
    ensures ValidTables(DeleteItem(t, id))
  {
  }

  lemma ClearCartKeepsValid(t: Tables, cartId: Id)
    requires ValidTables(t)
    ensures ValidTables(ClearCart(t, cartId))
  {
  }

  lemma AddOrderKeepsValid(t: Tables, owner: UserId, totalCents: int, sessionId: string,
                           status: OrderStatus, lines: seq<OrderItem>, now: nat)
    requires ValidTables(t)
    ensures ValidTables(AddOrder(t, owner, totalCents, sessionId, status, lines, now).0)
  {
    var (t', ok) := AddOrder(t, owner, totalCents, sessionId, status, lines, now);
    if ok {
      var o := Order(t.nextId, owner, totalCents, sessionId, status, lines, now);
      assert t' == t.(orders := t.orders + [o], nextId := t.nextId + 1);
      assert forall p :: p in t'.orders <==> p in t.orders || p == o;
      assert IdsFresh(t');
      assert KeysUnique(t');
      assert t.uniqueSessionIds ==> SessionsUnique(t'.orders);
    }
  }

  lemma AddCategoryKeepsValid(t: Tables, name: string, slug: string)
    requires ValidTables(t)
    ensures ValidTables(AddCategory(t, name, slug))
  {
  }

  lemma AddProductKeepsValid(t: Tables, name: string, priceCents: nat, image: string)
    requires ValidTables(t)
    ensures ValidTables(AddProduct(t, name, priceCents, image))
  {
    var t' := AddProduct(t, name, priceCents, image);
    forall x | x in t'.items ensures HasProduct(t'.products, x.productId) {
      var p :| p in t.products && p.id == x.productId;
      assert p in t'.products;
    }
  }

  // ---------------------------------------------------------------------
  // The store object and its calls
  // ---------------------------------------------------------------------

  class Database {
    var carts: seq<Cart>
    var items: seq<CartItem>
    var products: seq<Product>
    var categories: seq<Category>
    var orders: seq<Order>
    var nextId: nat
    const uniqueSessionIds: bool

    function State(): Tables
      reads this
    {
      Tables(carts, items, products, categories, orders, nextId, uniqueSessionIds)
    }

    ghost predicate Valid()
      reads this
    {
      ValidTables(State())
    }

    constructor (uniqueSessionIds: bool)
      ensures State() == EmptyTables(uniqueSessionIds) && Valid()
    {
      this.uniqueSessionIds := uniqueSessionIds;
      carts, items, products, categories, orders, nextId := [], [], [], [], [], 0;
    }

    method CreateCart(owner: UserId) returns (c: Cart)
      modifies this
      ensures (State(), c) == AddCart(old(State()), owner)
    {
      c := Cart(nextId, owner);
      carts := carts + [c];
      nextId := nextId + 1;
    }

    method UpdateQuantity(id: Id, quantity: int)
      modifies this
      ensures State() == SetQuantity(old(State()), id, quantity)
    {
      items := seq(|items|, k requires 0 <= k < |items| reads this => Updated(items[k], id, quantity));
    }

    method CreateItem(cartId: Id, productId: Id, quantity: int) returns (ok: bool)
      modifies this
      ensures (State(), ok) == AddItem(old(State()), cartId, productId, quantity)
    {
      ok := HasCart(carts, cartId) && HasProduct(products, productId);
      if ok {
        items := items + [CartItem(nextId, cartId, productId, quantity)];
        nextId := nextId + 1;
      }
    }

    method DeleteItemWithId(id: Id)
      modifies this
      ensures State() == DeleteItem(old(State()), id)
    {
      items := ItemsWithoutId(items, id);
    }

    method DeleteItemsOfCart(cartId: Id)
      modifies this
      ensures State() == ClearCart(old(State()), cartId)
    {
      items := ItemsOutsideCart(items, cartId);
    }

    method CreateOrder(owner: UserId, totalCents: int, sessionId: string,
                       status: OrderStatus, lines: seq<OrderItem>, now: nat) returns (ok: bool)
      modifies this
      ensures (State(), ok) == AddOrder(old(State()), owner, totalCents, sessionId, status, lines, now)
    {
      ok := !(uniqueSessionIds && HasSessionOrder(orders, sessionId));
      if ok {
        orders := orders + [Order(nextId, owner, totalCents, sessionId, status, lines, now)];
        nextId := nextId + 1;
      }
    }

    method CreateCategory(name: string, slug: string)
      modifies this
      ensures State() == AddCategory(old(State()), name, slug)
    {
      categories := categories + [Category(nextId, name, slug)];
      nextId := nextId + 1;
    }

    method CreateProduct(name: string, priceCents: nat, image: string)
      modifies this
      ensures State() == AddProduct(old(State()), name, priceCents, image)
    {
      products := products + [Product(nextId, name, priceCents, image)];
      nextId := nextId + 1;
    }
  }
}

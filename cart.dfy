/**
 * The cart server actions: read the caller's cart, add one product, add a
 * batch of products, remove an item.  The caller's identity comes from the
 * authentication provider as an optional user id.
 *
 * Each action that changes the store is a method made of the database calls
 * the action issues, and is proved equal to an `...Effect` function on the
 * tables; the properties of the action are lemmas about that function.
 */
module CartActions {
  import opened Wrappers
  import opened Storage
  import Sorting

  /** How an action ends: it returns, or it throws. */
  datatype Outcome = Success | Unauthorized | StorageFailure

  /** One entry of a batch add. */
  datatype Entry = Entry(productId: Id, quantity: int)

  /** A cart item together with its product, as `getCart` returns it. */
  datatype ItemView = ItemView(item: CartItem, product: Product)
  datatype CartView = CartView(cart: Cart, items: seq<ItemView>)

  /** `addToCart(productId, quantity = 1)`: a missing quantity means 1. */
  function QuantityOrDefault(quantity: Option<int>): int {
    if quantity.Some? then quantity.value else 1
  }

  // ---------------------------------------------------------------------
  // Specification of the actions on the tables
  // ---------------------------------------------------------------------

  /** The caller's cart, created when the caller has none. */
  function CartForEffect(t: Tables, owner: UserId): (r: (Tables, Cart))
    ensures r.1.owner == owner && r.1 in r.0.carts
    ensures r.0 == t.(carts := r.0.carts, nextId := r.0.nextId)
    ensures CartOfOwner(t.carts, owner).Some? ==> r.0 == t
  {
    match CartOfOwner(t.carts, owner)
    case Some(c) => (t, c)
    case None => AddCart(t, owner)
  }

  /** Raise the quantity of the (cart, product) item, or create the item. */
  function UpsertEffect(t: Tables, cartId: Id, productId: Id, quantity: int): (r: (Tables, bool))
    ensures r.0 == t.(items := r.0.items, nextId := r.0.nextId)
    ensures !r.1 <==> ItemFor(t.items, cartId, productId).None? && !(HasCart(t.carts, cartId) && HasProduct(t.products, productId))
    ensures !r.1 ==> r.0 == t
  {
    match ItemFor(t.items, cartId, productId)
    case Some(x) => (SetQuantity(t, x.id, x.quantity + quantity), true)
    case None => AddItem(t, cartId, productId, quantity)
  }

  /** One upsert per batch entry, in order; the flag says whether all succeeded. */
  function UpsertAllEffect(t: Tables, cartId: Id, batch: seq<Entry>): (r: (Tables, bool))
    ensures r.0 == t.(items := r.0.items, nextId := r.0.nextId)
    decreases |batch|
  {
    if batch == [] then (t, true)
    else
      var (t1, ok1) := UpsertAllEffect(t, cartId, batch[..|batch| - 1]);
      var e := batch[|batch| - 1];
      var (t2, ok2) := UpsertEffect(t1, cartId, e.productId, e.quantity);
      (t2, ok1 && ok2)
  }

  function AddToCartEffect(t: Tables, user: Option<UserId>, productId: Id, quantity: Option<int>): (r: (Tables, Outcome))
    ensures r.1 == Unauthorized <==> !Present(user)
    ensures r.1 == Unauthorized ==> r.0 == t
    ensures r.0 == t.(carts := r.0.carts, items := r.0.items, nextId := r.0.nextId)
  {
    if !Present(user) then (t, Unauthorized)
    else
      var (t1, cart) := CartForEffect(t, user.value);
      var (t2, ok) := UpsertEffect(t1, cart.id, productId, QuantityOrDefault(quantity));
      (t2, if ok then Success else StorageFailure)
  }

  function AddAllToCartEffect(t: Tables, user: Option<UserId>, batch: seq<Entry>): (r: (Tables, Outcome))
    ensures r.1 == Unauthorized <==> !Present(user)
    ensures r.1 == Unauthorized ==> r.0 == t
    ensures r.0 == t.(carts := r.0.carts, items := r.0.items, nextId := r.0.nextId)
  {
    if !Present(user) then (t, Unauthorized)
    else
      var (t1, cart) := CartForEffect(t, user.value);
      var (t2, ok) := UpsertAllEffect(t1, cart.id, batch);
      (t2, if ok then Success else StorageFailure)
  }

  /** Whether the cart that holds `x` belongs to `owner`. */
  function OwnedBy(t: Tables, x: CartItem, owner: UserId): bool {
    match CartWithId(t.carts, x.cartId)
    case Some(c) => c.owner == owner
    case None => false
  }

  function RemoveFromCartEffect(t: Tables, user: Option<UserId>, itemId: Id): (r: (Tables, Outcome))
    ensures r.1 == Unauthorized <==> !Present(user)
    ensures r.1 != StorageFailure
    ensures r.0 == t.(items := r.0.items)
    ensures forall x | x in r.0.items :: x in t.items
  {
    if !Present(user) then (t, Unauthorized)
    else
      match ItemWithId(t.items, itemId)
      case Some(x) => if OwnedBy(t, x, user.value) then (DeleteItem(t, itemId), Success) else (t, Success)
      case None => (t, Success)
  }

  /** Single adds, one per entry, in order: the reference for a batch add. */
  function AddEach(t: Tables, user: Option<UserId>, batch: seq<Entry>): (Tables, Outcome)
    decreases |batch|
  {
    if batch == [] then (t, Success)
    else
      var (t1, o1) := AddEach(t, user, batch[..|batch| - 1]);
      var e := batch[|batch| - 1];
      var (t2, o2) := AddToCartEffect(t1, user, e.productId, Some(e.quantity));
      (t2, if o1 == Success then o2 else o1)
  }

  // ---------------------------------------------------------------------
  // getCart
  // ---------------------------------------------------------------------

  function ProductKey(x: CartItem): int {
    x.productId
  }

  function Rows(v: seq<ItemView>): seq<CartItem> {
    seq(|v|, k requires 0 <= k < |v| => v[k].item)
  }

  /** Join each item with its product (`include: { product: true }`). */
  function WithProducts(items: seq<CartItem>, products: seq<Product>): (r: seq<ItemView>)
    requires forall x | x in items :: HasProduct(products, x.productId)
    ensures |r| == |items|
    ensures forall k | 0 <= k < |r| :: r[k].item == items[k] && r[k].product in products
                                         && r[k].product.id == items[k].productId
  {
    if items == [] then []
    else [ItemView(items[0], ProductWithId(products, items[0].productId).value)] + WithProducts(items[1..], products)
  }

  /**
   * The caller's cart with its items ordered by product id, or nothing when
   * there is no signed-in user or the user has no cart.
   */
  function GetCart(t: Tables, user: Option<UserId>): (r: Option<CartView>)
    requires ValidTables(t)
    ensures r.None? <==> !Present(user) || CartOfOwner(t.carts, user.value).None?
    ensures r.Some? ==> r.value.cart in t.carts && r.value.cart.owner == user.value
    ensures r.Some? ==> forall i, j :: 0 <= i < j < |r.value.items| ==>
                          r.value.items[i].item.productId <= r.value.items[j].item.productId
    ensures r.Some? ==> multiset(Rows(r.value.items)) == multiset(ItemsOfCart(t.items, r.value.cart.id))
    ensures r.Some? ==> forall v | v in r.value.items :: v.product in t.products && v.product.id == v.item.productId
  {
    if !Present(user) then None
    else
      match CartOfOwner(t.carts, user.value)
      case None => None
      case Some(c) =>
        var mine := ItemsOfCart(t.items, c.id);
        var sorted := Sorting.SortBy(mine, ProductKey);
        Sorting.SortByMembers(mine, ProductKey);
        var views := WithProducts(sorted, t.products);
        assert Rows(views) == sorted;
        Some(CartView(c, views))
  }

  // ---------------------------------------------------------------------
  // Properties
  // ---------------------------------------------------------------------

  lemma CartForKeepsValid(t: Tables, owner: UserId)
    requires ValidTables(t)
    ensures ValidTables(CartForEffect(t, owner).0)
  {
    if CartOfOwner(t.carts, owner).None? {
      AddCartKeepsValid(t, owner);
    }
  }

  /** Afterwards the caller has exactly one cart, the one returned. */
  lemma CartForFindsOne(t: Tables, owner: UserId)
    requires ValidTables(t)
    ensures var (t', c) := CartForEffect(t, owner);
            CartOfOwner(t'.carts, owner) == Some(c)
            && (forall d | d in t'.carts && d.owner == owner :: d == c)
            && t' == t.(carts := t'.carts, nextId := t'.nextId)
            && (CartOfOwner(t.carts, owner).None? ==> t'.carts == t.carts + [c] && c.id == t.nextId)
            && (CartOfOwner(t.carts, owner).Some? ==> t' == t)
  {
    var (t', c) := CartForEffect(t, owner);
    CartForKeepsValid(t, owner);
    if CartOfOwner(t.carts, owner).None? {
      CartOfOwnerAppend(t.carts, c);
    }
  }

  lemma {:induction false} CartOfOwnerAppend(carts: seq<Cart>, c: Cart)
    requires CartOfOwner(carts, c.owner).None?
    ensures CartOfOwner(carts + [c], c.owner) == Some(c)
  {
    if carts != [] {
      assert (carts + [c])[1..] == carts[1..] + [c];
      CartOfOwnerAppend(carts[1..], c);
    }
  }

  lemma UpsertKeepsValid(t: Tables, cartId: Id, productId: Id, quantity: int)
    requires ValidTables(t)
    ensures ValidTables(UpsertEffect(t, cartId, productId, quantity).0)
  {
    if ItemFor(t.items, cartId, productId).Some? {
      var x := ItemFor(t.items, cartId, productId).value;
      var r := UpsertEffect(t, cartId, productId, quantity).0;
      assert r == SetQuantity(t, x.id, x.quantity + quantity);
      SetQuantityKeepsValid(t, x.id, x.quantity + quantity);
    } else {
      AddItemKeepsValid(t, cartId, productId, quantity);
    }
  }

  lemma {:induction false} UpsertAllKeepsValid(t: Tables, cartId: Id, batch: seq<Entry>)
    requires ValidTables(t)
    ensures ValidTables(UpsertAllEffect(t, cartId, batch).0)
    ensures UpsertAllEffect(t, cartId, batch).0 == t.(items := UpsertAllEffect(t, cartId, batch).0.items,
                                                     nextId := UpsertAllEffect(t, cartId, batch).0.nextId)
    decreases |batch|
  {
    if batch != [] {
      var t1 := UpsertAllEffect(t, cartId, batch[..|batch| - 1]).0;
      UpsertAllKeepsValid(t, cartId, batch[..|batch| - 1]);
      var e := batch[|batch| - 1];
      UpsertKeepsValid(t1, cartId, e.productId, e.quantity);
    }
  }

  lemma AddToCartKeepsValid(t: Tables, user: Option<UserId>, productId: Id, quantity: Option<int>)
    requires ValidTables(t)
    ensures ValidTables(AddToCartEffect(t, user, productId, quantity).0)
  {
    if Present(user) {
      var (t1, cart) := CartForEffect(t, user.value);
      CartForKeepsValid(t, user.value);
      UpsertKeepsValid(t1, cart.id, productId, QuantityOrDefault(quantity));
    }
  }

  lemma AddAllToCartKeepsValid(t: Tables, user: Option<UserId>, batch: seq<Entry>)
    requires ValidTables(t)
    ensures ValidTables(AddAllToCartEffect(t, user, batch).0)
  {
    if Present(user) {
      var (t1, cart) := CartForEffect(t, user.value);
      CartForKeepsValid(t, user.value);
      UpsertAllKeepsValid(t1, cart.id, batch);
    }
  }

  /** A new cart has no items yet. */
  lemma FreshCartIsEmpty(t: Tables, owner: UserId, productId: Id)
    requires ValidTables(t) && CartOfOwner(t.carts, owner).None?
    ensures ItemFor(AddCart(t, owner).0.items, t.nextId, productId).None?
  {
    forall x | x in t.items ensures x.cartId < t.nextId {
      var c :| c in t.carts && c.id == x.cartId;
    }
  }

  /** Without a signed-in user nothing changes and the action throws "Unauthorized". */
  lemma CartActionsNeedUser(t: Tables, user: Option<UserId>, productId: Id, quantity: Option<int>,
                            batch: seq<Entry>, itemId: Id)
    requires !Present(user)
    ensures AddToCartEffect(t, user, productId, quantity) == (t, Unauthorized)
    ensures AddAllToCartEffect(t, user, batch) == (t, Unauthorized)
    ensures RemoveFromCartEffect(t, user, itemId) == (t, Unauthorized)
  {
  }

  /**
   * addToCart when the caller's cart already holds the product: that item's
   * quantity goes up by the given quantity (1 by default); no row is added and
   * nothing else changes.
   */
  lemma AddToCartRaisesQuantity(t: Tables, user: Option<UserId>, productId: Id, quantity: Option<int>, cart: Cart, x: CartItem)
    requires ValidTables(t) && Present(user)
    requires CartOfOwner(t.carts, user.value) == Some(cart)
    requires x in t.items && x.cartId == cart.id && x.productId == productId
    ensures var (t', o) := AddToCartEffect(t, user, productId, quantity);
            && o == Success
            && t' == t.(items := t'.items)
            && |t'.items| == |t.items|
            && forall k | 0 <= k < |t.items| ::
                 t'.items[k] == if t.items[k] == x then x.(quantity := x.quantity + QuantityOrDefault(quantity))
                                else t.items[k]
  {
    var y := ItemFor(t.items, cart.id, productId).value;
    assert y == x;
  }

  /**
   * addToCart when the caller's cart does not hold the product: one item with
   * the given quantity is appended (the cart is created first if the caller
   * has none); when the product does not exist the create is refused.
   */
  lemma AddToCartCreatesItem(t: Tables, user: Option<UserId>, productId: Id, quantity: Option<int>)
    requires ValidTables(t) && Present(user)
    requires forall x | x in t.items :: !(OwnedBy(t, x, user.value) && x.productId == productId)
    ensures var (t', o) := AddToCartEffect(t, user, productId, quantity);
            var (t1, cart) := CartForEffect(t, user.value);
            && cart.owner == user.value
            && t'.carts == t1.carts && t'.products == t.products && t'.orders == t.orders
            && t'.categories == t.categories
            && (HasProduct(t.products, productId) ==>
                  o == Success && t'.items == t.items + [CartItem(t1.nextId, cart.id, productId, QuantityOrDefault(quantity))])
            && (!HasProduct(t.products, productId) ==> o == StorageFailure && t'.items == t.items)
  {
    var (t1, cart) := CartForEffect(t, user.value);
    CallersCartLacksProduct(t, user.value, productId);
    var q := QuantityOrDefault(quantity);
    assert AddToCartEffect(t, user, productId, quantity)
        == (AddItem(t1, cart.id, productId, q).0, if AddItem(t1, cart.id, productId, q).1 then Success else StorageFailure);
  }

  /** The cart addToCart works on exists, belongs to the caller, and holds no item for a product the caller has none of. */
  lemma CallersCartLacksProduct(t: Tables, owner: UserId, productId: Id)
    requires ValidTables(t)
    requires forall x | x in t.items :: !(OwnedBy(t, x, owner) && x.productId == productId)
    ensures var (t1, cart) := CartForEffect(t, owner);
            && cart.owner == owner && HasCart(t1.carts, cart.id)
            && t1 == t.(carts := t1.carts, nextId := t1.nextId)
            && ItemFor(t1.items, cart.id, productId).None?
  {
    var (t1, cart) := CartForEffect(t, owner);
    CartForFindsOne(t, owner);
    if CartOfOwner(t.carts, owner).None? {
      FreshCartIsEmpty(t, owner, productId);
    } else {
      forall x | x in t.items && x.cartId == cart.id ensures OwnedBy(t, x, owner) {
        assert HasCart(t.carts, cart.id);
      }
    }
    assert cart in t1.carts;
  }

  /** Adding a product once and then twice more leaves one row with quantity 3. */
  lemma AddOneThenTwo(t: Tables, user: Option<UserId>, productId: Id)
    requires ValidTables(t) && Present(user) && HasProduct(t.products, productId)
    requires forall x | x in t.items :: !(OwnedBy(t, x, user.value) && x.productId == productId)
    ensures AddToCartEffect(t, user, productId, None).1 == Success
    ensures AddToCartEffect(AddToCartEffect(t, user, productId, None).0, user, productId, Some(2)).1 == Success
    ensures var t2 := AddToCartEffect(AddToCartEffect(t, user, productId, None).0, user, productId, Some(2)).0;
            && OneItemPerProduct(t2.items)
            && CartOfOwner(t2.carts, user.value).Some?
            && exists x | x in t2.items :: x.cartId == CartOfOwner(t2.carts, user.value).value.id && x.productId == productId && x.quantity == 3
  {
    var cart, x := AddOnce(t, user, productId);
    var t1 := AddToCartEffect(t, user, productId, None).0;
    assert t1.items[|t.items|] == x;
    AddToCartRaisesQuantity(t1, user, productId, Some(2), cart, x);
    AddToCartKeepsValid(t1, user, productId, Some(2));
    var t2 := AddToCartEffect(t1, user, productId, Some(2)).0;
    var k := |t.items|;
    assert t2.items[k] == x.(quantity := 3);
    assert t2.items[k] in t2.items;
  }

  lemma AddOnce(t: Tables, user: Option<UserId>, productId: Id) returns (cart: Cart, x: CartItem)
    requires ValidTables(t) && Present(user) && HasProduct(t.products, productId)
    requires forall x | x in t.items :: !(OwnedBy(t, x, user.value) && x.productId == productId)
    ensures var (t1, o1) := AddToCartEffect(t, user, productId, None);
            && o1 == Success && ValidTables(t1)
            && CartOfOwner(t1.carts, user.value) == Some(cart)
            && x.cartId == cart.id && x.productId == productId && x.quantity == 1
            && t1.items == t.items + [x]
  {
    AddToCartCreatesItem(t, user, productId, None);
    var cf := CartForEffect(t, user.value);
    CartForFindsOne(t, user.value);
    cart := cf.1;
    x := CartItem(cf.0.nextId, cart.id, productId, 1);
    AddToCartKeepsValid(t, user, productId, None);
  }

  /**
   * A batch add is the same as adding each entry on its own, in order, to the
   * caller's cart.
   */
  lemma AddAllIsAddEach(t: Tables, user: Option<UserId>, batch: seq<Entry>)
    requires ValidTables(t) && Present(user)
    ensures AddAllToCartEffect(t, user, batch) == AddEach(CartForEffect(t, user.value).0, user, batch)
  {
    var (t1, cart) := CartForEffect(t, user.value);
    CartForFindsOne(t, user.value);
    UpsertAllIsAddEach(t1, user, cart, batch);
  }

  lemma {:induction false} UpsertAllIsAddEach(t: Tables, user: Option<UserId>, cart: Cart, batch: seq<Entry>)
    requires Present(user) && CartOfOwner(t.carts, user.value) == Some(cart)
    ensures UpsertAllEffect(t, cart.id, batch).0.carts == t.carts
    ensures var (t', ok) := UpsertAllEffect(t, cart.id, batch);
            AddEach(t, user, batch) == (t', if ok then Success else StorageFailure)
    decreases |batch|
  {
    if batch != [] {
      UpsertAllIsAddEach(t, user, cart, batch[..|batch| - 1]);
    }
  }

  /**
   * removeFromCart deletes exactly the rows with the given id whose cart belongs
   * to the caller; a missing or foreign id changes nothing and raises no error.
   */
  lemma RemoveFromCartDeletesOnlyOwned(t: Tables, user: Option<UserId>, itemId: Id)
    requires ValidTables(t)
    ensures var (t', o) := RemoveFromCartEffect(t, user, itemId);
            && o == (if Present(user) then Success else Unauthorized)
            && t' == t.(items := t'.items)
            && forall y :: y in t'.items <==>
                 y in t.items && !(Present(user) && y.id == itemId && OwnedBy(t, y, user.value))
  {
    if Present(user) && ItemWithId(t.items, itemId).Some? {
      var x := ItemWithId(t.items, itemId).value;
      assert forall y | y in t.items && y.id == itemId :: y == x;
    }
  }

  // ---------------------------------------------------------------------
  // The actions, as sequences of database calls
  // ---------------------------------------------------------------------

  /** Find the caller's cart, or create it (cart.create). */
  method GetOrCreateCart(db: Database, owner: UserId) returns (cart: Cart)
    modifies db
    ensures (db.State(), cart) == CartForEffect(old(db.State()), owner)
  {
    var found := CartOfOwner(db.carts, owner);
    if found.None? {
      cart := db.CreateCart(owner);
    } else {
      cart := found.value;
    }
  }

  /** findFirst on (cart, product), then update its quantity or create the item. */
  method Upsert(db: Database, cartId: Id, productId: Id, quantity: int) returns (ok: bool)
    modifies db
    ensures (db.State(), ok) == UpsertEffect(old(db.State()), cartId, productId, quantity)
  {
    var existing := ItemFor(db.items, cartId, productId);
    if existing.Some? {
      db.UpdateQuantity(existing.value.id, existing.value.quantity + quantity);
      ok := true;
    } else {
      ok := db.CreateItem(cartId, productId, quantity);
    }
  }

  method AddToCart(db: Database, user: Option<UserId>, productId: Id, quantity: Option<int>) returns (r: Outcome)
    requires db.Valid()
    modifies db
    ensures db.Valid()
    ensures (db.State(), r) == AddToCartEffect(old(db.State()), user, productId, quantity)
  {
    AddToCartKeepsValid(db.State(), user, productId, quantity);
    if !Present(user) {
      return Unauthorized;
    }
    var cart := GetOrCreateCart(db, user.value);
    var ok := Upsert(db, cart.id, productId, QuantityOrDefault(quantity));
    r := if ok then Success else StorageFailure;
  }

  /**
   * The source starts the upserts together and waits for all of them; here
   * they run one after another, and the action fails if any of them failed.
   */
  /** One more entry: the loop's step. */
  lemma UpsertAllStep(t: Tables, cartId: Id, batch: seq<Entry>, i: int)
    requires 0 <= i < |batch|
    ensures var (t1, ok1) := UpsertAllEffect(t, cartId, batch[..i]);
            var (t2, ok2) := UpsertEffect(t1, cartId, batch[i].productId, batch[i].quantity);
            UpsertAllEffect(t, cartId, batch[..i + 1]) == (t2, ok1 && ok2)
  {
    assert batch[..i + 1][..i] == batch[..i];
  }

  method AddAllToCart(db: Database, user: Option<UserId>, batch: seq<Entry>) returns (r: Outcome)
    requires db.Valid()
    modifies db
    ensures db.Valid()
    ensures (db.State(), r) == AddAllToCartEffect(old(db.State()), user, batch)
  {
    AddAllToCartKeepsValid(db.State(), user, batch);
    if !Present(user) {
      return Unauthorized;
    }
    var cart := GetOrCreateCart(db, user.value);
    ghost var start := db.State();
    var allOk := true;
    for i := 0 to |batch|
      invariant (db.State(), allOk) == UpsertAllEffect(start, cart.id, batch[..i])
    {
      UpsertAllStep(start, cart.id, batch, i);
      var ok := Upsert(db, cart.id, batch[i].productId, batch[i].quantity);
      allOk := allOk && ok;
    }
    assert batch[..|batch|] == batch;
    r := if allOk then Success else StorageFailure;
  }

  method RemoveFromCart(db: Database, user: Option<UserId>, itemId: Id) returns (r: Outcome)
    requires db.Valid()
    modifies db
    ensures db.Valid()
    ensures (db.State(), r) == RemoveFromCartEffect(old(db.State()), user, itemId)
  {
    if !Present(user) {
      return Unauthorized;
    }
    var item := ItemWithId(db.items, itemId);
    if item.Some? && OwnedBy(db.State(), item.value, user.value) {
      db.DeleteItemWithId(itemId);
      DeleteItemKeepsValid(old(db.State()), itemId);
    }
    r := Success;
  }
}

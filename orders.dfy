/** The order history of the signed-in user. */
module Orders {
  import opened Wrappers
  import opened Storage
  import Sorting

  datatype OrdersResult = OrdersOk(data: seq<Order>) | OrdersErr(error: string)

  /** `where: { clerkUserId: owner }`, in storage order. */
  function OrdersOf(orders: seq<Order>, owner: UserId): (r: seq<Order>)
    ensures forall o :: o in r <==> o in orders && o.owner == owner
    ensures |r| <= |orders|
  {
    if orders == [] then []
    else if orders[0].owner == owner then [orders[0]] + OrdersOf(orders[1..], owner)
    else OrdersOf(orders[1..], owner)
  }

  /** The key for `orderBy: { createdAt: 'desc' }`: ascending on the negated time. */
  function NewestFirst(o: Order): int {
    0 - o.createdAt as int
  }

  /** Ascending on the key is descending on the time: the later order has the smaller key. */
  lemma NewestFirstIsDescendingTime(a: Order, b: Order)
    ensures NewestFirst(a) <= NewestFirst(b) <==> a.createdAt >= b.createdAt
  {
  }

  /**
   * `getUserOrders` for the signed-in user; `storageFails` says whether the
   * query throws.
   */
  function GetUserOrders(t: Tables, user: Option<UserId>, storageFails: bool): (r: OrdersResult)
    ensures !Present(user) <==> r == OrdersErr("Unauthorized")
    ensures Present(user) && storageFails <==> r == OrdersErr("Failed to fetch orders")
    ensures r.OrdersOk? <==> Present(user) && !storageFails
    ensures r.OrdersOk? ==> forall o | o in r.data :: o in t.orders && o.owner == user.value
    ensures r.OrdersOk? ==> forall o | o in t.orders && o.owner == user.value :: o in r.data
    ensures r.OrdersOk? ==> multiset(r.data) == multiset(OrdersOf(t.orders, user.value))
    ensures r.OrdersOk? ==> forall i, j | 0 <= i < j < |r.data| :: r.data[i].createdAt >= r.data[j].createdAt
  {
    if !Present(user) then OrdersErr("Unauthorized")
    else if storageFails then OrdersErr("Failed to fetch orders")
    else
      var mine := OrdersOf(t.orders, user.value);
      var sorted := Sorting.SortBy(mine, NewestFirst);
      Sorting.SortByMembers(mine, NewestFirst);
      assert forall i, j | 0 <= i < j < |sorted| :: NewestFirst(sorted[i]) <= NewestFirst(sorted[j]);
      OrdersOk(sorted)
  }
}

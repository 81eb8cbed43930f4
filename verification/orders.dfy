/**
 * Orders: turning a user's cart into an order (the total, the snapshot of
 * the lines, the guards and the clearing of the cart) and the one-way
 * confirmation of an order, over an in-memory Order table.
 */
module Orders {
  import opened Common
  import opened Cart

  /** An order item: the product and quantity copied from a cart line. */
  datatype OrderLine = OrderLine(productId: int, quantity: int)

  /** An order with its items, as a query that includes `orderItems` returns it. */
  datatype Order = Order(id: nat, userId: int, totalAmount: int, isConfirmed: bool, orderItems: seq<OrderLine>)

  /** What `create` hands to the repository once the guards pass. */
  datatype Draft = Draft(totalAmount: int, items: seq<OrderLine>)

  // ---------------------------------------------------------------------
  // The total and the snapshot

  /**
   * A line counts when it has a product, the price is truthy (non-zero) and
   * the quantity is positive. A negative price is truthy, so it counts.
   */
  predicate Counted(line: LineWithProduct) {
    line.price.Some? && line.price.value != 0 && line.quantity > 0
  }

  /** One step of the `reduce` callback. */
  function AddLine(sum: int, line: LineWithProduct): int {
    if Counted(line) then sum + line.price.value * line.quantity else sum
  }

  /** Reference definition: the sum of price * quantity over the counted lines. */
  function SumCounted(lines: seq<LineWithProduct>): int
    decreases |lines|
  {
    if lines == [] then 0
    else (if Counted(lines[0]) then lines[0].price.value * lines[0].quantity else 0) + SumCounted(lines[1..])
  }

  /** `reduce(callback, acc)`: a left fold over the lines, which adds the counted amounts to `acc`. */
  function Fold(acc: int, lines: seq<LineWithProduct>): (r: int)
    ensures r == acc + SumCounted(lines)
    decreases |lines|
  {
    if lines == [] then acc else Fold(AddLine(acc, lines[0]), lines[1..])
  }

  /**
   * The order total as `create` computes it, the fold started at 0: the sum
   * of price * quantity over exactly the counted lines.
   */
  function TotalAmount(lines: seq<LineWithProduct>): (r: int)
    ensures r == SumCounted(lines)
  {
    Fold(0, lines)
  }

  /** A cart whose every line is excluded (no product, price 0, quantity <= 0) totals 0. */
  lemma {:induction false} NoCountedLineZeroTotal(lines: seq<LineWithProduct>)
    requires forall i :: 0 <= i < |lines| ==> !Counted(lines[i])
    ensures TotalAmount(lines) == 0
  {
    ZeroSum(lines);
  }

  lemma {:induction false} ZeroSum(lines: seq<LineWithProduct>)
    requires forall i :: 0 <= i < |lines| ==> !Counted(lines[i])
    ensures SumCounted(lines) == 0
    decreases |lines|
  {
    if lines != [] {
      assert !Counted(lines[0]);
      ZeroSum(lines[1..]);
    }
  }

  /** Two lines, 2 at 10 and 3 at 15, total 65. */
  lemma TwoLinesExample()
    ensures TotalAmount([LineWithProduct(1, 1, 2, Some(10)), LineWithProduct(2, 2, 3, Some(15))]) == 65
  {
  }

  /** The order items: every cart line as (productId, quantity), in cart order, counted or not. */
  function OrderLines(lines: seq<LineWithProduct>): (r: seq<OrderLine>)
    ensures |r| == |lines|
    ensures forall i {:trigger r[i]} :: 0 <= i < |lines| ==>
      r[i].productId == lines[i].productId && r[i].quantity == lines[i].quantity
  {
    if lines == [] then [] else [OrderLine(lines[0].productId, lines[0].quantity)] + OrderLines(lines[1..])
  }

  /**
   * The guards of `create`, in their order: no cart, then an empty cart, then
   * a total that is not positive; otherwise the total and the snapshot.
   */
  function DraftOf(cart: Option<CartWithProducts>, userId: int): (r: Result<Draft>)
    ensures cart.None? ==> r == Err(NotFound(CartNotFound(userId)))
    ensures cart.Some? && cart.value.cartItems == [] ==> r == Err(NotFound(EmptyCart))
    ensures r.Ok? <==> cart.Some? && cart.value.cartItems != [] && SumCounted(cart.value.cartItems) > 0
    ensures cart.Some? && cart.value.cartItems != [] && SumCounted(cart.value.cartItems) <= 0 ==>
      r == Err(NotFound(NonPositiveTotal))
    ensures r.Ok? ==>
      && r.value.totalAmount == SumCounted(cart.value.cartItems) > 0
      && |r.value.items| == |cart.value.cartItems|
      && forall i :: 0 <= i < |r.value.items| ==>
           r.value.items[i].productId == cart.value.cartItems[i].productId
           && r.value.items[i].quantity == cart.value.cartItems[i].quantity
  {
    match cart
    case None => Err(NotFound(CartNotFound(userId)))
    case Some(c) =>
      if c.cartItems == [] then Err(NotFound(EmptyCart))
      else
        var total := TotalAmount(c.cartItems);
        if total <= 0 then Err(NotFound(NonPositiveTotal))
        else Ok(Draft(total, OrderLines(c.cartItems)))
  }

  /** A non-empty cart whose lines are all excluded (all prices 0, all products null, ...) is refused. */
  lemma AllExcludedRejected(cart: CartWithProducts, userId: int)
    requires cart.cartItems != []
    requires forall i :: 0 <= i < |cart.cartItems| ==> !Counted(cart.cartItems[i])
    ensures DraftOf(Some(cart), userId) == Err(NotFound(NonPositiveTotal))
  {
    NoCountedLineZeroTotal(cart.cartItems);
  }

  // ---------------------------------------------------------------------
  // The Order table

  /** The order the repository inserts: the next id, unconfirmed, with the items in input order. */
  function NewOrder(orders: seq<Order>, userId: int, totalAmount: int, items: seq<OrderLine>): (o: Order)
    ensures o.userId == userId && o.totalAmount == totalAmount && o.orderItems == items
    ensures !o.isConfirmed
    ensures IdsArePositions(orders) ==> IdsArePositions(orders + [o]) && forall x :: x in orders ==> x.id < o.id
  {
    Order(|orders| + 1, userId, totalAmount, false, items)
  }

  /** The orders of one user, in table order. */
  function OrdersOf(orders: seq<Order>, userId: int): (r: seq<Order>)
    ensures forall x {:trigger x in r} :: x in r <==> x in orders && x.userId == userId
    ensures |r| <= |orders|
  {
    if orders == [] then []
    else if orders[0].userId == userId then [orders[0]] + OrdersOf(orders[1..], userId)
    else OrdersOf(orders[1..], userId)
  }

  /** Order ids are 1, 2, ... in table order (an autoincrement key; orders are never deleted). */
  ghost predicate IdsArePositions(orders: seq<Order>) {
    forall i :: 0 <= i < |orders| ==> orders[i].id == i + 1
  }

  /** `findUnique({ where: { id, userId } })`: the order only when both its id and its user match. */
  function FindOrder(orders: seq<Order>, orderId: int, userId: int): (r: Option<Order>)
    requires IdsArePositions(orders)
    ensures r.Some? ==> r.value in orders && r.value.id == orderId && r.value.userId == userId
    ensures r.None? <==> forall x :: x in orders ==> x.id != orderId || x.userId != userId
  {
    if 1 <= orderId <= |orders| && orders[orderId - 1].userId == userId then Some(orders[orderId - 1])
    else None
  }

  /** The outcome of confirming an order: NotFound, Conflict when already confirmed, else the confirmed order. */
  function ConfirmResult(orders: seq<Order>, orderId: int, userId: int): (r: Result<Order>)
    requires IdsArePositions(orders)
    ensures r.Ok? ==> r.value.isConfirmed && r.value.id == orderId && r.value.userId == userId
    ensures r.Ok? <==> exists x :: x in orders && x.id == orderId && x.userId == userId && !x.isConfirmed
  {
    match FindOrder(orders, orderId, userId)
    case None => Err(NotFound(OrderNotFound(orderId, userId)))
    case Some(o) =>
      if o.isConfirmed then Err(Conflict(OrderAlreadyConfirmed(orderId)))
      else Ok(o.(isConfirmed := true))
  }

  /** The table after confirming: only that order changes, and only its flag. */
  function AfterConfirm(orders: seq<Order>, orderId: int, userId: int): (r: seq<Order>)
    requires IdsArePositions(orders)
    ensures IdsArePositions(r)
  {
    if ConfirmResult(orders, orderId, userId).Ok? then
      orders[orderId - 1 := orders[orderId - 1].(isConfirmed := true)]
    else orders
  }

  /** A successful confirm sets `isConfirmed` on exactly that order and changes nothing else. */
  lemma ConfirmChangesOnlyThatOrder(orders: seq<Order>, orderId: int, userId: int)
    requires IdsArePositions(orders)
    ensures |AfterConfirm(orders, orderId, userId)| == |orders|
    ensures ConfirmResult(orders, orderId, userId).Ok? ==>
      && 1 <= orderId <= |orders|
      && AfterConfirm(orders, orderId, userId)[orderId - 1] == orders[orderId - 1].(isConfirmed := true)
      && AfterConfirm(orders, orderId, userId)[orderId - 1] == ConfirmResult(orders, orderId, userId).value
      && !orders[orderId - 1].isConfirmed
      && forall i :: 0 <= i < |orders| && i != orderId - 1 ==> AfterConfirm(orders, orderId, userId)[i] == orders[i]
    ensures ConfirmResult(orders, orderId, userId).Err? ==> AfterConfirm(orders, orderId, userId) == orders
  {
  }

  /** Confirming is not idempotent: after a successful confirm, the same confirm is a Conflict. */
  lemma ConfirmTwiceConflicts(orders: seq<Order>, orderId: int, userId: int)
    requires IdsArePositions(orders)
    requires ConfirmResult(orders, orderId, userId).Ok?
    ensures ConfirmResult(AfterConfirm(orders, orderId, userId), orderId, userId)
            == Err(Conflict(OrderAlreadyConfirmed(orderId)))
  {
    var after := AfterConfirm(orders, orderId, userId);
    assert after[orderId - 1].isConfirmed;
  }

  /** Another user's order is never found, so confirming it is NotFound and changes nothing. */
  lemma OtherUsersOrderNotFound(orders: seq<Order>, orderId: int, userId: int)
    requires IdsArePositions(orders)
    requires forall x :: x in orders && x.id == orderId ==> x.userId != userId
    ensures ConfirmResult(orders, orderId, userId) == Err(NotFound(OrderNotFound(orderId, userId)))
    ensures AfterConfirm(orders, orderId, userId) == orders
  {
  }

  /** A database holding the Order table; its methods are those of the orders repository. */
  class OrderStore {
    var orders: seq<Order>

    ghost predicate Valid()
      reads this
    {
      IdsArePositions(orders)
    }

    constructor ()
      ensures Valid() && orders == []
    {
      orders := [];
    }

    /** `createOrder`: inserts an unconfirmed order with its items. */
    method CreateOrder(userId: int, totalAmount: int, items: seq<OrderLine>) returns (o: Order)
      requires Valid()
      modifies this
      ensures Valid()
      ensures o == NewOrder(old(orders), userId, totalAmount, items)
      ensures orders == old(orders) + [o]
    {
      o := Order(|orders| + 1, userId, totalAmount, false, items);
      orders := orders + [o];
    }

    /** `createOrderAndItems`: the same insert as `createOrder`. */
    method CreateOrderAndItems(userId: int, totalAmount: int, items: seq<OrderLine>) returns (o: Order)
      requires Valid()
      modifies this
      ensures Valid()
      ensures o == NewOrder(old(orders), userId, totalAmount, items)
      ensures orders == old(orders) + [o]
    {
      o := CreateOrder(userId, totalAmount, items);
    }

    /** `findOrderById(orderId, userId)`: the order when both id and user match. */
    function FindOrderById(orderId: int, userId: int): (r: Option<Order>)
      requires Valid()
      reads this
      ensures r.Some? ==> r.value in orders && r.value.id == orderId && r.value.userId == userId
      ensures r.None? <==> forall x :: x in orders ==> x.id != orderId || x.userId != userId
    {
      FindOrder(orders, orderId, userId)
    }

    /** `updateOrder(orderId, userId)`: sets `isConfirmed`; P2025 when no order matches both keys. */
    method UpdateOrder(orderId: int, userId: int) returns (r: Result<Order>)
      requires Valid()
      modifies this
      ensures Valid()
      ensures old(FindOrderById(orderId, userId)).None? ==> r == Err(Other(MissingRecord)) && orders == old(orders)
      ensures old(FindOrderById(orderId, userId)).Some? ==>
        && r == Ok(old(FindOrderById(orderId, userId)).value.(isConfirmed := true))
        && orders == old(orders)[orderId - 1 := r.value]
    {
      if 1 <= orderId <= |orders| && orders[orderId - 1].userId == userId {
        var o := orders[orderId - 1].(isConfirmed := true);
        orders := orders[orderId - 1 := o];
        r := Ok(o);
      } else {
        r := Err(Other(MissingRecord));
      }
    }

    /** The repository's `confirmOrder`: NotFound, then Conflict, then the update. */
    method ConfirmOrder(orderId: int, userId: int) returns (r: Result<Order>)
      requires Valid()
      modifies this
      ensures Valid()
      ensures r == ConfirmResult(old(orders), orderId, userId)
      ensures orders == AfterConfirm(old(orders), orderId, userId)
    {
      var order := FindOrderById(orderId, userId);
      if order.None? {
        return Err(NotFound(OrderNotFound(orderId, userId)));
      }
      if order.value.isConfirmed {
        return Err(Conflict(OrderAlreadyConfirmed(orderId)));
      }
      r := UpdateOrder(orderId, userId);
    }

    /** `findAll(userId)`: exactly the orders of that user. */
    function FindAll(userId: int): (r: seq<Order>)
      reads this
      ensures forall x {:trigger x in r} :: x in r <==> x in orders && x.userId == userId
    {
      OrdersOf(orders, userId)
    }
  }

  /** The orders service, over the order table and the cart tables. */
  class OrdersService {
    const orders: OrderStore
    const carts: CartStore

    constructor (orders: OrderStore, carts: CartStore)
      ensures this.orders == orders && this.carts == carts
    {
      this.orders := orders;
      this.carts := carts;
    }

    /**
     * `create`: reads the user's cart with its products, refuses a missing
     * cart, an empty cart and a total that is not positive (changing
     * nothing), else inserts the order and then clears that cart by its id.
     */
    method Create(userId: int, prices: map<int, int>) returns (r: Result<Order>)
      requires orders.Valid() && carts.Valid()
      modifies orders, carts
      ensures orders.Valid() && carts.Valid()
      ensures carts.carts == old(carts.carts)
      ensures
        var view := old(carts.FindCartWithItemsByUserId(userId, prices));
        match DraftOf(view, userId)
        case Err(e) =>
          && r == Err(e)
          && orders.orders == old(orders.orders)
          && carts.items == old(carts.items) && carts.nextItemId == old(carts.nextItemId)
        case Ok(d) =>
          && r == Ok(NewOrder(old(orders.orders), userId, d.totalAmount, d.items))
          && orders.orders == old(orders.orders) + [r.value]
          && carts.items == WithoutCart(old(carts.items), view.value.id)
          && carts.nextItemId == old(carts.nextItemId)
    {
      var cartWithItems := carts.FindCartWithItemsByUserId(userId, prices);
      var draft := DraftOf(cartWithItems, userId);
      if draft.Err? {
        return Err(draft.error);
      }
      var order := orders.CreateOrder(userId, draft.value.totalAmount, draft.value.items);
      carts.ClearCart(cartWithItems.value.id);
      r := Ok(order);
    }

    /** The service's `confirmOrder`: the same guards as the repository, then `updateOrder`. */
    method ConfirmOrder(orderId: int, userId: int) returns (r: Result<Order>)
      requires orders.Valid()
      modifies orders
      ensures orders.Valid()
      ensures r == ConfirmResult(old(orders.orders), orderId, userId)
      ensures orders.orders == AfterConfirm(old(orders.orders), orderId, userId)
    {
      var order := orders.FindOrderById(orderId, userId);
      if order.None? {
        return Err(NotFound(OrderNotFound(orderId, userId)));
      }
      if order.value.isConfirmed {
        return Err(Conflict(OrderAlreadyConfirmed(orderId)));
      }
      r := orders.UpdateOrder(orderId, userId);
    }
  }
}

/**
 * Shopping carts: the Cart and CartItem tables with the queries and updates
 * of the cart repository, and the cart service that creates a user's cart on
 * first use and adds quantities to its lines.
 */
module Cart {
  import opened Common

  datatype Cart = Cart(id: nat, userId: int)
  datatype CartItem = CartItem(id: nat, cartId: nat, productId: int, quantity: int)

  /** Body of the cart upsert request. */
  datatype CartItemDto = CartItemDto(productId: int, quantity: int)

  /** A cart with its lines, as a query that includes `cartItems` returns it. */
  datatype CartWithItems = CartWithItems(cart: Cart, cartItems: seq<CartItem>)

  /** A cart line joined with its product; `price` is None when the product is null. */
  datatype LineWithProduct = LineWithProduct(id: nat, productId: int, quantity: int, price: Option<int>)

  /** A cart with its lines and their products. */
  datatype CartWithProducts = CartWithProducts(id: nat, userId: int, cartItems: seq<LineWithProduct>)

  /** Line ids grow along the table, as an autoincrement key does. */
  ghost predicate IdsIncreasing(items: seq<CartItem>) {
    forall i, j :: 0 <= i < j < |items| ==> items[i].id < items[j].id
  }

  /** No user owns two carts. */
  ghost predicate OneCartPerUser(carts: seq<Cart>) {
    forall i, j :: 0 <= i < j < |carts| ==> carts[i].userId != carts[j].userId
  }

  /** No cart holds two lines for one product. */
  ghost predicate OneLinePerProduct(items: seq<CartItem>) {
    forall i, j :: 0 <= i < j < |items| ==>
      items[i].productId != items[j].productId || items[i].cartId != items[j].cartId
  }

  /** The rows of `items` that satisfy `keep`, in table order. */
  function Where(items: seq<CartItem>, keep: CartItem -> bool): (r: seq<CartItem>)
    ensures |r| <= |items|
    ensures forall x {:trigger x in r} :: x in r <==> x in items && keep(x)
    ensures (forall x :: x in items ==> !keep(x)) ==> r == []
    ensures IdsIncreasing(items) ==> IdsIncreasing(r)
  {
    if items == [] then []
    else
      var rest := Where(items[1..], keep);
      if keep(items[0]) then
        ConsIncreasing(items[0], items[1..], rest);
        [items[0]] + rest
      else rest
  }

  lemma ConsIncreasing(first: CartItem, tail: seq<CartItem>, rest: seq<CartItem>)
    requires forall x :: x in rest ==> x in tail
    ensures IdsIncreasing([first] + tail) && IdsIncreasing(rest) ==> IdsIncreasing([first] + rest)
  {
    if IdsIncreasing([first] + tail) && IdsIncreasing(rest) {
      assert forall x :: x in tail ==> first.id < x.id by {
        forall x | x in tail ensures first.id < x.id {
          var k :| 0 <= k < |tail| && tail[k] == x;
          assert ([first] + tail)[0] == first && ([first] + tail)[k + 1] == x;
        }
      }
      forall i, j | 0 <= i < j < |[first] + rest|
        ensures ([first] + rest)[i].id < ([first] + rest)[j].id
      {
        if i == 0 {
          assert ([first] + rest)[j] == rest[j - 1];
          assert rest[j - 1] in tail;
        }
      }
    }
  }

  /** The lines of cart `cartId`. */
  function LinesOf(items: seq<CartItem>, cartId: nat): (r: seq<CartItem>)
    ensures forall x {:trigger x in r} :: x in r <==> x in items && x.cartId == cartId
    ensures (forall x :: x in items ==> x.cartId != cartId) ==> r == []
    ensures IdsIncreasing(items) ==> IdsIncreasing(r)
  {
    Where(items, (x: CartItem) => x.cartId == cartId)
  }

  /** Every line except those of cart `cartId`. */
  function WithoutCart(items: seq<CartItem>, cartId: nat): (r: seq<CartItem>)
    ensures forall x {:trigger x in r} :: x in r <==> x in items && x.cartId != cartId
    ensures IdsIncreasing(items) ==> IdsIncreasing(r)
  {
    Where(items, (x: CartItem) => x.cartId != cartId)
  }

  /** Every line except the one with id `id`. */
  function WithoutItem(items: seq<CartItem>, id: nat): (r: seq<CartItem>)
    ensures forall x {:trigger x in r} :: x in r <==> x in items && x.id != id
    ensures IdsIncreasing(items) ==> IdsIncreasing(r)
  {
    Where(items, (x: CartItem) => x.id != id)
  }

  /** The first cart of the user, as `findFirst({ where: { userId } })` finds it. */
  function FirstCartOf(carts: seq<Cart>, userId: int): (r: Option<Cart>)
    ensures r.Some? ==> r.value in carts && r.value.userId == userId
    ensures r.None? <==> forall c :: c in carts ==> c.userId != userId
  {
    if carts == [] then None
    else if carts[0].userId == userId then Some(carts[0])
    else FirstCartOf(carts[1..], userId)
  }

  /** The first line with the given id. */
  function LineWithId(items: seq<CartItem>, id: nat): (r: Option<CartItem>)
    ensures r.Some? ==> r.value in items && r.value.id == id
    ensures r.None? <==> forall x :: x in items ==> x.id != id
  {
    if items == [] then None
    else if items[0].id == id then Some(items[0])
    else LineWithId(items[1..], id)
  }

  /** The first line of cart `cartId` for product `productId`. */
  function LineFor(items: seq<CartItem>, productId: int, cartId: nat): (r: Option<CartItem>)
    ensures r.Some? ==> r.value in items && r.value.productId == productId && r.value.cartId == cartId
    ensures r.None? <==> forall x :: x in items ==> x.productId != productId || x.cartId != cartId
  {
    if items == [] then None
    else if items[0].productId == productId && items[0].cartId == cartId then Some(items[0])
    else LineFor(items[1..], productId, cartId)
  }

  /** The table after `update({ where: { id }, data: { quantity } })`. */
  function SetQuantity(items: seq<CartItem>, id: nat, quantity: int): (r: seq<CartItem>)
    ensures |r| == |items|
    ensures forall i {:trigger r[i]} :: 0 <= i < |items| ==>
      r[i] == if items[i].id == id then items[i].(quantity := quantity) else items[i]
  {
    if items == [] then []
    else [if items[0].id == id then items[0].(quantity := quantity) else items[0]]
         + SetQuantity(items[1..], id, quantity)
  }

  /** A line joined with the price of its product; a product missing from `prices` is null. */
  function WithProduct(line: CartItem, prices: map<int, int>): LineWithProduct {
    LineWithProduct(line.id, line.productId, line.quantity,
                    if line.productId in prices then Some(prices[line.productId]) else None)
  }

  /** Every line joined with its product, in the same order. */
  function WithProducts(lines: seq<CartItem>, prices: map<int, int>): (r: seq<LineWithProduct>)
    ensures |r| == |lines|
    ensures forall i {:trigger r[i]} :: 0 <= i < |lines| ==> r[i] == WithProduct(lines[i], prices)
  {
    if lines == [] then [] else [WithProduct(lines[0], prices)] + WithProducts(lines[1..], prices)
  }

  /** Clearing a cart twice leaves the same lines as clearing it once. */
  lemma {:induction false} ClearCartIdempotent(items: seq<CartItem>, cartId: nat)
    ensures WithoutCart(WithoutCart(items, cartId), cartId) == WithoutCart(items, cartId)
  {
    WhereIdempotent(items, (x: CartItem) => x.cartId != cartId);
  }

  lemma {:induction false} WhereIdempotent(items: seq<CartItem>, keep: CartItem -> bool)
    ensures Where(Where(items, keep), keep) == Where(items, keep)
  {
    if items != [] {
      WhereIdempotent(items[1..], keep);
    }
  }

  /** Clearing one cart leaves the lines of every other cart as they were, in order. */
  lemma {:induction false} ClearCartKeepsOtherCarts(items: seq<CartItem>, cartId: nat, other: nat)
    requires other != cartId
    ensures LinesOf(WithoutCart(items, cartId), other) == LinesOf(items, other)
  {
    if items != [] {
      ClearCartKeepsOtherCarts(items[1..], cartId, other);
    }
  }

  /**
   * The line `addItem` returns: the cart's line for the product with the
   * quantity added, or a new line with id `nextId` when the cart has none.
   */
  function AddedLine(items: seq<CartItem>, nextId: nat, cartId: nat, dto: CartItemDto): (r: CartItem)
    ensures r.cartId == cartId && r.productId == dto.productId
    ensures r.quantity == QuantityOf(items, dto.productId, cartId) + dto.quantity
  {
    match LineFor(items, dto.productId, cartId)
    case Some(line) => line.(quantity := line.quantity + dto.quantity)
    case None => CartItem(nextId, cartId, dto.productId, dto.quantity)
  }

  /** The CartItem table after `addItem` put `dto` into cart `cartId`. */
  function AfterAdd(items: seq<CartItem>, nextId: nat, cartId: nat, dto: CartItemDto): (r: seq<CartItem>)
    ensures |r| == |items| + (if LineFor(items, dto.productId, cartId).Some? then 0 else 1)
    ensures forall i {:trigger r[i]} :: 0 <= i < |items| ==>
      r[i].id == items[i].id && r[i].productId == items[i].productId && r[i].cartId == items[i].cartId
  {
    match LineFor(items, dto.productId, cartId)
    case Some(line) => SetQuantity(items, line.id, line.quantity + dto.quantity)
    case None => items + [AddedLine(items, nextId, cartId, dto)]
  }

  /**
   * `addItem` succeeds once the cart is known exactly when the cart already
   * holds a line for the product (an update, which checks no key) or the
   * product exists (the new line's foreign key holds).
   */
  predicate AddAccepted(items: seq<CartItem>, cartId: nat, dto: CartItemDto, products: set<int>) {
    LineFor(items, dto.productId, cartId).Some? || dto.productId in products
  }

  /** A database holding the Cart and CartItem tables; its methods are those of the cart repository. */
  class CartStore {
    var carts: seq<Cart>
    var items: seq<CartItem>
    var nextItemId: nat

    /**
     * Cart ids are 1, 2, ... in table order; line ids are increasing and below
     * the next id to hand out; every line belongs to an existing cart.
     */
    ghost predicate Valid()
      reads this
    {
      && (forall i :: 0 <= i < |carts| ==> carts[i].id == i + 1)
      && IdsIncreasing(items)
      && (forall x :: x in items ==> x.id < nextItemId && 1 <= x.cartId <= |carts|)
    }

    constructor ()
      ensures Valid() && carts == [] && items == []
    {
      carts, items, nextItemId := [], [], 1;
    }

    /** True iff the line's cart belongs to the user (the relation filter `cart: { userId }`). */
    predicate OwnedBy(line: CartItem, userId: int)
      reads this
    {
      1 <= line.cartId <= |carts| && carts[line.cartId - 1].userId == userId
    }

    /** `findCartByUserId`: the user's cart with its lines, or None when the user has no cart. */
    function FindCartByUserId(userId: int): (r: Option<CartWithItems>)
      reads this
      ensures r.None? <==> forall c :: c in carts ==> c.userId != userId
      ensures r.Some? ==> r.value.cart in carts && r.value.cart.userId == userId
      ensures r.Some? ==> forall x :: x in r.value.cartItems <==> x in items && x.cartId == r.value.cart.id
    {
      match FirstCartOf(carts, userId)
      case None => None
      case Some(c) => Some(CartWithItems(c, LinesOf(items, c.id)))
    }

    /** `findCartItem`: the line of cart `cartId` for product `productId`, if any. */
    function FindCartItem(productId: int, cartId: nat): (r: Option<CartItem>)
      reads this
      ensures r.Some? ==> r.value in items && r.value.productId == productId && r.value.cartId == cartId
      ensures r.None? <==> forall x :: x in items ==> x.productId != productId || x.cartId != cartId
    {
      LineFor(items, productId, cartId)
    }

    /** The line `deleteCartItem(itemId, userId)` deletes: the line with that id, if its cart is the user's. */
    function DeletableItem(itemId: nat, userId: int): (r: Option<CartItem>)
      requires Valid()
      reads this
      ensures r.Some? ==> r.value in items && r.value.id == itemId && OwnedBy(r.value, userId)
      ensures r.None? <==> forall x :: x in items && x.id == itemId ==> !OwnedBy(x, userId)
    {
      assert forall x, y :: x in items && y in items && x.id == y.id ==> x == y by {
        forall x, y | x in items && y in items && x.id == y.id ensures x == y {
          SameIdSameLine(items, x, y);
        }
      }

      match LineWithId(items, itemId)
      case Some(x) => if OwnedBy(x, userId) then Some(x) else None
      case None => None
    }

    /** `findCartWithItemsByUserId`: the user's cart with every line joined with its product. */
    function FindCartWithItemsByUserId(userId: int, prices: map<int, int>): (r: Option<CartWithProducts>)
      reads this
      ensures r.None? <==> FindCartByUserId(userId).None?
      ensures r.Some? ==>
        var c := FindCartByUserId(userId).value;
        && r.value.id == c.cart.id && r.value.userId == userId
        && |r.value.cartItems| == |c.cartItems|
        && forall i :: 0 <= i < |c.cartItems| ==> r.value.cartItems[i] == WithProduct(c.cartItems[i], prices)
    {
      match FindCartByUserId(userId)
      case None => None
      case Some(c) => Some(CartWithProducts(c.cart.id, c.cart.userId, WithProducts(c.cartItems, prices)))
    }

    /** `createCart`: a new cart for the user, with no lines. */
    method CreateCart(userId: int) returns (c: CartWithItems)
      requires Valid()
      modifies this
      ensures Valid()
      ensures c == CartWithItems(Cart(|old(carts)| + 1, userId), [])
      ensures carts == old(carts) + [c.cart]
      ensures items == old(items) && nextItemId == old(nextItemId)
    {
      var cart := Cart(|carts| + 1, userId);
      carts := carts + [cart];
      c := CartWithItems(cart, []);
    }

    /** `updateCartItemQuantity`: sets the quantity of line `itemId`; fails with P2025 if there is none. */
    method UpdateCartItemQuantity(itemId: nat, newQuantity: int) returns (r: Result<CartItem>)
      requires Valid()
      modifies this
      ensures Valid()
      ensures carts == old(carts) && nextItemId == old(nextItemId)
      ensures LineWithId(old(items), itemId).None? ==> r == Err(Other(MissingRecord)) && items == old(items)
      ensures LineWithId(old(items), itemId).Some? ==>
        && r == Ok(LineWithId(old(items), itemId).value.(quantity := newQuantity))
        && items == SetQuantity(old(items), itemId, newQuantity)
    {
      match LineWithId(items, itemId)
      case None =>
        r := Err(Other(MissingRecord));
      case Some(x) =>
        items := SetQuantity(items, itemId, newQuantity);
        r := Ok(x.(quantity := newQuantity));
    }

    /**
     * `createCartItem`: appends a line of cart `cartId`. Both foreign keys are
     * checked: the insert fails with P2003 when the cart or the product does not exist.
     */
    method CreateCartItem(dto: CartItemDto, cartId: nat, products: set<int>) returns (r: Result<CartItem>)
      requires Valid()
      modifies this
      ensures Valid()
      ensures carts == old(carts)
      ensures r.Ok? <==> 1 <= cartId <= |carts| && dto.productId in products
      ensures r.Ok? ==>
        && r.value == CartItem(old(nextItemId), cartId, dto.productId, dto.quantity)
        && items == old(items) + [r.value]
        && nextItemId == old(nextItemId) + 1
      ensures r.Err? ==>
        r == Err(Other(MissingParent)) && items == old(items) && nextItemId == old(nextItemId)
    {
      if 1 <= cartId <= |carts| && dto.productId in products {
        var line := CartItem(nextItemId, cartId, dto.productId, dto.quantity);
        items := items + [line];
        nextItemId := nextItemId + 1;
        r := Ok(line);
      } else {
        r := Err(Other(MissingParent));
      }
    }

    /** `deleteCartItem(itemId, userId)`: deletes the line only when its cart is the user's; otherwise P2025. */
    method DeleteCartItem(itemId: nat, userId: int) returns (r: Result<CartItem>)
      requires Valid()
      modifies this
      ensures Valid()
      ensures carts == old(carts) && nextItemId == old(nextItemId)
      ensures match old(DeletableItem(itemId, userId))
        case None => r == Err(Other(MissingRecord)) && items == old(items)
        case Some(x) => r == Ok(x) && items == WithoutItem(old(items), itemId)
    {
      match DeletableItem(itemId, userId)
      case None =>
        r := Err(Other(MissingRecord));
      case Some(x) =>
        items := WithoutItem(items, itemId);
        r := Ok(x);
    }

    /** `clearCart`: deletes every line of the cart; clearing an empty or unknown cart succeeds. */
    method ClearCart(cartId: nat)
      requires Valid()
      modifies this
      ensures Valid()
      ensures carts == old(carts) && nextItemId == old(nextItemId)
      ensures items == WithoutCart(old(items), cartId)
    {
      items := WithoutCart(items, cartId);
    }
  }

  /** The cart service: the cart upsert and the removal of a line, over one store. */
  class CartService {
    const repo: CartStore

    constructor (repo: CartStore)
      ensures this.repo == repo
    {
      this.repo := repo;
    }

    /** `handleCart`: the user's cart, created (empty) when the user has none. */
    method HandleCart(userId: int) returns (cart: CartWithItems)
      requires repo.Valid()
      modifies repo
      ensures repo.Valid()
      ensures repo.items == old(repo.items) && repo.nextItemId == old(repo.nextItemId)
      ensures FirstCartOf(old(repo.carts), userId).Some? ==>
        cart.cart == FirstCartOf(old(repo.carts), userId).value && repo.carts == old(repo.carts)
      ensures FirstCartOf(old(repo.carts), userId).None? ==>
        && cart == CartWithItems(Cart(|old(repo.carts)| + 1, userId), [])
        && repo.carts == old(repo.carts) + [cart.cart]
      ensures FirstCartOf(repo.carts, userId) == Some(cart.cart)
      ensures forall x {:trigger x in cart.cartItems} :: x in cart.cartItems <==> x in repo.items && x.cartId == cart.cart.id
      ensures OneCartPerUser(old(repo.carts)) ==> OneCartPerUser(repo.carts)
    {
      var found := repo.FindCartByUserId(userId);
      if found.Some? {
        cart := found.value;
      } else {
        cart := repo.CreateCart(userId);
        FirstCartOfAppended(old(repo.carts), cart.cart);
        assert forall x :: x in repo.items ==> x.cartId < cart.cart.id;
        assert LinesOf(repo.items, cart.cart.id) == [];
      }
    }

    /**
     * `addItem`: adds `dto.quantity` to the user's line for `dto.productId`,
     * or appends a line with that quantity when the cart has none. It never
     * deletes a line and never looks at the sign of the quantity. Appending a
     * line for an unknown product fails with P2003, which nothing catches; a
     * cart created on the way stays.
     */
    method AddItem(dto: CartItemDto, userId: int, products: set<int>) returns (r: Result<CartItem>)
      requires repo.Valid()
      modifies repo
      ensures repo.Valid()
      ensures FirstCartOf(repo.carts, userId).Some?
      ensures
        var cart := FirstCartOf(repo.carts, userId).value;
        && (repo.carts == old(repo.carts) || repo.carts == old(repo.carts) + [cart])
        && (r.Ok? <==> AddAccepted(old(repo.items), cart.id, dto, products))
        && (r.Ok? ==>
              && r.value == AddedLine(old(repo.items), old(repo.nextItemId), cart.id, dto)
              && repo.items == AfterAdd(old(repo.items), old(repo.nextItemId), cart.id, dto))
        && (r.Err? ==> r.error == Other(MissingParent) && repo.items == old(repo.items))
      ensures OneLinePerProduct(old(repo.items)) ==> OneLinePerProduct(repo.items)
      ensures OneCartPerUser(old(repo.carts)) ==> OneCartPerUser(repo.carts)
    {
      var cart := HandleCart(userId);
      assert 1 <= cart.cart.id <= |repo.carts| by {
        var i :| 0 <= i < |repo.carts| && repo.carts[i] == cart.cart;
      }
      ghost var before := repo.items;
      ghost var nextId := repo.nextItemId;
      r := PutInCart(dto, cart.cart.id, products);
      AddKeepsOneLinePerProduct(before, nextId, cart.cart.id, dto);
    }

    /**
     * The rest of `addItem`, once the cart is known: add to the cart's line for
     * the product, or append one, which fails with P2003 for an unknown product.
     */
    method PutInCart(dto: CartItemDto, cartId: nat, products: set<int>) returns (r: Result<CartItem>)
      requires repo.Valid()
      requires 1 <= cartId <= |repo.carts|
      modifies repo
      ensures repo.Valid()
      ensures repo.carts == old(repo.carts)
      ensures r.Ok? <==> AddAccepted(old(repo.items), cartId, dto, products)
      ensures r.Ok? ==>
        && r.value == AddedLine(old(repo.items), old(repo.nextItemId), cartId, dto)
        && repo.items == AfterAdd(old(repo.items), old(repo.nextItemId), cartId, dto)
      ensures r.Err? ==>
        r.error == Other(MissingParent) && repo.items == old(repo.items) && repo.nextItemId == old(repo.nextItemId)
    {
      ghost var before := repo.items;
      ghost var nextId := repo.nextItemId;
      var existing := repo.FindCartItem(dto.productId, cartId);
      if existing.Some? {
        var line := existing.value;
        LineWithIdOf(repo.items, line);
        r := repo.UpdateCartItemQuantity(line.id, line.quantity + dto.quantity);
        assert repo.items == AfterAdd(before, nextId, cartId, dto);
      } else {
        r := repo.CreateCartItem(dto, cartId, products);
        assert r.Ok? ==> repo.items == AfterAdd(before, nextId, cartId, dto);
      }
    }

    /** `removeItem`: deletes the line only from the user's own cart. */
    method RemoveItem(id: nat, userId: int) returns (r: Result<CartItem>)
      requires repo.Valid()
      modifies repo
      ensures repo.Valid()
      ensures repo.carts == old(repo.carts)
      ensures match old(repo.DeletableItem(id, userId))
        case None => r == Err(Other(MissingRecord)) && repo.items == old(repo.items)
        case Some(x) => r == Ok(x) && repo.items == WithoutItem(old(repo.items), id)
    {
      r := repo.DeleteCartItem(id, userId);
    }
  }

  /** A user without a cart finds the cart appended for them. */
  lemma {:induction false} FirstCartOfAppended(carts: seq<Cart>, c: Cart)
    requires forall x :: x in carts ==> x.userId != c.userId
    ensures FirstCartOf(carts + [c], c.userId) == Some(c)
  {
    if carts != [] {
      assert (carts + [c])[1..] == carts[1..] + [c];
      FirstCartOfAppended(carts[1..], c);
    }
  }

  /** Setting a quantity keeps one line per product and cart. */
  lemma SetQuantityKeepsKeys(items: seq<CartItem>, id: nat, quantity: int)
    ensures OneLinePerProduct(items) ==> OneLinePerProduct(SetQuantity(items, id, quantity))
  {
  }

  /** Appending a line for a product the cart does not hold keeps one line per product and cart. */
  lemma AppendNewLineKeepsKeys(items: seq<CartItem>, line: CartItem)
    requires LineFor(items, line.productId, line.cartId).None?
    ensures OneLinePerProduct(items) ==> OneLinePerProduct(items + [line])
  {
    if OneLinePerProduct(items) {
      forall i, j | 0 <= i < j < |items + [line]|
        ensures (items + [line])[i].productId != (items + [line])[j].productId
             || (items + [line])[i].cartId != (items + [line])[j].cartId
      {
        if j == |items| {
          assert items[i] in items;
        }
      }
    }
  }

  /** `addItem` keeps one line per product and cart. */
  lemma AddKeepsOneLinePerProduct(items: seq<CartItem>, nextId: nat, cartId: nat, dto: CartItemDto)
    ensures OneLinePerProduct(items) ==> OneLinePerProduct(AfterAdd(items, nextId, cartId, dto))
  {
    match LineFor(items, dto.productId, cartId)
    case Some(line) =>
      SetQuantityKeepsKeys(items, line.id, line.quantity + dto.quantity);
    case None =>
      AppendNewLineKeepsKeys(items, AddedLine(items, nextId, cartId, dto));
  }

  /** The quantity the cart holds of a product: that of its line, or 0 without one. */
  function QuantityOf(items: seq<CartItem>, productId: int, cartId: nat): int {
    match LineFor(items, productId, cartId)
    case Some(line) => line.quantity
    case None => 0
  }

  /**
   * After `addItem`, the returned line is the cart's line for the product and
   * holds the quantity it held before plus `dto.quantity`; every other
   * (product, cart) pair finds the line it found before.
   */
  lemma AddItemAddsQuantity(items: seq<CartItem>, nextId: nat, cartId: nat, dto: CartItemDto,
                            productId: int, otherCart: nat)
    requires IdsIncreasing(items)
    requires forall x :: x in items ==> x.id < nextId
    ensures LineFor(AfterAdd(items, nextId, cartId, dto), dto.productId, cartId)
            == Some(AddedLine(items, nextId, cartId, dto))
    ensures QuantityOf(AfterAdd(items, nextId, cartId, dto), dto.productId, cartId)
            == QuantityOf(items, dto.productId, cartId) + dto.quantity
    ensures productId != dto.productId || otherCart != cartId ==>
      LineFor(AfterAdd(items, nextId, cartId, dto), productId, otherCart) == LineFor(items, productId, otherCart)
  {
    if LineFor(items, dto.productId, cartId).Some? {
      AddToExistingLine(items, nextId, cartId, dto, productId, otherCart);
    } else {
      var added := AddedLine(items, nextId, cartId, dto);
      assert AfterAdd(items, nextId, cartId, dto) == items + [added];
      LineForAppend(items, added, dto.productId, cartId);
      LineForAppend(items, added, productId, otherCart);
    }
  }

  /** `AddItemAddsQuantity` when the cart already holds a line for the product. */
  lemma AddToExistingLine(items: seq<CartItem>, nextId: nat, cartId: nat, dto: CartItemDto,
                          productId: int, otherCart: nat)
    requires IdsIncreasing(items)
    requires LineFor(items, dto.productId, cartId).Some?
    ensures LineFor(AfterAdd(items, nextId, cartId, dto), dto.productId, cartId)
            == Some(AddedLine(items, nextId, cartId, dto))
    ensures productId != dto.productId || otherCart != cartId ==>
      LineFor(AfterAdd(items, nextId, cartId, dto), productId, otherCart) == LineFor(items, productId, otherCart)
  {
    var line := LineFor(items, dto.productId, cartId).value;
    var q := line.quantity + dto.quantity;
    var after := SetQuantity(items, line.id, q);
    assert AfterAdd(items, nextId, cartId, dto) == after;
    assert AddedLine(items, nextId, cartId, dto) == line.(quantity := q);
    LineForSetQuantity(items, line.id, q, dto.productId, cartId);
    assert LineFor(after, dto.productId, cartId) == Some(line.(quantity := q));
    LineForSetQuantity(items, line.id, q, productId, otherCart);
    if productId != dto.productId || otherCart != cartId {
      var other := LineFor(items, productId, otherCart);
      if other.Some? {
        SameIdSameLine(items, other.value, line);
      }
    }
  }

  /**
   * `addItem` never deletes: every line keeps its place and its id, and
   * only the added-to line may change. Nothing checks the sign of the result.
   */
  lemma AddKeepsEveryLine(items: seq<CartItem>, nextId: nat, cartId: nat, dto: CartItemDto)
    requires IdsIncreasing(items)
    ensures |AfterAdd(items, nextId, cartId, dto)| >= |items|
    ensures forall i :: 0 <= i < |items| ==>
      && AfterAdd(items, nextId, cartId, dto)[i].id == items[i].id
      && (AfterAdd(items, nextId, cartId, dto)[i] == items[i] || AfterAdd(items, nextId, cartId, dto)[i] == AddedLine(items, nextId, cartId, dto))
  {
    match LineFor(items, dto.productId, cartId)
    case Some(line) =>
      forall i | 0 <= i < |items| && items[i].id == line.id
        ensures items[i] == line
      {
        SameIdSameLine(items, items[i], line);
      }
    case None =>
  }

  /** A line of quantity 1 with 2 added holds 3; with -3 added it holds -2 and stays in the cart. */
  lemma AddItemExamples()
    ensures AfterAdd([CartItem(1, 1, 7, 1)], 2, 1, CartItemDto(7, 2)) == [CartItem(1, 1, 7, 3)]
    ensures AfterAdd([CartItem(1, 1, 7, 1)], 2, 1, CartItemDto(7, -3)) == [CartItem(1, 1, 7, -2)]
  {
    assert LineFor([CartItem(1, 1, 7, 1)], 7, 1) == Some(CartItem(1, 1, 7, 1));
  }

  /** Setting the quantity of line `id` changes the found line only when it is line `id`. */
  lemma {:induction false} LineForSetQuantity(items: seq<CartItem>, id: nat, quantity: int, productId: int, cartId: nat)
    ensures LineFor(SetQuantity(items, id, quantity), productId, cartId)
      == match LineFor(items, productId, cartId)
         case None => None
         case Some(x) => Some(if x.id == id then x.(quantity := quantity) else x)
  {
    if items != [] {
      var r := SetQuantity(items, id, quantity);
      assert r[1..] == SetQuantity(items[1..], id, quantity);
      LineForSetQuantity(items[1..], id, quantity, productId, cartId);
    }
  }

  /** Searching a table with a line appended finds the earlier line first. */
  lemma {:induction false} LineForAppend(items: seq<CartItem>, line: CartItem, productId: int, cartId: nat)
    ensures LineFor(items + [line], productId, cartId)
      == if LineFor(items, productId, cartId).Some? then LineFor(items, productId, cartId)
         else if line.productId == productId && line.cartId == cartId then Some(line)
         else None
  {
    if items == [] {
      assert [line][1..] == [];
    } else {
      assert (items + [line])[1..] == items[1..] + [line];
      LineForAppend(items[1..], line, productId, cartId);
    }
  }

  /** In a table with increasing ids, looking a line up by its id finds that line. */
  lemma {:induction false} LineWithIdOf(items: seq<CartItem>, line: CartItem)
    requires IdsIncreasing(items) && line in items
    ensures LineWithId(items, line.id) == Some(line)
  {
    if items[0] != line {
      assert items[0].id != line.id by {
        var k :| 0 <= k < |items| && items[k] == line;
      }
      assert line in items[1..] by {
        var k :| 0 <= k < |items| && items[k] == line;
        assert items[1..][k - 1] == line;
      }
      LineWithIdOf(items[1..], line);
    }
  }

  /** In a table with increasing ids, two lines with the same id are the same line. */
  lemma SameIdSameLine(items: seq<CartItem>, x: CartItem, y: CartItem)
    requires IdsIncreasing(items) && x in items && y in items
    ensures x.id == y.id ==> x == y
  {
  }
}

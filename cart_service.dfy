/**
 * CartService: adding, merging, updating, removing and clearing cart lines, each guarded by
 * stock and ownership checks, and the cart response with its line subtotals and total.
 */
module CartService {
  import opened Wrappers
  import opened Entities

  datatype CartItemResponse = CartItemResponse(id: int, productId: int, quantity: int, unitPrice: int, subtotal: int)

  datatype CartResponse = CartResponse(id: int, userId: int, items: seq<CartItemResponse>, totalAmount: int)

  /** A line's subtotal: unit price times quantity. */
  function Subtotal(item: CartItem): int {
    item.unitPrice * item.quantity
  }

  /** The cart total: the sum of the line subtotals. */
  function CartTotal(items: seq<CartItem>): int
    decreases |items|
  {
    if |items| == 0 then 0 else Subtotal(items[0]) + CartTotal(items[1..])
  }

  /** The sum the response computes by reducing over its own lines' subtotals. */
  function SumSubtotals(lines: seq<CartItemResponse>): int
    decreases |lines|
  {
    if |lines| == 0 then 0 else lines[0].subtotal + SumSubtotals(lines[1..])
  }

  function LineResponse(item: CartItem): CartItemResponse {
    CartItemResponse(item.id, item.productId, item.quantity, item.unitPrice, Subtotal(item))
  }

  /** Reducing over the response lines gives the cart total of the items they were made from. */
  lemma {:induction false} SumSubtotalsOfLines(items: seq<CartItem>, lines: seq<CartItemResponse>)
    requires |lines| == |items|
    requires forall k :: 0 <= k < |items| ==> lines[k] == LineResponse(items[k])
    ensures SumSubtotals(lines) == CartTotal(items)
    decreases |items|
  {
    if |items| > 0 {
      SumSubtotalsOfLines(items[1..], lines[1..]);
    }
  }

  /** `toResponse`: one response line per item, in order, and the total of the subtotals. */
  function ToResponse(userId: int, cart: Cart): (r: CartResponse)
    ensures r.id == cart.id && r.userId == userId && |r.items| == |cart.items|
    ensures forall k :: 0 <= k < |cart.items| ==>
      r.items[k].id == cart.items[k].id && r.items[k].productId == cart.items[k].productId &&
      r.items[k].quantity == cart.items[k].quantity && r.items[k].unitPrice == cart.items[k].unitPrice &&
      r.items[k].subtotal == cart.items[k].unitPrice * cart.items[k].quantity
    ensures r.totalAmount == CartTotal(cart.items)
  {
    var lines := seq(|cart.items|, k requires 0 <= k < |cart.items| => LineResponse(cart.items[k]));
    SumSubtotalsOfLines(cart.items, lines);
    CartResponse(cart.id, userId, lines, SumSubtotals(lines))
  }

  /** Appending a line adds its subtotal to the total. */
  lemma {:induction false} CartTotalAppend(items: seq<CartItem>, item: CartItem)
    ensures CartTotal(items + [item]) == CartTotal(items) + Subtotal(item)
    decreases |items|
  {
    if |items| > 0 {
      assert (items + [item])[1..] == items[1..] + [item];
      CartTotalAppend(items[1..], item);
    }
  }

  /** Changing one line's quantity changes the total by that line's unit price times the difference. */
  lemma {:induction false} CartTotalSetQuantity(items: seq<CartItem>, k: nat, quantity: int)
    requires k < |items|
    ensures CartTotal(items[k := items[k].(quantity := quantity)])
      == CartTotal(items) + items[k].unitPrice * (quantity - items[k].quantity)
    decreases |items|
  {
    var changed := items[k := items[k].(quantity := quantity)];
    if k > 0 {
      assert changed[1..] == items[1..][k - 1 := items[k].(quantity := quantity)];
      CartTotalSetQuantity(items[1..], k - 1, quantity);
    } else {
      assert changed[1..] == items[1..];
    }
  }

  /** Removing one line subtracts its subtotal from the total. */
  lemma {:induction false} CartTotalRemove(items: seq<CartItem>, k: nat)
    requires k < |items|
    ensures CartTotal(items[..k] + items[k + 1..]) == CartTotal(items) - Subtotal(items[k])
    decreases |items|
  {
    if k > 0 {
      assert (items[..k] + items[k + 1..])[1..] == items[1..][..k - 1] + items[1..][k..];
      CartTotalRemove(items[1..], k - 1);
    } else {
      assert items[..k] + items[k + 1..] == items[1..];
    }
  }

  /** `findByCartIdAndProductId`: the position of the cart's line for a product, or -1. */
  function FindLine(items: seq<CartItem>, productId: int): (k: int)
    ensures -1 <= k < |items|
    ensures k >= 0 ==> items[k].productId == productId
    ensures k == -1 <==> forall j :: 0 <= j < |items| ==> items[j].productId != productId
    decreases |items|
  {
    if |items| == 0 then -1
    else if items[0].productId == productId then 0
    else
      var j := FindLine(items[1..], productId);
      if j == -1 then -1 else j + 1
  }

  /** The position of the line with a given item id, or -1. */
  function FindItem(items: seq<CartItem>, itemId: int): (k: int)
    ensures -1 <= k < |items|
    ensures k >= 0 ==> items[k].id == itemId
    ensures k == -1 <==> forall j :: 0 <= j < |items| ==> items[j].id != itemId
    decreases |items|
  {
    if |items| == 0 then -1
    else if items[0].id == itemId then 0
    else
      var j := FindItem(items[1..], itemId);
      if j == -1 then -1 else j + 1
  }

  /** The lines of a user's cart; a user without a cart has none. */
  function CartLines(d: Db, userId: int): seq<CartItem> {
    if userId in d.carts then d.carts[userId].items else []
  }

  /** `cartItemRepository.findById`: some stored cart holds a line with that id. */
  predicate ItemStored(carts: map<int, Cart>, itemId: int) {
    exists u :: u in carts && FindItem(carts[u].items, itemId) >= 0
  }

  /** The checks of `addItemToCart`, in source order: the first that fails, or None. */
  function AddItemRefusal(d: Db, userId: int, productId: int, quantity: int): Option<Error> {
    if userId !in d.users then Some(NotFound("User not found"))
    else if productId !in d.products then Some(NotFound("Product not found"))
    else if !d.products[productId].isActive then Some(IllegalArgument("Product is not available"))
    else if productId !in d.inventory then Some(IllegalArgument("Product out of stock"))
    else if d.inventory[productId].quantity.None? then Some(NullValue)
    else
      var stock := d.inventory[productId].quantity.value;
      var lines := CartLines(d, userId);
      var k := FindLine(lines, productId);
      if stock < quantity then Some(InsufficientStock(stock))
      else if k >= 0 && stock < lines[k].quantity + quantity then Some(InsufficientStock(stock))
      else None
  }

  /** The checks shared by `updateCartItem` and `removeCartItem`: the user's cart exists and holds the item. */
  function OwnershipRefusal(carts: map<int, Cart>, userId: int, itemId: int): Option<Error> {
    if userId !in carts then Some(NotFound("Cart not found"))
    else if !ItemStored(carts, itemId) then Some(NotFound("Cart item not found"))
    else if FindItem(carts[userId].items, itemId) < 0 then Some(IllegalArgument("Cart item does not belong to user's cart"))
    else None
  }

  /** The checks of `updateCartItem`, in source order. */
  function UpdateItemRefusal(d: Db, userId: int, itemId: int, quantity: int): Option<Error> {
    if OwnershipRefusal(d.carts, userId, itemId).Some? then OwnershipRefusal(d.carts, userId, itemId)
    else
      var item := d.carts[userId].items[FindItem(d.carts[userId].items, itemId)];
      if item.productId !in d.inventory then Some(IllegalArgument("Product out of stock"))
      else if d.inventory[item.productId].quantity.None? then Some(NullValue)
      else if d.inventory[item.productId].quantity.value < quantity then
        Some(InsufficientStock(d.inventory[item.productId].quantity.value))
      else None
  }

  /**
   * The database after a successful `addItemToCart`: a product already in the cart has its line's
   * quantity raised by the requested amount, keeping the line's unit price; otherwise one line is
   * appended at the product's current price, in a cart created for the user if needed (the cart's
   * id is generated before the line's).
   */
  function AfterAdd(d: Db, userId: int, productId: int, quantity: int): Db
    requires productId in d.products
  {
    var lines := CartLines(d, userId);
    var k := FindLine(lines, productId);
    if k >= 0 then
      d.(carts := d.carts[userId := d.carts[userId].(items := lines[k := lines[k].(quantity := lines[k].quantity + quantity)])])
    else
      var cartId := if userId in d.carts then d.carts[userId].id else d.nextId;
      var itemId := if userId in d.carts then d.nextId else d.nextId + 1;
      d.(carts := d.carts[userId := Cart(cartId, lines + [CartItem(itemId, productId, quantity, d.products[productId].price)])],
         nextId := itemId + 1)
  }

  /**
   * `addItemToCart`. It fails, changing nothing, when the user or the product is unknown, the
   * product is inactive, has no inventory record or a null stock, or the stock is below the
   * requested quantity or below the line's raised quantity. Otherwise the database becomes
   * `AfterAdd`, and the total grows by the line's unit price times the quantity.
   */
  method AddItemToCart(st: Store, userId: int, productId: int, quantity: int) returns (r: Result<CartResponse>)
    requires st.Valid()
    modifies st
    ensures st.Valid()
    ensures r.Err? <==> AddItemRefusal(old(st.Snapshot()), userId, productId, quantity).Some?
    ensures r.Err? ==> r.error == AddItemRefusal(old(st.Snapshot()), userId, productId, quantity).value
    ensures r.Err? ==> st.Snapshot() == old(st.Snapshot())
    ensures r.Ok? ==> userId in st.carts && r.value == ToResponse(userId, st.carts[userId])
    ensures r.Ok? ==> productId in old(st.products) && st.Snapshot() == AfterAdd(old(st.Snapshot()), userId, productId, quantity)
    ensures r.Ok? ==>
      var lines := CartLines(old(st.Snapshot()), userId);
      var k := FindLine(lines, productId);
      r.value.totalAmount == CartTotal(lines) + (if k >= 0 then lines[k].unitPrice else old(st.products)[productId].price) * quantity
  {
    if userId !in st.users {
      return Err(NotFound("User not found"));
    }
    if productId !in st.products {
      return Err(NotFound("Product not found"));
    }
    var product := st.products[productId];
    if !product.isActive {
      return Err(IllegalArgument("Product is not available"));
    }
    if productId !in st.inventory {
      return Err(IllegalArgument("Product out of stock"));
    }
    var inventory := st.inventory[productId];
    if inventory.quantity.None? {
      return Err(NullValue);
    }
    var stock := inventory.quantity.value;
    if stock < quantity {
      return Err(InsufficientStock(stock));
    }
    var lines := if userId in st.carts then st.carts[userId].items else [];
    var k := FindLine(lines, productId);
    if k >= 0 && stock < lines[k].quantity + quantity {
      return Err(InsufficientStock(stock));
    }
    ghost var d := st.Snapshot();
    var cart := StoreLine(st, userId, productId, quantity);
    AfterAddTotal(d, userId, productId, quantity);
    r := Ok(ToResponse(userId, cart));
  }

  /**
   * The part of `addItemToCart` after the checks on the user, the product and its stock: find or
   * create the cart, then raise the product's line or append a new line, and save the cart.
   */
  method StoreLine(st: Store, userId: int, productId: int, quantity: int) returns (cart: Cart)
    requires st.Valid() && productId in st.products
    modifies st
    ensures st.Valid()
    ensures st.Snapshot() == AfterAdd(old(st.Snapshot()), userId, productId, quantity)
    ensures userId in st.carts && cart == st.carts[userId]
  {
    ghost var d := st.Snapshot();
    var product := st.products[productId];
    cart := FindOrCreateCart(st, userId);
    var lines := cart.items;
    assert lines == CartLines(d, userId);
    var k := FindLine(lines, productId);
    if k >= 0 {
      assert userId in d.carts && cart == d.carts[userId];
      cart := RaiseLine(st, userId, cart, k, quantity);
      assert st.Snapshot() == d.(carts := d.carts[userId := cart]);
      assert st.Snapshot() == AfterAdd(d, userId, productId, quantity);
    } else {
      ghost var d1 := st.Snapshot();
      cart := AppendLine(st, userId, cart, productId, quantity, product.price);
      assert st.Snapshot() == d1.(carts := d1.carts[userId := cart], nextId := d1.nextId + 1);
      AfterAddAppends(d, d1, userId, productId, quantity, cart);
    }
  }

  /** The success state of adding a product the cart lacks: the cart, found or created, gets one more line. */
  lemma AfterAddAppends(d: Db, d1: Db, userId: int, productId: int, quantity: int, cart: Cart)
    requires productId in d.products && FindLine(CartLines(d, userId), productId) < 0
    requires userId in d.carts ==> d1 == d
    requires userId !in d.carts ==> d1 == d.(nextId := d.nextId + 1)
    requires cart.items == CartLines(d, userId) + [CartItem(d1.nextId, productId, quantity, d.products[productId].price)]
    requires cart.id == if userId in d.carts then d.carts[userId].id else d.nextId
    ensures d1.(carts := d1.carts[userId := cart], nextId := d1.nextId + 1) == AfterAdd(d, userId, productId, quantity)
  {
  }

  /**
   * After a successful add the user has a cart, and its total is the old total plus the line's
   * unit price (the existing line's, or the product's current price for a new line) times the
   * quantity added.
   */
  lemma AfterAddTotal(d: Db, userId: int, productId: int, quantity: int)
    requires productId in d.products
    ensures var after := AfterAdd(d, userId, productId, quantity);
      var lines := CartLines(d, userId);
      var k := FindLine(lines, productId);
      && userId in after.carts
      && CartTotal(after.carts[userId].items)
         == CartTotal(lines) + (if k >= 0 then lines[k].unitPrice else d.products[productId].price) * quantity
  {
    var lines := CartLines(d, userId);
    var k := FindLine(lines, productId);
    if k >= 0 {
      CartTotalSetQuantity(lines, k, lines[k].quantity + quantity);
    } else {
      var itemId := if userId in d.carts then d.nextId else d.nextId + 1;
      CartTotalAppend(lines, CartItem(itemId, productId, quantity, d.products[productId].price));
    }
  }

  /** The existing line for the product gets `quantity` more, and the cart is saved. */
  method RaiseLine(st: Store, userId: int, cart: Cart, k: int, quantity: int) returns (saved: Cart)
    requires st.Valid() && CartOk(cart, st.nextId) && 0 <= k < |cart.items|
    modifies st
    ensures st.Valid()
    ensures saved == cart.(items := cart.items[k := cart.items[k].(quantity := cart.items[k].quantity + quantity)])
    ensures st.Snapshot() == old(st.Snapshot()).(carts := old(st.carts)[userId := saved])
  {
    var lines := cart.items;
    var newQuantity := lines[k].quantity + quantity;
    SetQuantityKeepsCartOk(cart, k, newQuantity, st.nextId);
    saved := cart.(items := lines[k := lines[k].(quantity := newQuantity)]);
    st.SaveCart(userId, saved);
  }

  /** A new line for the product, under a generated id and at its current price, and the cart is saved. */
  method AppendLine(st: Store, userId: int, cart: Cart, productId: int, quantity: int, price: int) returns (saved: Cart)
    requires st.Valid() && CartOk(cart, st.nextId) && FindLine(cart.items, productId) == -1
    modifies st
    ensures st.Valid()
    ensures saved == cart.(items := cart.items + [CartItem(old(st.nextId), productId, quantity, price)])
    ensures st.Snapshot() == old(st.Snapshot()).(carts := old(st.carts)[userId := saved], nextId := old(st.nextId) + 1)
  {
    var itemId := st.NewId();
    var item := CartItem(itemId, productId, quantity, price);
    AppendKeepsCartOk(cart, item, st.nextId);
    saved := cart.(items := cart.items + [item]);
    st.SaveCart(userId, saved);
  }

  /**
   * `cartRepository.findByUserId(...).orElseGet(...)`: the user's cart, or a new empty cart whose
   * id is generated here.
   */
  method FindOrCreateCart(st: Store, userId: int) returns (cart: Cart)
    requires st.Valid()
    modifies st
    ensures st.Valid() && CartOk(cart, st.nextId)
    ensures userId in old(st.carts) ==> cart == old(st.carts)[userId] && st.Snapshot() == old(st.Snapshot())
    ensures userId !in old(st.carts) ==>
      cart == Cart(old(st.nextId), []) && st.Snapshot() == old(st.Snapshot()).(nextId := old(st.nextId) + 1)
  {
    if userId in st.carts {
      cart := st.carts[userId];
    } else {
      var id := st.NewId();
      cart := Cart(id, []);
    }
  }

  /** `getCart`: the user's cart, or a new empty one when the user exists but has no cart. */
  method GetCart(st: Store, userId: int) returns (r: Result<CartResponse>)
    requires st.Valid()
    modifies st
    ensures st.Valid()
    ensures var d := old(st.Snapshot());
      && (userId in d.carts ==> st.Snapshot() == d && r == Ok(ToResponse(userId, d.carts[userId])))
      && (userId !in d.carts && userId in d.users ==>
            st.Snapshot() == d.(carts := d.carts[userId := Cart(d.nextId, [])], nextId := d.nextId + 1)
            && r == Ok(CartResponse(d.nextId, userId, [], 0)))
      && (userId !in d.carts && userId !in d.users ==> st.Snapshot() == d && r == Err(NotFound("User not found")))
  {
    if userId in st.carts {
      return Ok(ToResponse(userId, st.carts[userId]));
    }
    if userId !in st.users {
      return Err(NotFound("User not found"));
    }
    var id := st.NewId();
    var cart := Cart(id, []);
    st.SaveCart(userId, cart);
    r := Ok(ToResponse(userId, cart));
  }

  /**
   * `updateCartItem`: sets exactly the named line's quantity, after checking that it is in the
   * user's cart and that stock covers the new quantity. Every other line stays as it was.
   */
  method UpdateCartItem(st: Store, userId: int, itemId: int, quantity: int) returns (r: Result<CartResponse>)
    requires st.Valid()
    modifies st
    ensures st.Valid()
    ensures r.Err? <==> UpdateItemRefusal(old(st.Snapshot()), userId, itemId, quantity).Some?
    ensures r.Err? ==> r.error == UpdateItemRefusal(old(st.Snapshot()), userId, itemId, quantity).value
    ensures r.Err? ==> st.Snapshot() == old(st.Snapshot())
    ensures r.Ok? ==> userId in old(st.carts) && FindItem(old(st.carts)[userId].items, itemId) >= 0
    ensures r.Ok? ==>
      var d := old(st.Snapshot());
      var lines := d.carts[userId].items;
      var k := FindItem(lines, itemId);
      && st.Snapshot() == d.(carts := d.carts[userId := d.carts[userId].(items := lines[k := lines[k].(quantity := quantity)])])
      && r.value == ToResponse(userId, st.carts[userId])
      && r.value.totalAmount == CartTotal(lines) + lines[k].unitPrice * (quantity - lines[k].quantity)
  {
    if userId !in st.carts {
      return Err(NotFound("Cart not found"));
    }
    var cart := st.carts[userId];
    if !ItemStored(st.carts, itemId) {
      return Err(NotFound("Cart item not found"));
    }
    var k := FindItem(cart.items, itemId);
    if k < 0 {
      return Err(IllegalArgument("Cart item does not belong to user's cart"));
    }
    var item := cart.items[k];
    if item.productId !in st.inventory {
      return Err(IllegalArgument("Product out of stock"));
    }
    var stock := st.inventory[item.productId].quantity;
    if stock.None? {
      return Err(NullValue);
    }
    if stock.value < quantity {
      return Err(InsufficientStock(stock.value));
    }
    CartTotalSetQuantity(cart.items, k, quantity);
    SetQuantityKeepsCartOk(cart, k, quantity, st.nextId);
    cart := cart.(items := cart.items[k := item.(quantity := quantity)]);
    st.SaveCart(userId, cart);
    r := Ok(ToResponse(userId, cart));
  }

  /** `removeCartItem`: deletes exactly the named line, after the ownership checks pass. */
  method RemoveCartItem(st: Store, userId: int, itemId: int) returns (r: Result<CartResponse>)
    requires st.Valid()
    modifies st
    ensures st.Valid()
    ensures r.Err? <==> OwnershipRefusal(old(st.carts), userId, itemId).Some?
    ensures r.Err? ==> r.error == OwnershipRefusal(old(st.carts), userId, itemId).value
    ensures r.Err? ==> st.Snapshot() == old(st.Snapshot())
    ensures r.Ok? ==> userId in old(st.carts) && FindItem(old(st.carts)[userId].items, itemId) >= 0
    ensures r.Ok? ==>
      var d := old(st.Snapshot());
      var lines := d.carts[userId].items;
      var k := FindItem(lines, itemId);
      && st.Snapshot() == d.(carts := d.carts[userId := d.carts[userId].(items := lines[..k] + lines[k + 1..])])
      && r.value == ToResponse(userId, st.carts[userId])
      && r.value.totalAmount == CartTotal(lines) - Subtotal(lines[k])
  {
    if userId !in st.carts {
      return Err(NotFound("Cart not found"));
    }
    var cart := st.carts[userId];
    if !ItemStored(st.carts, itemId) {
      return Err(NotFound("Cart item not found"));
    }
    var k := FindItem(cart.items, itemId);
    if k < 0 {
      return Err(IllegalArgument("Cart item does not belong to user's cart"));
    }
    var response := DeleteLine(st, userId, k);
    r := Ok(response);
  }

  /** `cartItemRepository.delete` of the cart's k-th line, and the cart as it then is. */
  method DeleteLine(st: Store, userId: int, k: int) returns (r: CartResponse)
    requires st.Valid() && userId in st.carts && 0 <= k < |st.carts[userId].items|
    modifies st
    ensures st.Valid()
    ensures var d := old(st.Snapshot());
      var lines := d.carts[userId].items;
      && st.Snapshot() == d.(carts := d.carts[userId := d.carts[userId].(items := lines[..k] + lines[k + 1..])])
      && r == ToResponse(userId, st.carts[userId])
      && r.totalAmount == CartTotal(lines) - Subtotal(lines[k])
  {
    var cart := st.carts[userId];
    CartTotalRemove(cart.items, k);
    RemoveKeepsCartOk(cart, k, st.nextId);
    cart := cart.(items := cart.items[..k] + cart.items[k + 1..]);
    st.SaveCart(userId, cart);
    r := ToResponse(userId, cart);
  }

  /** Removing a line keeps a cart consistent. */
  lemma RemoveKeepsCartOk(cart: Cart, k: nat, n: int)
    requires k < |cart.items| && CartOk(cart, n)
    ensures CartOk(cart.(items := cart.items[..k] + cart.items[k + 1..]), n)
  {
    var items := cart.items;
    var rest := items[..k] + items[k + 1..];
    forall j | 0 <= j < |rest|
      ensures rest[j] == items[if j < k then j else j + 1]
    {
    }
  }

  /** Changing a line's quantity keeps a cart consistent. */
  lemma SetQuantityKeepsCartOk(cart: Cart, k: nat, quantity: int, n: int)
    requires k < |cart.items| && CartOk(cart, n)
    ensures CartOk(cart.(items := cart.items[k := cart.items[k].(quantity := quantity)]), n)
  {
  }

  /** Appending a line for a product the cart lacks, under a fresh id, keeps a cart consistent. */
  lemma AppendKeepsCartOk(cart: Cart, item: CartItem, n: int)
    requires CartOk(cart, item.id) && item.id < n && cart.id < n
    requires FindLine(cart.items, item.productId) == -1
    ensures CartOk(cart.(items := cart.items + [item]), n)
  {
  }

  /** `clearCart`: the user's cart keeps its id and has no lines. */
  method ClearCart(st: Store, userId: int) returns (r: Result<()>)
    requires st.Valid()
    modifies st
    ensures st.Valid()
    ensures var d := old(st.Snapshot());
      && (userId !in d.carts ==> r == Err(NotFound("Cart not found")) && st.Snapshot() == d)
      && (userId in d.carts ==> r == Ok(()) && st.Snapshot() == d.(carts := d.carts[userId := d.carts[userId].(items := [])]))
  {
    if userId !in st.carts {
      return Err(NotFound("Cart not found"));
    }
    st.carts := st.carts[userId := st.carts[userId].(items := [])];
    r := Ok(());
  }
}

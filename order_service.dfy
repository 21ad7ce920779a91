/**
 * OrderService: turning the user's cart into an order (stock check and decrement per line, order
 * lines copied from cart lines, total, emptied cart), listing a user's orders newest first, and
 * fetching one order with an ownership check.
 *
 * `placeOrder` is transactional. Its loop saves each decremented inventory record before a later
 * line can fail; the rollback then undoes those saves. The model keeps the decrements in a local
 * copy of the inventory and writes it back only when every line has passed, which is the state
 * the database shows after commit or rollback.
 */
module OrderService {
  import opened Wrappers
  import opened Entities
  import CartService

  datatype OrderItemResponse = OrderItemResponse(productId: int, quantity: int, unitPrice: int, subtotal: int)

  datatype OrderResponse = OrderResponse(id: int, userId: int, items: seq<OrderItemResponse>, totalAmount: int, status: OrderStatus)

  /** The product name an error message quotes; the model has no name for a missing product row. */
  function ProductName(products: map<int, Product>, productId: int): string {
    if productId in products then products[productId].name else ""
  }

  /** Whether the inventory as it stands covers one cart line. */
  predicate Covers(inventory: map<int, Inventory>, line: CartItem) {
    line.productId in inventory && inventory[line.productId].quantity.Some?
    && inventory[line.productId].quantity.value >= line.quantity
  }

  /** The exception the loop body throws for a line, if any. */
  function LineRefusal(inventory: map<int, Inventory>, products: map<int, Product>, line: CartItem): (e: Option<Error>)
    ensures e.None? <==> Covers(inventory, line)
  {
    if line.productId !in inventory then
      Some(IllegalArgument("Product out of stock: " + ProductName(products, line.productId)))
    else if inventory[line.productId].quantity.None? then Some(NullValue)
    else if inventory[line.productId].quantity.value < line.quantity then
      Some(IllegalArgument("Insufficient stock for: " + ProductName(products, line.productId)))
    else None
  }

  /** One loop iteration on the inventory: check the line, then decrement its product's stock. */
  function ReserveLine(inventory: map<int, Inventory>, products: map<int, Product>, line: CartItem): Result<map<int, Inventory>> {
    match LineRefusal(inventory, products, line)
    case Some(e) => Err(e)
    case None =>
      var record := inventory[line.productId];
      Ok(inventory[line.productId := record.(quantity := Some(record.quantity.value - line.quantity))])
  }

  /** The loop over the cart lines, in order: the inventory it leaves, or the first exception. */
  function Reserve(inventory: map<int, Inventory>, products: map<int, Product>, lines: seq<CartItem>): Result<map<int, Inventory>>
    decreases |lines|
  {
    if |lines| == 0 then Ok(inventory)
    else match Reserve(inventory, products, lines[..|lines| - 1])
      case Err(e) => Err(e)
      case Ok(inv) => ReserveLine(inv, products, lines[|lines| - 1])
  }

  /** A product's stock once the lines are reserved: reduced by its line's quantity, if it has a line. */
  function StockAfter(inventory: map<int, Inventory>, lines: seq<CartItem>, productId: int): Option<int>
    requires productId in inventory
  {
    var k := CartService.FindLine(lines, productId);
    if k >= 0 && inventory[productId].quantity.Some? then Some(inventory[productId].quantity.value - lines[k].quantity)
    else inventory[productId].quantity
  }

  /** Appending a line moves no earlier line's position; it is found only when no earlier line matches. */
  lemma {:induction false} FindLineAppend(lines: seq<CartItem>, line: CartItem, productId: int)
    ensures CartService.FindLine(lines + [line], productId) ==
      if CartService.FindLine(lines, productId) >= 0 then CartService.FindLine(lines, productId)
      else if line.productId == productId then |lines| else -1
    decreases |lines|
  {
    if |lines| > 0 {
      assert (lines + [line])[1..] == lines[1..] + [line];
      FindLineAppend(lines[1..], line, productId);
    }
  }

  /** A prefix of distinct lines is distinct. */
  lemma DistinctPrefix(lines: seq<CartItem>, i: nat)
    requires i <= |lines| && LinesDistinct(lines)
    ensures LinesDistinct(lines[..i])
  {
  }

  /** The inventory the loop should leave: every record with its stock after the lines. */
  function Expected(inventory: map<int, Inventory>, lines: seq<CartItem>): map<int, Inventory> {
    map p | p in inventory :: inventory[p].(quantity := StockAfter(inventory, lines, p))
  }

  /** Adding a line for a product with no earlier line changes only that product's stock after. */
  lemma StockAfterStep(inventory: map<int, Inventory>, pre: seq<CartItem>, last: CartItem, p: int)
    requires p in inventory && CartService.FindLine(pre, last.productId) == -1
    ensures StockAfter(inventory, pre + [last], p) ==
      if p == last.productId && inventory[p].quantity.Some? then Some(inventory[p].quantity.value - last.quantity)
      else StockAfter(inventory, pre, p)
  {
    FindLineAppend(pre, last, p);
    var k := CartService.FindLine(pre, p);
    if k >= 0 {
      assert (pre + [last])[k] == pre[k];
    }
  }

  /** The expected inventory has exactly the original records. */
  lemma ExpectedKeys(inventory: map<int, Inventory>, lines: seq<CartItem>)
    ensures Expected(inventory, lines).Keys == inventory.Keys
  {
  }

  /** Two maps with the same keys and the same value at each key are equal. */
  lemma SameEntries(a: map<int, Inventory>, b: map<int, Inventory>, keys: set<int>)
    requires a.Keys == keys && b.Keys == keys
    requires forall p :: p in keys ==> a[p] == b[p]
    ensures a == b
  {
    forall p | p in a ensures p in b && a[p] == b[p] {
      assert p in keys;
    }
    assert a.Keys == b.Keys;
  }

  /** With distinct lines, the last line's product has no earlier line. */
  lemma LastIsNew(lines: seq<CartItem>)
    requires |lines| > 0 && LinesDistinct(lines)
    ensures CartService.FindLine(lines[..|lines| - 1], lines[|lines| - 1].productId) == -1
  {
    var n := |lines| - 1;
    forall j | 0 <= j < n ensures lines[..n][j].productId != lines[n].productId {
      assert lines[..n][j] == lines[j];
    }
  }

  /**
   * When the stock covers every line, the loop succeeds and leaves every record with its stock
   * after the lines, and no record added or removed.
   */
  lemma {:induction false} ReserveCovered(inventory: map<int, Inventory>, products: map<int, Product>, lines: seq<CartItem>)
    requires LinesDistinct(lines)
    requires forall k :: 0 <= k < |lines| ==> Covers(inventory, lines[k])
    ensures Reserve(inventory, products, lines).Ok?
    ensures Reserve(inventory, products, lines).value.Keys == inventory.Keys
    ensures forall p :: p in inventory ==>
      Reserve(inventory, products, lines).value[p] == inventory[p].(quantity := StockAfter(inventory, lines, p))
    decreases |lines|
  {
    var n := |lines| - 1;
    if |lines| == 0 {
      forall p | p in inventory ensures StockAfter(inventory, lines, p) == inventory[p].quantity {
      }
    } else {
      var pre, last := lines[..n], lines[n];
      DistinctPrefix(lines, n);
      assert forall k :: 0 <= k < |pre| ==> pre[k] == lines[k];
      ReserveCovered(inventory, products, pre);
      LastIsNew(lines);
      var before := Reserve(inventory, products, pre).value;
      var after := CoveredStep(inventory, lines, before);
      assert ReserveLine(before, products, last) == Ok(after);
      assert Reserve(inventory, products, lines) == ReserveLine(before, products, last);
    }
  }

  /**
   * One more covered line, for a product with no earlier line, keeps the pointwise description:
   * `after` is `before` with that product's stock decremented.
   */
  lemma CoveredStep(inventory: map<int, Inventory>, lines: seq<CartItem>, before: map<int, Inventory>)
    returns (after: map<int, Inventory>)
    requires |lines| > 0
    requires CartService.FindLine(lines[..|lines| - 1], lines[|lines| - 1].productId) == -1
    requires Covers(inventory, lines[|lines| - 1])
    requires before.Keys == inventory.Keys
    requires forall p :: p in inventory ==> before[p] == inventory[p].(quantity := StockAfter(inventory, lines[..|lines| - 1], p))
    ensures Covers(before, lines[|lines| - 1])
    ensures var last := lines[|lines| - 1]; var record := before[last.productId];
      after == before[last.productId := record.(quantity := Some(record.quantity.value - last.quantity))]
    ensures after.Keys == inventory.Keys
    ensures forall p :: p in inventory ==> after[p] == inventory[p].(quantity := StockAfter(inventory, lines, p))
  {
    var pre, last := lines[..|lines| - 1], lines[|lines| - 1];
    assert before[last.productId] == inventory[last.productId];
    var record := before[last.productId];
    after := before[last.productId := record.(quantity := Some(record.quantity.value - last.quantity))];
    assert lines == pre + [last];
    forall p | p in inventory ensures after[p] == inventory[p].(quantity := StockAfter(inventory, lines, p)) {
      StockAfterStep(inventory, pre, last, p);
    }
  }

  /** The same, as one map: the loop leaves the expected inventory. */
  lemma ReserveIsExpected(inventory: map<int, Inventory>, products: map<int, Product>, lines: seq<CartItem>)
    requires LinesDistinct(lines)
    requires forall k :: 0 <= k < |lines| ==> Covers(inventory, lines[k])
    ensures Reserve(inventory, products, lines) == Ok(Expected(inventory, lines))
  {
    ReserveCovered(inventory, products, lines);
    ExpectedKeys(inventory, lines);
    SameEntries(Reserve(inventory, products, lines).value, Expected(inventory, lines), inventory.Keys);
  }

  /** When some line is not covered by the original stock, the loop throws. */
  lemma {:induction false} ReserveUncovered(inventory: map<int, Inventory>, products: map<int, Product>, lines: seq<CartItem>, k: nat)
    requires LinesDistinct(lines)
    requires k < |lines| && !Covers(inventory, lines[k])
    ensures Reserve(inventory, products, lines).Err?
    decreases |lines|
  {
    var n := |lines| - 1;
    var pre, last := lines[..n], lines[n];
    DistinctPrefix(lines, n);
    if k < n {
      assert pre[k] == lines[k];
      ReserveUncovered(inventory, products, pre, k);
    } else if exists j :: 0 <= j < n && !Covers(inventory, pre[j]) {
      var j :| 0 <= j < n && !Covers(inventory, pre[j]);
      ReserveUncovered(inventory, products, pre, j);
    } else {
      ReserveCovered(inventory, products, pre);
      LastIsNew(lines);
      var before := Reserve(inventory, products, pre).value;
      assert last.productId in inventory ==> before[last.productId] == inventory[last.productId];
    }
  }

  /**
   * With one line per product, the loop succeeds exactly when the original stock covers every
   * line, and then each product's stock is reduced by exactly its line's quantity; products without
   * a line keep theirs, and no record is added or removed.
   */
  lemma ReserveSpec(inventory: map<int, Inventory>, products: map<int, Product>, lines: seq<CartItem>)
    requires LinesDistinct(lines)
    ensures Reserve(inventory, products, lines).Ok? <==> forall k :: 0 <= k < |lines| ==> Covers(inventory, lines[k])
    ensures Reserve(inventory, products, lines).Ok? ==>
      var after := Reserve(inventory, products, lines).value;
      && after.Keys == inventory.Keys
      && forall p :: p in inventory ==> after[p] == inventory[p].(quantity := StockAfter(inventory, lines, p))
  {
    if forall k :: 0 <= k < |lines| ==> Covers(inventory, lines[k]) {
      ReserveCovered(inventory, products, lines);
    } else {
      var k :| 0 <= k < |lines| && !Covers(inventory, lines[k]);
      ReserveUncovered(inventory, products, lines, k);
    }
  }

  /** The checks of `placeOrder`, in source order, with the loop's first failure last. */
  function PlaceOrderRefusal(d: Db, userId: int): Option<Error> {
    if userId !in d.users then Some(NotFound("User not found"))
    else if userId !in d.carts then Some(IllegalArgument("Cart is empty"))
    else if |d.carts[userId].items| == 0 then Some(IllegalArgument("Cannot place order with empty cart"))
    else match Reserve(d.inventory, d.products, d.carts[userId].items)
      case Err(e) => Some(e)
      case Ok(_) => None
  }

  /** The order lines copied from the cart lines: same product, quantity and unit price, in order. */
  function OrderLines(lines: seq<CartItem>): seq<OrderItem> {
    seq(|lines|, k requires 0 <= k < |lines| => OrderItem(lines[k].productId, lines[k].quantity, lines[k].unitPrice))
  }

  /** Reserving keeps stock non-negative: a product's stock is reduced only by a quantity it covered. */
  lemma ExpectedKeepsInventoryOk(inventory: map<int, Inventory>, lines: seq<CartItem>, n: int)
    requires InventoryOk(inventory, n)
    requires forall k :: 0 <= k < |lines| ==> Covers(inventory, lines[k])
    ensures InventoryOk(Expected(inventory, lines), n)
  {
    forall p | p in inventory
      ensures StockAfter(inventory, lines, p).Some? ==> StockAfter(inventory, lines, p).value >= 0
    {
      var k := CartService.FindLine(lines, p);
      if k >= 0 {
        assert Covers(inventory, lines[k]);
      }
    }
  }

  /** Once a prefix of the lines has thrown, the whole loop throws the same exception. */
  lemma {:induction false} ReservePrefixErr(inventory: map<int, Inventory>, products: map<int, Product>, lines: seq<CartItem>, i: nat)
    requires i <= |lines| && Reserve(inventory, products, lines[..i]).Err?
    ensures Reserve(inventory, products, lines) == Reserve(inventory, products, lines[..i])
    decreases |lines| - i
  {
    if i < |lines| {
      var n := |lines| - 1;
      assert lines[..n][..i] == lines[..i];
      ReservePrefixErr(inventory, products, lines[..n], i);
    } else {
      assert lines[..i] == lines;
    }
  }

  /** `toResponse`: the stored total and status, and one response line per order line with its subtotal. */
  function ToResponse(id: int, order: Order): (r: OrderResponse)
    ensures r.id == id && r.userId == order.userId && r.totalAmount == order.totalAmount && r.status == order.status
    ensures |r.items| == |order.items|
    ensures forall k :: 0 <= k < |order.items| ==>
      var item := order.items[k];
      r.items[k] == OrderItemResponse(item.productId, item.quantity, item.unitPrice, item.unitPrice * item.quantity)
  {
    var lines := seq(|order.items|, k requires 0 <= k < |order.items| =>
      OrderItemResponse(order.items[k].productId, order.items[k].quantity, order.items[k].unitPrice,
        order.items[k].unitPrice * order.items[k].quantity));
    OrderResponse(id, order.userId, lines, order.totalAmount, order.status)
  }

  /** The sum of the subtotals a response lists. */
  function SumSubtotals(lines: seq<OrderItemResponse>): int
    decreases |lines|
  {
    if |lines| == 0 then 0 else lines[0].subtotal + SumSubtotals(lines[1..])
  }

  /** A placed order's total equals the sum of the subtotals its response lists. */
  lemma {:induction false} PlacedTotalMatchesLines(id: int, userId: int, lines: seq<CartItem>, now: int)
    ensures var r := ToResponse(id, Order(userId, OrderStatus.Pending, CartService.CartTotal(lines), OrderLines(lines), now));
      SumSubtotals(r.items) == r.totalAmount
    decreases |lines|
  {
    if |lines| > 0 {
      PlacedTotalMatchesLines(id, userId, lines[1..], now);
      var r := ToResponse(id, Order(userId, OrderStatus.Pending, CartService.CartTotal(lines), OrderLines(lines), now));
      var r' := ToResponse(id, Order(userId, OrderStatus.Pending, CartService.CartTotal(lines[1..]), OrderLines(lines[1..]), now));
      assert r.items[1..] == r'.items;
    }
  }

  /**
   * The loop of `placeOrder` over the cart lines, on a copy of the stock: it checks each line,
   * decrements its product's stock and collects the order line and the running total. It stops
   * at the first line that is not covered.
   */
  method ReserveLines(inventory: map<int, Inventory>, products: map<int, Product>, lines: seq<CartItem>)
    returns (r: Result<map<int, Inventory>>, items: seq<OrderItem>, total: int)
    ensures r == Reserve(inventory, products, lines)
    ensures r.Ok? ==> items == OrderLines(lines) && total == CartService.CartTotal(lines)
  {
    var stock := inventory;
    items, total := [], 0;
    var i := 0;
    while i < |lines|
      invariant 0 <= i <= |lines|
      invariant Reserve(inventory, products, lines[..i]) == Ok(stock)
      invariant items == OrderLines(lines[..i])
      invariant total == CartService.CartTotal(lines[..i])
    {
      var line := lines[i];
      assert lines[..i + 1][..i] == lines[..i];
      var next := ReserveOne(stock, products, line);
      if next.Err? {
        ReservePrefixErr(inventory, products, lines, i + 1);
        return Err(next.error), items, total;
      }
      stock := next.value;
      items := items + [OrderItem(line.productId, line.quantity, line.unitPrice)];
      total := total + line.unitPrice * line.quantity;
      assert lines[..i + 1] == lines[..i] + [line];
      CartService.CartTotalAppend(lines[..i], line);
      i := i + 1;
    }
    assert lines[..i] == lines;
    r := Ok(stock);
  }

  /** The loop body of `placeOrder` on the stock: the three checks, then the decrement. */
  method ReserveOne(stock: map<int, Inventory>, products: map<int, Product>, line: CartItem) returns (r: Result<map<int, Inventory>>)
    ensures r == ReserveLine(stock, products, line)
  {
    if line.productId !in stock {
      return Err(IllegalArgument("Product out of stock: " + ProductName(products, line.productId)));
    }
    var record := stock[line.productId];
    if record.quantity.None? {
      return Err(NullValue);
    }
    if record.quantity.value < line.quantity {
      return Err(IllegalArgument("Insufficient stock for: " + ProductName(products, line.productId)));
    }
    r := Ok(stock[line.productId := record.(quantity := Some(record.quantity.value - line.quantity))]);
  }

  /**
   * `placeOrder`. It fails, leaving every repository as it was, when the user is unknown, has no
   * cart, has an empty cart, or some line's product lacks an inventory record or enough stock. On
   * success the new order is PENDING, has one line per cart line with the same product, quantity
   * and unit price, and the cart total as its total; each product's stock drops by its line's
   * quantity; and the cart is emptied.
   */
  method PlaceOrder(st: Store, userId: int, now: int) returns (r: Result<OrderResponse>)
    requires st.Valid()
    modifies st
    ensures st.Valid()
    ensures r.Err? <==> PlaceOrderRefusal(old(st.Snapshot()), userId).Some?
    ensures r.Err? ==> r.error == PlaceOrderRefusal(old(st.Snapshot()), userId).value
    ensures r.Err? ==> st.Snapshot() == old(st.Snapshot())
    ensures r.Ok? ==> userId in old(st.carts) && |old(st.carts)[userId].items| > 0
    ensures r.Ok? ==>
      var d := old(st.Snapshot());
      var lines := d.carts[userId].items;
      var order := Order(userId, OrderStatus.Pending, CartService.CartTotal(lines), OrderLines(lines), now);
      && st.Snapshot() == d.(inventory := Expected(d.inventory, lines),
                             carts := d.carts[userId := d.carts[userId].(items := [])],
                             orders := d.orders[d.nextId := order],
                             nextId := d.nextId + 1)
      && r.value == ToResponse(d.nextId, order)
  {
    if userId !in st.users {
      return Err(NotFound("User not found"));
    }
    if userId !in st.carts {
      return Err(IllegalArgument("Cart is empty"));
    }
    var cart := st.carts[userId];
    var lines := cart.items;
    if |lines| == 0 {
      return Err(IllegalArgument("Cannot place order with empty cart"));
    }
    var reserved, items, total := ReserveLines(st.inventory, st.products, lines);
    if reserved.Err? {
      return Err(reserved.error);
    }
    ReserveSpec(st.inventory, st.products, lines);
    ReserveIsExpected(st.inventory, st.products, lines);
    ExpectedKeepsInventoryOk(st.inventory, lines, st.nextId);
    var id, order := CommitOrder(st, userId, reserved.value, items, total, now);
    r := Ok(ToResponse(id, order));
  }

  /** The end of a successful `placeOrder`: save the order, write back the reserved stock, and
      empty the cart. */
  method CommitOrder(st: Store, userId: int, stock: map<int, Inventory>, items: seq<OrderItem>, total: int, now: int)
    returns (id: int, order: Order)
    requires st.Valid() && userId in st.carts && InventoryOk(stock, st.nextId)
    modifies st
    ensures st.Valid()
    ensures id == old(st.nextId) && order == Order(userId, OrderStatus.Pending, total, items, now)
    ensures var d := old(st.Snapshot());
      st.Snapshot() == d.(inventory := stock,
                          carts := d.carts[userId := d.carts[userId].(items := [])],
                          orders := d.orders[id := order],
                          nextId := id + 1)
  {
    var cart := st.carts[userId];
    id := st.NewId();
    order := Order(userId, OrderStatus.Pending, total, items, now);
    st.orders := st.orders[id := order];
    st.inventory := stock;
    st.SaveCart(userId, cart.(items := []));
  }

  /** `getOrderById`: the order, when it exists and belongs to the user. */
  function GetOrderById(orders: map<int, Order>, orderId: int, userId: int): (r: Result<OrderResponse>)
    ensures r.Ok? <==> orderId in orders && orders[orderId].userId == userId
    ensures r.Ok? ==> r.value == ToResponse(orderId, orders[orderId])
    ensures orderId !in orders ==> r == Err(NotFound("Order not found"))
    ensures orderId in orders && orders[orderId].userId != userId ==> r == Err(IllegalArgument("Order does not belong to user"))
  {
    if orderId !in orders then Err(NotFound("Order not found"))
    else if orders[orderId].userId != userId then Err(IllegalArgument("Order does not belong to user"))
    else Ok(ToResponse(orderId, orders[orderId]))
  }

  /** Ids of stored orders, newest first. */
  predicate NewestFirst(orders: map<int, Order>, ids: seq<int>) {
    && (forall k :: 0 <= k < |ids| ==> ids[k] in orders)
    && forall i, j :: 0 <= i < j < |ids| ==> orders[ids[i]].createdAt >= orders[ids[j]].createdAt
  }

  /** Inserts an order id into a newest-first list, after every order at least as new. */
  function InsertByDate(orders: map<int, Order>, ids: seq<int>, id: int): (r: seq<int>)
    requires id in orders && NewestFirst(orders, ids)
    ensures multiset(r) == multiset(ids) + multiset{id}
    ensures NewestFirst(orders, r)
    ensures |r| > 0 && (r[0] == id || (|ids| > 0 && r[0] == ids[0]))
    decreases |ids|
  {
    if |ids| == 0 then [id]
    else if orders[ids[0]].createdAt < orders[id].createdAt then
      NewestFirstCons(orders, id, ids);
      [id] + ids
    else
      var rest := InsertByDate(orders, ids[1..], id);
      assert multiset(ids) == multiset{ids[0]} + multiset(ids[1..]) by {
        assert ids == [ids[0]] + ids[1..];
      }
      NewestFirstCons(orders, ids[0], rest);
      [ids[0]] + rest
  }

  /** An order at least as new as the head of a newest-first list can go in front of it. */
  lemma NewestFirstCons(orders: map<int, Order>, x: int, rest: seq<int>)
    requires x in orders && NewestFirst(orders, rest)
    requires |rest| > 0 ==> orders[x].createdAt >= orders[rest[0]].createdAt
    ensures NewestFirst(orders, [x] + rest)
  {
    var s := [x] + rest;
    forall k | 0 <= k < |s| ensures s[k] in orders {
      if k > 0 {
        assert s[k] == rest[k - 1];
      }
    }
    forall i, j | 0 <= i < j < |s| ensures orders[s[i]].createdAt >= orders[s[j]].createdAt {
      assert s[j] == rest[j - 1];
      if i > 0 {
        assert s[i] == rest[i - 1];
      } else if j > 1 {
        assert orders[rest[0]].createdAt >= orders[rest[j - 1]].createdAt;
      }
    }
  }

  /** The orders of a user, as a set of ids. */
  function UserOrderIds(orders: map<int, Order>, userId: int): set<int> {
    set id | id in orders && orders[id].userId == userId
  }

  /** `findByUserIdOrderByCreatedAtDesc`: each of the user's orders exactly once, newest first. */
  method FindByUserIdOrderByCreatedAtDesc(orders: map<int, Order>, nextId: int, userId: int) returns (ids: seq<int>)
    requires KeysBelow(orders, nextId)
    ensures multiset(ids) == multiset(UserOrderIds(orders, userId))
    ensures NewestFirst(orders, ids)
  {
    ids := [];
    var id := 1;
    while id < nextId
      invariant NewestFirst(orders, ids)
      invariant multiset(ids) == multiset(set x | x in UserOrderIds(orders, userId) && x < id)
    {
      var before := set x | x in UserOrderIds(orders, userId) && x < id;
      if id in orders && orders[id].userId == userId {
        assert (set x | x in UserOrderIds(orders, userId) && x < id + 1) == before + {id};
        ids := InsertByDate(orders, ids, id);
      } else {
        assert (set x | x in UserOrderIds(orders, userId) && x < id + 1) == before;
      }
      id := id + 1;
    }
    if nextId >= 1 {
      assert (set x | x in UserOrderIds(orders, userId) && x < id) == UserOrderIds(orders, userId);
    } else {
      assert UserOrderIds(orders, userId) == {};
    }
  }

  /** `getUserOrders`: the responses of the user's orders, newest first; `ids` names them. */
  method GetUserOrders(st: Store, userId: int) returns (r: seq<OrderResponse>, ghost ids: seq<int>)
    requires st.Valid()
    ensures multiset(ids) == multiset(UserOrderIds(st.orders, userId)) && NewestFirst(st.orders, ids)
    ensures |r| == |ids| && forall k :: 0 <= k < |ids| ==> r[k] == ToResponse(ids[k], st.orders[ids[k]])
  {
    var orders := st.orders;
    var found := FindByUserIdOrderByCreatedAtDesc(orders, st.nextId, userId);
    r := seq(|found|, k requires 0 <= k < |found| => ToResponse(found[k], orders[found[k]]));
    ids := found;
  }
}

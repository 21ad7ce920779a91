/**
 * The cart page: it loads the cart, and edits it optimistically. A quantity change or a removal is
 * applied to the displayed lines and total at once; then the server is asked to make the change,
 * and the cart is reloaded from the server whether or not it succeeded.
 */
module CartPage {
  import opened Wrappers
  import opened Browser
  import opened ApiClient
  import opened CartContext

  /** The requests the page makes, in order. */
  datatype Request = GetCart | UpdateItem(itemId: int, quantity: int) | RemoveItem(itemId: int)

  datatype Toast = Success(text: string) | Failure(text: string)

  const UpdateFailedText := "Failed to update quantity"
  const RemovedText := "Item removed"
  const RemoveFailedText := "Failed to remove item"

  /** `items.map(item => item.id === itemId ? { ...item, quantity } : item)`. */
  function WithQuantity(items: seq<CartLine>, itemId: int, quantity: int): (r: seq<CartLine>)
    ensures |r| == |items|
    decreases |items|
  {
    if |items| == 0 then []
    else
      var last := items[|items| - 1];
      WithQuantity(items[..|items| - 1], itemId, quantity) + [if last.id == itemId then last.(quantity := quantity) else last]
  }

  /** The map changes the quantity of the lines with that id and nothing else, in place. */
  lemma {:induction false} WithQuantityAt(items: seq<CartLine>, itemId: int, quantity: int)
    ensures forall i :: 0 <= i < |items| ==>
      WithQuantity(items, itemId, quantity)[i] == if items[i].id == itemId then items[i].(quantity := quantity) else items[i]
    decreases |items|
  {
    if |items| > 0 {
      WithQuantityAt(items[..|items| - 1], itemId, quantity);
    }
  }

  /** `items.filter(item => item.id !== itemId)`. */
  function Without(items: seq<CartLine>, itemId: int): (r: seq<CartLine>)
    ensures |r| <= |items|
    decreases |items|
  {
    if |items| == 0 then []
    else
      var last := items[|items| - 1];
      Without(items[..|items| - 1], itemId) + (if last.id != itemId then [last] else [])
  }

  /** The filter keeps exactly the lines whose id differs. */
  lemma {:induction false} WithoutKeeps(items: seq<CartLine>, itemId: int)
    ensures forall x :: x in Without(items, itemId) <==> x in items && x.id != itemId
    decreases |items|
  {
    if |items| > 0 {
      var init := items[..|items| - 1];
      WithoutKeeps(init, itemId);
      assert items == init + [items[|items| - 1]];
    }
  }

  /** `items.reduce((acc, item) => acc + item.productPrice * item.quantity, 0)`. */
  function Total(items: seq<CartLine>): int
    decreases |items|
  {
    if |items| == 0 then 0
    else Total(items[..|items| - 1]) + items[|items| - 1].productPrice * items[|items| - 1].quantity
  }

  /** A JavaScript number as the reduce produces it: a value, or NaN. */
  datatype JsNumber = Num(value: int) | NaN

  /** `a + b` on JavaScript numbers: NaN absorbs. */
  function AddJs(a: JsNumber, b: JsNumber): (r: JsNumber)
    ensures r.Num? <==> a.Num? && b.Num?
    ensures r.Num? ==> r.value == a.value + b.value
  {
    if a.Num? && b.Num? then Num(a.value + b.value) else NaN
  }

  /** A line as `CartItemResponse` sends it: a `unitPrice`, and no `productPrice`. */
  datatype ServerLine = ServerLine(id: int, productId: int, productName: string, quantity: int, unitPrice: int)

  /** The page's reduce over the lines the backend sends: `item.productPrice` is undefined there,
      and `undefined * item.quantity` is NaN. */
  function TotalAsWritten(items: seq<ServerLine>): JsNumber
    decreases |items|
  {
    if |items| == 0 then Num(0) else AddJs(TotalAsWritten(items[..|items| - 1]), NaN)
  }

  /** Against this backend the optimistic total of a non-empty cart is NaN. */
  lemma ServerLinesGiveNaN(items: seq<ServerLine>)
    requires |items| > 0
    ensures TotalAsWritten(items) == NaN
  {
  }

  /** The line the page means to hold: its price is the server's `unitPrice`. */
  function FromServer(l: ServerLine): (c: CartLine)
    ensures c.id == l.id && c.productId == l.productId && c.productName == l.productName
    ensures c.productPrice == l.unitPrice && c.quantity == l.quantity
  {
    CartLine(l.id, l.productId, l.productName, l.unitPrice, l.quantity)
  }

  function FromServerAll(items: seq<ServerLine>): (r: seq<CartLine>)
    ensures |r| == |items| && forall i :: 0 <= i < |items| ==> r[i] == FromServer(items[i])
  {
    seq(|items|, i requires 0 <= i < |items| => FromServer(items[i]))
  }

  /** The backend's `totalAmount`: the sum of unit price times quantity over the lines. */
  function ServerTotal(items: seq<ServerLine>): int
    decreases |items|
  {
    if |items| == 0 then 0 else ServerTotal(items[1..]) + items[0].unitPrice * items[0].quantity
  }

  /** Reading the price from `unitPrice`, the optimistic total is the backend's total. */
  lemma {:induction false} CorrectedTotalMatchesServer(items: seq<ServerLine>)
    ensures Total(FromServerAll(items)) == ServerTotal(items)
    decreases |items|
  {
    if |items| > 0 {
      var n := |items| - 1;
      assert FromServerAll(items)[..n] == FromServerAll(items[..n]);
      CorrectedTotalMatchesServer(items[..n]);
      ServerTotalLast(items);
    }
  }

  /** The backend's total also splits off its last line. */
  lemma {:induction false} ServerTotalLast(items: seq<ServerLine>)
    requires |items| > 0
    ensures ServerTotal(items) == ServerTotal(items[..|items| - 1]) + items[|items| - 1].unitPrice * items[|items| - 1].quantity
    decreases |items|
  {
    if |items| > 1 {
      assert items[1..][..|items[1..]| - 1] == items[..|items| - 1][1..];
      ServerTotalLast(items[1..]);
    }
  }

  /** One line of unit price 1000 and quantity 2: the page shows NaN where the backend has 2000. */
  lemma UnitPriceExample()
    ensures var l := ServerLine(1, 7, "Lamp", 2, 1000);
      TotalAsWritten([l]) == NaN && Total(FromServerAll([l])) == 2000 && ServerTotal([l]) == 2000
  {
    var l := ServerLine(1, 7, "Lamp", 2, 1000);
    CorrectedTotalMatchesServer([l]);
  }

  predicate IdsDistinct(items: seq<CartLine>) {
    forall a, b :: 0 <= a < b < |items| ==> items[a].id != items[b].id
  }

  predicate NoLine(items: seq<CartLine>, itemId: int) {
    forall i :: 0 <= i < |items| ==> items[i].id != itemId
  }

  lemma {:induction false} TotalAppend(a: seq<CartLine>, b: seq<CartLine>)
    ensures Total(a + b) == Total(a) + Total(b)
    decreases |b|
  {
    if |b| > 0 {
      assert (a + b)[..|a + b| - 1] == a + b[..|b| - 1];
      TotalAppend(a, b[..|b| - 1]);
    } else {
      assert a + b == a;
    }
  }

  /** Filtering distributes over concatenation, so it keeps the relative order of what it keeps. */
  lemma {:induction false} WithoutAppend(a: seq<CartLine>, b: seq<CartLine>, itemId: int)
    ensures Without(a + b, itemId) == Without(a, itemId) + Without(b, itemId)
    decreases |b|
  {
    if |b| > 0 {
      assert (a + b)[..|a + b| - 1] == a + b[..|b| - 1];
      WithoutAppend(a, b[..|b| - 1], itemId);
    } else {
      assert a + b == a;
    }
  }

  /** Removing an id no line carries leaves the lines as they are. */
  lemma {:induction false} WithoutAbsent(items: seq<CartLine>, itemId: int)
    requires NoLine(items, itemId)
    ensures Without(items, itemId) == items
    decreases |items|
  {
    if |items| > 0 {
      WithoutAbsent(items[..|items| - 1], itemId);
    }
  }

  /** The total of a run of lines split around one line. */
  lemma TotalSplit(a: seq<CartLine>, x: CartLine, b: seq<CartLine>)
    ensures Total(a + [x] + b) == Total(a) + x.productPrice * x.quantity + Total(b)
  {
    TotalAppend(a + [x], b);
    TotalAppend(a, [x]);
    assert [x][..0] == [];
  }

  /** Removing the id of a line that no other line shares leaves the lines around it. */
  lemma WithoutSplit(a: seq<CartLine>, x: CartLine, b: seq<CartLine>)
    requires NoLine(a, x.id) && NoLine(b, x.id)
    ensures Without(a + [x] + b, x.id) == a + b
  {
    WithoutAppend(a + [x], b, x.id);
    WithoutAppend(a, [x], x.id);
    WithoutAbsent(a, x.id);
    WithoutAbsent(b, x.id);
    assert [x][..0] == [];
  }

  /** Replacing one line changes the total by the difference of the two lines' amounts. */
  lemma TotalReplace(items: seq<CartLine>, i: int, x: CartLine)
    requires 0 <= i < |items|
    ensures Total(items[i := x]) == Total(items) - items[i].productPrice * items[i].quantity + x.productPrice * x.quantity
  {
    var after := items[i := x];
    assert items == items[..i] + [items[i]] + items[i + 1..];
    assert after[..i] == items[..i] && after[i + 1..] == items[i + 1..];
    assert after == after[..i] + [x] + after[i + 1..];
    TotalSplit(items[..i], items[i], items[i + 1..]);
    TotalSplit(items[..i], x, items[i + 1..]);
  }

  /** With distinct ids, the map changes exactly the one line with that id. */
  lemma WithQuantityOne(items: seq<CartLine>, i: int, quantity: int)
    requires 0 <= i < |items| && IdsDistinct(items)
    ensures WithQuantity(items, items[i].id, quantity) == items[i := items[i].(quantity := quantity)]
  {
    var edited := WithQuantity(items, items[i].id, quantity);
    WithQuantityAt(items, items[i].id, quantity);
    forall k | 0 <= k < |items|
      ensures edited[k] == items[i := items[i].(quantity := quantity)][k]
    {
      if k != i {
        assert items[k].id != items[i].id;
      }
    }
  }

  /** Changing the quantity of the one line with that id changes the total by its price times the
      difference; the line's position and every other line stay put. */
  lemma TotalAfterQuantity(items: seq<CartLine>, i: int, quantity: int)
    requires 0 <= i < |items| && IdsDistinct(items)
    ensures WithQuantity(items, items[i].id, quantity) == items[i := items[i].(quantity := quantity)]
    ensures Total(WithQuantity(items, items[i].id, quantity))
      == Total(items) + items[i].productPrice * (quantity - items[i].quantity)
  {
    WithQuantityOne(items, i, quantity);
    TotalReplace(items, i, items[i].(quantity := quantity));
  }

  /** Removing the one line with that id leaves exactly the lines before and after it, and lowers
      the total by that line's price times its quantity. */
  lemma TotalWithout(items: seq<CartLine>, i: int)
    requires 0 <= i < |items| && IdsDistinct(items)
    ensures Without(items, items[i].id) == items[..i] + items[i + 1..]
    ensures Total(Without(items, items[i].id)) == Total(items) - items[i].productPrice * items[i].quantity
  {
    var before, rest := items[..i], items[i + 1..];
    assert items == before + [items[i]] + rest;
    assert NoLine(rest, items[i].id) by {
      forall k | 0 <= k < |rest|
        ensures rest[k].id != items[i].id
      {
        assert rest[k] == items[i + 1 + k];
      }
    }
    WithoutSplit(before, items[i], rest);
    TotalSplit(before, items[i], rest);
    TotalAppend(before, rest);
  }

  /** `isEmpty`: no cart, no items field, or no lines. */
  predicate IsEmpty(cart: Option<CartBody>) {
    cart.None? || cart.value.items.None? || |cart.value.items.value| == 0
  }

  /** With positive quantities, the page shows an empty cart exactly when the badge count of the
      same body is 0. */
  lemma EmptyIffNoCount(body: CartBody)
    requires body.items.Some? ==> forall i :: 0 <= i < |body.items.value| ==> body.items.value[i].quantity > 0
    ensures IsEmpty(Some(body)) <==> CountOf(Resolved(body)) == 0
  {
    if body.items.Some? && |body.items.value| > 0 {
      SumNonNegative(body.items.value);
    }
  }

  /** A cart body with its lines replaced and its total recomputed from them. */
  function Edited(body: CartBody, items: seq<CartLine>): (r: CartBody)
    ensures r.id == body.id && r.items == Some(items) && r.totalAmount == Total(items)
  {
    body.(items := Some(items), totalAmount := Total(items))
  }

  /** The page as a value: its state variables, the shared count, the tab and the request log. */
  datatype View = View(
    cart: Option<CartBody>,
    loading: bool,
    toasts: seq<Toast>,
    requests: seq<Request>,
    cartCount: int,
    tab: Tab)

  /** The requests one `loadCart` makes: the cart fetch, and the count's own fetch when the first
      one succeeded. */
  function LoadRequests(fetched: Outcome<CartBody>): seq<Request> {
    if fetched.Resolved? then [GetCart, GetCart] else [GetCart]
  }

  /** `loadCart`. `fetched` is the cart fetch, `recount` the count's fetch. */
  function Loaded(v: View, fetched: Outcome<CartBody>, recount: Outcome<CartBody>): (r: View)
    ensures !r.loading && r.toasts == v.toasts && r.requests == v.requests + LoadRequests(fetched)
    ensures fetched.Resolved? ==>
      r.cart == Some(fetched.value) && r.cartCount == CountOf(recount)
      && r.tab == AfterResponse(v.tab, true, recount)
    ensures fetched.Rejected? ==> r.cart == v.cart && r.cartCount == v.cartCount
    ensures IsUnauthorized(fetched) ==>
      r.tab == NavigatedTo(Unauthorized(v.tab, true), LoginPath) && r.tab.pathname == LoginPath
    ensures fetched.Rejected? && !IsUnauthorized(fetched) ==> r.tab == v.tab
  {
    var v1 := v.(requests := v.requests + [GetCart]);
    match fetched
    case Resolved(body) =>
      v1.(cart := Some(body), requests := v1.requests + [GetCart], cartCount := CountOf(recount),
          tab := AfterResponse(v1.tab, true, recount), loading := false)
    case Rejected(e) =>
      if e.status == Some(StatusUnauthorized) then
        v1.(tab := NavigatedTo(Unauthorized(v1.tab, true), LoginPath), loading := false)
      else v1.(loading := false)
  }

  /** Whether an edit throws before its request: the cart is there but its items field is not. */
  predicate ItemsMissing(v: View) {
    v.cart.Some? && v.cart.value.items.None?
  }

  /** `handleUpdateQuantity(itemId, quantity)`, with the outcomes of its three requests. */
  function QuantityUpdated(v: View, itemId: int, quantity: int, update: Outcome<()>,
                           fetched: Outcome<CartBody>, recount: Outcome<CartBody>): (r: View)
    ensures quantity < 1 ==> r == v
    ensures quantity >= 1 ==> !r.loading
    ensures quantity >= 1 ==>
      r.requests == v.requests + (if ItemsMissing(v) then [] else [UpdateItem(itemId, quantity)]) + LoadRequests(fetched)
    ensures quantity >= 1 ==>
      r.toasts == v.toasts + (if ItemsMissing(v) || update.Rejected? then [Failure(UpdateFailedText)] else [])
    ensures quantity >= 1 && fetched.Resolved? ==> r.cart == Some(fetched.value) && r.cartCount == CountOf(recount)
    ensures quantity >= 1 && fetched.Rejected? && v.cart.Some? && v.cart.value.items.Some? ==>
      r.cart == Some(Edited(v.cart.value, WithQuantity(v.cart.value.items.value, itemId, quantity)))
  {
    if quantity < 1 then v
    else if ItemsMissing(v) then
      Loaded(v.(toasts := v.toasts + [Failure(UpdateFailedText)]), fetched, recount)
    else
      var v1 := if v.cart.Some? then
        v.(cart := Some(Edited(v.cart.value, WithQuantity(v.cart.value.items.value, itemId, quantity))))
      else v;
      var v2 := v1.(requests := v1.requests + [UpdateItem(itemId, quantity)], tab := AfterResponse(v1.tab, true, update));
      var v3 := if update.Rejected? then v2.(toasts := v2.toasts + [Failure(UpdateFailedText)]) else v2;
      Loaded(v3, fetched, recount)
  }

  /** `handleRemoveItem(itemId)`, with the outcomes of its three requests. */
  function ItemRemoved(v: View, itemId: int, remove: Outcome<()>,
                       fetched: Outcome<CartBody>, recount: Outcome<CartBody>): (r: View)
    ensures !r.loading
    ensures r.requests == v.requests + (if ItemsMissing(v) then [] else [RemoveItem(itemId)]) + LoadRequests(fetched)
    ensures r.toasts == v.toasts +
      (if ItemsMissing(v) || remove.Rejected? then [Failure(RemoveFailedText)] else [Success(RemovedText)])
    ensures fetched.Resolved? ==> r.cart == Some(fetched.value) && r.cartCount == CountOf(recount)
    ensures fetched.Rejected? && v.cart.Some? && v.cart.value.items.Some? ==>
      r.cart == Some(Edited(v.cart.value, Without(v.cart.value.items.value, itemId)))
  {
    if ItemsMissing(v) then
      Loaded(v.(toasts := v.toasts + [Failure(RemoveFailedText)]), fetched, recount)
    else
      var v1 := if v.cart.Some? then
        v.(cart := Some(Edited(v.cart.value, Without(v.cart.value.items.value, itemId))))
      else v;
      var v2 := v1.(requests := v1.requests + [RemoveItem(itemId)], tab := AfterResponse(v1.tab, true, remove));
      if remove.Rejected? then
        Loaded(v2.(toasts := v2.toasts + [Failure(RemoveFailedText)]), fetched, recount)
      else
        var v3 := Loaded(v2, fetched, recount);
        v3.(toasts := v3.toasts + [Success(RemovedText)])
  }

  /** The page component. It runs in a browser, so the client's redirect check always sees a window. */
  class Page {
    var cart: Option<CartBody>
    var loading: bool
    var toasts: seq<Toast>
    var requests: seq<Request>
    const provider: CartProvider
    const window: Window

    ghost function Snapshot(): View
      reads this, provider, window
    {
      View(cart, loading, toasts, requests, provider.cartCount, window.Snapshot())
    }

    /** The first render: no cart yet, loading. */
    constructor (p: CartProvider, w: Window)
      ensures provider == p && window == w
      ensures cart.None? && loading && toasts == [] && requests == []
    {
      provider, window := p, w;
      cart, loading, toasts, requests := None, true, [], [];
    }

    method LoadCart(fetched: Outcome<CartBody>, recount: Outcome<CartBody>)
      modifies this, provider, window
      ensures Snapshot() == Loaded(old(Snapshot()), fetched, recount)
    {
      requests := requests + [GetCart];
      var cartData := InterceptResponse(window, true, fetched);
      if cartData.Resolved? {
        cart := Some(cartData.value);
        requests := requests + [GetCart];
        provider.UpdateCartCount(window, true, recount);
      } else if cartData.error.status == Some(StatusUnauthorized) {
        window.Navigate(LoginPath);
      }
      loading := false;
    }

    method HandleUpdateQuantity(itemId: int, newQuantity: int, update: Outcome<()>,
                                fetched: Outcome<CartBody>, recount: Outcome<CartBody>)
      modifies this, provider, window
      ensures Snapshot() == QuantityUpdated(old(Snapshot()), itemId, newQuantity, update, fetched, recount)
    {
      if newQuantity < 1 {
        return;
      }
      if cart.Some? && cart.value.items.None? {
        // `cart.items.map` throws; the catch block reports and reloads.
        toasts := toasts + [Failure(UpdateFailedText)];
        LoadCart(fetched, recount);
        return;
      }
      if cart.Some? {
        var updatedItems := WithQuantity(cart.value.items.value, itemId, newQuantity);
        cart := Some(Edited(cart.value, updatedItems));
      }
      requests := requests + [UpdateItem(itemId, newQuantity)];
      var result := InterceptResponse(window, true, update);
      if result.Rejected? {
        toasts := toasts + [Failure(UpdateFailedText)];
      }
      LoadCart(fetched, recount);
    }

    method HandleRemoveItem(itemId: int, remove: Outcome<()>,
                            fetched: Outcome<CartBody>, recount: Outcome<CartBody>)
      modifies this, provider, window
      ensures Snapshot() == ItemRemoved(old(Snapshot()), itemId, remove, fetched, recount)
    {
      if cart.Some? && cart.value.items.None? {
        // `cart.items.filter` throws; the catch block reports and reloads.
        toasts := toasts + [Failure(RemoveFailedText)];
        LoadCart(fetched, recount);
        return;
      }
      if cart.Some? {
        var updatedItems := Without(cart.value.items.value, itemId);
        cart := Some(Edited(cart.value, updatedItems));
      }
      requests := requests + [RemoveItem(itemId)];
      var result := InterceptResponse(window, true, remove);
      if result.Rejected? {
        toasts := toasts + [Failure(RemoveFailedText)];
        LoadCart(fetched, recount);
      } else {
        LoadCart(fetched, recount);
        toasts := toasts + [Success(RemovedText)];
      }
    }
  }
}

/**
 * The shared cart-count cache (`CartProvider`): the badge count the header shows, resynchronised
 * from the server as the sum of the line quantities, and bumped by one after a successful add.
 */
module CartContext {
  import opened Wrappers
  import opened Browser
  import opened ApiClient

  /** `items.reduce((sum, item) => sum + item.quantity, 0)`, summed from the left. */
  function SumQuantities(items: seq<CartLine>): int
    decreases |items|
  {
    if |items| == 0 then 0 else SumQuantities(items[..|items| - 1]) + items[|items| - 1].quantity
  }

  /** The count `updateCartCount` stores for a fetch outcome: the sum of the quantities, 0 when the
      body has no items, and 0 when the fetch failed. */
  function CountOf(fetched: Outcome<CartBody>): (n: int)
    ensures fetched.Rejected? ==> n == 0
    ensures fetched.Resolved? && fetched.value.items.None? ==> n == 0
    ensures fetched.Resolved? && fetched.value.items.Some? ==> n == SumQuantities(fetched.value.items.value)
  {
    match fetched
    case Rejected(_) => 0
    case Resolved(body) => if body.items.Some? then SumQuantities(body.items.value) else 0
  }

  predicate QuantitiesNonNegative(items: seq<CartLine>) {
    forall i :: 0 <= i < |items| ==> items[i].quantity >= 0
  }

  /** The sum over two runs of lines is the sum of the two sums. */
  lemma {:induction false} SumAppend(a: seq<CartLine>, b: seq<CartLine>)
    ensures SumQuantities(a + b) == SumQuantities(a) + SumQuantities(b)
    decreases |b|
  {
    if |b| > 0 {
      assert (a + b)[..|a + b| - 1] == a + b[..|b| - 1];
      SumAppend(a, b[..|b| - 1]);
    } else {
      assert a + b == a;
    }
  }

  /** Non-negative quantities give a non-negative count, bounded below by every single line. */
  lemma {:induction false} SumNonNegative(items: seq<CartLine>)
    requires QuantitiesNonNegative(items)
    ensures SumQuantities(items) >= 0
    ensures forall i :: 0 <= i < |items| ==> items[i].quantity <= SumQuantities(items)
    decreases |items|
  {
    if |items| > 0 {
      var init := items[..|items| - 1];
      assert QuantitiesNonNegative(init);
      SumNonNegative(init);
      forall i | 0 <= i < |items| - 1
        ensures items[i].quantity <= SumQuantities(items)
      {
        assert items[i] == init[i];
      }
    }
  }

  /** Changing one line's quantity changes the count by the difference. */
  lemma SumUpdate(items: seq<CartLine>, i: int, q: int)
    requires 0 <= i < |items|
    ensures SumQuantities(items[i := items[i].(quantity := q)]) == SumQuantities(items) - items[i].quantity + q
  {
    var after := items[i := items[i].(quantity := q)];
    assert items == items[..i] + [items[i]] + items[i + 1..];
    assert after == items[..i] + [after[i]] + items[i + 1..];
    SumAppend(items[..i] + [items[i]], items[i + 1..]);
    SumAppend(items[..i], [items[i]]);
    SumAppend(items[..i] + [after[i]], items[i + 1..]);
    SumAppend(items[..i], [after[i]]);
  }

  /**
   * The increment agrees with a resync after the server accepts an add of one unit: adding one to
   * an existing line, or appending a new line of quantity one, raises the count by exactly one.
   */
  lemma IncrementMatchesResync(items: seq<CartLine>, i: int, line: CartLine)
    requires 0 <= i < |items| && line.quantity == 1
    ensures SumQuantities(items[i := items[i].(quantity := items[i].quantity + 1)]) == SumQuantities(items) + 1
    ensures SumQuantities(items + [line]) == SumQuantities(items) + 1
  {
    SumUpdate(items, i, items[i].quantity + 1);
    assert (items + [line])[..|items|] == items;
  }

  class CartProvider {
    var cartCount: int

    /** The first render: the count is 0. */
    constructor ()
      ensures cartCount == 0
    {
      cartCount := 0;
    }

    /** `updateCartCount`: the cart fetch goes through the client's response interceptor. */
    method UpdateCartCount(w: Window, hasWindow: bool, fetched: Outcome<CartBody>)
      modifies this, w
      ensures cartCount == CountOf(fetched)
      ensures w.Snapshot() == AfterResponse(old(w.Snapshot()), hasWindow, fetched)
    {
      var cart := InterceptResponse(w, hasWindow, fetched);
      if cart.Resolved? {
        var count := if cart.value.items.Some? then SumQuantities(cart.value.items.value) else 0;
        cartCount := count;
      } else {
        cartCount := 0;
      }
    }

    /** `incrementCartCount`: no request is made. */
    method IncrementCartCount()
      modifies this
      ensures cartCount == old(cartCount) + 1
    {
      cartCount := cartCount + 1;
    }
  }

  /** Mounting the provider: the first render, then one resync. */
  method Mount(w: Window, hasWindow: bool, fetched: Outcome<CartBody>) returns (p: CartProvider)
    modifies w
    ensures fresh(p) && p.cartCount == CountOf(fetched)
    ensures w.Snapshot() == AfterResponse(old(w.Snapshot()), hasWindow, fetched)
  {
    p := new CartProvider();
    p.UpdateCartCount(w, hasWindow, fetched);
  }

  /** The count is never negative while the server's quantities are not. */
  lemma CountNonNegative(fetched: Outcome<CartBody>)
    requires fetched.Resolved? && fetched.value.items.Some? ==> QuantitiesNonNegative(fetched.value.items.value)
    ensures CountOf(fetched) >= 0
  {
    if fetched.Resolved? && fetched.value.items.Some? {
      SumNonNegative(fetched.value.items.value);
    }
  }
}

/**
 * PaymentService: the payment status machine. A payment is created PENDING for a PENDING order;
 * confirming it makes it SUCCESS and the order PAID; failing it makes it FAILED and leaves the
 * order alone. Confirm and fail find the payment through `findByOrderId`, a single-result query:
 * it fails when no payment or more than one payment belongs to the order.
 */
module PaymentService {
  import opened Wrappers
  import opened Entities

  /** The ids of the payments that belong to an order. */
  function PaymentsOf(payments: map<int, Payment>, orderId: int): set<int> {
    set k | k in payments && payments[k].orderId == orderId
  }

  /** `k` is the one payment of the order. */
  predicate OnlyPayment(payments: map<int, Payment>, orderId: int, k: int) {
    PaymentsOf(payments, orderId) == {k}
  }

  /** `paymentRepository.findByOrderId(orderId)` followed by `orElseThrow`. */
  method FindByOrderId(payments: map<int, Payment>, orderId: int) returns (r: Result<int>)
    ensures r.Ok? ==> PaymentsOf(payments, orderId) == {r.value}
    ensures r.Ok? <==> exists k :: OnlyPayment(payments, orderId, k)
    ensures r == Err(NotFound("Payment not found")) <==> PaymentsOf(payments, orderId) == {}
    ensures r.Err? ==> r.error == NotFound("Payment not found") || r.error == NonUniqueResult
    ensures r == Err(NonUniqueResult) ==>
      exists a, b :: a in PaymentsOf(payments, orderId) && b in PaymentsOf(payments, orderId) && a != b
  {
    if !exists k :: k in payments && payments[k].orderId == orderId {
      assert PaymentsOf(payments, orderId) == {};
      forall c ensures !OnlyPayment(payments, orderId, c) {
        assert c in {c};
      }
      return Err(NotFound("Payment not found"));
    }
    var k :| k in payments && payments[k].orderId == orderId;
    if exists j :: j in payments && payments[j].orderId == orderId && j != k {
      var j :| j in payments && payments[j].orderId == orderId && j != k;
      assert j in PaymentsOf(payments, orderId) && k in PaymentsOf(payments, orderId);
      forall c ensures !OnlyPayment(payments, orderId, c) {
        assert j in PaymentsOf(payments, orderId) && j != k;
      }
      return Err(NonUniqueResult);
    }
    assert PaymentsOf(payments, orderId) == {k};
    assert OnlyPayment(payments, orderId, k);
    r := Ok(k);
  }

  /** The provider recorded for a request: the given one, or "STRIPE" when it is null. */
  function ProviderOrDefault(provider: Option<string>): (p: string)
    ensures provider.Some? ==> p == provider.value
    ensures provider.None? ==> p == "STRIPE"
  {
    if provider.Some? then provider.value else "STRIPE"
  }

  /** Why `initiatePayment` throws, if it does. */
  function InitiateRefusal(orders: map<int, Order>, orderId: int): Option<Error> {
    if orderId !in orders then Some(NotFound("Order not found"))
    else if orders[orderId].status != OrderStatus.Pending then Some(IllegalArgument("Order is not in PENDING status"))
    else None
  }

  /** The payment `initiatePayment` saves: the order's total, PENDING, no provider payment id yet. */
  function NewPayment(orderId: int, order: Order, provider: Option<string>): (p: Payment)
    ensures p.orderId == orderId && p.amount == order.totalAmount && p.status == PaymentStatus.Pending
    ensures p.provider == ProviderOrDefault(provider) && p.providerPaymentId.None?
  {
    Payment(orderId, order.totalAmount, PaymentStatus.Pending, ProviderOrDefault(provider), None)
  }

  /**
   * `initiatePayment`. It fails on an unknown order or an order that is not PENDING, changing
   * nothing; otherwise it saves a new PENDING payment for the order's total. It does not look
   * for an earlier payment of the same order.
   */
  method InitiatePayment(st: Store, orderId: int, provider: Option<string>) returns (r: Result<(int, Payment)>)
    requires st.Valid()
    modifies st
    ensures st.Valid()
    ensures r.Err? <==> InitiateRefusal(old(st.orders), orderId).Some?
    ensures r.Err? ==> r.error == InitiateRefusal(old(st.orders), orderId).value && st.Snapshot() == old(st.Snapshot())
    ensures r.Ok? ==> orderId in old(st.orders)
    ensures r.Ok? ==>
      var d := old(st.Snapshot());
      && r.value == (d.nextId, NewPayment(orderId, d.orders[orderId], provider))
      && st.Snapshot() == d.(payments := d.payments[d.nextId := r.value.1], nextId := d.nextId + 1)
  {
    if orderId !in st.orders {
      return Err(NotFound("Order not found"));
    }
    var order := st.orders[orderId];
    if order.status != OrderStatus.Pending {
      return Err(IllegalArgument("Order is not in PENDING status"));
    }
    var payment := NewPayment(orderId, order, provider);
    var id := st.NewId();
    st.payments := st.payments[id := payment];
    r := Ok((id, payment));
  }

  /**
   * `confirmPayment`. When the order has exactly one payment, that payment becomes SUCCESS with
   * the given provider payment id and the order becomes PAID, whatever either status was before.
   * Otherwise nothing changes.
   */
  method ConfirmPayment(st: Store, orderId: int, providerPaymentId: Option<string>) returns (r: Result<(int, Payment)>)
    requires st.Valid()
    modifies st
    ensures st.Valid()
    ensures r.Err? ==> st.Snapshot() == old(st.Snapshot())
    ensures r == Err(NotFound("Payment not found")) <==> PaymentsOf(old(st.payments), orderId) == {}
    ensures r.Ok? <==> exists k :: OnlyPayment(old(st.payments), orderId, k)
    ensures r.Err? ==> r.error == NotFound("Payment not found") || r.error == NonUniqueResult
    ensures r.Ok? ==> PaymentsOf(old(st.payments), orderId) == {r.value.0} && orderId in old(st.orders)
    ensures r.Ok? ==>
      var d := old(st.Snapshot());
      var k := r.value.0;
      && r.value.1 == d.payments[k].(status := PaymentStatus.Success, providerPaymentId := providerPaymentId)
      && st.Snapshot() == d.(payments := d.payments[k := r.value.1],
                             orders := d.orders[orderId := d.orders[orderId].(status := OrderStatus.Paid)])
  {
    var found := FindByOrderId(st.payments, orderId);
    if found.Err? {
      return Err(found.error);
    }
    var k := found.value;
    assert k in PaymentsOf(st.payments, orderId);
    var payment := st.payments[k].(status := PaymentStatus.Success, providerPaymentId := providerPaymentId);
    st.payments := st.payments[k := payment];
    var order := st.orders[payment.orderId];
    st.orders := st.orders[payment.orderId := order.(status := OrderStatus.Paid)];
    r := Ok((k, payment));
  }

  /**
   * `failPayment`. When the order has exactly one payment, that payment becomes FAILED; the order's
   * status is left as it was. Otherwise nothing changes.
   */
  method FailPayment(st: Store, orderId: int) returns (r: Result<(int, Payment)>)
    requires st.Valid()
    modifies st
    ensures st.Valid()
    ensures r.Err? ==> st.Snapshot() == old(st.Snapshot())
    ensures r == Err(NotFound("Payment not found")) <==> PaymentsOf(old(st.payments), orderId) == {}
    ensures r.Ok? <==> exists k :: OnlyPayment(old(st.payments), orderId, k)
    ensures r.Err? ==> r.error == NotFound("Payment not found") || r.error == NonUniqueResult
    ensures r.Ok? ==> PaymentsOf(old(st.payments), orderId) == {r.value.0}
    ensures r.Ok? ==>
      var d := old(st.Snapshot());
      var k := r.value.0;
      && r.value.1 == d.payments[k].(status := PaymentStatus.Failed)
      && st.Snapshot() == d.(payments := d.payments[k := r.value.1])
  {
    var found := FindByOrderId(st.payments, orderId);
    if found.Err? {
      return Err(found.error);
    }
    var k := found.value;
    assert k in PaymentsOf(st.payments, orderId);
    var payment := st.payments[k].(status := PaymentStatus.Failed);
    st.payments := st.payments[k := payment];
    r := Ok((k, payment));
  }

  /**
   * The first payment of an order is its only one, so confirm and fail, which succeed exactly when
   * the order has one payment, succeed on it.
   */
  lemma FirstPaymentIsFound(payments: map<int, Payment>, orderId: int, id: int, p: Payment)
    requires PaymentsOf(payments, orderId) == {} && id !in payments && p.orderId == orderId
    ensures OnlyPayment(payments[id := p], orderId, id)
  {
    assert id in PaymentsOf(payments[id := p], orderId);
  }

  /**
   * A second `initiatePayment` for an order that is still PENDING succeeds and leaves two payments
   * for the order, so every later `findByOrderId` for it is ambiguous.
   */
  lemma SecondPaymentMakesLookupAmbiguous(payments: map<int, Payment>, orderId: int, a: int, b: int, q: Payment)
    requires PaymentsOf(payments, orderId) == {a} && b !in payments && q.orderId == orderId
    ensures a != b && a in PaymentsOf(payments[b := q], orderId) && b in PaymentsOf(payments[b := q], orderId)
  {
    assert a in PaymentsOf(payments, orderId);
  }
}

/** Laws that relate the store operations to each other: creation and deletion are inverse
    on the collection they touch, unknown ids are no-ops, successive orders get increasing
    serials, and the customers' statistics follow `createOrder` but not `deleteOrder`. */
module LedgerLaws {
  import opened Seqs
  import opened Money
  import opened Text
  import opened Types
  import opened Ledger
  import opened LedgerInvariants

  // ─── Unknown ids ───────────────────────────────────────────────

  lemma AbsentOrderId(os: seq<Order>, id: string)
    requires id !in OrderIds(os)
    ensures forall i | 0 <= i < |os| :: os[i].id != id
  {
    forall i | 0 <= i < |os| ensures os[i].id != id {
      assert os[i].id in OrderIds(os);
    }
  }

  lemma AbsentServiceId(ss: seq<Service>, id: string)
    requires id !in ServiceIds(ss)
    ensures forall i | 0 <= i < |ss| :: ss[i].id != id
  {
    forall i | 0 <= i < |ss| ensures ss[i].id != id {
      assert ss[i].id in ServiceIds(ss);
    }
  }

  lemma AbsentCustomerId(cs: seq<Customer>, id: string)
    requires id !in CustomerIds(cs)
    ensures forall i | 0 <= i < |cs| :: cs[i].id != id
  {
    forall i | 0 <= i < |cs| ensures cs[i].id != id {
      assert cs[i].id in CustomerIds(cs);
    }
  }

  /** Updating or deleting an order id the ledger does not hold changes nothing. */
  lemma UnknownOrderIdIsNoOp(s: Store, id: string, status: OrderStatus)
    requires id !in OrderIds(s.orders)
    ensures UpdateOrderStatus(s, id, status) == (s, None)
    ensures DeleteOrder(s, id) == s
  {
    AbsentOrderId(s.orders, id);
    FilterAll(s.orders, OrderIdIsNot(id));
    assert UpdateOrderStatus(s, id, status).0.orders == s.orders;
  }

  /** Updating or deleting a service id the catalog does not hold changes nothing. */
  lemma UnknownServiceIdIsNoOp(s: Store, id: string, p: ServicePatch)
    requires id !in ServiceIds(s.services)
    ensures UpdateService(s, id, p) == (s, None)
    ensures DeleteService(s, id) == s
  {
    AbsentServiceId(s.services, id);
    FilterAll(s.services, ServiceIdIsNot(id));
    assert UpdateService(s, id, p).0.services == s.services;
  }

  /** Updating or deleting a customer id the roster does not hold changes nothing. */
  lemma UnknownCustomerIdIsNoOp(s: Store, id: string, p: CustomerPatch)
    requires id !in CustomerIds(s.customers)
    ensures UpdateCustomer(s, id, p) == (s, None)
    ensures DeleteCustomer(s, id) == s
  {
    AbsentCustomerId(s.customers, id);
    FilterAll(s.customers, CustomerIdIsNot(id));
    assert UpdateCustomer(s, id, p).0.customers == s.customers;
  }

  /** A status update touches nothing but the `status` of the orders with the id, and
      returns the first of them with its new status. */
  lemma UpdateOrderStatusChangesOnlyStatus(s: Store, id: string, status: OrderStatus)
    ensures var (s', r) := UpdateOrderStatus(s, id, status);
      && s'.customers == s.customers && s'.services == s.services
      && |s'.orders| == |s.orders|
      && (forall i | 0 <= i < |s.orders| :: s'.orders[i].(status := s.orders[i].status) == s.orders[i])
      && (forall i | 0 <= i < |s.orders| && s.orders[i].id == id :: s'.orders[i].status == status)
      && (id in OrderIds(s.orders) <==> r.Some?)
      && (r.Some? ==> r.value == s.orders[OrderIndex(s.orders, id)].(status := status))
  {
    var (s', r) := UpdateOrderStatus(s, id, status);
    if r.Some? {
      var k := OrderIndex(s.orders, id);
      assert s'.orders[k].id == id;
      assert OrderIndex(s'.orders, id) == k;
    }
  }

  /** An update whose patch leaves the id alone returns the first matching service, patched. */
  lemma UpdateServiceReturnsPatched(s: Store, id: string, p: ServicePatch)
    requires p.id.None? && id in ServiceIds(s.services)
    ensures UpdateService(s, id, p).1 == Some(PatchService(s.services[ServiceIndex(s.services, id)], p))
  {
    var s' := UpdateService(s, id, p).0;
    var k := ServiceIndex(s.services, id);
    assert s'.services[k].id == id;
    assert ServiceIndex(s'.services, id) == k;
  }

  /** An update whose patch leaves the id alone returns the first matching customer, patched. */
  lemma UpdateCustomerReturnsPatched(s: Store, id: string, p: CustomerPatch)
    requires p.id.None? && id in CustomerIds(s.customers)
    ensures UpdateCustomer(s, id, p).1 == Some(PatchCustomer(s.customers[CustomerIndex(s.customers, id)], p))
  {
    var s' := UpdateCustomer(s, id, p).0;
    var k := CustomerIndex(s.customers, id);
    assert s'.customers[k].id == id;
    assert CustomerIndex(s'.customers, id) == k;
  }

  // ─── Deletion keeps duplicates ─────────────────────────────────

  /** `deleteOrder` removes every copy of the orders with the id and keeps every copy of
      the others, so even a ledger holding an order twice is filtered faithfully. */
  lemma DeleteOrderKeepsCopies(s: Store, id: string)
    ensures forall o :: multiset(DeleteOrder(s, id).orders)[o] ==
                        (if o.id != id then multiset(s.orders)[o] else 0)
  {
    FilterCounts(s.orders, OrderIdIsNot(id));
  }

  /** `deleteService` removes every copy of the services with the id and keeps the others'. */
  lemma DeleteServiceKeepsCopies(s: Store, id: string)
    ensures forall v :: multiset(DeleteService(s, id).services)[v] ==
                        (if v.id != id then multiset(s.services)[v] else 0)
  {
    FilterCounts(s.services, ServiceIdIsNot(id));
  }

  /** `deleteCustomer` removes every copy of the customers with the id and keeps the others'. */
  lemma DeleteCustomerKeepsCopies(s: Store, id: string)
    ensures forall c :: multiset(DeleteCustomer(s, id).customers)[c] ==
                        (if c.id != id then multiset(s.customers)[c] else 0)
  {
    FilterCounts(s.customers, CustomerIdIsNot(id));
  }

  // ─── Creation undone by deletion ───────────────────────────────

  /** Deleting the order just created restores the ledger, but the customer's statistics
      keep the credit: `deleteOrder` does not reverse it. */
  lemma DeleteUndoesCreateOrder(s: Store, data: CreateOrderPayload, now: Clock)
    requires Consistent(s) && ServicesKnown(s.services, data.items)
    requires '-' !in now.ymd
    ensures var (s1, o) := CreateOrder(s, data, now);
      var s2 := DeleteOrder(s1, o.id);
      && s2.orders == s.orders
      && s2.customers == CreditCustomer(s.customers, data.customerId, o.total)
  {
    var (s1, o) := CreateOrder(s, data, now);
    CreateOrderIssuesFreshIds(s, data, now);
    AbsentOrderId(s.orders, o.id);
    FilterAppend([o], s.orders, OrderIdIsNot(o.id));
    FilterAll(s.orders, OrderIdIsNot(o.id));
    assert [o] + s.orders == s1.orders;
  }

  /** Deleting the service just created restores the catalog. */
  lemma DeleteUndoesCreateService(s: Store, fields: ServiceFields, now: Clock)
    requires Consistent(s)
    ensures var (s1, svc) := CreateService(s, fields, now);
      DeleteService(s1, svc.id) == s.(nextSvc := s.nextSvc + 1)
  {
    var (s1, svc) := CreateService(s, fields, now);
    SerialOfPadded("svc_", s.nextSvc);
    forall i | 0 <= i < |s.services| ensures s.services[i].id != svc.id {
      assert Serial("svc_", s.services[i].id) < s.nextSvc;
    }
    FilterAppend([svc], s.services, ServiceIdIsNot(svc.id));
    FilterAll(s.services, ServiceIdIsNot(svc.id));
    assert [svc] + s.services == s1.services;
  }

  /** Deleting the customer just created restores the roster. */
  lemma DeleteUndoesCreateCustomer(s: Store, fields: CustomerFields, now: Clock)
    requires Consistent(s)
    ensures var (s1, c) := CreateCustomer(s, fields, now);
      DeleteCustomer(s1, c.id) == s.(nextCst := s.nextCst + 1)
  {
    var (s1, c) := CreateCustomer(s, fields, now);
    SerialOfPadded("cst_", s.nextCst);
    forall i | 0 <= i < |s.customers| ensures s.customers[i].id != c.id {
      assert Serial("cst_", s.customers[i].id) < s.nextCst;
    }
    FilterAppend([c], s.customers, CustomerIdIsNot(c.id));
    FilterAll(s.customers, CustomerIdIsNot(c.id));
    assert [c] + s.customers == s1.customers;
  }

  // ─── Successive orders ─────────────────────────────────────────

  /** Two orders created one after the other get distinct ids and invoice numbers whose
      serials increase by one, and each invoice serial is one above its order's id serial. */
  lemma SuccessiveOrdersGetIncreasingSerials(s: Store, d1: CreateOrderPayload, d2: CreateOrderPayload, t1: Clock, t2: Clock)
    requires ServicesKnown(s.services, d1.items) && ServicesKnown(s.services, d2.items)
    requires '-' !in t1.ymd && '-' !in t2.ymd
    ensures var (s1, o1) := CreateOrder(s, d1, t1);
      var (s2, o2) := CreateOrder(s1, d2, t2);
      && Serial("ord_", o1.id) == s.nextOrd
      && Serial("ord_", o2.id) == Serial("ord_", o1.id) + 1
      && InvoiceSerial(o1.invoiceNo) == Serial("ord_", o1.id) + 1
      && InvoiceSerial(o2.invoiceNo) == InvoiceSerial(o1.invoiceNo) + 1
      && o1.id != o2.id && o1.invoiceNo != o2.invoiceNo
  {
    var n := s.nextOrd;
    var (s1, o1) := CreateOrder(s, d1, t1);
    var (s2, o2) := CreateOrder(s1, d2, t2);
    assert o1.id == OrderId(n) && o1.invoiceNo == InvoiceNo(t1.ymd, n + 1);
    assert o2.id == OrderId(n + 1) && o2.invoiceNo == InvoiceNo(t2.ymd, n + 2);
    CounterNumbers(n, t1.ymd, t2.ymd);
  }

  /** The ids and invoice numbers issued from two successive counter values read back as
      those values. */
  lemma CounterNumbers(n: nat, ymd1: string, ymd2: string)
    requires '-' !in ymd1 && '-' !in ymd2
    ensures Serial("ord_", OrderId(n)) == n && Serial("ord_", OrderId(n + 1)) == n + 1
    ensures InvoiceSerial(InvoiceNo(ymd1, n + 1)) == n + 1 && InvoiceSerial(InvoiceNo(ymd2, n + 2)) == n + 2
  {
    SerialOfPadded("ord_", n);
    SerialOfPadded("ord_", n + 1);
    InvoiceSerialOfInvoiceNo(ymd1, n + 1);
    InvoiceSerialOfInvoiceNo(ymd2, n + 2);
  }

  // ─── Customer statistics ───────────────────────────────────────

  /** How many orders of the ledger name the customer. */
  function OrderCount(os: seq<Order>, cid: string): nat
  {
    if |os| == 0 then 0 else (if os[0].customerId == cid then 1 else 0) + OrderCount(os[1..], cid)
  }

  /** The sum of the totals of the orders that name the customer. */
  function AmountSpent(os: seq<Order>, cid: string): real
  {
    if |os| == 0 then 0.0 else (if os[0].customerId == cid then os[0].total else 0.0) + AmountSpent(os[1..], cid)
  }

  /** Every customer's statistics agree with the ledger (the seed data does not start out
      this way; the source never reconciles them). */
  predicate StatsMatchLedger(s: Store) {
    forall i | 0 <= i < |s.customers| ::
      && s.customers[i].totalOrders == OrderCount(s.orders, s.customers[i].id)
      && s.customers[i].totalSpent == AmountSpent(s.orders, s.customers[i].id)
  }

  lemma {:induction false} AmountSpentIsCents(os: seq<Order>, cid: string)
    requires forall i | 0 <= i < |os| :: OrderPriced(os[i])
    ensures IsCents(AmountSpent(os, cid))
    decreases |os|
  {
    if |os| > 0 {
      AmountSpentIsCents(os[1..], cid);
      SumOfPricedLinesIsCents(os[0].items);
      assert IsCents(0.0);
      CentsAdd(if os[0].customerId == cid then os[0].total else 0.0, AmountSpent(os[1..], cid));
    }
  }

  /** `createOrder` keeps statistics that agree with the ledger in agreement: the credited
      customer gains exactly one order and exactly the order's total. */
  lemma CreateOrderKeepsStatsInStep(s: Store, data: CreateOrderPayload, now: Clock)
    requires Consistent(s) && StatsMatchLedger(s) && ServicesKnown(s.services, data.items)
    ensures StatsMatchLedger(CreateOrder(s, data, now).0)
  {
    var (s', o) := CreateOrder(s, data, now);
    var cid := data.customerId;
    var k := CustomerIndex(s.customers, cid);
    assert s'.orders == [o] + s.orders;
    assert ([o] + s.orders)[1..] == s.orders;
    forall i | 0 <= i < |s'.customers|
      ensures s'.customers[i].totalOrders == OrderCount(s'.orders, s'.customers[i].id)
      ensures s'.customers[i].totalSpent == AmountSpent(s'.orders, s'.customers[i].id)
    {
      var c := s.customers[i];
      if i == k {
        AmountSpentIsCents(s.orders, cid);
        assert s'.customers[i] == Credit(c, o.total);
      } else {
        assert c.id != cid by {
          if i > k && k < |s.customers| {
            assert s.customers[k].id != s.customers[i].id;
          }
        }
        assert s'.customers[i] == c;
      }
    }
  }

  /** Cancelling (or any status change) leaves statistics in agreement: they ignore status,
      as the source never reverses a credit. */
  lemma StatusUpdateKeepsStatsInStep(s: Store, id: string, status: OrderStatus)
    requires StatsMatchLedger(s)
    ensures StatsMatchLedger(UpdateOrderStatus(s, id, status).0)
  {
    var s' := UpdateOrderStatus(s, id, status).0;
    forall cid: string ensures OrderCount(s'.orders, cid) == OrderCount(s.orders, cid)
                        ensures AmountSpent(s'.orders, cid) == AmountSpent(s.orders, cid) {
      SameOwnersSameStats(s'.orders, s.orders, cid);
    }
  }

  lemma {:induction false} SameOwnersSameStats(a: seq<Order>, b: seq<Order>, cid: string)
    requires |a| == |b|
    requires forall i | 0 <= i < |a| :: a[i].customerId == b[i].customerId && a[i].total == b[i].total
    ensures OrderCount(a, cid) == OrderCount(b, cid)
    ensures AmountSpent(a, cid) == AmountSpent(b, cid)
    decreases |a|
  {
    if |a| > 0 {
      SameOwnersSameStats(a[1..], b[1..], cid);
    }
  }

  lemma {:induction false} DeletingDropsCount(os: seq<Order>, id: string, cid: string)
    requires exists i :: 0 <= i < |os| && os[i].id == id && os[i].customerId == cid
    ensures OrderCount(KeepOrder(os, id), cid) < OrderCount(os, cid)
    decreases |os|
  {
    KeepOrderCountAtMost(os[1..], id, cid);
    if os[0].id == id && os[0].customerId == cid {
    } else {
      var i :| 0 <= i < |os| && os[i].id == id && os[i].customerId == cid;
      assert os[1..][i - 1] == os[i];
      DeletingDropsCount(os[1..], id, cid);
    }
  }

  lemma {:induction false} KeepOrderCountAtMost(os: seq<Order>, id: string, cid: string)
    ensures OrderCount(KeepOrder(os, id), cid) <= OrderCount(os, cid)
    decreases |os|
  {
    if |os| > 0 {
      KeepOrderCountAtMost(os[1..], id, cid);
    }
  }

  /** `deleteOrder` breaks agreement whenever the deleted order's customer is on the
      roster: the order is gone, the credit stays. */
  lemma DeleteOrderLeavesStatsBehind(s: Store, id: string, j: nat)
    requires StatsMatchLedger(s)
    requires j < |s.orders| && s.orders[j].id == id
    requires s.orders[j].customerId in CustomerIds(s.customers)
    ensures !StatsMatchLedger(DeleteOrder(s, id))
  {
    var cid := s.orders[j].customerId;
    var i :| 0 <= i < |s.customers| && s.customers[i].id == cid;
    DeletingDropsCount(s.orders, id, cid);
    var s' := DeleteOrder(s, id);
    assert s'.customers[i].totalOrders == OrderCount(s.orders, cid);
    assert s'.customers[i].totalOrders != OrderCount(s'.orders, s'.customers[i].id);
  }
}

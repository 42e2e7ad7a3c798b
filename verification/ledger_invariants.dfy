/** What every sequence of store operations keeps true, and what it does not: prices stay
    consistent, identifiers stay fresh and distinct, and the customers' denormalised
    statistics follow order creation but not deletion. */
module LedgerInvariants {
  import opened Seqs
  import opened Money
  import opened Text
  import opened Types
  import opened Ledger

  // ─── Invoice numbers ───────────────────────────────────────────

  /** The sequence number of an invoice: the digits after its last dash. */
  function InvoiceSerial(inv: string): nat {
    var parts := Split(inv, '-');
    ParseNat(parts[|parts| - 1])
  }

  /** Neither the prefix nor the padded sequence number of an invoice holds a dash. */
  lemma InvoiceFieldsHaveNoDash(n: nat)
    ensures '-' !in "INV" && '-' !in Pad3(n)
  {
    DigitsHaveNoDash(Pad3(n));
    assert "INV" == ['I', 'N', 'V'];
  }

  /** An invoice number splits at its dashes into its three fields, provided the date text
      has no dash. */
  lemma SplitInvoiceNo(ymd: string, n: nat)
    requires '-' !in ymd
    ensures Split(InvoiceNo(ymd, n), '-') == ["INV", ymd, Pad3(n)]
  {
    InvoiceFieldsHaveNoDash(n);
    SplitThree("INV", ymd, Pad3(n), '-');
    assert "INV-" == "INV" + ['-'];
    assert InvoiceNo(ymd, n) == "INV" + ['-'] + ymd + ['-'] + Pad3(n);
  }

  /** An invoice number gives back the sequence number it was issued with, provided the
      date text has no dash (`yyyyMMdd` never does). */
  lemma InvoiceSerialOfInvoiceNo(ymd: string, n: nat)
    requires '-' !in ymd
    ensures InvoiceSerial(InvoiceNo(ymd, n)) == n
  {
    SplitInvoiceNo(ymd, n);
    var parts := Split(InvoiceNo(ymd, n), '-');
    assert parts[|parts| - 1] == Pad3(n);
  }

  // ─── Consistency of the store ──────────────────────────────────

  /** An order's lines are priced and its total is the exact sum of their totals. */
  predicate OrderPriced(o: Order) {
    LinesPriced(o.items) && o.total == SumItemTotals(o.items)
  }

  predicate DistinctServiceIds(ss: seq<Service>) {
    forall i, j | 0 <= i < j < |ss| :: ss[i].id != ss[j].id
  }

  predicate DistinctCustomerIds(cs: seq<Customer>) {
    forall i, j | 0 <= i < j < |cs| :: cs[i].id != cs[j].id
  }

  predicate DistinctOrderIds(os: seq<Order>) {
    forall i, j | 0 <= i < j < |os| :: os[i].id != os[j].id
  }

  /** Every identifier in use carries a serial below its counter, so the next one issued
      is new; invoice sequence numbers stay at or below the order counter. */
  predicate CountersAhead(s: Store) {
    && (forall i | 0 <= i < |s.services| :: Serial("svc_", s.services[i].id) < s.nextSvc)
    && (forall i | 0 <= i < |s.customers| :: Serial("cst_", s.customers[i].id) < s.nextCst)
    && (forall i | 0 <= i < |s.orders| :: Serial("ord_", s.orders[i].id) < s.nextOrd)
    && (forall i | 0 <= i < |s.orders| :: InvoiceSerial(s.orders[i].invoiceNo) <= s.nextOrd)
  }

  predicate Consistent(s: Store) {
    && (forall i | 0 <= i < |s.orders| :: OrderPriced(s.orders[i]))
    && CountersAhead(s)
    && DistinctServiceIds(s.services)
    && DistinctCustomerIds(s.customers)
    && DistinctOrderIds(s.orders)
  }

  /** `createOrder` issues an id and an invoice number no order in the ledger has. */
  lemma CreateOrderIssuesFreshIds(s: Store, data: CreateOrderPayload, now: Clock)
    requires CountersAhead(s) && ServicesKnown(s.services, data.items)
    requires '-' !in now.ymd
    ensures var o := CreateOrder(s, data, now).1;
      && o.id !in OrderIds(s.orders)
      && Serial("ord_", o.id) == s.nextOrd
      && InvoiceSerial(o.invoiceNo) == s.nextOrd + 1
      && forall i | 0 <= i < |s.orders| :: s.orders[i].invoiceNo != o.invoiceNo
  {
    var o := CreateOrder(s, data, now).1;
    SerialOfPadded("ord_", s.nextOrd);
    InvoiceSerialOfInvoiceNo(now.ymd, s.nextOrd + 1);
    forall i | 0 <= i < |s.orders| ensures s.orders[i].id != o.id {
      assert Serial("ord_", s.orders[i].id) < s.nextOrd;
    }
  }

  lemma PrependFreshOrder(o: Order, os: seq<Order>)
    requires DistinctOrderIds(os) && o.id !in OrderIds(os)
    ensures DistinctOrderIds([o] + os)
  {
    var t := [o] + os;
    forall i, j | 0 <= i < j < |t| ensures t[i].id != t[j].id {
      assert t[j] == os[j - 1];
      if i > 0 {
        assert t[i] == os[i - 1];
      }
    }
  }

  lemma CreditKeepsCustomerIds(cs: seq<Customer>, id: string, total: real)
    ensures var cs' := CreditCustomer(cs, id, total);
      forall i | 0 <= i < |cs| :: cs'[i].id == cs[i].id
  {
  }

  /** Prepending a priced order with a fresh id and the next serials, while only touching
      customers' statistics, keeps the store consistent. */
  lemma PrependOrderKeepsConsistent(s: Store, o: Order, cs: seq<Customer>)
    requires Consistent(s) && OrderPriced(o)
    requires o.id !in OrderIds(s.orders)
    requires Serial("ord_", o.id) == s.nextOrd && InvoiceSerial(o.invoiceNo) == s.nextOrd + 1
    requires |cs| == |s.customers| && forall i | 0 <= i < |cs| :: cs[i].id == s.customers[i].id
    ensures Consistent(s.(orders := [o] + s.orders, customers := cs, nextOrd := s.nextOrd + 1))
  {
    var s' := s.(orders := [o] + s.orders, customers := cs, nextOrd := s.nextOrd + 1);
    PrependFreshOrder(o, s.orders);
    assert forall i | 0 <= i < |s'.orders| :: OrderPriced(s'.orders[i]) by {
      forall i | 0 <= i < |s'.orders| ensures OrderPriced(s'.orders[i]) {
        if i > 0 {
          assert s'.orders[i] == s.orders[i - 1];
          assert OrderPriced(s.orders[i - 1]);
        }
      }
    }
    assert DistinctCustomerIds(cs) by {
      forall i, j | 0 <= i < j < |cs| ensures cs[i].id != cs[j].id {
        assert s.customers[i].id != s.customers[j].id;
      }
    }
    assert CountersAhead(s') by {
      forall i | 0 <= i < |cs| ensures Serial("cst_", cs[i].id) < s'.nextCst {
        assert Serial("cst_", s.customers[i].id) < s.nextCst;
      }
      forall i | 0 <= i < |s'.orders|
        ensures Serial("ord_", s'.orders[i].id) < s'.nextOrd
        ensures InvoiceSerial(s'.orders[i].invoiceNo) <= s'.nextOrd
      {
        if i > 0 {
          assert s'.orders[i] == s.orders[i - 1];
          assert Serial("ord_", s.orders[i - 1].id) < s.nextOrd;
          assert InvoiceSerial(s.orders[i - 1].invoiceNo) <= s.nextOrd;
        }
      }
    }
  }

  /** `createOrder` keeps the store consistent. */
  lemma CreateOrderKeepsConsistent(s: Store, data: CreateOrderPayload, now: Clock)
    requires Consistent(s) && ServicesKnown(s.services, data.items)
    requires '-' !in now.ymd
    ensures Consistent(CreateOrder(s, data, now).0)
  {
    var (s', o) := CreateOrder(s, data, now);
    CreateOrderIssuesFreshIds(s, data, now);
    CreditKeepsCustomerIds(s.customers, data.customerId, o.total);
    NewOrderLines(s, data, now);
    assert OrderPriced(o);
    PrependOrderKeepsConsistent(s, o, s'.customers);
    assert s' == s.(orders := [o] + s.orders, customers := s'.customers, nextOrd := s.nextOrd + 1);
  }

  /** Two ledgers that agree on each order's id, invoice number, lines and total are
      equally consistent. */
  lemma SameKeysSameConsistency(s: Store, os: seq<Order>)
    requires Consistent(s)
    requires |os| == |s.orders|
    requires forall i | 0 <= i < |os| ::
      os[i].id == s.orders[i].id && os[i].invoiceNo == s.orders[i].invoiceNo &&
      os[i].items == s.orders[i].items && os[i].total == s.orders[i].total
    ensures Consistent(s.(orders := os))
  {
    var s' := s.(orders := os);
    assert forall i | 0 <= i < |os| :: OrderPriced(os[i]) by {
      forall i | 0 <= i < |os| ensures OrderPriced(os[i]) {
        assert OrderPriced(s.orders[i]);
      }
    }
    assert DistinctOrderIds(os) by {
      forall i, j | 0 <= i < j < |os| ensures os[i].id != os[j].id {
        assert s.orders[i].id != s.orders[j].id;
      }
    }
    assert CountersAhead(s') by {
      forall i | 0 <= i < |os|
        ensures Serial("ord_", os[i].id) < s'.nextOrd
        ensures InvoiceSerial(os[i].invoiceNo) <= s'.nextOrd
      {
        assert Serial("ord_", s.orders[i].id) < s.nextOrd;
        assert InvoiceSerial(s.orders[i].invoiceNo) <= s.nextOrd;
      }
    }
  }

  /** Changing a status keeps the store consistent. */
  lemma StatusUpdateKeepsConsistent(s: Store, id: string, status: OrderStatus)
    requires Consistent(s)
    ensures Consistent(UpdateOrderStatus(s, id, status).0)
  {
    var s1 := UpdateOrderStatus(s, id, status).0;
    SameKeysSameConsistency(s, s1.orders);
    assert s1 == s.(orders := s1.orders);
  }

  /** Deleting orders keeps the store consistent. */
  lemma DeleteOrderKeepsConsistent(s: Store, id: string)
    requires Consistent(s)
    ensures Consistent(DeleteOrder(s, id))
  {
    var s2 := DeleteOrder(s, id);
    SubseqKeepsOrders(s2.orders, s.orders);
    assert forall i | 0 <= i < |s2.orders| :: OrderPriced(s2.orders[i]) by {
      forall i | 0 <= i < |s2.orders| ensures OrderPriced(s2.orders[i]) {
        var j :| 0 <= j < |s.orders| && s.orders[j] == s2.orders[i];
        assert OrderPriced(s.orders[j]);
      }
    }
    assert CountersAhead(s2) by {
      forall i | 0 <= i < |s2.orders|
        ensures Serial("ord_", s2.orders[i].id) < s2.nextOrd
        ensures InvoiceSerial(s2.orders[i].invoiceNo) <= s2.nextOrd
      {
        var j :| 0 <= j < |s.orders| && s.orders[j] == s2.orders[i];
        assert Serial("ord_", s.orders[j].id) < s.nextOrd;
        assert InvoiceSerial(s.orders[j].invoiceNo) <= s.nextOrd;
      }
    }
  }

  /** Every property of single orders and every pairwise difference of ids carries over to a
      subsequence. */
  lemma {:induction false} SubseqKeepsOrders(a: seq<Order>, b: seq<Order>)
    requires Subseq(a, b)
    ensures forall i | 0 <= i < |a| :: a[i] in b
    ensures DistinctOrderIds(b) ==> DistinctOrderIds(a)
    decreases |b|
  {
    if |a| == 0 {
    } else if a[0] == b[0] && Subseq(a[1..], b[1..]) {
      SubseqKeepsOrders(a[1..], b[1..]);
      if DistinctOrderIds(b) {
        assert DistinctOrderIds(b[1..]);
        forall i, j | 0 <= i < j < |a| ensures a[i].id != a[j].id {
          if i == 0 {
            assert a[j] == a[1..][j - 1];
            var k :| 0 <= k < |b[1..]| && b[1..][k] == a[j];
            assert b[k + 1] == a[j];
          }
        }
      }
      forall i | 0 <= i < |a| ensures a[i] in b {
        if i > 0 { assert a[i] == a[1..][i - 1]; }
      }
    } else {
      SubseqKeepsOrders(a, b[1..]);
      if DistinctOrderIds(b) {
        assert DistinctOrderIds(b[1..]);
      }
    }
  }

  lemma {:induction false} SubseqKeepsServices(a: seq<Service>, b: seq<Service>)
    requires Subseq(a, b)
    ensures forall i | 0 <= i < |a| :: a[i] in b
    ensures DistinctServiceIds(b) ==> DistinctServiceIds(a)
    decreases |b|
  {
    if |a| == 0 {
    } else if a[0] == b[0] && Subseq(a[1..], b[1..]) {
      SubseqKeepsServices(a[1..], b[1..]);
      if DistinctServiceIds(b) {
        assert DistinctServiceIds(b[1..]);
        forall i, j | 0 <= i < j < |a| ensures a[i].id != a[j].id {
          if i == 0 {
            assert a[j] == a[1..][j - 1];
            var k :| 0 <= k < |b[1..]| && b[1..][k] == a[j];
            assert b[k + 1] == a[j];
          }
        }
      }
      forall i | 0 <= i < |a| ensures a[i] in b {
        if i > 0 { assert a[i] == a[1..][i - 1]; }
      }
    } else {
      SubseqKeepsServices(a, b[1..]);
      if DistinctServiceIds(b) {
        assert DistinctServiceIds(b[1..]);
      }
    }
  }

  lemma {:induction false} SubseqKeepsCustomers(a: seq<Customer>, b: seq<Customer>)
    requires Subseq(a, b)
    ensures forall i | 0 <= i < |a| :: a[i] in b
    ensures DistinctCustomerIds(b) ==> DistinctCustomerIds(a)
    decreases |b|
  {
    if |a| == 0 {
    } else if a[0] == b[0] && Subseq(a[1..], b[1..]) {
      SubseqKeepsCustomers(a[1..], b[1..]);
      if DistinctCustomerIds(b) {
        assert DistinctCustomerIds(b[1..]);
        forall i, j | 0 <= i < j < |a| ensures a[i].id != a[j].id {
          if i == 0 {
            assert a[j] == a[1..][j - 1];
            var k :| 0 <= k < |b[1..]| && b[1..][k] == a[j];
            assert b[k + 1] == a[j];
          }
        }
      }
      forall i | 0 <= i < |a| ensures a[i] in b {
        if i > 0 { assert a[i] == a[1..][i - 1]; }
      }
    } else {
      SubseqKeepsCustomers(a, b[1..]);
      if DistinctCustomerIds(b) {
        assert DistinctCustomerIds(b[1..]);
      }
    }
  }

  /** The catalog operations keep the store consistent; an update does so as long as the
      patch leaves the id alone (`Partial<Service>` would allow renaming it). */
  lemma CreateServiceKeepsConsistent(s: Store, fields: ServiceFields, now: Clock)
    requires Consistent(s)
    ensures Consistent(CreateService(s, fields, now).0)
  {
    var (s1, svc) := CreateService(s, fields, now);
    SerialOfPadded("svc_", s.nextSvc);
    assert DistinctServiceIds(s1.services) by {
      forall i, j | 0 <= i < j < |s1.services| ensures s1.services[i].id != s1.services[j].id {
        assert s1.services[j] == s.services[j - 1];
        assert Serial("svc_", s.services[j - 1].id) < s.nextSvc;
        if i > 0 {
          assert s1.services[i] == s.services[i - 1];
          assert s.services[i - 1].id != s.services[j - 1].id;
        }
      }
    }
    assert CountersAhead(s1) by {
      forall i | 0 <= i < |s1.services| ensures Serial("svc_", s1.services[i].id) < s1.nextSvc {
        if i > 0 {
          assert s1.services[i] == s.services[i - 1];
          assert Serial("svc_", s.services[i - 1].id) < s.nextSvc;
        }
      }
    }
  }

  lemma DeleteServiceKeepsConsistent(s: Store, id: string)
    requires Consistent(s)
    ensures Consistent(DeleteService(s, id))
  {
    var s2 := DeleteService(s, id);
    SubseqKeepsServices(s2.services, s.services);
    assert CountersAhead(s2) by {
      forall i | 0 <= i < |s2.services| ensures Serial("svc_", s2.services[i].id) < s2.nextSvc {
        var j :| 0 <= j < |s.services| && s.services[j] == s2.services[i];
        assert Serial("svc_", s.services[j].id) < s.nextSvc;
      }
    }
  }

  lemma UpdateServiceKeepsConsistent(s: Store, id: string, p: ServicePatch)
    requires Consistent(s)
    requires p.id.None?
    ensures Consistent(UpdateService(s, id, p).0)
  {
    var s3 := UpdateService(s, id, p).0;
    assert forall i | 0 <= i < |s3.services| :: s3.services[i].id == s.services[i].id;
    assert DistinctServiceIds(s3.services) by {
      forall i, j | 0 <= i < j < |s3.services| ensures s3.services[i].id != s3.services[j].id {
        assert s.services[i].id != s.services[j].id;
      }
    }
    assert CountersAhead(s3) by {
      forall i | 0 <= i < |s3.services| ensures Serial("svc_", s3.services[i].id) < s3.nextSvc {
        assert Serial("svc_", s.services[i].id) < s.nextSvc;
      }
    }
  }

  /** The roster operations keep the store consistent; an update does so as long as the
      patch leaves the id alone. */
  lemma CreateCustomerKeepsConsistent(s: Store, fields: CustomerFields, now: Clock)
    requires Consistent(s)
    ensures Consistent(CreateCustomer(s, fields, now).0)
  {
    var (s1, c) := CreateCustomer(s, fields, now);
    SerialOfPadded("cst_", s.nextCst);
    assert DistinctCustomerIds(s1.customers) by {
      forall i, j | 0 <= i < j < |s1.customers| ensures s1.customers[i].id != s1.customers[j].id {
        assert s1.customers[j] == s.customers[j - 1];
        assert Serial("cst_", s.customers[j - 1].id) < s.nextCst;
        if i > 0 {
          assert s1.customers[i] == s.customers[i - 1];
          assert s.customers[i - 1].id != s.customers[j - 1].id;
        }
      }
    }
    assert CountersAhead(s1) by {
      forall i | 0 <= i < |s1.customers| ensures Serial("cst_", s1.customers[i].id) < s1.nextCst {
        if i > 0 {
          assert s1.customers[i] == s.customers[i - 1];
          assert Serial("cst_", s.customers[i - 1].id) < s.nextCst;
        }
      }
    }
  }

  lemma DeleteCustomerKeepsConsistent(s: Store, id: string)
    requires Consistent(s)
    ensures Consistent(DeleteCustomer(s, id))
  {
    var s2 := DeleteCustomer(s, id);
    SubseqKeepsCustomers(s2.customers, s.customers);
    assert CountersAhead(s2) by {
      forall i | 0 <= i < |s2.customers| ensures Serial("cst_", s2.customers[i].id) < s2.nextCst {
        var j :| 0 <= j < |s.customers| && s.customers[j] == s2.customers[i];
        assert Serial("cst_", s.customers[j].id) < s.nextCst;
      }
    }
  }

  lemma UpdateCustomerKeepsConsistent(s: Store, id: string, p: CustomerPatch)
    requires Consistent(s)
    requires p.id.None?
    ensures Consistent(UpdateCustomer(s, id, p).0)
  {
    var s3 := UpdateCustomer(s, id, p).0;
    assert forall i | 0 <= i < |s3.customers| :: s3.customers[i].id == s.customers[i].id;
    assert DistinctCustomerIds(s3.customers) by {
      forall i, j | 0 <= i < j < |s3.customers| ensures s3.customers[i].id != s3.customers[j].id {
        assert s.customers[i].id != s.customers[j].id;
      }
    }
    assert CountersAhead(s3) by {
      forall i | 0 <= i < |s3.customers| ensures Serial("cst_", s3.customers[i].id) < s3.nextCst {
        assert Serial("cst_", s.customers[i].id) < s.nextCst;
      }
    }
  }
}

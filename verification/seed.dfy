/** The store the mock API starts from (src/services/mock-data.ts:10-90): ten services, ten
    customers, fifteen orders spread over the last ten days, and counters 11, 11 and 16.
    Each table row carries the fields the source writes out; identifiers follow from the
    row's position, as the source's literals `svc_001`, `svc_002`, … do. */
module Seed {
  import opened Money
  import opened Text
  import opened Types
  import opened Ledger
  import opened LedgerInvariants

  /** Seed services are numbered 1 to 10. */
  type ServiceNo = k: nat | 1 <= k <= 10 witness 1

  /** Seed customers are numbered 1 to 10. */
  type CustomerNo = k: nat | 1 <= k <= 10 witness 1

  /** Each seed day has at most two orders, numbered 1 and 2. */
  type DaySerial = k: nat | 1 <= k <= 2 witness 1

  /** A `yyyyMMdd` date text; it never holds a dash. */
  type DateText = s: string | '-' !in s witness ""

  // name, description, price, unit type, active, created at
  function ServiceRows(): (rows: seq<(string, string, real, string, bool, string)>)
    ensures |rows| == 10
  {
    [
      ("B&W Copy (A4)", "Black and white photocopy, A4 size", 0.10, "page", true, "2024-01-15T10:00:00Z"),
      ("Color Copy (A4)", "Full color photocopy, A4 size", 0.50, "page", true, "2024-01-15T10:00:00Z"),
      ("B&W Copy (A3)", "Black and white photocopy, A3 size", 0.20, "page", true, "2024-01-16T10:00:00Z"),
      ("Color Copy (A3)", "Full color photocopy, A3 size", 1.00, "page", true, "2024-01-16T10:00:00Z"),
      ("Lamination (A4)", "Document lamination, A4 size", 2.00, "sheet", true, "2024-01-17T10:00:00Z"),
      ("Spiral Binding", "Spiral binding for documents", 3.50, "piece", true, "2024-01-17T10:00:00Z"),
      ("Document Scanning", "High-quality document scanning", 0.15, "page", true, "2024-01-18T10:00:00Z"),
      ("ID Photo Print", "Passport/ID photo printing", 5.00, "set", true, "2024-01-18T10:00:00Z"),
      ("Banner Printing", "Large format banner printing", 15.00, "sq ft", false, "2024-01-19T10:00:00Z"),
      ("Business Cards", "Professional business card printing", 25.00, "100 pcs", true, "2024-01-19T10:00:00Z")
    ]
  }

  // name, phone, email, total orders, total spent, created at
  function CustomerRows(): (rows: seq<(string, string, string, int, real, string)>)
    ensures |rows| == 10
  {
    [
      ("John Smith", "555-0101", "john@email.com", 12, 156.50, "2024-02-01T10:00:00Z"),
      ("Sarah Johnson", "555-0102", "sarah@email.com", 8, 95.20, "2024-02-05T10:00:00Z"),
      ("Michael Chen", "555-0103", "mchen@email.com", 15, 312.00, "2024-02-10T10:00:00Z"),
      ("Emily Davis", "555-0104", "emily.d@email.com", 5, 42.80, "2024-02-15T10:00:00Z"),
      ("David Wilson", "555-0105", "dwilson@email.com", 20, 478.60, "2024-03-01T10:00:00Z"),
      ("Lisa Anderson", "555-0106", "lisa.a@email.com", 3, 28.50, "2024-03-10T10:00:00Z"),
      ("Robert Taylor", "555-0107", "rtaylor@email.com", 9, 167.90, "2024-03-15T10:00:00Z"),
      ("Jennifer Brown", "555-0108", "jbrown@email.com", 6, 89.30, "2024-04-01T10:00:00Z"),
      ("James Martinez", "555-0109", "jmartinez@email.com", 11, 234.10, "2024-04-05T10:00:00Z"),
      ("Amanda Garcia", "555-0110", "agarcia@email.com", 7, 128.70, "2024-04-10T10:00:00Z")
    ]
  }

  /** One entry of `orderSeed` together with its entry of `orderItemSets`. */
  datatype OrderRow = OrderRow(
    invoiceDate: DateText,
    invoiceSerial: DaySerial,
    customer: CustomerNo,
    customerName: string,
    status: OrderStatus,
    paymentMethod: PaymentMethod,
    notes: string,
    daysAgo: nat,
    lines: seq<(ServiceNo, int)>)

  function OrderRows(): (rows: seq<OrderRow>)
    ensures |rows| == 15
  {
    [
      OrderRow("20260208", 1, 1, "John Smith", Completed, Cash, "", 0, [(1, 50), (5, 3)]),
      OrderRow("20260208", 2, 3, "Michael Chen", Completed, Card, "Rush order", 0, [(2, 20), (6, 2)]),
      OrderRow("20260207", 1, 5, "David Wilson", Completed, Transfer, "", 1, [(1, 100), (2, 30), (6, 1)]),
      OrderRow("20260207", 2, 2, "Sarah Johnson", Pending, Cash, "Pickup tomorrow", 1, [(8, 2), (1, 10)]),
      OrderRow("20260206", 1, 7, "Robert Taylor", Completed, Cash, "", 2, [(4, 15), (5, 5)]),
      OrderRow("20260206", 2, 4, "Emily Davis", Cancelled, Card, "Customer changed mind", 2, [(2, 10)]),
      OrderRow("20260205", 1, 9, "James Martinez", Completed, Cash, "", 3, [(1, 200), (7, 50)]),
      OrderRow("20260205", 2, 10, "Amanda Garcia", Completed, Transfer, "", 3, [(10, 1), (1, 30)]),
      OrderRow("20260204", 1, 1, "John Smith", Completed, Cash, "", 4, [(3, 40), (5, 2)]),
      OrderRow("20260204", 2, 6, "Lisa Anderson", Pending, Cash, "", 4, [(1, 25), (2, 10)]),
      OrderRow("20260203", 1, 8, "Jennifer Brown", Completed, Card, "", 5, [(8, 3), (6, 1)]),
      OrderRow("20260202", 1, 3, "Michael Chen", Completed, Cash, "", 6, [(2, 40), (1, 60)]),
      OrderRow("20260201", 1, 5, "David Wilson", Completed, Transfer, "Monthly printing", 7, [(1, 150), (7, 80), (6, 3)]),
      OrderRow("20260131", 1, 2, "Sarah Johnson", Completed, Cash, "", 8, [(4, 8), (5, 4)]),
      OrderRow("20260130", 1, 9, "James Martinez", Completed, Card, "", 9, [(2, 25), (3, 15)])
    ]
  }

  /** The services of a table, numbered from 1 in table order. */
  function ServicesFrom(rows: seq<(string, string, real, string, bool, string)>): (ss: seq<Service>)
    ensures |ss| == |rows|
    ensures forall i | 0 <= i < |rows| :: ss[i].id == ServiceId(i + 1)
  {
    seq(|rows|, i requires 0 <= i < |rows| =>
      var r := rows[i];
      Service(ServiceId(i + 1), r.0, r.1, r.2, r.3, r.4, r.5))
  }

  /** The customers of a table, numbered from 1 in table order. */
  function CustomersFrom(rows: seq<(string, string, string, int, real, string)>): (cs: seq<Customer>)
    ensures |cs| == |rows|
    ensures forall i | 0 <= i < |rows| :: cs[i].id == CustomerId(i + 1)
  {
    seq(|rows|, i requires 0 <= i < |rows| =>
      var r := rows[i];
      Customer(CustomerId(i + 1), r.0, r.1, r.2, r.3, r.4, r.5))
  }

  function SeedServices(): (ss: seq<Service>)
    ensures |ss| == 10
    ensures forall i | 0 <= i < 10 :: ss[i].id == ServiceId(i + 1)
  {
    ServicesFrom(ServiceRows())
  }

  /** Every service number of the seed names a seed service. */
  lemma ServiceNoKnown(k: ServiceNo)
    ensures ServiceId(k) in ServiceIds(SeedServices())
  {
    assert SeedServices()[k - 1].id == ServiceId(k);
  }

  /** The `[service id, quantity]` pairs of a row. */
  function Pairs(lines: seq<(ServiceNo, int)>): (pairs: seq<(string, int)>)
    ensures |pairs| == |lines|
    ensures forall i | 0 <= i < |lines| :: pairs[i].0 in ServiceIds(SeedServices())
  {
    forall k: ServiceNo ensures ServiceId(k) in ServiceIds(SeedServices()) {
      ServiceNoKnown(k);
    }
    seq(|lines|, i requires 0 <= i < |lines| => (ServiceId(lines[i].0), lines[i].1))
  }

  /** `orderSeed.map((o, i) => …)` for one entry: its items come from `makeItems` and its
      total is the rounded sum of their totals. */
  function SeedOrder(n: nat, r: OrderRow, today: int): (o: Order)
    ensures o.id == OrderId(n)
    ensures InvoiceSerial(o.invoiceNo) == r.invoiceSerial
    ensures OrderPriced(o)
    ensures o.createdDay == today - r.daysAgo && o.status == r.status
  {
    var items := MakeItems(SeedServices(), Pairs(r.lines));
    SumOfPricedLinesIsCents(items);
    InvoiceSerialOfInvoiceNo(r.invoiceDate, r.invoiceSerial);
    Order(OrderId(n), InvoiceNo(r.invoiceDate, r.invoiceSerial), CustomerId(r.customer), r.customerName,
          items, Round2(SumItemTotals(items)), r.status, r.paymentMethod, r.notes, today - r.daysAgo)
  }

  /** The orders of a table, numbered from 1 in table order. */
  function OrdersFrom(rows: seq<OrderRow>, today: int): (os: seq<Order>)
    ensures |os| == |rows|
    ensures forall i | 0 <= i < |rows| :: os[i].id == OrderId(i + 1) && OrderPriced(os[i])
    ensures forall i | 0 <= i < |rows| :: InvoiceSerial(os[i].invoiceNo) == rows[i].invoiceSerial <= 2
  {
    seq(|rows|, i requires 0 <= i < |rows| => SeedOrder(i + 1, rows[i], today))
  }

  /** The store as the module loads it, with "now" on calendar day `today`. */
  function SeedStore(today: int): (s: Store)
    ensures |s.services| == 10 && |s.customers| == 10 && |s.orders| == 15
    ensures s.nextSvc == 11 && s.nextCst == 11 && s.nextOrd == 16
  {
    Store(SeedServices(), CustomersFrom(CustomerRows()), OrdersFrom(OrderRows(), today), 11, 11, 16)
  }

  /** Serials read back from padded identifiers tell identifiers apart. */
  lemma PaddedIdsDiffer(prefix: string, m: nat, n: nat)
    requires m != n
    ensures prefix + Pad3(m) != prefix + Pad3(n)
  {
    SerialOfPadded(prefix, m);
    SerialOfPadded(prefix, n);
  }

  /** Every counter of the seed is ahead of the serials in use. */
  lemma SeedCountersAhead(today: int)
    ensures CountersAhead(SeedStore(today))
  {
    var s := SeedStore(today);
    forall i | 0 <= i < 10 ensures Serial("svc_", s.services[i].id) < s.nextSvc {
      SerialOfPadded("svc_", i + 1);
    }
    forall i | 0 <= i < 10 ensures Serial("cst_", s.customers[i].id) < s.nextCst {
      SerialOfPadded("cst_", i + 1);
    }
    forall i | 0 <= i < 15 ensures Serial("ord_", s.orders[i].id) < s.nextOrd {
      SerialOfPadded("ord_", i + 1);
    }
  }

  /** No two seed records of a kind share an identifier. */
  lemma SeedIdsDistinct(today: int)
    ensures var s := SeedStore(today);
      DistinctServiceIds(s.services) && DistinctCustomerIds(s.customers) && DistinctOrderIds(s.orders)
  {
    var s := SeedStore(today);
    forall i, j | 0 <= i < j < 10 ensures s.services[i].id != s.services[j].id {
      PaddedIdsDiffer("svc_", i + 1, j + 1);
    }
    forall i, j | 0 <= i < j < 10 ensures s.customers[i].id != s.customers[j].id {
      PaddedIdsDiffer("cst_", i + 1, j + 1);
    }
    forall i, j | 0 <= i < j < 15 ensures s.orders[i].id != s.orders[j].id {
      PaddedIdsDiffer("ord_", i + 1, j + 1);
    }
  }

  /** The seed already satisfies the store invariant: every order total is the sum of its
      rounded line totals, identifiers are distinct, and every counter is ahead of the
      serials in use, so the first `svc_011`, `cst_011` and `ord_016` issued are new. */
  lemma SeedIsConsistent(today: int)
    ensures Consistent(SeedStore(today))
  {
    SeedCountersAhead(today);
    SeedIdsDistinct(today);
  }
}

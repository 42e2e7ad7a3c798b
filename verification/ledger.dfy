/** The in-memory store of src/services/mock-data.ts as an explicit value: the service
    catalog, the customer roster, the order ledger (most recent first) and the three id
    counters. Every `mockApi` mutation is a function from a store to a new store; the
    clock is an argument and the simulated network delay is dropped. */
module Ledger {
  import opened Seqs
  import opened Money
  import opened Text
  import opened Types

  /** What an operation reads from `new Date()` / `Date.now()`: the calendar day, the ISO
      text stored in `created_at`, the `yyyyMMdd` text used in invoice numbers, and the
      millisecond text used in item ids. */
  datatype Clock = Clock(day: int, iso: string, ymd: string, millis: string)

  datatype Store = Store(
    services: seq<Service>,
    customers: seq<Customer>,
    orders: seq<Order>,
    nextSvc: nat,
    nextCst: nat,
    nextOrd: nat)

  // ─── Identifiers ───────────────────────────────────────────────

  function ServiceId(n: nat): string { "svc_" + Pad3(n) }
  function CustomerId(n: nat): string { "cst_" + Pad3(n) }
  function OrderId(n: nat): string { "ord_" + Pad3(n) }

  /** `INV-<yyyyMMdd>-<sequence padded to 3 digits>`. */
  function InvoiceNo(ymd: string, n: nat): string { "INV-" + ymd + "-" + Pad3(n) }

  function ServiceIds(ss: seq<Service>): set<string> { set i | 0 <= i < |ss| :: ss[i].id }
  function CustomerIds(cs: seq<Customer>): set<string> { set i | 0 <= i < |cs| :: cs[i].id }
  function OrderIds(os: seq<Order>): set<string> { set i | 0 <= i < |os| :: os[i].id }

  /** `services.findIndex(s => s.id === id)`, with `|ss|` for "not found". */
  function ServiceIndex(ss: seq<Service>, id: string): (k: nat)
    ensures k <= |ss|
    ensures k < |ss| ==> ss[k].id == id
    ensures forall j :: 0 <= j < k ==> ss[j].id != id
    ensures k < |ss| <==> id in ServiceIds(ss)
  {
    IndexWhere(ss, (s: Service) => s.id == id)
  }

  function CustomerIndex(cs: seq<Customer>, id: string): (k: nat)
    ensures k <= |cs|
    ensures k < |cs| ==> cs[k].id == id
    ensures forall j :: 0 <= j < k ==> cs[j].id != id
    ensures k < |cs| <==> id in CustomerIds(cs)
  {
    IndexWhere(cs, (c: Customer) => c.id == id)
  }

  function OrderIndex(os: seq<Order>, id: string): (k: nat)
    ensures k <= |os|
    ensures k < |os| ==> os[k].id == id
    ensures forall j :: 0 <= j < k ==> os[j].id != id
    ensures k < |os| <==> id in OrderIds(os)
  {
    IndexWhere(os, (o: Order) => o.id == id)
  }

  /** Every requested line names a service of the catalog; the source dereferences the
      lookup with `!` and fails otherwise. */
  predicate ServicesKnown(ss: seq<Service>, lines: seq<LineItem>) {
    forall i | 0 <= i < |lines| :: lines[i].serviceId in ServiceIds(ss)
  }

  // ─── Pricing ───────────────────────────────────────────────────

  /** `items.reduce((s, it) => s + it.total, 0)` */
  function SumItemTotals(items: seq<OrderItem>): real
  {
    if |items| == 0 then 0.0 else items[0].total + SumItemTotals(items[1..])
  }

  /** `+(unit_price * quantity).toFixed(2)` */
  function LineTotal(unitPrice: real, quantity: int): (t: real)
    ensures IsCents(t)
  {
    Round2(unitPrice * quantity as real)
  }

  /** A line total is within half a cent of the unrounded product. */
  lemma LineTotalNear(unitPrice: real, quantity: int)
    ensures -0.005 <= LineTotal(unitPrice, quantity) - unitPrice * quantity as real <= 0.005
  {
    RoundWithinHalfCent(unitPrice * quantity as real);
  }

  /** The priced lines of a well-formed order: each total is its rounded product. */
  predicate LinesPriced(items: seq<OrderItem>) {
    forall i | 0 <= i < |items| :: items[i].total == LineTotal(items[i].unitPrice, items[i].quantity)
  }

  /** A sum of rounded line totals is itself a whole number of cents, so rounding the
      order total changes nothing in exact arithmetic. */
  lemma {:induction false} SumOfPricedLinesIsCents(items: seq<OrderItem>)
    requires LinesPriced(items)
    ensures IsCents(SumItemTotals(items))
    ensures Round2(SumItemTotals(items)) == SumItemTotals(items)
    decreases |items|
  {
    if |items| > 0 {
      SumOfPricedLinesIsCents(items[1..]);
      CentsAdd(items[0].total, SumItemTotals(items[1..]));
    }
  }

  /** One line of `createOrder`: snapshot the service name, keep the caller's price. */
  function PriceLine(ss: seq<Service>, line: LineItem, millis: string, i: nat): (it: OrderItem)
    requires line.serviceId in ServiceIds(ss)
  {
    var svc := ss[ServiceIndex(ss, line.serviceId)];
    OrderItem("itm_" + millis + "_" + NatText(i), line.serviceId, svc.name, line.quantity,
              line.unitPrice, LineTotal(line.unitPrice, line.quantity))
  }

  function PriceLines(ss: seq<Service>, lines: seq<LineItem>, millis: string): (items: seq<OrderItem>)
    requires ServicesKnown(ss, lines)
    ensures |items| == |lines|
    ensures LinesPriced(items)
  {
    seq(|lines|, i requires 0 <= i < |lines| => PriceLine(ss, lines[i], millis, i))
  }

  /** `makeItems` of the seed: catalog price, item id `itm_<index>`. */
  function MakeItems(ss: seq<Service>, pairs: seq<(string, int)>): (items: seq<OrderItem>)
    requires forall i | 0 <= i < |pairs| :: pairs[i].0 in ServiceIds(ss)
    ensures |items| == |pairs|
    ensures LinesPriced(items)
    ensures forall i | 0 <= i < |pairs| ::
      items[i].serviceId == pairs[i].0 && items[i].quantity == pairs[i].1 &&
      items[i].unitPrice == ss[ServiceIndex(ss, pairs[i].0)].price
  {
    seq(|pairs|, i requires 0 <= i < |pairs| =>
      var svc := ss[ServiceIndex(ss, pairs[i].0)];
      OrderItem("itm_" + NatText(i), pairs[i].0, svc.name, pairs[i].1, svc.price,
                LineTotal(svc.price, pairs[i].1)))
  }

  // ─── Orders ────────────────────────────────────────────────────

  /** The customer statistics update of `createOrder`. */
  function Credit(c: Customer, total: real): (c': Customer)
    ensures c'.totalOrders == c.totalOrders + 1
    ensures IsCents(c.totalSpent) && IsCents(total) ==> c'.totalSpent == c.totalSpent + total
    ensures c'.(totalOrders := c.totalOrders, totalSpent := c.totalSpent) == c
  {
    var c' := c.(totalOrders := c.totalOrders + 1, totalSpent := Round2(c.totalSpent + total));
    assert IsCents(c.totalSpent) && IsCents(total) ==> c'.totalSpent == c.totalSpent + total by {
      if IsCents(c.totalSpent) && IsCents(total) {
        CentsAdd(c.totalSpent, total);
      }
    }
    c'
  }

  /** The order `createOrder` builds: priced lines, id `ord_<n>` and invoice `INV-<day>-<n+1>`
      from the order counter `n`, the customer's name or "Unknown", status pending. */
  function NewOrder(s: Store, data: CreateOrderPayload, now: Clock): (o: Order)
    requires ServicesKnown(s.services, data.items)
    ensures o.id == OrderId(s.nextOrd)
    ensures o.invoiceNo == InvoiceNo(now.ymd, s.nextOrd + 1)
    ensures o.status == Pending
    ensures o.customerId == data.customerId
    ensures o.paymentMethod == data.paymentMethod && o.notes == data.notes
    ensures o.createdDay == now.day
    ensures o.items == PriceLines(s.services, data.items, now.millis)
    ensures data.customerId in CustomerIds(s.customers) ==>
      o.customerName == s.customers[CustomerIndex(s.customers, data.customerId)].name
    ensures data.customerId !in CustomerIds(s.customers) ==> o.customerName == "Unknown"
  {
    var k := CustomerIndex(s.customers, data.customerId);
    var items := PriceLines(s.services, data.items, now.millis);
    Order(OrderId(s.nextOrd), InvoiceNo(now.ymd, s.nextOrd + 1), data.customerId,
          if k < |s.customers| then s.customers[k].name else "Unknown",
          items, Round2(SumItemTotals(items)), Pending, data.paymentMethod, data.notes, now.day)
  }

  /** The lines of a new order copy the caller's service, quantity and price, with the
      catalog name as a snapshot; each is rounded to cents and the order's total is their
      exact sum. */
  lemma NewOrderLines(s: Store, data: CreateOrderPayload, now: Clock)
    requires ServicesKnown(s.services, data.items)
    ensures var o := NewOrder(s, data, now);
      && |o.items| == |data.items|
      && LinesPriced(o.items)
      && (forall i | 0 <= i < |o.items| ::
            && o.items[i].serviceId == data.items[i].serviceId
            && o.items[i].quantity == data.items[i].quantity
            && o.items[i].unitPrice == data.items[i].unitPrice
            && o.items[i].serviceName == s.services[ServiceIndex(s.services, data.items[i].serviceId)].name)
      && o.total == SumItemTotals(o.items) && IsCents(o.total)
  {
    var o := NewOrder(s, data, now);
    SumOfPricedLinesIsCents(o.items);
  }

  /** `if (cust) { cust.total_orders += 1; cust.total_spent = +(… + total).toFixed(2) }`:
      only the customer object `find` returned, the first with the id, changes. */
  function CreditCustomer(cs: seq<Customer>, id: string, total: real): (cs': seq<Customer>)
    ensures |cs'| == |cs|
    ensures forall j | 0 <= j < |cs| && j != CustomerIndex(cs, id) :: cs'[j] == cs[j]
    ensures id in CustomerIds(cs) ==>
      var k := CustomerIndex(cs, id);
      cs'[k] == Credit(cs[k], total)
    ensures id !in CustomerIds(cs) ==> cs' == cs
  {
    var k := CustomerIndex(cs, id);
    if k < |cs| then cs[k := Credit(cs[k], total)] else cs
  }

  /** `mockApi.createOrder`: build the order, put it at the head of the ledger, advance the
      order counter and credit the customer. The catalog is untouched. */
  function CreateOrder(s: Store, data: CreateOrderPayload, now: Clock): (r: (Store, Order))
    requires ServicesKnown(s.services, data.items)
    ensures r.1 == NewOrder(s, data, now)
    ensures r.0.orders == [r.1] + s.orders
    ensures r.0.customers == CreditCustomer(s.customers, data.customerId, r.1.total)
    ensures r.0.services == s.services
    ensures r.0.nextSvc == s.nextSvc && r.0.nextCst == s.nextCst && r.0.nextOrd == s.nextOrd + 1
  {
    var o := NewOrder(s, data, now);
    (s.(orders := [o] + s.orders, customers := CreditCustomer(s.customers, data.customerId, o.total),
        nextOrd := s.nextOrd + 1), o)
  }

  /** `mockApi.getOrder`: the first order with the id. */
  function GetOrder(s: Store, id: string): (r: Option<Order>)
    ensures r.Some? <==> id in OrderIds(s.orders)
    ensures r.Some? ==> r.value.id == id && r.value in s.orders
    ensures r.Some? ==> r.value == s.orders[OrderIndex(s.orders, id)]
  {
    var k := OrderIndex(s.orders, id);
    if k < |s.orders| then Some(s.orders[k]) else None
  }

  /** `mockApi.updateOrderStatus`: every order with the id gets the new status; the value
      returned is the first such order afterwards. */
  function UpdateOrderStatus(s: Store, id: string, status: OrderStatus): (r: (Store, Option<Order>))
    ensures r.0 == s.(orders := r.0.orders)
    ensures |r.0.orders| == |s.orders|
    ensures forall i | 0 <= i < |s.orders| ::
      r.0.orders[i] == (if s.orders[i].id == id then s.orders[i].(status := status) else s.orders[i])
    ensures OrderIds(r.0.orders) == OrderIds(s.orders)
    ensures r.1 == GetOrder(r.0, id)
  {
    var orders := seq(|s.orders|, i requires 0 <= i < |s.orders| =>
      if s.orders[i].id == id then s.orders[i].(status := status) else s.orders[i]);
    assert OrderIds(orders) == OrderIds(s.orders) by {
      forall x | x in OrderIds(s.orders) ensures x in OrderIds(orders) {
        var i :| 0 <= i < |s.orders| && s.orders[i].id == x;
        assert orders[i].id == x;
      }
    }
    var s' := s.(orders := orders);
    (s', GetOrder(s', id))
  }

  function OrderIdIsNot(id: string): Order -> bool {
    (o: Order) => o.id != id
  }

  function KeepOrder(os: seq<Order>, id: string): (r: seq<Order>)
    ensures Subseq(r, os)
  {
    FilterIsSubseq(os, OrderIdIsNot(id));
    Filter(os, OrderIdIsNot(id))
  }

  /** `mockApi.deleteOrder`: drop every order with the id. */
  function DeleteOrder(s: Store, id: string): (s': Store)
    ensures s' == s.(orders := s'.orders)
    ensures id !in OrderIds(s'.orders)
    ensures forall i | 0 <= i < |s.orders| && s.orders[i].id != id :: s.orders[i] in s'.orders
    ensures forall i | 0 <= i < |s'.orders| :: s'.orders[i] in s.orders
    ensures Subseq(s'.orders, s.orders)
  {
    s.(orders := KeepOrder(s.orders, id))
  }

  // ─── Services ──────────────────────────────────────────────────

  /** The fields a caller supplies to `createService`. */
  datatype ServiceFields = ServiceFields(name: string, description: string, price: real, unitType: string, isActive: bool)

  /** A `Partial<Service>`: an absent field keeps its value. */
  datatype ServicePatch = ServicePatch(
    id: Option<string>,
    name: Option<string>,
    description: Option<string>,
    price: Option<real>,
    unitType: Option<string>,
    isActive: Option<bool>,
    createdAt: Option<string>)

  /** `{ ...svc, ...patch }` */
  function PatchService(svc: Service, p: ServicePatch): Service {
    Service(p.id.GetOr(svc.id), p.name.GetOr(svc.name), p.description.GetOr(svc.description),
            p.price.GetOr(svc.price), p.unitType.GetOr(svc.unitType), p.isActive.GetOr(svc.isActive),
            p.createdAt.GetOr(svc.createdAt))
  }

  /** `mockApi.createService`: issue `svc_<n>` and put the service first. */
  function CreateService(s: Store, data: ServiceFields, now: Clock): (r: (Store, Service))
    ensures r.0 == s.(services := [r.1] + s.services, nextSvc := s.nextSvc + 1)
    ensures r.1.id == ServiceId(s.nextSvc) && r.1.createdAt == now.iso
    ensures r.1.name == data.name && r.1.description == data.description && r.1.price == data.price
    ensures r.1.unitType == data.unitType && r.1.isActive == data.isActive
  {
    var svc := Service(ServiceId(s.nextSvc), data.name, data.description, data.price, data.unitType, data.isActive, now.iso);
    (s.(services := [svc] + s.services, nextSvc := s.nextSvc + 1), svc)
  }

  /** `mockApi.updateService`: patch every service with the id; return the first service
      that has the id afterwards. */
  function UpdateService(s: Store, id: string, p: ServicePatch): (r: (Store, Option<Service>))
    ensures r.0 == s.(services := r.0.services)
    ensures |r.0.services| == |s.services|
    ensures forall i | 0 <= i < |s.services| ::
      r.0.services[i] == (if s.services[i].id == id then PatchService(s.services[i], p) else s.services[i])
    ensures r.1.Some? <==> id in ServiceIds(r.0.services)
    ensures r.1.Some? ==> r.1.value.id == id && r.1.value in r.0.services
  {
    var services := seq(|s.services|, i requires 0 <= i < |s.services| =>
      if s.services[i].id == id then PatchService(s.services[i], p) else s.services[i]);
    var k := ServiceIndex(services, id);
    (s.(services := services), if k < |services| then Some(services[k]) else None)
  }

  function ServiceIdIsNot(id: string): Service -> bool {
    (svc: Service) => svc.id != id
  }

  function KeepService(ss: seq<Service>, id: string): (r: seq<Service>)
    ensures Subseq(r, ss)
  {
    FilterIsSubseq(ss, ServiceIdIsNot(id));
    Filter(ss, ServiceIdIsNot(id))
  }

  /** `mockApi.deleteService`: drop every service with the id. Orders keep their snapshots. */
  function DeleteService(s: Store, id: string): (s': Store)
    ensures s' == s.(services := s'.services)
    ensures id !in ServiceIds(s'.services)
    ensures forall i | 0 <= i < |s.services| && s.services[i].id != id :: s.services[i] in s'.services
    ensures forall i | 0 <= i < |s'.services| :: s'.services[i] in s.services
    ensures Subseq(s'.services, s.services)
  {
    s.(services := KeepService(s.services, id))
  }

  // ─── Customers ─────────────────────────────────────────────────

  datatype CustomerFields = CustomerFields(name: string, phone: string, email: string)

  /** A `Partial<Customer>`: an absent field keeps its value. */
  datatype CustomerPatch = CustomerPatch(
    id: Option<string>,
    name: Option<string>,
    phone: Option<string>,
    email: Option<string>,
    totalOrders: Option<int>,
    totalSpent: Option<real>,
    createdAt: Option<string>)

  /** `{ ...c, ...patch }` */
  function PatchCustomer(c: Customer, p: CustomerPatch): Customer {
    Customer(p.id.GetOr(c.id), p.name.GetOr(c.name), p.phone.GetOr(c.phone), p.email.GetOr(c.email),
             p.totalOrders.GetOr(c.totalOrders), p.totalSpent.GetOr(c.totalSpent), p.createdAt.GetOr(c.createdAt))
  }

  /** `mockApi.createCustomer`: issue `cst_<n>`, start the statistics at zero, put the
      customer first. */
  function CreateCustomer(s: Store, data: CustomerFields, now: Clock): (r: (Store, Customer))
    ensures r.0 == s.(customers := [r.1] + s.customers, nextCst := s.nextCst + 1)
    ensures r.1.id == CustomerId(s.nextCst) && r.1.createdAt == now.iso
    ensures r.1.totalOrders == 0 && r.1.totalSpent == 0.0
    ensures r.1.name == data.name && r.1.phone == data.phone && r.1.email == data.email
  {
    var c := Customer(CustomerId(s.nextCst), data.name, data.phone, data.email, 0, 0.0, now.iso);
    (s.(customers := [c] + s.customers, nextCst := s.nextCst + 1), c)
  }

  /** `mockApi.updateCustomer`: patch every customer with the id; return the first
      customer that has the id afterwards. */
  function UpdateCustomer(s: Store, id: string, p: CustomerPatch): (r: (Store, Option<Customer>))
    ensures r.0 == s.(customers := r.0.customers)
    ensures |r.0.customers| == |s.customers|
    ensures forall i | 0 <= i < |s.customers| ::
      r.0.customers[i] == (if s.customers[i].id == id then PatchCustomer(s.customers[i], p) else s.customers[i])
    ensures r.1.Some? <==> id in CustomerIds(r.0.customers)
    ensures r.1.Some? ==> r.1.value.id == id && r.1.value in r.0.customers
  {
    var customers := seq(|s.customers|, i requires 0 <= i < |s.customers| =>
      if s.customers[i].id == id then PatchCustomer(s.customers[i], p) else s.customers[i]);
    var k := CustomerIndex(customers, id);
    (s.(customers := customers), if k < |customers| then Some(customers[k]) else None)
  }

  function CustomerIdIsNot(id: string): Customer -> bool {
    (c: Customer) => c.id != id
  }

  function KeepCustomer(cs: seq<Customer>, id: string): (r: seq<Customer>)
    ensures Subseq(r, cs)
  {
    FilterIsSubseq(cs, CustomerIdIsNot(id));
    Filter(cs, CustomerIdIsNot(id))
  }

  /** `mockApi.deleteCustomer`: drop every customer with the id. Orders keep their snapshots. */
  function DeleteCustomer(s: Store, id: string): (s': Store)
    ensures s' == s.(customers := s'.customers)
    ensures id !in CustomerIds(s'.customers)
    ensures forall i | 0 <= i < |s.customers| && s.customers[i].id != id :: s.customers[i] in s'.customers
    ensures forall i | 0 <= i < |s'.customers| :: s'.customers[i] in s.customers
    ensures Subseq(s'.customers, s.customers)
  {
    s.(customers := KeepCustomer(s.customers, id))
  }
}

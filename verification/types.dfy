/** The records of the order ledger (src/types/index.ts). Money fields are exact reals,
    counts are integers, and an order's creation timestamp is reduced to its calendar day,
    the only part of it any operation reads. */
module Types {

  datatype Option<T> = None | Some(value: T) {
    function GetOr(default: T): T {
      match this
      case Some(v) => v
      case None => default
    }
  }

  datatype Service = Service(
    id: string,
    name: string,
    description: string,
    price: real,
    unitType: string,
    isActive: bool,
    createdAt: string)

  datatype Customer = Customer(
    id: string,
    name: string,
    phone: string,
    email: string,
    totalOrders: int,
    totalSpent: real,
    createdAt: string)

  /** One priced line of an order; `serviceName` and `unitPrice` are snapshots. */
  datatype OrderItem = OrderItem(
    id: string,
    serviceId: string,
    serviceName: string,
    quantity: int,
    unitPrice: real,
    total: real)

  datatype OrderStatus = Pending | Completed | Cancelled

  datatype PaymentMethod = Cash | Card | Transfer | Other

  datatype Order = Order(
    id: string,
    invoiceNo: string,
    customerId: string,
    customerName: string,
    items: seq<OrderItem>,
    total: real,
    status: OrderStatus,
    paymentMethod: PaymentMethod,
    notes: string,
    createdDay: int)

  datatype DailyReport = DailyReport(date: string, revenue: real, orders: nat)

  datatype ServiceReport = ServiceReport(serviceName: string, quantity: int, revenue: real)

  datatype DashboardMetrics = DashboardMetrics(
    revenueToday: real,
    ordersToday: nat,
    activeCustomers: nat,
    avgOrderValue: real)

  /** A requested line: an item of `CreateOrderPayload`, and also a row of the order form. */
  datatype LineItem = LineItem(serviceId: string, quantity: int, unitPrice: real)

  datatype CreateOrderPayload = CreateOrderPayload(
    customerId: string,
    items: seq<LineItem>,
    paymentMethod: PaymentMethod,
    notes: string)

  /** The string the source uses for a status. */
  function StatusName(s: OrderStatus): string {
    match s
    case Pending => "pending"
    case Completed => "completed"
    case Cancelled => "cancelled"
  }
}

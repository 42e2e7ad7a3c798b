/** The pure logic of the Orders page (src/pages/Orders.tsx): editing the rows of the
    new-order form, its running total, the checks before submitting, and the search and
    status filter over the order list. React state becomes arguments and results. */
module OrderForm {
  import opened Seqs
  import opened Money
  import opened Text
  import opened Types
  import opened Ledger

  // ─── Form rows ─────────────────────────────────────────────────

  /** `{ service_id: "", quantity: 1, unit_price: 0 }`, the row a fresh form starts with and
      `addItem` appends. */
  const EmptyRow: LineItem := LineItem("", 1, 0.0)

  /** One call of `updateItem(index, field, value)`: which field, and its new value. */
  datatype RowEdit = SetServiceId(serviceId: string) | SetQuantity(quantity: int) | SetUnitPrice(unitPrice: real)

  function ActiveWithId(id: string): Service -> bool {
    (svc: Service) => svc.isActive && svc.id == id
  }

  /** `activeServices.find(s => s.id === value)`: the first service that is active and has
      the id, which is the first element with the id of `services.filter(s => s.is_active)`. */
  function FindActive(ss: seq<Service>, id: string): (r: Option<Service>)
    ensures r.Some? <==> exists i | 0 <= i < |ss| :: ss[i].isActive && ss[i].id == id
    ensures r.Some? ==> r.value.isActive && r.value.id == id && r.value in ss
    ensures r.Some? ==> r.value == ss[IndexWhere(ss, ActiveWithId(id))]
  {
    var k := IndexWhere(ss, ActiveWithId(id));
    if k < |ss| then Some(ss[k]) else None
  }

  /** The row after one edit. Choosing a service also takes the price of the active service
      with that id, when there is one. */
  function EditRow(row: LineItem, edit: RowEdit, ss: seq<Service>): LineItem {
    match edit
    case SetServiceId(v) =>
      var found := FindActive(ss, v);
      if found.Some? then row.(serviceId := v, unitPrice := found.value.price) else row.(serviceId := v)
    case SetQuantity(q) => row.(quantity := q)
    case SetUnitPrice(p) => row.(unitPrice := p)
  }

  /** `updateItem`: only row `index` changes, in the edited field and, for a service choice,
      in its price. */
  function UpdateItem(rows: seq<LineItem>, index: int, edit: RowEdit, ss: seq<Service>): (r: seq<LineItem>)
    requires 0 <= index < |rows|
    ensures |r| == |rows|
    ensures forall j | 0 <= j < |rows| && j != index :: r[j] == rows[j]
    ensures edit.SetQuantity? ==> r[index] == rows[index].(quantity := edit.quantity)
    ensures edit.SetUnitPrice? ==> r[index] == rows[index].(unitPrice := edit.unitPrice)
    ensures edit.SetServiceId? ==>
      && r[index].serviceId == edit.serviceId
      && r[index].quantity == rows[index].quantity
      && ((exists i | 0 <= i < |ss| :: ss[i].isActive && ss[i].id == edit.serviceId) ==>
            r[index].unitPrice == FindActive(ss, edit.serviceId).value.price)
      && ((forall i | 0 <= i < |ss| :: !(ss[i].isActive && ss[i].id == edit.serviceId)) ==>
            r[index].unitPrice == rows[index].unitPrice)
  {
    rows[index := EditRow(rows[index], edit, ss)]
  }

  /** Repeating an edit changes nothing more. */
  lemma UpdateItemIdempotent(rows: seq<LineItem>, index: int, edit: RowEdit, ss: seq<Service>)
    requires 0 <= index < |rows|
    ensures UpdateItem(UpdateItem(rows, index, edit, ss), index, edit, ss) == UpdateItem(rows, index, edit, ss)
  {
  }

  /** A chosen price always comes from an active service with the chosen id. */
  lemma ChosenPriceFromCatalog(rows: seq<LineItem>, index: int, id: string, ss: seq<Service>)
    requires 0 <= index < |rows|
    ensures var r := UpdateItem(rows, index, SetServiceId(id), ss);
      r[index].unitPrice == rows[index].unitPrice ||
      exists i | 0 <= i < |ss| :: ss[i].isActive && ss[i].id == id && ss[i].price == r[index].unitPrice
  {
    var found := FindActive(ss, id);
    if found.Some? {
      var k := IndexWhere(ss, ActiveWithId(id));
      assert ss[k].price == found.value.price;
    }
  }

  /** `addItem`: a blank row at the end. */
  function AddItem(rows: seq<LineItem>): (r: seq<LineItem>)
    ensures |r| == |rows| + 1 && r[..|rows|] == rows && r[|rows|] == EmptyRow
  {
    rows + [EmptyRow]
  }

  /** `removeItem(i)`: `filter((_, idx) => idx !== i)`; an index outside the rows removes
      nothing. */
  function RemoveItem(rows: seq<LineItem>, i: int): (r: seq<LineItem>)
    ensures 0 <= i < |rows| ==> |r| == |rows| - 1
    ensures !(0 <= i < |rows|) ==> r == rows
    ensures forall j | 0 <= j < |r| :: r[j] == rows[if 0 <= i <= j then j + 1 else j]
  {
    if 0 <= i < |rows| then rows[..i] + rows[i + 1..] else rows
  }

  /** Removing the row just added restores the form. */
  lemma RemoveUndoesAdd(rows: seq<LineItem>)
    ensures RemoveItem(AddItem(rows), |rows|) == rows
  {
    assert AddItem(rows)[..|rows|] == rows;
  }

  /** Removing a row and adding a blank one keeps the number of rows. */
  lemma RemoveThenAddKeepsCount(rows: seq<LineItem>, i: int)
    requires 0 <= i < |rows|
    ensures |AddItem(RemoveItem(rows, i))| == |rows|
  {
  }

  // ─── Running total ─────────────────────────────────────────────

  /** `it.quantity * it.unit_price`, unrounded. */
  function RowAmount(row: LineItem): real {
    row.unitPrice * row.quantity as real
  }

  /** `orderTotal`: the unrounded sum over every row, valid or not. */
  function OrderTotal(rows: seq<LineItem>): real {
    if |rows| == 0 then 0.0 else RowAmount(rows[0]) + OrderTotal(rows[1..])
  }

  // ─── Submitting ────────────────────────────────────────────────

  /** `it.service_id && it.quantity > 0` */
  function IsValidRow(): LineItem -> bool {
    (row: LineItem) => row.serviceId != "" && row.quantity > 0
  }

  /** `items.filter(...)`: the rows that are sent, in form order. Every copy of a valid row
      is sent, so a service added twice is charged twice. */
  function ValidItems(rows: seq<LineItem>): (r: seq<LineItem>)
    ensures Subseq(r, rows)
    ensures forall i | 0 <= i < |r| :: r[i].serviceId != "" && r[i].quantity > 0
    ensures forall x :: multiset(r)[x] == (if x.serviceId != "" && x.quantity > 0 then multiset(rows)[x] else 0)
  {
    var r := Filter(rows, IsValidRow());
    assert forall i | 0 <= i < |r| :: IsValidRow()(r[i]);
    FilterIsSubseq(rows, IsValidRow());
    FilterCounts(rows, IsValidRow());
    r
  }

  /** The rows `handleCreate` leaves behind: no service chosen, or a quantity below one. */
  function IsDroppedRow(): LineItem -> bool {
    (row: LineItem) => !(row.serviceId != "" && row.quantity > 0)
  }

  lemma OrderTotalCons(x: LineItem, t: seq<LineItem>)
    ensures OrderTotal([x] + t) == RowAmount(x) + OrderTotal(t)
  {
    assert ([x] + t)[1..] == t;
  }

  /** The form's running total counts every row, the ones that will not be sent included:
      it is the total of the sent rows plus the total of the dropped ones. */
  lemma {:induction false} OrderTotalSplits(rows: seq<LineItem>)
    ensures OrderTotal(rows) == OrderTotal(Filter(rows, IsValidRow())) + OrderTotal(Filter(rows, IsDroppedRow()))
    decreases |rows|
  {
    if |rows| > 0 {
      var x, t := rows[0], rows[1..];
      OrderTotalSplits(t);
      assert rows == [x] + t;
      OrderTotalCons(x, t);
      FilterCons(x, t, IsValidRow());
      FilterCons(x, t, IsDroppedRow());
      if IsValidRow()(x) {
        OrderTotalCons(x, Filter(t, IsValidRow()));
      } else {
        OrderTotalCons(x, Filter(t, IsDroppedRow()));
      }
    }
  }

  datatype Outcome = Rejected(message: string) | Submitted(payload: CreateOrderPayload)

  /** `handleCreate`: a customer must be chosen and at least one row must be valid; then the
      valid rows are sent with the payment method and notes. */
  function HandleCreate(customerId: string, rows: seq<LineItem>, paymentMethod: PaymentMethod, notes: string): (r: Outcome)
    ensures customerId == "" <==> r == Rejected("Select a customer")
    ensures r == Rejected("Add at least one item") <==>
      customerId != "" && forall i | 0 <= i < |rows| :: !(rows[i].serviceId != "" && rows[i].quantity > 0)
    ensures r.Submitted? <==>
      customerId != "" && exists i | 0 <= i < |rows| :: rows[i].serviceId != "" && rows[i].quantity > 0
    ensures r.Submitted? ==>
      && r.payload.customerId == customerId
      && r.payload.paymentMethod == paymentMethod
      && r.payload.notes == notes
      && 0 < |r.payload.items| <= |rows|
      && Subseq(r.payload.items, rows)
      && (forall i | 0 <= i < |r.payload.items| ::
            r.payload.items[i].serviceId != "" && r.payload.items[i].quantity > 0)
      && (forall i | 0 <= i < |rows| && rows[i].serviceId != "" && rows[i].quantity > 0 ::
            rows[i] in r.payload.items)
    ensures r.Submitted? ==>
      forall x :: multiset(r.payload.items)[x] ==
                  (if x.serviceId != "" && x.quantity > 0 then multiset(rows)[x] else 0)
  {
    if customerId == "" then Rejected("Select a customer")
    else
      var valid := ValidItems(rows);
      if |valid| == 0 then
        assert forall i | 0 <= i < |rows| :: !IsValidRow()(rows[i]);
        Rejected("Add at least one item")
      else
        Submitted(CreateOrderPayload(customerId, valid, paymentMethod, notes))
  }

  /** Rounding one line to cents moves it by at most half a cent. */
  lemma LineGap(item: OrderItem, row: LineItem)
    requires item.total == LineTotal(item.unitPrice, item.quantity)
    requires item.quantity == row.quantity && item.unitPrice == row.unitPrice
    ensures -0.005 <= item.total - RowAmount(row) <= 0.005
  {
    LineTotalNear(row.unitPrice, row.quantity);
  }

  /** The gap between two sums is at most the sum of the gaps. */
  lemma {:induction false} RoundingGap(items: seq<OrderItem>, rows: seq<LineItem>)
    requires |items| == |rows| && LinesPriced(items)
    requires forall i | 0 <= i < |rows| ::
      items[i].quantity == rows[i].quantity && items[i].unitPrice == rows[i].unitPrice
    ensures -0.005 * |rows| as real <= SumItemTotals(items) - OrderTotal(rows) <= 0.005 * |rows| as real
    decreases |rows|
  {
    if |rows| > 0 {
      var n := |rows[1..]| as real;
      assert LinesPriced(items[1..]);
      RoundingGap(items[1..], rows[1..]);
      var g := SumItemTotals(items[1..]) - OrderTotal(rows[1..]);
      assert -0.005 * n <= g <= 0.005 * n;
      LineGap(items[0], rows[0]);
      var h := items[0].total - RowAmount(rows[0]);
      assert SumItemTotals(items) - OrderTotal(rows) == h + g;
      assert |rows| as real == n + 1.0;
    }
  }

  /** The total the form shows for the rows it sends differs from the total the ledger
      charges by at most half a cent per row: the ledger rounds each line to cents. */
  lemma PreviewWithinHalfCentPerRow(s: Store, customerId: string, rows: seq<LineItem>,
                                    paymentMethod: PaymentMethod, notes: string, now: Clock)
    requires HandleCreate(customerId, rows, paymentMethod, notes).Submitted?
    requires ServicesKnown(s.services, HandleCreate(customerId, rows, paymentMethod, notes).payload.items)
    ensures var sent := ValidItems(rows);
      var o := NewOrder(s, HandleCreate(customerId, rows, paymentMethod, notes).payload, now);
      -0.005 * |sent| as real <= o.total - OrderTotal(sent) <= 0.005 * |sent| as real
  {
    var p := HandleCreate(customerId, rows, paymentMethod, notes).payload;
    var o := NewOrder(s, p, now);
    assert p.items == ValidItems(rows);
    NewOrderLines(s, p, now);
    RoundingGap(o.items, p.items);
  }

  /** When every row is valid, all of them are sent. */
  lemma AllValidRowsAreSent(rows: seq<LineItem>)
    requires forall i | 0 <= i < |rows| :: rows[i].serviceId != "" && rows[i].quantity > 0
    ensures ValidItems(rows) == rows
  {
    assert forall i | 0 <= i < |rows| :: IsValidRow()(rows[i]);
    FilterAll(rows, IsValidRow());
  }

  // ─── Order list filter ─────────────────────────────────────────

  /** The invoice number or the customer name holds the search text, ignoring letter case. */
  predicate MatchesSearch(o: Order, search: string) {
    Contains(ToLower(o.invoiceNo), ToLower(search)) || Contains(ToLower(o.customerName), ToLower(search))
  }

  /** `statusFilter === "all" || o.status === statusFilter` */
  predicate MatchesStatus(o: Order, statusFilter: string) {
    statusFilter == "all" || StatusName(o.status) == statusFilter
  }

  function Shown(search: string, statusFilter: string): Order -> bool {
    (o: Order) => MatchesSearch(o, search) && MatchesStatus(o, statusFilter)
  }

  /** `filtered`: the orders that match both, in list order. */
  function FilterOrders(os: seq<Order>, search: string, statusFilter: string): (r: seq<Order>)
    ensures Subseq(r, os)
    ensures forall i | 0 <= i < |r| :: MatchesSearch(r[i], search) && MatchesStatus(r[i], statusFilter)
    ensures forall i | 0 <= i < |os| && MatchesSearch(os[i], search) && MatchesStatus(os[i], statusFilter) ::
      os[i] in r
    ensures forall o :: multiset(r)[o] ==
                        (if MatchesSearch(o, search) && MatchesStatus(o, statusFilter) then multiset(os)[o] else 0)
  {
    var r := Filter(os, Shown(search, statusFilter));
    assert forall i | 0 <= i < |r| :: Shown(search, statusFilter)(r[i]);
    FilterIsSubseq(os, Shown(search, statusFilter));
    FilterCounts(os, Shown(search, statusFilter));
    r
  }

  /** The empty needle occurs in every haystack. */
  lemma ContainsEmpty(hay: string)
    ensures Contains(hay, "")
  {
    assert HasPrefix(hay, "");
  }

  /** With no search text and the "all" filter, the whole list is shown. */
  lemma NoFilterShowsAll(os: seq<Order>)
    ensures FilterOrders(os, "", "all") == os
  {
    forall i | 0 <= i < |os| ensures Shown("", "all")(os[i]) {
      ContainsEmpty(ToLower(os[i].invoiceNo));
      assert ToLower("") == "";
    }
    FilterAll(os, Shown("", "all"));
  }

  /** Selecting a status shows orders of that status only. */
  lemma StatusFilterSelects(os: seq<Order>, search: string, status: OrderStatus)
    ensures forall i | 0 <= i < |FilterOrders(os, search, StatusName(status))| ::
      FilterOrders(os, search, StatusName(status))[i].status == status
  {
  }

  /** A status filter that is neither "all" nor a status name shows nothing. */
  lemma UnknownStatusShowsNothing(os: seq<Order>, search: string, statusFilter: string)
    requires statusFilter != "all"
    requires forall st: OrderStatus :: StatusName(st) != statusFilter
    ensures FilterOrders(os, search, statusFilter) == []
  {
    assert forall i | 0 <= i < |os| :: !Shown(search, statusFilter)(os[i]);
  }

  /** Lower-casing is idempotent. */
  lemma ToLowerIdempotent(s: string)
    ensures ToLower(ToLower(s)) == ToLower(s)
  {
  }

  /** The search ignores the letter case of what is typed. */
  lemma SearchIgnoresCase(os: seq<Order>, search: string, statusFilter: string)
    ensures FilterOrders(os, ToLower(search), statusFilter) == FilterOrders(os, search, statusFilter)
  {
    ToLowerIdempotent(search);
    FilterAgree(os, Shown(ToLower(search), statusFilter), Shown(search, statusFilter));
  }
}

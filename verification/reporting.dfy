/** The three report scans of src/services/mock-data.ts. Each re-reads the whole ledger;
    cancelled orders never count. Calendar days are integers: "today" is an argument, and
    `dayLabel` stands for the `MMM dd` formatting of a day. */
module Reporting {
  import opened Seqs
  import opened Money
  import opened Types
  import opened Ledger

  // ─── Shared scans ──────────────────────────────────────────────

  /** The test `<created that day> && o.status !== "cancelled"`. */
  function CountsOn(day: int): Order -> bool {
    (o: Order) => o.createdDay == day && o.status != Cancelled
  }

  /** The orders a report counts for a day, in ledger order. */
  function OrdersOn(os: seq<Order>, day: int): seq<Order> {
    Filter(os, CountsOn(day))
  }

  function NotCancelled(): Order -> bool {
    (o: Order) => o.status != Cancelled
  }

  /** `orders.reduce((s, o) => s + o.total, 0)` */
  function SumTotals(os: seq<Order>): real {
    if |os| == 0 then 0.0 else os[0].total + SumTotals(os[1..])
  }

  // ─── getDashboardMetrics ───────────────────────────────────────

  /** `getDashboardMetrics`: today's non-cancelled orders, their rounded revenue, the size of
      the roster, and the rounded mean of the unrounded revenue (0 when there are no orders). */
  function Metrics(s: Store, today: int): (m: DashboardMetrics)
    ensures m.activeCustomers == |s.customers|
    ensures m.ordersToday == |OrdersOn(s.orders, today)|
    ensures m.ordersToday == 0 ==> m.revenueToday == 0.0 && m.avgOrderValue == 0.0
    ensures IsCents(m.revenueToday) && IsCents(m.avgOrderValue)
  {
    var todays := OrdersOn(s.orders, today);
    var revenue := SumTotals(todays);
    DashboardMetrics(Round2(revenue), |todays|, |s.customers|,
                     if |todays| > 0 then Round2(revenue / |todays| as real) else 0.0)
  }

  /** The average order value differs from the exact mean of today's totals by at most
      half a cent. */
  lemma AverageWithinHalfCent(s: Store, today: int)
    requires |OrdersOn(s.orders, today)| > 0
    ensures var m := Metrics(s, today);
      var mean := SumTotals(OrdersOn(s.orders, today)) / m.ordersToday as real;
      -0.005 <= m.avgOrderValue - mean <= 0.005
  {
    var todays := OrdersOn(s.orders, today);
    RoundWithinHalfCent(SumTotals(todays) / |todays| as real);
  }

  // ─── getDailyRevenue ───────────────────────────────────────────

  /** One point of the series: the day's label, rounded revenue and order count. */
  function DayReport(os: seq<Order>, day: int, dayLabel: int -> string): (r: DailyReport)
    ensures r.date == dayLabel(day)
    ensures r.orders <= |os|
    ensures IsCents(r.revenue)
    ensures -0.005 <= r.revenue - SumTotals(OrdersOn(os, day)) <= 0.005
  {
    var dayOrders := OrdersOn(os, day);
    DailyReport(dayLabel(day), Round2(SumTotals(dayOrders)), |dayOrders|)
  }

  /** `getDailyRevenue(days)`: exactly `days` points (none when `days <= 0`), oldest first;
      point `k` is the day `today - days + 1 + k`, with gaps filled by zero points. */
  function DailyRevenue(s: Store, today: int, days: int, dayLabel: int -> string): (r: seq<DailyReport>)
    ensures |r| == if days <= 0 then 0 else days
    ensures forall k | 0 <= k < |r| :: r[k] == DayReport(s.orders, today - days + 1 + k, dayLabel)
  {
    if days <= 0 then []
    else
      var r := seq(days, k requires 0 <= k < days => DayReport(s.orders, today - days + 1 + k, dayLabel));
      assert forall k | 0 <= k < days :: r[k] == DayReport(s.orders, today - days + 1 + k, dayLabel);
      r
  }

  /** The dashboard's figures for today are the last point of any daily series ending today. */
  lemma MetricsAgreeWithSeries(s: Store, today: int, days: int, dayLabel: int -> string)
    requires days >= 1
    ensures var m := Metrics(s, today);
      var last := DailyRevenue(s, today, days, dayLabel)[days - 1];
      && last.date == dayLabel(today)
      && m.revenueToday == last.revenue
      && m.ordersToday == last.orders
  {
  }

  // ─── getServiceDistribution ────────────────────────────────────

  /** The lines of all non-cancelled orders, ledger order then line order. */
  function ActiveItems(os: seq<Order>): seq<OrderItem> {
    if |os| == 0 then []
    else (if os[0].status != Cancelled then os[0].items else []) + ActiveItems(os[1..])
  }

  /** One entry of the accumulator map: quantity and unrounded revenue under one name. */
  datatype Bucket = Bucket(name: string, quantity: int, revenue: real)

  function HasName(name: string): Bucket -> bool {
    (b: Bucket) => b.name == name
  }

  function UsesName(name: string): OrderItem -> bool {
    (it: OrderItem) => it.serviceName == name
  }

  /** Where the accumulator keeps the entry for a name, or `|bs|`. */
  function NameIndex(bs: seq<Bucket>, name: string): (k: nat)
    ensures k <= |bs|
    ensures k < |bs| ==> bs[k].name == name
    ensures forall j :: 0 <= j < k ==> bs[j].name != name
  {
    IndexWhere(bs, HasName(name))
  }

  /** The index of the first line recorded under the name, or `|items|`. */
  function FirstUse(items: seq<OrderItem>, name: string): (k: nat)
    ensures k <= |items|
    ensures k < |items| ==> items[k].serviceName == name
    ensures forall j :: 0 <= j < k ==> items[j].serviceName != name
  {
    IndexWhere(items, UsesName(name))
  }

  lemma FirstUseAppend(init: seq<OrderItem>, x: OrderItem, name: string)
    ensures FirstUse(init + [x], name) ==
      if FirstUse(init, name) < |init| then FirstUse(init, name)
      else if x.serviceName == name then |init| else |init| + 1
  {
    IndexWhereAppend(init, x, UsesName(name));
  }

  /** The body of the `forEach`: create the entry on first sight, then add. */
  function Bump(bs: seq<Bucket>, it: OrderItem): seq<Bucket> {
    var k := NameIndex(bs, it.serviceName);
    if k < |bs| then bs[k := Bucket(bs[k].name, bs[k].quantity + it.quantity, bs[k].revenue + it.total)]
    else bs + [Bucket(it.serviceName, it.quantity, it.total)]
  }

  /** The accumulator after visiting the lines in order; `Object.entries` lists the entries
      in insertion order. */
  function Buckets(items: seq<OrderItem>): seq<Bucket>
    decreases |items|
  {
    if |items| == 0 then [] else Bump(Buckets(items[..|items| - 1]), items[|items| - 1])
  }

  /** Reference sums: the quantity and revenue of the lines recorded under a name. */
  function QuantityOf(items: seq<OrderItem>, name: string): int
    decreases |items|
  {
    if |items| == 0 then 0
    else QuantityOf(items[..|items| - 1], name) +
         (if items[|items| - 1].serviceName == name then items[|items| - 1].quantity else 0)
  }

  function RevenueOf(items: seq<OrderItem>, name: string): real
    decreases |items|
  {
    if |items| == 0 then 0.0
    else RevenueOf(items[..|items| - 1], name) +
         (if items[|items| - 1].serviceName == name then items[|items| - 1].total else 0.0)
  }

  lemma {:induction false} UnusedNameSumsToZero(items: seq<OrderItem>, name: string)
    requires FirstUse(items, name) == |items|
    ensures QuantityOf(items, name) == 0 && RevenueOf(items, name) == 0.0
    decreases |items|
  {
    if |items| > 0 {
      var init := items[..|items| - 1];
      assert forall j | 0 <= j < |init| :: init[j] == items[j];
      UnusedNameSumsToZero(init, name);
    }
  }

  /** Every entry's name is the name of some line. */
  predicate NamesUsed(items: seq<OrderItem>, bs: seq<Bucket>) {
    forall k | 0 <= k < |bs| :: FirstUse(items, bs[k].name) < |items|
  }

  /** Every line's name has an entry. */
  predicate NamesCovered(items: seq<OrderItem>, bs: seq<Bucket>) {
    forall i | 0 <= i < |items| :: NameIndex(bs, items[i].serviceName) < |bs|
  }

  /** Entries are in order of the names' first appearance, hence pairwise distinct. */
  predicate FirstSeenOrder(items: seq<OrderItem>, bs: seq<Bucket>) {
    forall k, l | 0 <= k < l < |bs| :: FirstUse(items, bs[k].name) < FirstUse(items, bs[l].name)
  }

  /** Every entry carries the reference sums of its name. */
  predicate SumsMatch(items: seq<OrderItem>, bs: seq<Bucket>) {
    forall k | 0 <= k < |bs| ::
      bs[k].quantity == QuantityOf(items, bs[k].name) && bs[k].revenue == RevenueOf(items, bs[k].name)
  }

  predicate Summarises(items: seq<OrderItem>, bs: seq<Bucket>) {
    NamesUsed(items, bs) && NamesCovered(items, bs) && FirstSeenOrder(items, bs) && SumsMatch(items, bs)
  }

  lemma NameIndexAtMost(bs: seq<Bucket>, j: nat, name: string)
    requires j < |bs| && bs[j].name == name
    ensures NameIndex(bs, name) <= j
  {
  }

  /** The reference sums after one more line. */
  lemma SumsAppend(init: seq<OrderItem>, x: OrderItem, name: string)
    ensures QuantityOf(init + [x], name) == QuantityOf(init, name) + (if x.serviceName == name then x.quantity else 0)
    ensures RevenueOf(init + [x], name) == RevenueOf(init, name) + (if x.serviceName == name then x.total else 0.0)
  {
    assert (init + [x])[..|init|] == init;
  }

  /** Names already seen keep their first use when a line is appended. */
  lemma FirstUsesKept(init: seq<OrderItem>, x: OrderItem, bs: seq<Bucket>)
    requires NamesUsed(init, bs)
    ensures forall l | 0 <= l < |bs| :: FirstUse(init + [x], bs[l].name) == FirstUse(init, bs[l].name)
  {
    forall l | 0 <= l < |bs| ensures FirstUse(init + [x], bs[l].name) == FirstUse(init, bs[l].name) {
      FirstUseAppend(init, x, bs[l].name);
    }
  }

  /** Entries whose names were already covered stay findable when the names are kept. */
  lemma CoveredWhenNamesKept(init: seq<OrderItem>, x: OrderItem, bs: seq<Bucket>, bs': seq<Bucket>)
    requires NamesCovered(init, bs)
    requires |bs| <= |bs'| && forall l | 0 <= l < |bs| :: bs'[l].name == bs[l].name
    requires NameIndex(bs', x.serviceName) < |bs'|
    ensures NamesCovered(init + [x], bs')
  {
    var items := init + [x];
    forall i | 0 <= i < |items| ensures NameIndex(bs', items[i].serviceName) < |bs'| {
      if i < |init| {
        assert items[i] == init[i];
        var j := NameIndex(bs, init[i].serviceName);
        NameIndexAtMost(bs', j, init[i].serviceName);
      }
    }
  }

  /** Keeping the names of the old entries, in the same places, keeps their order of first use. */
  lemma OrderWhenNamesKept(init: seq<OrderItem>, x: OrderItem, bs: seq<Bucket>, bs': seq<Bucket>)
    requires NamesUsed(init, bs) && FirstSeenOrder(init, bs)
    requires |bs| <= |bs'| <= |bs| + 1 && forall l | 0 <= l < |bs| :: bs'[l].name == bs[l].name
    requires |bs'| == |bs| + 1 ==> bs'[|bs|].name == x.serviceName && FirstUse(init, x.serviceName) == |init|
    ensures NamesUsed(init + [x], bs') && FirstSeenOrder(init + [x], bs')
  {
    FirstUsesKept(init, x, bs);
    FirstUseAppend(init, x, x.serviceName);
  }

  /** A line whose name already has an entry only changes that entry's sums. */
  lemma KnownNameSums(init: seq<OrderItem>, x: OrderItem, bs: seq<Bucket>)
    requires NamesUsed(init, bs) && FirstSeenOrder(init, bs) && SumsMatch(init, bs)
    requires NameIndex(bs, x.serviceName) < |bs|
    ensures SumsMatch(init + [x], Bump(bs, x))
  {
    var k := NameIndex(bs, x.serviceName);
    var bs' := Bump(bs, x);
    forall l | 0 <= l < |bs'|
      ensures bs'[l].quantity == QuantityOf(init + [x], bs'[l].name)
      ensures bs'[l].revenue == RevenueOf(init + [x], bs'[l].name)
    {
      SumsAppend(init, x, bs[l].name);
      assert l != k ==> FirstUse(init, bs[l].name) != FirstUse(init, bs[k].name);
    }
  }

  lemma BumpKnownName(init: seq<OrderItem>, x: OrderItem, bs: seq<Bucket>)
    requires Summarises(init, bs)
    requires NameIndex(bs, x.serviceName) < |bs|
    ensures Summarises(init + [x], Bump(bs, x))
  {
    var k := NameIndex(bs, x.serviceName);
    var bs' := Bump(bs, x);
    assert |bs'| == |bs| && forall l | 0 <= l < |bs| :: bs'[l].name == bs[l].name;
    OrderWhenNamesKept(init, x, bs, bs');
    NameIndexAtMost(bs', k, x.serviceName);
    CoveredWhenNamesKept(init, x, bs, bs');
    KnownNameSums(init, x, bs);
  }

  /** A line with a new name appends an entry holding just that line. */
  lemma NewNameSums(init: seq<OrderItem>, x: OrderItem, bs: seq<Bucket>)
    requires SumsMatch(init, bs)
    requires NameIndex(bs, x.serviceName) == |bs|
    requires FirstUse(init, x.serviceName) == |init|
    ensures SumsMatch(init + [x], Bump(bs, x))
  {
    var bs' := Bump(bs, x);
    UnusedNameSumsToZero(init, x.serviceName);
    forall l | 0 <= l < |bs'|
      ensures bs'[l].quantity == QuantityOf(init + [x], bs'[l].name)
      ensures bs'[l].revenue == RevenueOf(init + [x], bs'[l].name)
    {
      SumsAppend(init, x, bs'[l].name);
    }
  }

  lemma BumpNewName(init: seq<OrderItem>, x: OrderItem, bs: seq<Bucket>)
    requires Summarises(init, bs)
    requires NameIndex(bs, x.serviceName) == |bs|
    ensures Summarises(init + [x], Bump(bs, x))
  {
    var bs' := Bump(bs, x);
    assert bs' == bs + [Bucket(x.serviceName, x.quantity, x.total)];
    assert FirstUse(init, x.serviceName) < |init| ==> NameIndex(bs, x.serviceName) < |bs|;
    OrderWhenNamesKept(init, x, bs, bs');
    NameIndexAtMost(bs', |bs|, x.serviceName);
    CoveredWhenNamesKept(init, x, bs, bs');
    NewNameSums(init, x, bs);
  }

  /** The accumulator holds one entry per distinct name, in order of first appearance, each
      with the quantity and unrounded revenue of that name's lines. */
  lemma {:induction false} BucketsSummarise(items: seq<OrderItem>)
    ensures Summarises(items, Buckets(items))
    decreases |items|
  {
    if |items| > 0 {
      var init := items[..|items| - 1];
      var x := items[|items| - 1];
      assert items == init + [x];
      BucketsSummarise(init);
      if NameIndex(Buckets(init), x.serviceName) < |Buckets(init)| {
        BumpKnownName(init, x, Buckets(init));
      } else {
        BumpNewName(init, x, Buckets(init));
      }
    }
  }

  /** The rounded report entry of an accumulator entry. */
  function ToReport(b: Bucket): ServiceReport {
    ServiceReport(b.name, b.quantity, Round2(b.revenue))
  }

  function ToReports(bs: seq<Bucket>): (r: seq<ServiceReport>)
    ensures |r| == |bs|
    ensures forall k | 0 <= k < |bs| :: r[k] == ToReport(bs[k])
  {
    seq(|bs|, k requires 0 <= k < |bs| => ToReport(bs[k]))
  }

  predicate SortedByRevenueDesc(r: seq<ServiceReport>) {
    forall i, j | 0 <= i < j < |r| :: r[i].revenue >= r[j].revenue
  }

  /** Insert `x` in front of the first entry whose revenue does not exceed its own, so that
      it stays ahead of the equal entries that came after it in the input. */
  function InsertDesc(x: ServiceReport, t: seq<ServiceReport>): (r: seq<ServiceReport>)
    ensures |r| == |t| + 1
    ensures multiset(r) == multiset(t) + multiset{x}
  {
    if |t| == 0 || t[0].revenue <= x.revenue then [x] + t
    else
      assert t == [t[0]] + t[1..];
      [t[0]] + InsertDesc(x, t[1..])
  }

  /** Every entry after insertion is the inserted one or came from the input. */
  lemma InsertDescMember(x: ServiceReport, t: seq<ServiceReport>, i: nat)
    requires i < |t| + 1
    ensures InsertDesc(x, t)[i] == x || InsertDesc(x, t)[i] in t
  {
    var r := InsertDesc(x, t);
    assert r[i] in multiset(r);
  }

  lemma {:induction false} InsertDescKeepsSorted(x: ServiceReport, t: seq<ServiceReport>)
    requires SortedByRevenueDesc(t)
    ensures SortedByRevenueDesc(InsertDesc(x, t))
    decreases |t|
  {
    if |t| > 0 && t[0].revenue > x.revenue {
      var rest := InsertDesc(x, t[1..]);
      InsertDescKeepsSorted(x, t[1..]);
      var r := InsertDesc(x, t);
      assert r == [t[0]] + rest;
      forall i, j | 0 <= i < j < |r| ensures r[i].revenue >= r[j].revenue {
        if i == 0 {
          InsertDescMember(x, t[1..], j - 1);
          if rest[j - 1] != x {
            var m :| 0 <= m < |t[1..]| && t[1..][m] == rest[j - 1];
            assert t[m + 1] == r[j];
          }
        } else {
          assert r[i] == rest[i - 1] && r[j] == rest[j - 1];
        }
      }
    }
  }

  /** `.sort((a, b) => b.revenue - a.revenue)`: sorted by revenue, highest first, and a
      permutation of its input. */
  function SortDesc(s: seq<ServiceReport>): (r: seq<ServiceReport>)
    ensures |r| == |s|
    ensures multiset(r) == multiset(s)
    ensures SortedByRevenueDesc(r)
  {
    if |s| == 0 then []
    else
      assert s == [s[0]] + s[1..];
      InsertDescKeepsSorted(s[0], SortDesc(s[1..]));
      InsertDesc(s[0], SortDesc(s[1..]))
  }

  /** Among entries of equal revenue, `rank` increases along the sequence. */
  predicate TiesByRank(r: seq<ServiceReport>, rank: ServiceReport -> int) {
    forall i, j | 0 <= i < j < |r| && r[i].revenue == r[j].revenue :: rank(r[i]) < rank(r[j])
  }

  lemma {:induction false} InsertDescKeepsTies(x: ServiceReport, t: seq<ServiceReport>, rank: ServiceReport -> int)
    requires TiesByRank(t, rank)
    requires forall j | 0 <= j < |t| :: rank(x) < rank(t[j])
    ensures TiesByRank(InsertDesc(x, t), rank)
    decreases |t|
  {
    if |t| > 0 && t[0].revenue > x.revenue {
      var rest := InsertDesc(x, t[1..]);
      InsertDescKeepsTies(x, t[1..], rank);
      var r := InsertDesc(x, t);
      assert r == [t[0]] + rest;
      forall i, j | 0 <= i < j < |r| && r[i].revenue == r[j].revenue ensures rank(r[i]) < rank(r[j]) {
        if i == 0 {
          InsertDescMember(x, t[1..], j - 1);
          if rest[j - 1] != x {
            var m :| 0 <= m < |t[1..]| && t[1..][m] == rest[j - 1];
            assert t[m + 1] == r[j];
          }
        } else {
          assert r[i] == rest[i - 1] && r[j] == rest[j - 1];
        }
      }
    }
  }

  /** Stability: when `rank` increases along the input, entries of equal revenue come out
      in increasing rank, that is, in their input order. */
  lemma {:induction false} SortDescKeepsTies(s: seq<ServiceReport>, rank: ServiceReport -> int)
    requires forall i, j | 0 <= i < j < |s| :: rank(s[i]) < rank(s[j])
    ensures TiesByRank(SortDesc(s), rank)
    decreases |s|
  {
    if |s| > 0 {
      var t := SortDesc(s[1..]);
      SortDescKeepsTies(s[1..], rank);
      forall j | 0 <= j < |t| ensures rank(s[0]) < rank(t[j]) {
        assert t[j] in multiset(s[1..]);
        var m :| 0 <= m < |s[1..]| && s[1..][m] == t[j];
        assert s[m + 1] == t[j];
      }
      InsertDescKeepsTies(s[0], t, rank);
    }
  }

  /** `getServiceDistribution`. */
  function ServiceDistribution(s: Store): (r: seq<ServiceReport>)
    ensures |r| == |Buckets(ActiveItems(s.orders))|
    ensures SortedByRevenueDesc(r)
  {
    SortDesc(ToReports(Buckets(ActiveItems(s.orders))))
  }

  /** The rank the distribution breaks revenue ties by: where the name first appears. */
  function FirstUseRank(items: seq<OrderItem>): ServiceReport -> int {
    (e: ServiceReport) => FirstUse(items, e.serviceName)
  }

  /** Before sorting, the entries carry the reference sums of names that are in use. */
  lemma UnsortedSums(items: seq<OrderItem>)
    ensures var u := ToReports(Buckets(items));
      forall k | 0 <= k < |u| ::
        && FirstUse(items, u[k].serviceName) < |items|
        && u[k].quantity == QuantityOf(items, u[k].serviceName)
        && u[k].revenue == Round2(RevenueOf(items, u[k].serviceName))
  {
    BucketsSummarise(items);
  }

  /** Before sorting, the entries are in order of first use. */
  lemma UnsortedRanked(items: seq<OrderItem>, i: nat, j: nat)
    requires i < j < |Buckets(items)|
    ensures FirstUse(items, Buckets(items)[i].name) < FirstUse(items, Buckets(items)[j].name)
  {
    BucketsSummarise(items);
  }

  /** Before sorting, every line's name has an entry. */
  lemma UnsortedCovers(items: seq<OrderItem>, i: nat)
    requires i < |items|
    ensures NameIndex(Buckets(items), items[i].serviceName) < |Buckets(items)|
  {
    BucketsSummarise(items);
  }

  /** A permutation has the same elements. */
  lemma SameElements(u: seq<ServiceReport>, d: seq<ServiceReport>)
    requires multiset(u) == multiset(d)
    ensures forall j | 0 <= j < |u| :: u[j] in d
    ensures forall k | 0 <= k < |d| :: d[k] in u
  {
    forall j | 0 <= j < |u| ensures u[j] in d {
      assert u[j] in multiset(u);
    }
    forall k | 0 <= k < |d| ensures d[k] in u {
      assert d[k] in multiset(d);
    }
  }

  /** The sorted entries, each one an entry of the unsorted list. */
  lemma SortedEntriesSummarise(items: seq<OrderItem>)
    ensures var d := SortDesc(ToReports(Buckets(items)));
      forall k | 0 <= k < |d| ::
        && FirstUse(items, d[k].serviceName) < |items|
        && d[k].quantity == QuantityOf(items, d[k].serviceName)
        && d[k].revenue == Round2(RevenueOf(items, d[k].serviceName))
  {
    var u := ToReports(Buckets(items));
    var d := SortDesc(u);
    UnsortedSums(items);
    SameElements(u, d);
  }

  /** Some entry reports the name. */
  predicate Lists(d: seq<ServiceReport>, name: string) {
    exists k | 0 <= k < |d| :: d[k].serviceName == name
  }

  /** A permutation keeps every name. */
  lemma NameSurvives(u: seq<ServiceReport>, d: seq<ServiceReport>, j: nat)
    requires multiset(u) == multiset(d)
    requires j < |u|
    ensures Lists(d, u[j].serviceName)
  {
    assert u[j] in multiset(d);
    var k :| 0 <= k < |d| && d[k] == u[j];
  }

  /** Sorting entries with distinct names, stably, keeps the names distinct. */
  lemma NamesStayDistinct(u: seq<ServiceReport>, d: seq<ServiceReport>, rank: ServiceReport -> int)
    requires multiset(u) == multiset(d)
    requires forall i, j | 0 <= i < j < |u| :: u[i].serviceName != u[j].serviceName
    requires TiesByRank(d, rank)
    ensures forall k, l | 0 <= k < l < |d| :: d[k].serviceName != d[l].serviceName
  {
    SameElements(u, d);
    forall k, l | 0 <= k < l < |d| ensures d[k].serviceName != d[l].serviceName {
      var a :| 0 <= a < |u| && u[a] == d[k];
      var b :| 0 <= b < |u| && u[b] == d[l];
      assert d[k].serviceName == d[l].serviceName ==> a == b;
    }
  }

  /** Every line's name survives the sort. */
  lemma SortedEntriesCover(items: seq<OrderItem>)
    ensures var d := SortDesc(ToReports(Buckets(items)));
      forall i | 0 <= i < |items| :: Lists(d, items[i].serviceName)
  {
    var bs := Buckets(items);
    var u := ToReports(bs);
    var d := SortDesc(u);
    forall i | 0 <= i < |items| ensures Lists(d, items[i].serviceName) {
      UnsortedCovers(items, i);
      var j := NameIndex(bs, items[i].serviceName);
      NameSurvives(u, d, j);
    }
  }

  /** Ties keep first-use order, and no name appears twice. */
  lemma SortedEntriesDistinct(items: seq<OrderItem>)
    ensures var d := SortDesc(ToReports(Buckets(items)));
      && (forall k, l | 0 <= k < l < |d| && d[k].revenue == d[l].revenue ::
            FirstUse(items, d[k].serviceName) < FirstUse(items, d[l].serviceName))
      && (forall k, l | 0 <= k < l < |d| :: d[k].serviceName != d[l].serviceName)
  {
    var u := ToReports(Buckets(items));
    var rank := FirstUseRank(items);
    forall i, j | 0 <= i < j < |u| ensures rank(u[i]) < rank(u[j]) && u[i].serviceName != u[j].serviceName {
      UnsortedRanked(items, i, j);
      assert rank(u[i]) == FirstUse(items, u[i].serviceName);
      assert rank(u[j]) == FirstUse(items, u[j].serviceName);
    }
    SortDescKeepsTies(u, rank);
    NamesStayDistinct(u, SortDesc(u), rank);
  }

  /** `getServiceDistribution` reports each service name of the non-cancelled orders' lines
      exactly once, with the total quantity and rounded total revenue of those lines, sorted
      by revenue with the highest first, and equal revenues in order of first appearance. */
  lemma ServiceDistributionSummarises(s: Store)
    ensures var d := ServiceDistribution(s);
      var items := ActiveItems(s.orders);
      && SortedByRevenueDesc(d)
      && (forall k | 0 <= k < |d| ::
            && FirstUse(items, d[k].serviceName) < |items|
            && d[k].quantity == QuantityOf(items, d[k].serviceName)
            && d[k].revenue == Round2(RevenueOf(items, d[k].serviceName)))
      && (forall i | 0 <= i < |items| :: Lists(d, items[i].serviceName))
      && (forall k, l | 0 <= k < l < |d| :: d[k].serviceName != d[l].serviceName)
      && (forall k, l | 0 <= k < l < |d| && d[k].revenue == d[l].revenue ::
            FirstUse(items, d[k].serviceName) < FirstUse(items, d[l].serviceName))
  {
    SortedEntriesSummarise(ActiveItems(s.orders));
    SortedEntriesCover(ActiveItems(s.orders));
    SortedEntriesDistinct(ActiveItems(s.orders));
  }

  /** Cancelled orders add nothing to the distribution's lines. */
  lemma {:induction false} ActiveItemsSkipCancelled(os: seq<Order>)
    ensures ActiveItems(os) == ActiveItems(Filter(os, NotCancelled()))
    decreases |os|
  {
    if |os| > 0 {
      ActiveItemsSkipCancelled(os[1..]);
      assert os == [os[0]] + os[1..];
      FilterCons(os[0], os[1..], NotCancelled());
      var f := Filter(os[1..], NotCancelled());
      if os[0].status != Cancelled {
        assert ([os[0]] + f)[1..] == f;
      }
    }
  }

  /** Lines of two ledgers side by side are the lines of each, in order. */
  lemma {:induction false} ActiveItemsAppend(a: seq<Order>, b: seq<Order>)
    ensures ActiveItems(a + b) == ActiveItems(a) + ActiveItems(b)
    decreases |a|
  {
    if |a| == 0 {
      assert a + b == b;
    } else {
      assert (a + b)[1..] == a[1..] + b;
      ActiveItemsAppend(a[1..], b);
    }
  }

  // ─── How ledger edits show up in the reports ───────────────────

  /** A new order is pending and dated today: it joins today's figures and no other day's. */
  lemma CreateOrderCountsToday(s: Store, data: CreateOrderPayload, now: Clock, day: int)
    requires ServicesKnown(s.services, data.items)
    ensures var (s', o) := CreateOrder(s, data, now);
      && OrdersOn(s'.orders, day) == (if day == now.day then [o] else []) + OrdersOn(s.orders, day)
      && SumTotals(OrdersOn(s'.orders, day)) == (if day == now.day then o.total else 0.0) + SumTotals(OrdersOn(s.orders, day))
      && Metrics(s', day).activeCustomers == Metrics(s, day).activeCustomers
      && ActiveItems(s'.orders) == o.items + ActiveItems(s.orders)
  {
    var (s', o) := CreateOrder(s, data, now);
    PrependOrder(o, s.orders, day);
    assert CountsOn(day)(o) <==> day == now.day;
  }

  /** An order put in front of the ledger joins its day's figures, and its lines join the
      distribution, unless it is cancelled. */
  lemma PrependOrder(o: Order, os: seq<Order>, day: int)
    ensures OrdersOn([o] + os, day) == (if CountsOn(day)(o) then [o] else []) + OrdersOn(os, day)
    ensures SumTotals(OrdersOn([o] + os, day)) == (if CountsOn(day)(o) then o.total else 0.0) + SumTotals(OrdersOn(os, day))
    ensures ActiveItems([o] + os) == (if o.status != Cancelled then o.items else []) + ActiveItems(os)
  {
    FilterCons(o, os, CountsOn(day));
    assert ([o] + os)[1..] == os;
    if CountsOn(day)(o) {
      assert ([o] + OrdersOn(os, day))[1..] == OrdersOn(os, day);
    }
  }

  /** Pointwise, `os'` is `os` with every order carrying the id cancelled. */
  predicate CancelledIn(os: seq<Order>, os': seq<Order>, id: string) {
    && |os'| == |os|
    && forall i | 0 <= i < |os| :: os'[i] == (if os[i].id == id then os[i].(status := Cancelled) else os[i])
  }

  lemma {:induction false} CancelLikeDeleteOrders(os: seq<Order>, os': seq<Order>, id: string, day: int)
    requires CancelledIn(os, os', id)
    ensures OrdersOn(os', day) == OrdersOn(KeepOrder(os, id), day)
    decreases |os|
  {
    if |os| > 0 {
      assert CancelledIn(os[1..], os'[1..], id);
      CancelLikeDeleteOrders(os[1..], os'[1..], id, day);
      assert os == [os[0]] + os[1..] && os' == [os'[0]] + os'[1..];
      FilterCons(os'[0], os'[1..], CountsOn(day));
      if os[0].id != id {
        assert KeepOrder(os, id) == [os[0]] + KeepOrder(os[1..], id);
        FilterCons(os[0], KeepOrder(os[1..], id), CountsOn(day));
      }
    }
  }

  lemma {:induction false} CancelLikeDeleteItems(os: seq<Order>, os': seq<Order>, id: string)
    requires CancelledIn(os, os', id)
    ensures ActiveItems(os') == ActiveItems(KeepOrder(os, id))
    decreases |os|
  {
    if |os| > 0 {
      assert CancelledIn(os[1..], os'[1..], id);
      CancelLikeDeleteItems(os[1..], os'[1..], id);
      if os[0].id != id {
        assert KeepOrder(os, id) == [os[0]] + KeepOrder(os[1..], id);
        assert ([os[0]] + KeepOrder(os[1..], id))[1..] == KeepOrder(os[1..], id);
      }
    }
  }

  /** For every report, cancelling an order is the same as deleting it. */
  lemma CancelLooksLikeDelete(s: Store, id: string, today: int, days: int, dayLabel: int -> string)
    ensures var cancelled := UpdateOrderStatus(s, id, Cancelled).0;
      var deleted := DeleteOrder(s, id);
      && Metrics(cancelled, today) == Metrics(deleted, today)
      && DailyRevenue(cancelled, today, days, dayLabel) == DailyRevenue(deleted, today, days, dayLabel)
      && ServiceDistribution(cancelled) == ServiceDistribution(deleted)
  {
    var cancelled := UpdateOrderStatus(s, id, Cancelled).0;
    var deleted := DeleteOrder(s, id);
    assert CancelledIn(s.orders, cancelled.orders, id);
    forall day: int ensures OrdersOn(cancelled.orders, day) == OrdersOn(deleted.orders, day) {
      CancelLikeDeleteOrders(s.orders, cancelled.orders, id, day);
    }
    CancelLikeDeleteItems(s.orders, cancelled.orders, id);
    var a := DailyRevenue(cancelled, today, days, dayLabel);
    var b := DailyRevenue(deleted, today, days, dayLabel);
    assert |a| == |b|;
    forall k | 0 <= k < |a| ensures a[k] == b[k] {
    }
  }
}

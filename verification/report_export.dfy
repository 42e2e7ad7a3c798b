/** The Reports page's arithmetic over a daily series (src/pages/Reports.tsx): the two
    range totals and the CSV download. Numbers are printed as JavaScript's `String(n)`
    prints a whole number of cents: a sign, the integer part, then a point and the
    fractional digits with trailing zeros dropped. */
module ReportExport {
  import opened Seqs
  import opened Money
  import opened Text
  import opened Types
  import opened Ledger
  import opened LedgerInvariants
  import opened Reporting

  // ─── Range totals ──────────────────────────────────────────────

  /** `dailyRevenue.reduce((s, d) => s + d.revenue, 0)` */
  function TotalRevenue(ds: seq<DailyReport>): real {
    if |ds| == 0 then 0.0 else ds[0].revenue + TotalRevenue(ds[1..])
  }

  /** `dailyRevenue.reduce((s, d) => s + d.orders, 0)` */
  function TotalOrders(ds: seq<DailyReport>): nat {
    if |ds| == 0 then 0 else ds[0].orders + TotalOrders(ds[1..])
  }

  /** Counted in the range of `days` days ending today: not cancelled, and created on one
      of the days `today - days + 1 .. today`. */
  function InWindow(today: int, days: int): Order -> bool {
    (o: Order) => today - days < o.createdDay <= today && o.status != Cancelled
  }

  /** An order lies in the wider window exactly when it lies on the added day or in the
      narrower window, and never in both. */
  lemma WindowSplits(o: Order, today: int, days: int)
    requires days >= 1
    ensures InWindow(today, days)(o) <==> CountsOn(today - days + 1)(o) || InWindow(today, days - 1)(o)
    ensures !(CountsOn(today - days + 1)(o) && InWindow(today, days - 1)(o))
  {
  }

  /** A window of no days holds no order. */
  lemma EmptyWindow(os: seq<Order>, today: int)
    ensures Filter(os, InWindow(today, 0)) == []
  {
    assert forall i | 0 <= i < |os| :: !InWindow(today, 0)(os[i]);
    FilterNone(os, InWindow(today, 0));
  }

  /** Widening the window by one day, at its old end, adds exactly that day's orders. */
  lemma {:induction false} WidenWindow(os: seq<Order>, today: int, days: int)
    requires days >= 1
    ensures |Filter(os, InWindow(today, days))| ==
      |OrdersOn(os, today - days + 1)| + |Filter(os, InWindow(today, days - 1))|
    ensures SumTotals(Filter(os, InWindow(today, days))) ==
      SumTotals(OrdersOn(os, today - days + 1)) + SumTotals(Filter(os, InWindow(today, days - 1)))
    decreases |os|
  {
    if |os| > 0 {
      var x, t := os[0], os[1..];
      assert os == [x] + t;
      WidenWindow(t, today, days);
      WindowSplits(x, today, days);
      FilterCons(x, t, InWindow(today, days));
      FilterCons(x, t, InWindow(today, days - 1));
      FilterCons(x, t, CountsOn(today - days + 1));
      var wide, day, narrow := Filter(os, InWindow(today, days)), OrdersOn(os, today - days + 1), Filter(os, InWindow(today, days - 1));
      if CountsOn(today - days + 1)(x) {
        assert wide[1..] == Filter(t, InWindow(today, days)) && day[1..] == OrdersOn(t, today - days + 1);
        assert narrow == Filter(t, InWindow(today, days - 1));
      } else if InWindow(today, days - 1)(x) {
        assert wide[1..] == Filter(t, InWindow(today, days)) && narrow[1..] == Filter(t, InWindow(today, days - 1));
        assert day == OrdersOn(t, today - days + 1);
      } else {
        assert wide == Filter(t, InWindow(today, days)) && day == OrdersOn(t, today - days + 1);
        assert narrow == Filter(t, InWindow(today, days - 1));
      }
    }
  }

  /** The later points of the series of `days` days are the points of the series one day
      shorter. */
  lemma {:induction false} SeriesPoint(s: Store, today: int, days: int, dayLabel: int -> string, k: nat)
    requires 0 < k < days
    ensures DailyRevenue(s, today, days, dayLabel)[k] == DailyRevenue(s, today, days - 1, dayLabel)[k - 1]
  {
    var a := DailyRevenue(s, today, days, dayLabel);
    var c := DailyRevenue(s, today, days - 1, dayLabel);
    var day := today - days + 1 + k;
    assert a[k] == DayReport(s.orders, day, dayLabel);
    assert c[k - 1] == DayReport(s.orders, day, dayLabel);
  }

  lemma SameSeries(a: seq<DailyReport>, b: seq<DailyReport>)
    requires |a| == |b| && forall k | 0 <= k < |a| :: a[k] == b[k]
    ensures a == b
  {
  }

  /** The series of `days` days is the one of `days - 1` days with the day before it in front. */
  lemma {:induction false} SeriesGrowsAtTheFront(s: Store, today: int, days: int, dayLabel: int -> string)
    requires days >= 1
    ensures DailyRevenue(s, today, days, dayLabel) ==
      [DayReport(s.orders, today - days + 1, dayLabel)] + DailyRevenue(s, today, days - 1, dayLabel)
  {
    var a := DailyRevenue(s, today, days, dayLabel);
    var b := [DayReport(s.orders, today - days + 1, dayLabel)] + DailyRevenue(s, today, days - 1, dayLabel);
    forall k | 0 < k < days ensures a[k] == b[k] {
      SeriesPoint(s, today, days, dayLabel, k);
    }
    assert a[0] == DayReport(s.orders, today - days + 1 + 0, dayLabel);
    SameSeries(a, b);
  }

  /** Sums of cents are cents. */
  lemma {:induction false} SumOfCentsIsCents(os: seq<Order>)
    requires forall i | 0 <= i < |os| :: IsCents(os[i].total)
    ensures IsCents(SumTotals(os))
    decreases |os|
  {
    if |os| == 0 {
      assert 0.0 * 100.0 == 0.0;
    } else {
      SumOfCentsIsCents(os[1..]);
      CentsAdd(os[0].total, SumTotals(os[1..]));
    }
  }

  /** Every order of a consistent ledger totals a whole number of cents. */
  lemma ConsistentTotalsAreCents(s: Store)
    requires Consistent(s)
    ensures forall i | 0 <= i < |s.orders| :: IsCents(s.orders[i].total)
  {
    forall i | 0 <= i < |s.orders| ensures IsCents(s.orders[i].total) {
      assert OrderPriced(s.orders[i]);
      SumOfPricedLinesIsCents(s.orders[i].items);
    }
  }

  /** With whole-cent order totals, a day's point carries the exact revenue of the day. */
  lemma DayRevenueExact(os: seq<Order>, day: int, dayLabel: int -> string)
    requires forall i | 0 <= i < |os| :: IsCents(os[i].total)
    ensures DayReport(os, day, dayLabel).revenue == SumTotals(OrdersOn(os, day))
  {
    var dayOrders := OrdersOn(os, day);
    forall i | 0 <= i < |dayOrders| ensures IsCents(dayOrders[i].total) {
      var j :| 0 <= j < |os| && os[j] == dayOrders[i];
    }
    SumOfCentsIsCents(dayOrders);
  }

  /** A day's point counts exactly the non-cancelled orders of that day: the orders of the
      one-day window ending on it. */
  lemma DayReportCountsItsDay(os: seq<Order>, day: int, dayLabel: int -> string)
    ensures DayReport(os, day, dayLabel).orders == |Filter(os, InWindow(day, 1))|
  {
    FilterAgree(os, CountsOn(day), InWindow(day, 1));
  }

  /** The number of counted orders of the days `today - days + 1 .. today`, day by day. */
  function DaysOrders(os: seq<Order>, today: int, days: nat): nat
    decreases days
  {
    if days == 0 then 0 else |OrdersOn(os, today - days + 1)| + DaysOrders(os, today, days - 1)
  }

  /** The exact revenue of the days `today - days + 1 .. today`, day by day. */
  function DaysRevenue(os: seq<Order>, today: int, days: nat): real
    decreases days
  {
    if days == 0 then 0.0 else SumTotals(OrdersOn(os, today - days + 1)) + DaysRevenue(os, today, days - 1)
  }

  /** Counting day by day is counting over the range at once. */
  lemma {:induction false} DaysOrdersIsWindowCount(os: seq<Order>, today: int, days: nat)
    ensures DaysOrders(os, today, days) == |Filter(os, InWindow(today, days))|
    decreases days
  {
    if days == 0 {
      EmptyWindow(os, today);
    } else {
      DaysOrdersIsWindowCount(os, today, days - 1);
      DaysOrdersStep(os, today, days);
    }
  }

  lemma DaysOrdersStep(os: seq<Order>, today: int, days: nat)
    requires days >= 1
    requires DaysOrders(os, today, days - 1) == |Filter(os, InWindow(today, days - 1))|
    ensures DaysOrders(os, today, days) == |Filter(os, InWindow(today, days))|
  {
    assert DaysOrders(os, today, days) == |OrdersOn(os, today - days + 1)| + DaysOrders(os, today, days - 1);
    WidenWindow(os, today, days);
  }

  /** Summing day by day is summing over the range at once. */
  lemma {:induction false} DaysRevenueIsWindowRevenue(os: seq<Order>, today: int, days: nat)
    ensures DaysRevenue(os, today, days) == SumTotals(Filter(os, InWindow(today, days)))
    decreases days
  {
    if days == 0 {
      EmptyWindow(os, today);
    } else {
      DaysRevenueIsWindowRevenue(os, today, days - 1);
      DaysRevenueStep(os, today, days);
    }
  }

  lemma DaysRevenueStep(os: seq<Order>, today: int, days: nat)
    requires days >= 1
    requires DaysRevenue(os, today, days - 1) == SumTotals(Filter(os, InWindow(today, days - 1)))
    ensures DaysRevenue(os, today, days) == SumTotals(Filter(os, InWindow(today, days)))
  {
    assert DaysRevenue(os, today, days) == SumTotals(OrdersOn(os, today - days + 1)) + DaysRevenue(os, today, days - 1);
    WidenWindow(os, today, days);
  }

  /** A series whose point `k` counts the orders of day `today - days + 1 + k` totals the
      day-by-day count. */
  lemma {:induction false} TotalOrdersOfPoints(ds: seq<DailyReport>, os: seq<Order>, today: int, days: nat)
    requires |ds| == days
    requires forall k | 0 <= k < days :: ds[k].orders == |OrdersOn(os, today - days + 1 + k)|
    ensures TotalOrders(ds) == DaysOrders(os, today, days)
    decreases days
  {
    if days > 0 {
      var t := ds[1..];
      assert forall k | 0 <= k < days - 1 :: t[k] == ds[k + 1];
      TotalOrdersOfPoints(t, os, today, days - 1);
    }
  }

  /** A series whose point `k` carries the exact revenue of day `today - days + 1 + k`
      totals the day-by-day revenue. */
  lemma {:induction false} TotalRevenueOfPoints(ds: seq<DailyReport>, os: seq<Order>, today: int, days: nat)
    requires |ds| == days
    requires forall k | 0 <= k < days :: ds[k].revenue == SumTotals(OrdersOn(os, today - days + 1 + k))
    ensures TotalRevenue(ds) == DaysRevenue(os, today, days)
    decreases days
  {
    if days > 0 {
      var t := ds[1..];
      assert forall k | 0 <= k < days - 1 :: t[k] == ds[k + 1];
      TotalRevenueOfPoints(t, os, today, days - 1);
    }
  }

  /** "Total Orders" is the number of non-cancelled orders created in the range. */
  lemma TotalOrdersCountsWindow(s: Store, today: int, days: nat, dayLabel: int -> string)
    ensures TotalOrders(DailyRevenue(s, today, days, dayLabel)) == |Filter(s.orders, InWindow(today, days))|
  {
    var ds := DailyRevenue(s, today, days, dayLabel);
    assert forall k | 0 <= k < days :: ds[k].orders == |OrdersOn(s.orders, today - days + 1 + k)|;
    TotalOrdersOfPoints(ds, s.orders, today, days);
    DaysOrdersIsWindowCount(s.orders, today, days);
  }

  /** With whole-cent order totals, every point of the series carries its day's exact revenue. */
  lemma SeriesPointsExact(s: Store, today: int, days: nat, dayLabel: int -> string)
    requires forall i | 0 <= i < |s.orders| :: IsCents(s.orders[i].total)
    ensures var ds := DailyRevenue(s, today, days, dayLabel);
      forall k | 0 <= k < days :: ds[k].revenue == SumTotals(OrdersOn(s.orders, today - days + 1 + k))
  {
    var ds := DailyRevenue(s, today, days, dayLabel);
    forall k | 0 <= k < days ensures ds[k].revenue == SumTotals(OrdersOn(s.orders, today - days + 1 + k)) {
      var day := today - days + 1 + k;
      assert ds[k] == DayReport(s.orders, day, dayLabel);
      DayRevenueExact(s.orders, day, dayLabel);
    }
  }

  /** When order totals are whole cents the daily rounding loses nothing, so "Total Revenue"
      is the exact revenue of the non-cancelled orders created in the range. */
  lemma TotalRevenueSumsWindow(s: Store, today: int, days: nat, dayLabel: int -> string)
    requires forall i | 0 <= i < |s.orders| :: IsCents(s.orders[i].total)
    ensures TotalRevenue(DailyRevenue(s, today, days, dayLabel)) == SumTotals(Filter(s.orders, InWindow(today, days)))
  {
    var ds := DailyRevenue(s, today, days, dayLabel);
    SeriesPointsExact(s, today, days, dayLabel);
    TotalRevenueOfPoints(ds, s.orders, today, days);
    DaysRevenueIsWindowRevenue(s.orders, today, days);
  }

  // ─── Number text ───────────────────────────────────────────────

  /** The two fractional digits of a count of cents, with trailing zeros dropped. */
  function FractionText(f: nat): (t: string)
    requires f < 100
    ensures |t| <= 2 && AllDigits(t)
    ensures f == 0 <==> t == ""
  {
    if f == 0 then ""
    else if f % 10 == 0 then [DigitChar(f / 10)]
    else [DigitChar(f / 10), DigitChar(f % 10)]
  }

  /** Reads up to two fractional digits back as cents. */
  function FractionValue(t: string): nat
    requires |t| <= 2
  {
    if |t| == 0 then 0
    else if |t| == 1 then 10 * DigitValue(t[0])
    else 10 * DigitValue(t[0]) + DigitValue(t[1])
  }

  lemma FractionRoundTrip(f: nat)
    requires f < 100
    ensures FractionValue(FractionText(f)) == f
  {
  }

  /** `String(a / 100)` for a non-negative number of cents `a`. */
  function MagnitudeText(a: nat): (t: string)
    ensures |t| >= 1 && IsDigit(t[0])
    ensures forall i | 0 <= i < |t| :: IsDigit(t[i]) || t[i] == '.'
  {
    var f := FractionText(a % 100);
    var whole := NatText(a / 100);
    whole + (if f == "" then "" else "." + f)
  }

  /** `String(k / 100)` for a whole number of cents `k`: a minus sign for a negative amount,
      then the magnitude. */
  function CentsText(k: int): (t: string)
    ensures |t| >= 1
    ensures ',' !in t && '\n' !in t
    ensures k >= 0 ==> IsDigit(t[0])
    ensures k < 0 ==> t[0] == '-'
  {
    var m := MagnitudeText(if k < 0 then -k else k);
    var t := (if k < 0 then "-" else "") + m;
    assert forall i | 0 <= i < |t| :: t[i] != ',' && t[i] != '\n' by {
      forall i | 0 <= i < |t| ensures t[i] != ',' && t[i] != '\n' {
        if k < 0 && i == 0 {
        } else {
          assert t[i] == m[if k < 0 then i - 1 else i];
        }
      }
    }
    t
  }

  /** The printed form of a money value: the value rounded to cents, then `String`. */
  function MoneyText(x: real): (t: string)
    ensures |t| >= 1 && PlainField(t)
    ensures x >= 0.0 ==> IsDigit(t[0])
  {
    CentsText(CentsOf(x))
  }

  /** Reads `MagnitudeText` back: digits, then optionally `.` and one or two digits. */
  function ParseMagnitude(body: string): Option<nat> {
    var k := IndexOf(body, '.');
    var whole := body[..k];
    var frac := if k < |body| then body[k + 1..] else "";
    if |whole| == 0 || !AllDigits(whole) || !AllDigits(frac) || |frac| > 2 || (k < |body| && |frac| == 0) then None
    else Some(ParseNat(whole) * 100 + FractionValue(frac))
  }

  /** Reads `CentsText` back: an optional `-`, then a magnitude. */
  function ParseCents(t: string): Option<int> {
    if |t| > 0 && t[0] == '-' then
      match ParseMagnitude(t[1..])
      case Some(a) => Some(-(a as int))
      case None => None
    else
      match ParseMagnitude(t)
      case Some(a) => Some(a as int)
      case None => None
  }

  lemma {:induction false} MagnitudeRoundTrip(a: nat)
    ensures ParseMagnitude(MagnitudeText(a)) == Some(a)
  {
    var f := FractionText(a % 100);
    var whole := NatText(a / 100);
    var body := MagnitudeText(a);
    assert body == whole + (if f == "" then "" else "." + f);
    assert IndexOf(body, '.') == |whole| by {
      forall j | 0 <= j < |whole| ensures body[j] != '.' {
        assert body[j] == whole[j];
        assert IsDigit(whole[j]);
      }
      if f != "" {
        assert body[|whole|] == '.';
      }
    }
    assert body[..|whole|] == whole;
    assert f != "" ==> body[|whole| + 1..] == f;
    FractionRoundTrip(a % 100);
  }

  /** Printing cents and reading them back gives the same cents. */
  lemma {:induction false} CentsTextRoundTrip(k: int)
    ensures ParseCents(CentsText(k)) == Some(k)
  {
    var a: nat := if k < 0 then -k else k;
    MagnitudeRoundTrip(a);
    if k < 0 {
      assert CentsText(k)[1..] == MagnitudeText(a);
    } else {
      assert CentsText(k) == MagnitudeText(a);
    }
  }

  // ─── CSV ───────────────────────────────────────────────────────

  const CsvHeader: string := "Date,Revenue,Orders\n"

  /** `${d.date},${d.revenue},${d.orders}` */
  function Row(d: DailyReport): (line: string)
    ensures |line| > 0
    ensures '\n' !in d.date ==> '\n' !in line
  {
    NatTextIsPlain(d.orders);
    JoinThree(d.date, MoneyText(d.revenue), NatText(d.orders), ',');
    Join([d.date, MoneyText(d.revenue), NatText(d.orders)], ',')
  }

  function Rows(ds: seq<DailyReport>): (r: seq<string>)
    ensures |r| == |ds|
    ensures forall i | 0 <= i < |ds| :: r[i] == Row(ds[i])
  {
    seq(|ds|, i requires 0 <= i < |ds| => Row(ds[i]))
  }

  /** `exportCSV`: the header line, then one line per day joined by newlines. */
  function ExportCsv(ds: seq<DailyReport>): (t: string)
    ensures HasPrefix(t, CsvHeader)
    ensures ds == [] ==> t == CsvHeader
  {
    CsvHeader + Join(Rows(ds), '\n')
  }

  /** A date can be written into a CSV field unquoted. */
  predicate PlainField(s: string) {
    ',' !in s && '\n' !in s
  }

  /** Reads one data line. */
  function ParseRow(line: string): Option<DailyReport> {
    ParseFields(Split(line, ','))
  }

  /** Reads the fields of one data line: a date, an amount, a count. */
  function ParseFields(fields: seq<string>): Option<DailyReport> {
    if |fields| != 3 then None
    else
      var revenue := ParseCents(fields[1]);
      if revenue.None? || |fields[2]| == 0 || !AllDigits(fields[2]) then None
      else Some(DailyReport(fields[0], revenue.value as real / 100.0, ParseNat(fields[2])))
  }

  function ParseRows(lines: seq<string>): Option<seq<DailyReport>> {
    if |lines| == 0 then Some([])
    else
      var d := ParseRow(lines[0]);
      var rest := ParseRows(lines[1..]);
      if d.None? || rest.None? then None else Some([d.value] + rest.value)
  }

  /** Reads a whole export: the header, then nothing or newline-separated data lines. */
  function ParseCsv(t: string): Option<seq<DailyReport>> {
    if !HasPrefix(t, CsvHeader) then None
    else
      var body := t[|CsvHeader|..];
      if body == "" then Some([]) else ParseRows(Split(body, '\n'))
  }

  /** The digits of a count hold no separator. */
  lemma NatTextIsPlain(n: nat)
    ensures PlainField(NatText(n))
  {
    var t := NatText(n);
    assert forall i | 0 <= i < |t| :: t[i] != ',' && t[i] != '\n' by {
      forall i | 0 <= i < |t| ensures t[i] != ',' && t[i] != '\n' {
        assert IsDigit(t[i]);
      }
    }
  }

  /** A row splits back into its three fields. */
  lemma RowFields(d: DailyReport)
    requires PlainField(d.date)
    ensures Split(Row(d), ',') == [d.date, MoneyText(d.revenue), NatText(d.orders)]
  {
    var parts := [d.date, MoneyText(d.revenue), NatText(d.orders)];
    NatTextIsPlain(d.orders);
    assert forall i | 0 <= i < 3 :: ',' !in parts[i];
    SplitJoin(parts, ',');
  }

  /** A row holds no newline and is never empty. */
  lemma RowIsOneLine(d: DailyReport)
    requires PlainField(d.date)
    ensures |Row(d)| > 0 && '\n' !in Row(d)
  {
    var m := MoneyText(d.revenue);
    var n := NatText(d.orders);
    NatTextIsPlain(d.orders);
    JoinThree(d.date, m, n, ',');
  }

  /** A whole number of cents printed as money reads back as the same amount. */
  lemma MoneyTextRoundTrip(x: real)
    requires IsCents(x)
    ensures ParseCents(MoneyText(x)) == Some(CentsOf(x)) && CentsOf(x) as real / 100.0 == x
  {
    CentsTextRoundTrip(CentsOf(x));
    CentsBack(x);
  }

  /** Reading a row is reading its three fields. */
  lemma ParseRowOfRow(d: DailyReport)
    requires PlainField(d.date)
    ensures ParseRow(Row(d)) == ParseFields([d.date, MoneyText(d.revenue), NatText(d.orders)])
  {
    RowFields(d);
  }

  lemma RowRoundTrip(d: DailyReport)
    requires PlainField(d.date) && IsCents(d.revenue)
    ensures ParseRow(Row(d)) == Some(d)
  {
    var m, n, k := MoneyText(d.revenue), NatText(d.orders), CentsOf(d.revenue);
    ParseRowOfRow(d);
    MoneyTextRoundTrip(d.revenue);
    ParseThreeFields(d.date, m, n, k);
    assert DailyReport(d.date, k as real / 100.0, ParseNat(n)) == d;
  }

  /** A date, a money text and digits read as that point. */
  lemma ParseThreeFields(date: string, m: string, n: string, cents: int)
    requires ParseCents(m) == Some(cents)
    requires |n| > 0 && AllDigits(n)
    ensures ParseFields([date, m, n]) == Some(DailyReport(date, cents as real / 100.0, ParseNat(n)))
  {
    var fields := [date, m, n];
    assert fields[0] == date && fields[1] == m && fields[2] == n;
  }

  lemma {:induction false} RowsTail(ds: seq<DailyReport>)
    requires |ds| > 0
    ensures Rows(ds)[1..] == Rows(ds[1..])
  {
    var a := Rows(ds)[1..];
    var b := Rows(ds[1..]);
    forall i | 0 <= i < |a| ensures a[i] == b[i] {
      assert a[i] == Row(ds[i + 1]);
    }
  }

  lemma ParseRowsCons(lines: seq<string>, d: DailyReport, rest: seq<DailyReport>)
    requires |lines| > 0
    requires ParseRow(lines[0]) == Some(d) && ParseRows(lines[1..]) == Some(rest)
    ensures ParseRows(lines) == Some([d] + rest)
  {
  }

  lemma {:induction false} RowsRoundTrip(ds: seq<DailyReport>)
    requires forall i | 0 <= i < |ds| :: PlainField(ds[i].date) && IsCents(ds[i].revenue)
    ensures ParseRows(Rows(ds)) == Some(ds)
    decreases |ds|
  {
    if |ds| > 0 {
      var rows := Rows(ds);
      RowRoundTrip(ds[0]);
      RowsRoundTrip(ds[1..]);
      RowsTail(ds);
      ParseRowsCons(rows, ds[0], ds[1..]);
      assert ds == [ds[0]] + ds[1..];
    }
  }

  /** The download reads back as the series it was written from, whenever no date holds a
      comma or a newline and every revenue is a whole number of cents (as `Round2` makes
      every revenue of `DailyRevenue`). */
  lemma CsvRoundTrip(ds: seq<DailyReport>)
    requires forall i | 0 <= i < |ds| :: PlainField(ds[i].date) && IsCents(ds[i].revenue)
    ensures ParseCsv(ExportCsv(ds)) == Some(ds)
  {
    var t := ExportCsv(ds);
    var rows := Rows(ds);
    assert t[|CsvHeader|..] == Join(rows, '\n');
    if |ds| > 0 {
      forall i | 0 <= i < |rows| ensures '\n' !in rows[i] {
        RowIsOneLine(ds[i]);
      }
      RowIsOneLine(ds[0]);
      assert |Join(rows, '\n')| > 0 by {
        assert |rows| == 1 || Join(rows, '\n') == rows[0] + ['\n'] + Join(rows[1..], '\n');
      }
      SplitJoin(rows, '\n');
      RowsRoundTrip(ds);
    }
  }

  /** With whole-cent order totals, today's revenue is the exact sum of today's
      non-cancelled totals: the rounding changes nothing. */
  lemma MetricsRevenueExact(s: Store, today: int)
    requires forall i | 0 <= i < |s.orders| :: IsCents(s.orders[i].total)
    ensures Metrics(s, today).revenueToday == SumTotals(OrdersOn(s.orders, today))
  {
    var todays := OrdersOn(s.orders, today);
    assert forall i | 0 <= i < |todays| :: IsCents(todays[i].total);
    SumOfCentsIsCents(todays);
  }

  /** Every revenue the daily series reports is a whole number of cents. */
  lemma SeriesRevenueIsCents(s: Store, today: int, days: int, dayLabel: int -> string)
    ensures var ds := DailyRevenue(s, today, days, dayLabel);
      forall i | 0 <= i < |ds| :: IsCents(ds[i].revenue)
  {
  }
}

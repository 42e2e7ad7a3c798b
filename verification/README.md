# Copy-shop dashboard: order ledger and reports, in Dafny

A model of the order ledger and reporting core of a small print-shop dashboard. The shop
keeps a catalog of services, a roster of customers and a ledger of orders in memory. On top
of that sit three reports (today's metrics, a dense daily revenue series, and revenue by
service) and two pieces of page logic: the order form with its order-list filter, and the
CSV export of the revenue series.

The store is a value. It holds three sequences plus the three id counters, and every
mock-API call is a pure function from store to store (and result). Money is an exact `real`.
`Round2` stands in for `+x.toFixed(2)`, rounding halves away from zero. Calendar days are
integers. The clock, the date formatting and the item-id timestamp are passed in as
parameters.

| file | module | what it holds |
|---|---|---|
| `seqs.dfy` | `Seqs` | `findIndex`, `filter`, and order-preserving subsequences |
| `money.dfy` | `Money` | whole cents, `Round2` |
| `text.dfy` | `Text` | digits, `padStart`, identifiers' serials, ASCII lower-casing, substring search, split and join |
| `types.dfy` | `Types` | the records of `src/types/index.ts` |
| `ledger.dfy` | `Ledger` | the store and the catalog, roster and order operations |
| `ledger_invariants.dfy` | `LedgerInvariants` | the store invariant and its preservation by every operation |
| `ledger_laws.dfy` | `LedgerLaws` | no-ops on unknown ids, undo laws, serial order, customer statistics |
| `seed.dfy` | `Seed` | the initial store |
| `reporting.dfy` | `Reporting` | metrics, daily series, service distribution |
| `report_export.dfy` | `ReportExport` | range totals, CSV text and its reader |
| `order_form.dfy` | `OrderForm` | form rows, preview total, submission checks, list filter |

## Model

| member | source | states |
|---|---|---|
| Seqs.FilterIsSubseq | src/services/mock-data.ts:194 | what `filter` keeps is a subsequence of its input: order kept, nothing added |
| Seqs.FilterAll | src/services/mock-data.ts:194 | a filter every element passes keeps the whole sequence |
| Seqs.FilterNone | src/services/mock-data.ts:194 | a filter no element passes keeps nothing |
| Seqs.FilterCounts | src/services/mock-data.ts:194 | `filter` keeps every copy of an element that passes and no copy of one that fails |
| Money.CentsOf | src/services/mock-data.ts:162 | a whole-cent amount is its number of cents over 100 |
| Money.Round2 | src/services/mock-data.ts:162 | `+x.toFixed(2)` is whole cents, within half a cent of `x` (halves rounded away from zero), non-negative for non-negative `x`, and leaves whole-cent amounts unchanged |
| Text.PadStart | src/services/mock-data.ts:168-169 | a text already as wide as asked is returned as is; a shorter one is filled on the left up to the width and ends with the original text |
| Text.ToLower | src/pages/Orders.tsx:105-106 | same length, each character lower-cased on its own |
| Text.Contains | src/pages/Orders.tsx:105-106 | the empty needle is found everywhere, and a found needle is no longer than the haystack |
| Text.ContainsMeansOccurs | src/pages/Orders.tsx:105-106 | `includes` holds exactly when some window of the haystack equals the needle |
| Ledger.ServiceIndex | src/services/mock-data.ts:155 | the first position holding the id, or the length when no service has it |
| Ledger.CustomerIndex | src/services/mock-data.ts:153 | the first customer with the id, or the length when there is none |
| Ledger.OrderIndex | src/services/mock-data.ts:150 | the first order with the id, or the length when there is none |
| Ledger.LineTotal | src/services/mock-data.ts:162 | a line total is a whole number of cents |
| Ledger.SumOfPricedLinesIsCents | src/services/mock-data.ts:165 | a sum of rounded line totals is whole cents, so rounding the order total changes nothing |
| Ledger.PriceLines | src/services/mock-data.ts:154-164 | one item per requested line, each priced as the rounded product of its own price and quantity |
| Ledger.MakeItems | src/services/mock-data.ts:36-47 | seed items: one per pair, catalog price, rounded line totals |
| Ledger.Credit | src/services/mock-data.ts:181-184 | one more order, and the spend grows by the order total; nothing else about the customer changes |
| Ledger.LineTotalNear | src/services/mock-data.ts:162 | a line total is within half a cent of price times quantity |
| Ledger.NewOrder | src/services/mock-data.ts:152-178 | id from counter n, invoice from n+1, pending, dated today, the requested lines priced, customer name or "Unknown" |
| Ledger.NewOrderLines | src/services/mock-data.ts:154-165 | one item per requested line copying its service, quantity and price with the catalog name as a snapshot, each rounded to cents; the order total is the exact sum of the lines and whole cents |
| Ledger.CreditCustomer | src/services/mock-data.ts:180-184 | only the first customer with the id is credited; with no such customer the roster is unchanged |
| Ledger.CreateOrder | src/services/mock-data.ts:152-186 | the order is prepended to an otherwise unchanged ledger, the catalog stays, and only the order counter advances |
| Ledger.GetOrder | src/services/mock-data.ts:150 | found exactly when some order has the id, and then it is the first such |
| Ledger.UpdateOrderStatus | src/services/mock-data.ts:188-191 | each order with the id gets the new status, all else stays, and the result is the updated order |
| Ledger.DeleteOrder | src/services/mock-data.ts:193-196 | no order with the id remains, every other order stays, in order |
| Ledger.CreateService | src/services/mock-data.ts:112-116 | the new service gets `svc_` and the counter, is prepended, and the counter advances |
| Ledger.UpdateService | src/services/mock-data.ts:118-121 | services with the id are patched and the others untouched; a result exactly when a service with the id remains |
| Ledger.DeleteService | src/services/mock-data.ts:123-126 | no service with the id remains and the others stay in order |
| Ledger.CreateCustomer | src/services/mock-data.ts:131-135 | the new customer starts with zero orders and zero spend, is prepended, and the counter advances |
| Ledger.UpdateCustomer | src/services/mock-data.ts:137-140 | customers with the id are patched and the others untouched; a result exactly when one remains |
| Ledger.DeleteCustomer | src/services/mock-data.ts:142-145 | no customer with the id remains and the others stay in order |
| LedgerInvariants.SplitInvoiceNo | src/services/mock-data.ts:169 | an invoice number splits at its dashes into "INV", the date text and the padded sequence, when the date text has no dash |
| LedgerInvariants.InvoiceSerialOfInvoiceNo | src/services/mock-data.ts:169 | the number after an invoice's last dash is the sequence it was issued with |
| LedgerInvariants.CreateOrderIssuesFreshIds | src/services/mock-data.ts:168-169 | a new order's id and invoice number are unused in the ledger |
| LedgerInvariants.PrependFreshOrder | src/services/mock-data.ts:179 | prepending an order with a fresh id keeps order ids distinct |
| LedgerInvariants.CreditKeepsCustomerIds | src/services/mock-data.ts:181-184 | crediting a customer never changes an id |
| LedgerInvariants.PrependOrderKeepsConsistent | src/services/mock-data.ts:179 | a priced order with fresh serials can be prepended without breaking the store invariant |
| LedgerInvariants.CreateOrderKeepsConsistent | src/services/mock-data.ts:152-186 | creating an order keeps the store invariant |
| LedgerInvariants.SameKeysSameConsistency | src/services/mock-data.ts:189 | changing only fields outside the invariant keeps it |
| LedgerInvariants.StatusUpdateKeepsConsistent | src/services/mock-data.ts:188-191 | a status change keeps the store invariant |
| LedgerInvariants.DeleteOrderKeepsConsistent | src/services/mock-data.ts:193-196 | deleting orders keeps the store invariant |
| LedgerInvariants.SubseqKeepsOrders | src/services/mock-data.ts:194 | a filtered ledger keeps only old orders and keeps ids distinct |
| LedgerInvariants.SubseqKeepsServices | src/services/mock-data.ts:124 | a filtered catalog keeps only old services and keeps ids distinct |
| LedgerInvariants.SubseqKeepsCustomers | src/services/mock-data.ts:143 | a filtered roster keeps only old customers and keeps ids distinct |
| LedgerInvariants.CreateServiceKeepsConsistent | src/services/mock-data.ts:112-116 | creating a service keeps the store invariant |
| LedgerInvariants.DeleteServiceKeepsConsistent | src/services/mock-data.ts:123-126 | deleting a service keeps the store invariant |
| LedgerInvariants.UpdateServiceKeepsConsistent | src/services/mock-data.ts:118-121 | a patch that leaves the id alone keeps the store invariant |
| LedgerInvariants.CreateCustomerKeepsConsistent | src/services/mock-data.ts:131-135 | creating a customer keeps the store invariant |
| LedgerInvariants.DeleteCustomerKeepsConsistent | src/services/mock-data.ts:142-145 | deleting a customer keeps the store invariant |
| LedgerInvariants.UpdateCustomerKeepsConsistent | src/services/mock-data.ts:137-140 | a patch that leaves the id alone keeps the store invariant |
| LedgerLaws.UnknownOrderIdIsNoOp | src/services/mock-data.ts:188-196 | with an unknown order id, the status update and the delete leave the store as it was, and the update finds nothing |
| LedgerLaws.UnknownServiceIdIsNoOp | src/services/mock-data.ts:118-126 | with an unknown service id, the update and the delete leave the store as it was |
| LedgerLaws.UnknownCustomerIdIsNoOp | src/services/mock-data.ts:137-145 | with an unknown customer id, the update and the delete leave the store as it was |
| LedgerLaws.UpdateOrderStatusChangesOnlyStatus | src/services/mock-data.ts:188-191 | only the status field changes, the catalog and roster are untouched, and the returned order is the first match with its new status |
| LedgerLaws.UpdateServiceReturnsPatched | src/services/mock-data.ts:118-121 | the returned service is the first match with the patch applied |
| LedgerLaws.UpdateCustomerReturnsPatched | src/services/mock-data.ts:137-140 | the returned customer is the first match with the patch applied |
| LedgerLaws.DeleteOrderKeepsCopies | src/services/mock-data.ts:193-196 | every copy of an order with the id is removed and every copy of the others is kept |
| LedgerLaws.DeleteServiceKeepsCopies | src/services/mock-data.ts:123-126 | every copy of a service with the id is removed and every copy of the others is kept |
| LedgerLaws.DeleteCustomerKeepsCopies | src/services/mock-data.ts:142-145 | every copy of a customer with the id is removed and every copy of the others is kept |
| LedgerLaws.DeleteUndoesCreateOrder | src/services/mock-data.ts:152-196 | deleting a just-created order restores the ledger, but the customer's statistics stay credited |
| LedgerLaws.DeleteUndoesCreateService | src/services/mock-data.ts:112-126 | deleting a just-created service restores the store apart from the spent counter value |
| LedgerLaws.DeleteUndoesCreateCustomer | src/services/mock-data.ts:131-145 | deleting a just-created customer restores the store apart from the spent counter value |
| LedgerLaws.CounterNumbers | src/services/mock-data.ts:168-169 | the ids and invoice numbers issued from two successive counter values read back as those values |
| LedgerLaws.SuccessiveOrdersGetIncreasingSerials | src/services/mock-data.ts:168-169 | two creates give ids n and n+1 and invoice sequences n+1 and n+2, all distinct |
| LedgerLaws.AmountSpentIsCents | src/services/mock-data.ts:183 | a customer's spend summed over priced orders is whole cents |
| LedgerLaws.CreateOrderKeepsStatsInStep | src/services/mock-data.ts:180-184 | if every customer's statistics equal their count and sum of orders, creating an order keeps that so |
| LedgerLaws.StatusUpdateKeepsStatsInStep | src/services/mock-data.ts:188-191 | a status change keeps customer statistics in step, since cancelled orders still count |
| LedgerLaws.SameOwnersSameStats | src/services/mock-data.ts:189 | ledgers agreeing on owners and totals give every customer the same count and spend |
| LedgerLaws.DeletingDropsCount | src/services/mock-data.ts:194 | deleting an order of a customer lowers that customer's order count in the ledger |
| LedgerLaws.KeepOrderCountAtMost | src/services/mock-data.ts:194 | deleting never raises a customer's order count in the ledger |
| LedgerLaws.DeleteOrderLeavesStatsBehind | src/services/mock-data.ts:193-196 | deleting an order of a known customer leaves that customer's stored statistics out of step with the ledger |
| Seed.ServicesFrom | src/services/mock-data.ts:10-21 | seed services are numbered `svc_001` onwards in listing order |
| Seed.CustomersFrom | src/services/mock-data.ts:23-34 | seed customers are numbered `cst_001` onwards in listing order |
| Seed.SeedOrder | src/services/mock-data.ts:85-88 | a seed order's items are priced from the catalog and its total is their exact sum |
| Seed.OrdersFrom | src/services/mock-data.ts:49-88 | seed orders are numbered `ord_001` onwards, priced, with invoice sequences 1 or 2 |
| Seed.SeedStore | src/services/mock-data.ts:10-90 | ten services, ten customers, fifteen orders, counters 11, 11 and 16 |
| Seed.SeedCountersAhead | src/services/mock-data.ts:90 | each counter is above every serial the seed uses |
| Seed.SeedIdsDistinct | src/services/mock-data.ts:10-88 | no two seed services, customers or orders share an id |
| Seed.SeedIsConsistent | src/services/mock-data.ts:10-90 | the initial store satisfies the store invariant |
| Reporting.Metrics | src/services/mock-data.ts:199-209 | the order count is today's non-cancelled orders, the customer count is the roster size, both amounts are zero with no orders, and both are whole cents |
| Reporting.AverageWithinHalfCent | src/services/mock-data.ts:207 | the average order value is within half a cent of the exact mean of today's totals |
| Reporting.DayReport | src/services/mock-data.ts:214-220 | a point carries the day's label, counts at most the ledger's orders, and its revenue is whole cents within half a cent of the day's non-cancelled sum |
| Reporting.DailyRevenue | src/services/mock-data.ts:211-223 | exactly `days` points, none when `days <= 0`; point k is day `today - days + 1 + k`, oldest first |
| Reporting.MetricsAgreeWithSeries | src/services/mock-data.ts:199-223 | the series' last point is today, with the dashboard's revenue and order count |
| Reporting.NameIndex | src/services/mock-data.ts:231 | where a name's group sits, or the group count when it has none |
| Reporting.FirstUse | src/services/mock-data.ts:229-231 | where a service name first appears among the lines |
| Reporting.FirstUseAppend | src/services/mock-data.ts:229-231 | appending a line moves no earlier first appearance |
| Reporting.UnusedNameSumsToZero | src/services/mock-data.ts:231-233 | a name that never appears has zero quantity and revenue |
| Reporting.BucketsSummarise | src/services/mock-data.ts:226-235 | grouping gives one group per name that appears, in first-appearance order, with the sums of that name's quantities and line totals |
| Reporting.ToReports | src/services/mock-data.ts:237-242 | one report per group, in group order |
| Reporting.InsertDesc | src/services/mock-data.ts:243 | inserting adds exactly the one element |
| Reporting.InsertDescMember | src/services/mock-data.ts:243 | every entry after an insertion is the inserted one or an old one |
| Reporting.InsertDescKeepsSorted | src/services/mock-data.ts:243 | inserting into a revenue-descending list keeps it descending |
| Reporting.SortDesc | src/services/mock-data.ts:243 | the sort is a permutation and is revenue-descending |
| Reporting.InsertDescKeepsTies | src/services/mock-data.ts:243 | inserting an element ranked before all others keeps equal revenues in rank order |
| Reporting.SortDescKeepsTies | src/services/mock-data.ts:243 | the sort is stable: equal revenues keep their input order |
| Reporting.UnsortedSums | src/services/mock-data.ts:231-242 | before sorting, each report carries its name's total quantity and rounded revenue |
| Reporting.SortedEntriesSummarise | src/services/mock-data.ts:236-244 | after sorting, each entry still carries its name's sums |
| Reporting.SortedEntriesCover | src/services/mock-data.ts:236-244 | every name of an active line appears in the distribution |
| Reporting.SortedEntriesDistinct | src/services/mock-data.ts:236-244 | no name appears twice in the distribution |
| Reporting.ServiceDistribution | src/services/mock-data.ts:225-245 | one entry per service name in use, sorted by revenue, highest first |
| Reporting.ServiceDistributionSummarises | src/services/mock-data.ts:225-245 | one entry per service name of the non-cancelled orders' lines, with its quantity and rounded revenue, revenue non-increasing, ties in first-appearance order |
| Reporting.ActiveItemsSkipCancelled | src/services/mock-data.ts:228 | the lines grouped are exactly those of the non-cancelled orders |
| Reporting.ActiveItemsAppend | src/services/mock-data.ts:227-230 | the lines of two ledgers are the lines of each, in order |
| Reporting.PrependOrder | src/services/mock-data.ts:179-228 | an order put in front of the ledger joins a day's orders and sum exactly when it counts on that day, and its lines lead the distribution's input unless it is cancelled |
| Reporting.CreateOrderCountsToday | src/services/mock-data.ts:179-228 | a new order joins today's figures and no other day's, and its lines lead the distribution's input |
| Reporting.CancelLikeDeleteOrders | src/services/mock-data.ts:188-201 | on any day, cancelling an order drops it from the counted orders as deleting does |
| Reporting.CancelLikeDeleteItems | src/services/mock-data.ts:188-228 | cancelling an order drops its lines from the distribution's input as deleting does |
| Reporting.CancelLooksLikeDelete | src/services/mock-data.ts:188-245 | every report is the same after cancelling an order as after deleting it |
| ReportExport.WindowSplits | src/pages/Reports.tsx:35-36 | an order lies in a window exactly when it lies on its oldest day or in the window one day shorter, and never in both |
| ReportExport.EmptyWindow | src/pages/Reports.tsx:35-36 | a window of no days holds no order |
| ReportExport.WidenWindow | src/pages/Reports.tsx:35-36 | widening the window by its oldest day adds exactly that day's orders and totals |
| ReportExport.SeriesPoint | src/services/mock-data.ts:213-221 | a longer series ending today has the shorter one as its tail, point by point |
| ReportExport.SeriesGrowsAtTheFront | src/services/mock-data.ts:213-221 | a series one day longer is the older day's point followed by the shorter series |
| ReportExport.DayRevenueExact | src/services/mock-data.ts:215-218 | with whole-cent totals a day's point carries that day's exact revenue |
| ReportExport.DayReportCountsItsDay | src/services/mock-data.ts:215-219 | a day's point counts exactly that day's non-cancelled orders |
| ReportExport.DaysOrdersIsWindowCount | src/pages/Reports.tsx:36 | counting the orders day by day gives the count over the whole window |
| ReportExport.DaysRevenueIsWindowRevenue | src/pages/Reports.tsx:35 | summing the totals day by day gives the sum over the whole window |
| ReportExport.TotalOrdersOfPoints | src/pages/Reports.tsx:36 | a series whose points count their days' orders sums to the day-by-day count |
| ReportExport.TotalRevenueOfPoints | src/pages/Reports.tsx:35 | a series whose points carry their days' exact revenue sums to the day-by-day revenue |
| ReportExport.SeriesPointsExact | src/services/mock-data.ts:213-221 | with whole-cent totals every point of the series carries its day's exact revenue |
| ReportExport.TotalOrdersCountsWindow | src/pages/Reports.tsx:36 | the summed order counts are the number of non-cancelled orders in the window |
| ReportExport.SumOfCentsIsCents | src/pages/Reports.tsx:35 | a sum of whole-cent totals is whole cents |
| ReportExport.ConsistentTotalsAreCents | src/services/mock-data.ts:165 | in a consistent store every order total is whole cents |
| ReportExport.TotalRevenueSumsWindow | src/pages/Reports.tsx:35 | with whole-cent totals, the summed revenue is the exact sum of the window's non-cancelled totals |
| ReportExport.MetricsRevenueExact | src/services/mock-data.ts:202-204 | with whole-cent totals, today's revenue is the exact sum of today's non-cancelled totals |
| ReportExport.SeriesRevenueIsCents | src/services/mock-data.ts:218 | every point's revenue is whole cents |
| ReportExport.FractionText | src/pages/Reports.tsx:40 | the cents part shows as at most two digits, and as nothing when zero |
| ReportExport.FractionRoundTrip | src/pages/Reports.tsx:40 | the cents part reads back as written |
| ReportExport.MagnitudeText | src/pages/Reports.tsx:40 | an amount shows as digits with at most a decimal point |
| ReportExport.CentsText | src/pages/Reports.tsx:40 | an amount's text holds no comma or newline and starts with a digit, or a minus when negative |
| ReportExport.MagnitudeRoundTrip | src/pages/Reports.tsx:40 | a non-negative amount reads back from its text |
| ReportExport.CentsTextRoundTrip | src/pages/Reports.tsx:40 | any amount in cents reads back from its text |
| ReportExport.MoneyText | src/pages/Reports.tsx:40 | a printed amount is non-empty, holds no comma or newline, and starts with a digit when the amount is not negative |
| ReportExport.Row | src/pages/Reports.tsx:40 | a row is never empty and holds no newline when its date label holds none |
| ReportExport.Rows | src/pages/Reports.tsx:40 | one row per point, in series order |
| ReportExport.ExportCsv | src/pages/Reports.tsx:38-40 | the text starts with the header, and an empty series gives the header alone |
| ReportExport.NatTextIsPlain | src/pages/Reports.tsx:40 | an order count's text holds no comma or newline |
| ReportExport.RowFields | src/pages/Reports.tsx:40 | a row splits at commas into exactly date, revenue and count |
| ReportExport.RowIsOneLine | src/pages/Reports.tsx:40 | a row is non-empty and holds no newline |
| ReportExport.MoneyTextRoundTrip | src/pages/Reports.tsx:40 | a whole-cent amount reads back from its text as the same amount |
| ReportExport.ParseRowOfRow | src/pages/Reports.tsx:40 | reading a row reads its date, amount and count fields |
| ReportExport.ParseThreeFields | src/pages/Reports.tsx:40 | a date, an amount text and a digit string read as the point they describe |
| ReportExport.RowRoundTrip | src/pages/Reports.tsx:40 | a row reads back as its point |
| ReportExport.RowsTail | src/pages/Reports.tsx:40 | the rows after the first are the rows of the remaining points |
| ReportExport.ParseRowsCons | src/pages/Reports.tsx:40 | reading lines reads the first, then the rest |
| ReportExport.RowsRoundTrip | src/pages/Reports.tsx:40 | the rows read back as the series |
| ReportExport.CsvRoundTrip | src/pages/Reports.tsx:38-40 | the exported text reads back as the series: header, then one newline-separated row per point, no trailing newline |
| OrderForm.FindActive | src/pages/Orders.tsx:67-84 | finds a service exactly when an active one has the id, and then the first one |
| OrderForm.UpdateItem | src/pages/Orders.tsx:78-89 | only the indexed row changes, in the edited field; a service choice also takes the first active match's price, and keeps the old price when there is none |
| OrderForm.UpdateItemIdempotent | src/pages/Orders.tsx:78-89 | applying the same edit twice is the same as once |
| OrderForm.ChosenPriceFromCatalog | src/pages/Orders.tsx:83-86 | after a service choice the row's price is the old one or an active service's price for that id |
| OrderForm.AddItem | src/pages/Orders.tsx:91 | one blank row appended, the rest unchanged |
| OrderForm.RemoveItem | src/pages/Orders.tsx:92 | only row i is dropped and the others keep their order; an index out of range drops nothing |
| OrderForm.RemoveUndoesAdd | src/pages/Orders.tsx:91-92 | removing the row just added restores the form |
| OrderForm.RemoveThenAddKeepsCount | src/pages/Orders.tsx:91-92 | removing a row and adding one keeps the row count |
| OrderForm.ValidItems | src/pages/Orders.tsx:98 | the sent rows are a subsequence of the form's rows, all valid, each valid row as many times as the form holds it |
| OrderForm.OrderTotalSplits | src/pages/Orders.tsx:94-98 | the running total counts every row: it is the sent rows' total plus the dropped rows' total |
| OrderForm.HandleCreate | src/pages/Orders.tsx:96-102 | rejected with "Select a customer" exactly when no customer is chosen, with "Add at least one item" exactly when no row is valid; otherwise the payload holds exactly the valid rows, in order: a subsequence of the rows, all valid, with every valid row present as many times as in the form |
| OrderForm.LineGap | src/pages/Orders.tsx:94 | one stored line total is within half a cent of the row's preview amount |
| OrderForm.RoundingGap | src/pages/Orders.tsx:94 | the ledger's sum of rounded lines is within half a cent per line of the unrounded sum |
| OrderForm.PreviewWithinHalfCentPerRow | src/pages/Orders.tsx:94-100 | the preview total of the sent rows is within half a cent per row of the total the ledger charges |
| OrderForm.AllValidRowsAreSent | src/pages/Orders.tsx:98 | when every row is valid, every row is sent |
| OrderForm.FilterOrders | src/pages/Orders.tsx:104-109 | exactly the orders matching both search and status, in list order, each as many times as the list holds it |
| OrderForm.ContainsEmpty | src/pages/Orders.tsx:105 | the empty search text occurs in every text |
| OrderForm.NoFilterShowsAll | src/pages/Orders.tsx:104-109 | with no search and the "all" filter, every order is shown |
| OrderForm.StatusFilterSelects | src/pages/Orders.tsx:107 | a status filter shows orders of that status only |
| OrderForm.UnknownStatusShowsNothing | src/pages/Orders.tsx:107 | a filter that is neither "all" nor a status shows nothing |
| OrderForm.ToLowerIdempotent | src/pages/Orders.tsx:105-106 | lower-casing twice is lower-casing once |
| OrderForm.SearchIgnoresCase | src/pages/Orders.tsx:105-106 | typing the search in any letter case shows the same orders |

`createOrder` (src/services/mock-data.ts:152-186) checks neither that the item list is
non-empty nor that quantities are positive; only the order form filters its rows. So
`Ledger.CreateOrder` accepts any item list.

## Left out

- The `delay` wrapper and promises (src/services/mock-data.ts:93-94): every operation is synchronous.
- Login and the current user (src/services/mock-data.ts:100-107): they take any credentials and hold no logic.
- The plain getters `getServices`, `getCustomers`, `getOrders`: each returns a copy of one sequence of the store.
- The clock. `new Date()`, `toISOString`, `format(…, "yyyyMMdd")` and `subDays` become the fields of a `Clock` parameter. Timezones and the local-day versus UTC-day comparison of `startsWith` and `substring(0, 10)` are not modelled: an order's day is an integer.
- The `"MMM dd"` point labels: the label of a day is a function parameter.
- `Date.now()` in item ids: the model takes one timestamp per order from the `Clock` parameter. The source reads `Date.now()` once per item and `new Date()` after the items, so the items of one order can carry different millisecond texts, and the order's date can differ from them.
- IEEE-754 doubles. Money is an exact rational. Float drift in sums is not modelled, nor is the double rounding that `toFixed` does on binary values.
- ReportExport.CentsText: numbers print as JavaScript prints a two-decimal value, with trailing zeros dropped. Exponent notation (magnitudes of 10^21 and above) is not modelled.
- Reporting.ServiceDistributionSummarises: equal revenues are stated to keep first-appearance order. `Object.entries` would put integer-like service names (such as "42") first in ascending numeric order, and a service named after any key that a plain object inherits from `Object.prototype` would vanish from the report: for `__proto__`, `constructor`, `toString`, `toLocaleString`, `valueOf`, `hasOwnProperty`, `isPrototypeOf`, `propertyIsEnumerable`, `__defineGetter__`, `__defineSetter__`, `__lookupGetter__` and `__lookupSetter__`, the lookup finds an inherited value that is truthy, so no own entry is created, the sums go elsewhere, and `Object.entries` never lists the name. Neither quirk is modelled. Reporting.SortedEntriesCover and Reporting.ServiceDistributionSummarises list such names, where the source drops them.
- Text.ToLower: lower-cases ASCII letters only. JavaScript's full Unicode case mapping is not modelled.
- OrderForm.UpdateItem: requires the index to be a row of the form. An out-of-range index in JavaScript would extend the array with a row holding only the edited field. The page only passes indices of rendered rows.
- OrderForm.UpdateItem: quantity and price edits are typed values. The page sends `parseInt(…) || 1` for a quantity (src/pages/Orders.tsx:253) and `parseFloat(…) || 0` for a price (src/pages/Orders.tsx:258). The `||` fallback replaces `NaN` and zero, so a quantity is always a non-zero integer. The parsing of the input text is not modelled, and `SetQuantity` also admits 0, which the page never sends.
- Ledger.CreateOrder and Ledger.MakeItems require every service id to exist in the catalog. The source asserts this with `!` and crashes otherwise.
- Ledger.Credit: states the new spend as the exact sum only when both amounts are whole cents, which every reachable store satisfies. For other values it is `Round2` of the sum.
- Reporting.Metrics: states the average only through `Reporting.AverageWithinHalfCent` (within half a cent of the exact mean), not as a closed formula.
- The Blob, object URL and anchor-click download of the CSV (src/pages/Reports.tsx:41-47).
- React state, dialogs, toasts and react-query caching around the page logic. The form's rows, search text and status filter are arguments.
- Zod form schemas of the services and customers pages.

# Finance tracker: a Dafny model of its holding and yield core

The finance tracker is a single-user, browser-local record keeper for wealth-management
products. A **product** is one purchased position (purchase date, net value per share,
amount, shares, redemption state). A **query record** is an observation of the product's
net value on some date, stored with the days held, the annualized yield and the current
value computed at that moment. Two stores own the two lists and write each list whole to
local storage after every change; the dashboard, the query history, the import/export
panel and the page derive views from them and wire them to the UI.

This project models that core:

- `DateUtils` (`date_utils.dfy`): calendar dates as `Date(year, month, day)`, their day
  number since 1970-01-01 in the proleptic Gregorian calendar and their UTC-midnight
  timestamp; `calculateDaysBetween` (floor of a millisecond difference, not clamped),
  `calculateDaysHeld` and `formatCurrentDate`. The lemmas show that the day-number scale
  is the calendar: the next calendar day is one day later, the order of day numbers is the
  calendar order, and day counts between dates are exact, additive and antisymmetric.
- `QueryRecords` (`query_records.dfy`): the yield calculator (`round2` as
  `Number(x.toFixed(2))`, the 1-day floor on the divisor only), record creation, the
  per-product filter, the `reduce` that picks the latest record (first among equal dates),
  per-product deletion and bulk replacement, in a class whose ghost field `saved` is the
  `queryRecords` storage blob.
- `FinancialProducts` (`financial_products.dfy`): shallow merge of partial updates (a
  present `undefined` clears an optional field), add, update, delete, the redemption toggle
  and bulk replacement, in a class whose ghost field `saved` is the `financialProducts` blob.
- `ProductList` (`product_list.dfy`): the redeemed filter and the sort by latest yield.
- `QueryHistory` (`query_history.dfy`): the performance difference and the display guards.
- `DataImportExport` (`data_import_export.dfy`): the export snapshot, the import shape check
  and the import handler's error state.
- `Page` (`page.dfy`): import reconciliation, the selection lookup, the render guards and
  deletion from the detail view.
- `Types`, `Wrappers`, `Seqs`, `Storage`: the entities, `Option`/`Result`, `filter` over
  sequences, and the storage mirror.

Behaviour worth knowing, as the code has it:

- `addProduct` forces `redeemed` to false but copies `redemptionDate` from its input
  (src/hooks/useFinancialProducts.ts:22-26); the product form never sets it.
- `toggleRedeemStatus` decides the new state from the first product with the id and applies
  it to every product with that id. Toggling twice restores `redeemed`; the redemption date is
  then absent only if the product started unredeemed, and otherwise is the second toggle's day.
- Deleting a product from the page leaves its query records in the record store: the page
  never takes `deleteProductRecords` from the hook (src/app/page.tsx:19), although the
  confirmation dialog says the records go too (src/components/ProductDetail.tsx:77).
- A yield at purchase of 0 is falsy: the comparison panel shows, but without a difference row.

Numbers are Dafny `real`s; "today" and "now" are parameters; fresh ids are parameters that
the caller guarantees are not yet in use, standing for `crypto.randomUUID()`.

## Model

| member | source | states |
|---|---|---|
| DateUtils.DayNumber | src/utils/dateUtils.ts:12-14 | 1970-01-01 is day 0, and a valid date's day number lies within its year: at least the year's first day and less than one year length after it. |
| DateUtils.NextDayNumber | src/utils/dateUtils.ts:12-14 | The calendar day after a valid date is valid and has exactly the next day number, so date-only timestamps are one day apart per calendar day. |
| DateUtils.YearLength | src/utils/dateUtils.ts:12-14 | Year `y+1` starts 365 or 366 days (by the Gregorian leap rule) after year `y`. |
| DateUtils.DayNumberOrder | src/utils/dateUtils.ts:12-14 | On valid dates, day-number order is exactly calendar (year, month, day) order, both directions. |
| DateUtils.DayNumberInjective | src/utils/dateUtils.ts:12-14 | Distinct valid dates have distinct day numbers. |
| DateUtils.CalculateDaysBetween | src/utils/dateUtils.ts:11-15 | The result is the floor of the millisecond span over 86400000; an absent end date means the instant "now". |
| DateUtils.DaysBetweenDates | src/utils/dateUtils.ts:14 | For two date-only values the count is exactly the difference of their day numbers. |
| DateUtils.DaysBetweenSameDate | src/utils/dateUtils.ts:14 | Equal dates give 0. |
| DateUtils.DaysBetweenSign | src/utils/dateUtils.ts:14 | No clamping: an end before the start gives a negative count, an end after it a positive one. |
| DateUtils.DaysBetweenNextDay | src/utils/dateUtils.ts:14 | Consecutive calendar days are 1 apart. |
| DateUtils.DaysBetweenAdditive | src/utils/dateUtils.ts:14 | between(a,b) + between(b,c) = between(a,c). |
| DateUtils.DaysBetweenAntisymmetric | src/utils/dateUtils.ts:14 | between(a,b) = -between(b,a). |
| DateUtils.ExampleHoldingPeriod | src/utils/dateUtils.ts:14 | 2024-01-01 to 2024-07-01 is 182 days. |
| DateUtils.CalculateDaysHeld | src/utils/dateUtils.ts:18-28 | 0 for an absent product; else redemption day minus purchase day when redeemed with a date, today minus purchase day otherwise. |
| DateUtils.NatToDecimal | src/utils/dateUtils.ts:4-6 | `String(n)`: at least one digit, no leading zero, and the digits denote `n`. |
| DateUtils.PadStart | src/utils/dateUtils.ts:5-6 | `padStart`: length is the larger of the two, the original text is a suffix and the prefix is all pad characters. |
| DateUtils.LeadingZeros | src/utils/dateUtils.ts:5-6 | Zero padding does not change the denoted number. |
| DateUtils.TwoDigits | src/utils/dateUtils.ts:5-6 | A month or day becomes exactly two digits denoting it. |
| DateUtils.YearText | src/utils/dateUtils.ts:4-7 | `String(year)`: a non-negative year is all digits denoting it; a negative one is '-' followed by digits denoting its magnitude. |
| DateUtils.FormatCurrentDate | src/utils/dateUtils.ts:2-8 | The text is year, '-', two digits denoting the 1-based month, '-', two digits denoting the day. |
| QueryRecords.Round2 | src/hooks/useQueryRecords.ts:31-33 | The rounded value is within 0.005 of the input and a whole number of hundredths. |
| QueryRecords.Round2Odd | src/hooks/useQueryRecords.ts:31-33 | Rounding is symmetric about zero. |
| QueryRecords.Round2Tie | src/hooks/useQueryRecords.ts:31-33 | A value exactly halfway between two hundredths rounds to the larger magnitude, on both sides of zero. |
| QueryRecords.Round2Exact | src/hooks/useQueryRecords.ts:31-33 | A value with two decimals is unchanged. |
| QueryRecords.Round2Monotone | src/hooks/useQueryRecords.ts:31-33 | Rounding preserves order. |
| QueryRecords.RawAnnualizedYield | src/hooks/useQueryRecords.ts:32 | The unrounded yield times the purchase net value times max(days, 1) is the gain times 36500: the gain ratio annualized over 365 days, in percent. |
| QueryRecords.AnnualizedYield | src/hooks/useQueryRecords.ts:31-33 | The stored yield is within 0.005 of (cur-pur)/pur * 365/max(days,1) * 100 and a whole number of hundredths. |
| QueryRecords.YieldDivisorFloor | src/hooks/useQueryRecords.ts:32 | Any days held of 1 or fewer annualizes over one day. |
| QueryRecords.YieldSign | src/hooks/useQueryRecords.ts:32 | With a positive purchase price, a gain gives a yield of at least 0 and a loss at most 0. |
| QueryRecords.NewRecord | src/hooks/useQueryRecords.ts:29-43 | The record carries the given id, product, date and net value; days held is query day minus purchase day (unclamped); the yield is annualized over it; amount is net value times shares. |
| QueryRecords.ExampleQuery | src/hooks/useQueryRecords.ts:29-42 | 10000 shares bought at 1.00 on 2024-01-01, queried at 1.05 on 2024-07-01: 182 days, 10.03 %, 10500. |
| QueryRecords.SameDayQuery | src/hooks/useQueryRecords.ts:29-41 | A same-day query stores 0 days held but annualizes over 1 day. |
| QueryRecords.GetProductRecords | src/hooks/useQueryRecords.ts:51-53 | Exactly the records of that product are returned. |
| QueryRecords.GetProductRecordsConcat | src/hooks/useQueryRecords.ts:52 | The filter distributes over concatenation, so the records come out in store order. |
| QueryRecords.GetProductRecordsSingle | src/hooks/useQueryRecords.ts:52 | A single record is kept exactly when it belongs to the product. |
| QueryRecords.ReduceLatest | src/hooks/useQueryRecords.ts:60-62 | The fold ends on a position with the greatest timestamp, earlier positions all being strictly earlier. |
| QueryRecords.GetLatestRecord | src/hooks/useQueryRecords.ts:56-63 | Absent iff the product has no records; otherwise one of its records, with a date no earlier than any other, and the first in store order among equal dates. |
| QueryRecords.ExampleLatest | src/hooks/useQueryRecords.ts:56-63 | Of records dated 01-01, 03-01, 02-01 the 03-01 one is latest. |
| QueryRecords.LatestIsCalendarLatest | src/hooks/useQueryRecords.ts:61 | With valid dates, no record of the product is later in calendar order than the one picked. |
| QueryRecords.WithoutProductRecords | src/hooks/useQueryRecords.ts:67 | Exactly the records of other products remain. |
| QueryRecords.WithoutProductRecordsConcat | src/hooks/useQueryRecords.ts:67 | Deletion distributes over concatenation, so the remaining records keep their store order. |
| QueryRecords.WithoutProductRecordsSingle | src/hooks/useQueryRecords.ts:67 | A single record survives exactly when it belongs to another product. |
| QueryRecords.DeletePartitions | src/hooks/useQueryRecords.ts:52-67 | A product's records and the records left after deleting them together make up the store, as multisets. |
| QueryRecords.DeleteLeavesNone | src/hooks/useQueryRecords.ts:67 | After deletion the product has no records and no latest record. |
| QueryRecords.QueryRecordStore.constructor | src/hooks/useQueryRecords.ts:9-12 | The list starts as the saved blob, or empty when nothing was saved. |
| QueryRecords.QueryRecordStore.AddRecord | src/hooks/useQueryRecords.ts:21-48 | Exactly the new record is appended, earlier records unchanged; the blob then equals the list. |
| QueryRecords.QueryRecordStore.DeleteProductRecords | src/hooks/useQueryRecords.ts:66-69 | The list loses exactly that product's records; the blob then equals the list. |
| QueryRecords.QueryRecordStore.ImportRecords | src/hooks/useQueryRecords.ts:72-75 | The list and the blob become the given records. |
| FinancialProducts.Merge | src/hooks/useFinancialProducts.ts:34 | Object spread: each field present in the update takes the update's value, every other field keeps the product's; for every optional field, `riskLevel` included, a present `undefined` clears it. |
| FinancialProducts.MergeNoUpdate | src/hooks/useFinancialProducts.ts:34 | Spreading an empty update changes nothing. |
| FinancialProducts.MergeCompose | src/hooks/useFinancialProducts.ts:34 | Two spreads equal one spread of the combined update; spreading the same update twice is spreading it once. |
| FinancialProducts.NewProduct | src/hooks/useFinancialProducts.ts:21-26 | The new product has the given id, `redeemed` false, and every other field from the input. |
| FinancialProducts.UpdateProducts | src/hooks/useFinancialProducts.ts:34 | Length and order kept; each product with the id is merged with the update, every other product is unchanged. |
| FinancialProducts.UpdateUnknownId | src/hooks/useFinancialProducts.ts:34 | An unknown id leaves the list unchanged. |
| FinancialProducts.UpdateKeepsIds | src/hooks/useFinancialProducts.ts:34 | An update without `id` keeps every id in place. |
| FinancialProducts.FindIndex | src/hooks/useFinancialProducts.ts:47 | Absent iff no product has the id; otherwise the first position with it. |
| FinancialProducts.FindById | src/hooks/useFinancialProducts.ts:47 | Absent iff the id is unused; otherwise the product at the first position holding the id. |
| FinancialProducts.FindIndexByIds | src/hooks/useFinancialProducts.ts:47 | The search result depends only on the ids position by position. |
| FinancialProducts.RemoveProduct | src/hooks/useFinancialProducts.ts:40 | Exactly the products with other ids remain. |
| FinancialProducts.RemoveUnknownId | src/hooks/useFinancialProducts.ts:40 | Deleting an unknown id changes nothing. |
| FinancialProducts.RemoveKeepsOrder | src/hooks/useFinancialProducts.ts:40 | Deletion distributes over concatenation, so the rest keeps its order. |
| FinancialProducts.RedeemUpdate | src/hooks/useFinancialProducts.ts:50-54 | Spread onto any product, the update sets `redeemed` to the new state and the redemption date to today or absent accordingly, and changes nothing else. |
| FinancialProducts.ToggleRedeemed | src/hooks/useFinancialProducts.ts:46-57 | Unknown id: no change. Otherwise every product with the id gets the negation of the first one's `redeemed` and today's date or no date accordingly; nothing else changes. |
| FinancialProducts.ToggleUnique | src/hooks/useFinancialProducts.ts:50-56 | With a unique id, only that product flips, with date set on redeeming and cleared on un-redeeming. |
| FinancialProducts.ToggleTwice | src/hooks/useFinancialProducts.ts:50-56 | Two toggles restore the first product's `redeemed`; the date is absent if it was unredeemed, the second day if redeemed. |
| FinancialProducts.ToggleTwiceRestores | src/hooks/useFinancialProducts.ts:50-56 | A unique, unredeemed product with no date comes back unchanged from two toggles. |
| FinancialProducts.ProductStore.constructor | src/hooks/useFinancialProducts.ts:9-12 | The list starts as the saved blob, or empty when nothing was saved. |
| FinancialProducts.ProductStore.AddProduct | src/hooks/useFinancialProducts.ts:21-30 | Exactly the new product is appended and returned; the blob then equals the list. |
| FinancialProducts.ProductStore.UpdateProduct | src/hooks/useFinancialProducts.ts:33-36 | The list becomes the merged map; the blob then equals the list. |
| FinancialProducts.ProductStore.DeleteProduct | src/hooks/useFinancialProducts.ts:39-43 | The list loses exactly the products with the id and is returned; the blob then equals the list. |
| FinancialProducts.ProductStore.ToggleRedeemStatus | src/hooks/useFinancialProducts.ts:46-57 | The list becomes the toggled list; with an unknown id the blob is not written, otherwise it equals the list. |
| FinancialProducts.ProductStore.ImportProducts | src/hooks/useFinancialProducts.ts:60-63 | The list and the blob become the given products. |
| ProductList.FilterProducts | src/components/ProductList.tsx:26-28 | With redeemed shown, all products; otherwise exactly the unredeemed ones, each no more often than in the list. |
| ProductList.FilterProductsSingle | src/components/ProductList.tsx:26-28 | A single product is kept once or dropped, never repeated, so with FilterKeepsOrder the filter keeps order and multiplicity. |
| ProductList.FilterKeepsOrder | src/components/ProductList.tsx:26 | The filter distributes over concatenation, keeping relative order. |
| ProductList.LatestYield | src/components/ProductList.tsx:30-31 | Absent iff the product has no records; otherwise the yield of a record with the greatest query date, the first such in store order, as the strict `>` of getLatestRecord picks. |
| ProductList.Compare | src/components/ProductList.tsx:29-39 | Positive (a after b) iff a has no record, or both have one and a's yield is higher; negative iff a has one and b has none or a lower yield. |
| ProductList.CompareRespectsOrder | src/components/ProductList.tsx:29-39 | A positive comparator answer never puts a product with a record after one without, nor a lower yield after a higher; a non-positive answer likewise. |
| ProductList.NoRecordsUndecided | src/components/ProductList.tsx:34 | Two products without records each compare after the other. |
| ProductList.Insert | src/components/ProductList.tsx:29 | Insertion adds exactly the element: the result is the list plus it, as multisets. |
| ProductList.InsertOrdered | src/components/ProductList.tsx:29 | Inserting into an ordered list keeps it ordered. |
| ProductList.SortByKey | src/components/ProductList.tsx:29 | The sort returns a permutation of its input in comparator order. |
| ProductList.SortedProducts | src/components/ProductList.tsx:26-39 | A permutation of the filtered products, every pair in comparator order by latest yield: no latest record means last, otherwise ascending. |
| ProductList.SortedByLatestRecord | src/components/ProductList.tsx:29-39 | Read through `getLatestRecord`: a product without a record is followed only by products without one, and a product with a record is preceded only by products with one whose yield is no higher. |
| ProductList.HiddenRedeemed | src/components/ProductList.tsx:26-29 | With redeemed hidden, the dashboard shows every unredeemed product and no redeemed one. |
| QueryHistory.GetPerformanceDifference | src/components/QueryHistory.tsx:12-20 | Absent iff the yield at purchase is absent or 0 or there is no latest record; else `isPositive` iff the difference is at least 0 and `value` is the difference rounded to two decimals. |
| QueryHistory.AmountShownForNewRecord | src/components/QueryHistory.tsx:73 | For a record made by `addRecord`, the amount line is hidden exactly when the net value or the shares are 0. |
| QueryHistory.DailyEarningsShownForNewRecord | src/components/QueryHistory.tsx:73-78 | For such a record, the daily line shows exactly when the amount line does and the query date is strictly after the purchase date. |
| QueryHistory.AverageDailyEarnings | src/components/QueryHistory.tsx:73-80 | Under the display guard the division is defined and the result times days held is the gain. |
| QueryHistory.ComparisonRows | src/components/QueryHistory.tsx:13-45 | When the panel shows, the difference row shows iff the yield at purchase is non-zero. |
| DataImportExport.CheckShape | src/components/DataImportExport.tsx:45-47 | Accepted iff both properties are arrays (empty included), and then passed on unchanged; `null` and other shapes are rejected. |
| DataImportExport.AsDocument | src/components/DataImportExport.tsx:19-47 | The document a snapshot serializes to always passes the shape check and yields that snapshot. |
| DataImportExport.ExportImportRoundTrip | src/components/DataImportExport.tsx:19-45 | The exported snapshot always passes the check and imports exactly the exported lists. |
| DataImportExport.ImportPanel.constructor | src/components/DataImportExport.tsx:14 | No error is shown at first. |
| DataImportExport.ImportPanel.HandleImport | src/components/DataImportExport.tsx:33-58 | The error is cleared first; no file does nothing; an accepted file is dispatched with no error; a rejected one sets the error and dispatches nothing. |
| Page.FinanceTracker.constructor | src/app/page.tsx:16-24 | Both stores load their blobs; nothing is selected and redeemed products are hidden. |
| Page.FinanceTracker.SelectedProductData | src/app/page.tsx:27 | Absent iff no product has the selected id; otherwise the first product with it. |
| Page.FinanceTracker.ShowDetail | src/app/page.tsx:59-73 | Detail and history show iff the selection is non-empty and found; then the query form shows too. |
| Page.FinanceTracker.ShowQueryForm | src/app/page.tsx:70 | The query form shows iff the selection is non-empty; a selection that no product has still shows it, while the detail has no product. |
| Page.FinanceTracker.HistoryRecords | src/app/page.tsx:76 | The history lists exactly the records of the selected product; with the other products' records they make up the whole store, as multisets. |
| Page.FinanceTracker.HistoryLatest | src/app/page.tsx:76-77 | The history's latest record is absent iff its record list is empty; otherwise it is a record of the list with the greatest query date, the first such in the list. |
| Page.FinanceTracker.Dashboard | src/app/page.tsx:44-53 | The dashboard is a permutation of the filtered products (every product when redeemed ones are shown, otherwise exactly the unredeemed), ordered pairwise by latest yield with products without records last. |
| Page.FinanceTracker.HandleImportData | src/app/page.tsx:30-35 | Products and records become the snapshot's, blobs included; the selection is cleared, so nothing but the list renders. |
| Page.FinanceTracker.ImportFile | src/app/page.tsx:41 | An accepted file replaces both stores and clears the selection; otherwise stores, blobs and selection are untouched; the redeemed toggle is kept either way. |
| Page.FinanceTracker.DeleteProductFromDetail | src/app/page.tsx:63-65 | The product store loses the product, the selection is cleared, the redeemed toggle is kept, and the record store, that product's records included, is unchanged. |

## Left out

- Local storage reads and writes and `JSON.parse`/`JSON.stringify` of the blobs: storage is the ghost mirror `saved`; the initial load is an optional starting list.
- The element shapes of imported JSON: array elements are taken to be products and records, as the code takes them without checking.
- The texts of the engine's `SyntaxError` and `TypeError`: the import error keeps the parser's message and a tag for a `null` document; the format error's text is `FormatErrorMessage`.
- `crypto.randomUUID()`: ids are parameters the caller guarantees are unused.
- Reading the clock (`new Date()`): "now" and "today" are parameters; the local/UTC offset between them is not modelled.
- Parsing date strings: dates are `Date` triples; invalid date strings (`Invalid Date`, `NaN` comparisons) are not modelled.
- IEEE-754 arithmetic: numbers are exact reals, so the binary rounding quirks of `toFixed` are not modelled and a zero purchase net value (NaN/Infinity) is excluded by the requires of the yield functions.
- `toFixed`'s string result in the performance difference: only its numeric value is kept.
- React state semantics (batched updates, stale closures): every operation sees the previous one's result.
- The asynchronous `FileReader`, the Blob/URL download and the download file name.
- JSX rendering, styling, expand/collapse state and icons, including the displayed latest yield (`latestRecord?.annualizedYield || 0`) and the dashboard's daily-average figure.
- ProductList.SortedProducts: the comparator is not consistent (two products without a record each compare after the other), and ECMAScript then leaves the whole result order implementation-defined; the model's order claims hold for a sort that respects every comparison the comparator decides, and nothing is said about the order among products without a record.
- ProductForm, ProductDetail and QueryForm (form reading, dialogs, `shares = amount / netValue`, the blank-name check, re-reading the product from storage); the page passes `addProduct`, `updateProduct`, `toggleRedeemStatus` and `addRecord` to them unchanged, so those are the store methods above.
- next.config.ts: configuration only.
- The risk-level options (`RISK_LEVELS`, src/types/index.ts:31-38): only the product form reads them; a product's `riskLevel` is an optional string, absent when the detail view saved an empty level (`editedRiskLevel || undefined`).

/**
 * The comparison figure and display guards of the query history panel
 * (src/components/QueryHistory.tsx).
 */
module QueryHistory {
  import opened Wrappers
  import opened Types
  import opened QueryRecords
  import opened DateUtils

  /** `value` is `difference.toFixed(2)` as a number; `isPositive` is read off the unrounded difference. */
  datatype PerformanceDifference = PerformanceDifference(value: real, isPositive: bool)

  /**
   * `getPerformanceDifference`: nothing when the yield at purchase is falsy (absent or 0)
   * or there is no latest record; otherwise the latest yield minus the yield at purchase.
   */
  function GetPerformanceDifference(monthlyYieldAtPurchase: Option<real>, latestRecord: Option<QueryRecord>)
    : (r: Option<PerformanceDifference>)
    ensures r.None? <==> monthlyYieldAtPurchase in {None, Some(0.0)} || latestRecord.None?
    ensures r.Some? ==>
      var difference := latestRecord.value.annualizedYield - monthlyYieldAtPurchase.value;
      && (r.value.isPositive <==> difference >= 0.0)
      && -0.005 <= r.value.value - difference <= 0.005
      && r.value.value == Round2(difference)
  {
    if monthlyYieldAtPurchase.None? || monthlyYieldAtPurchase.value == 0.0 || latestRecord.None? then None
    else
      var difference := latestRecord.value.annualizedYield - monthlyYieldAtPurchase.value;
      Some(PerformanceDifference(Round2(difference), difference >= 0.0))
  }

  /** The comparison panel shows when a yield at purchase is recorded (even 0) and there are records. */
  predicate ShowComparison(monthlyYieldAtPurchase: Option<real>, records: seq<QueryRecord>)
  {
    monthlyYieldAtPurchase.Some? && |records| > 0
  }

  /** The amount line shows when `currentAmount` is truthy (non-zero). */
  predicate ShowAmount(record: QueryRecord)
  {
    record.currentAmount != 0.0
  }

  /** The average-daily-earnings line additionally needs a positive holding period. */
  predicate ShowDailyEarnings(record: QueryRecord)
  {
    ShowAmount(record) && record.daysHeld > 0
  }

  /** The figure behind the average-daily-earnings line; the guard makes the division safe. */
  function AverageDailyEarnings(record: QueryRecord, purchaseAmount: real): (r: real)
    requires ShowDailyEarnings(record)
    ensures r * record.daysHeld as real == record.currentAmount - purchaseAmount
  {
    (record.currentAmount - purchaseAmount) / record.daysHeld as real
  }

  /** For a record made by `addRecord`, the amount line is hidden exactly when the net value or the shares are 0. */
  lemma AmountShownForNewRecord(id: Id, productId: Id, purchaseDate: Date, queryDate: Date,
                                currentNetValue: real, purchaseNetValue: real, shares: real)
    requires purchaseNetValue != 0.0
    ensures ShowAmount(NewRecord(id, productId, purchaseDate, queryDate, currentNetValue, purchaseNetValue, shares))
        <==> currentNetValue != 0.0 && shares != 0.0
  {
  }

  /**
   * For a record made by `addRecord`, the average-daily-earnings line shows exactly when
   * the amount line does and the query day is strictly after the purchase day.
   */
  lemma DailyEarningsShownForNewRecord(id: Id, productId: Id, purchaseDate: Date, queryDate: Date,
                                       currentNetValue: real, purchaseNetValue: real, shares: real)
    requires purchaseNetValue != 0.0
    requires ValidDate(purchaseDate) && ValidDate(queryDate)
    ensures ShowDailyEarnings(NewRecord(id, productId, purchaseDate, queryDate, currentNetValue, purchaseNetValue, shares))
        <==> currentNetValue != 0.0 && shares != 0.0 && DateBefore(purchaseDate, queryDate)
  {
    DayNumberOrder(purchaseDate, queryDate);
  }

  /**
   * Fed as the page feeds it (the product's records and its latest record), the panel
   * shows a difference row exactly when the yield at purchase is non-zero; with a yield
   * at purchase of 0 it shows the panel without the row.
   */
  lemma ComparisonRows(records: seq<QueryRecord>, productId: Id, monthlyYieldAtPurchase: Option<real>)
    requires ShowComparison(monthlyYieldAtPurchase, GetProductRecords(records, productId))
    ensures GetPerformanceDifference(monthlyYieldAtPurchase, GetLatestRecord(records, productId)).Some?
        <==> monthlyYieldAtPurchase.value != 0.0
  {
    var prs := GetProductRecords(records, productId);
    assert prs[0] in prs;
  }
}

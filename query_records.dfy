/**
 * The query-record store and the yield calculator it invokes (src/hooks/useQueryRecords.ts).
 *
 * The records list is an append-only log; every mutation writes the whole list to the
 * `queryRecords` storage blob, modelled by the ghost field `saved`.
 */
module QueryRecords {
  import opened Wrappers
  import opened DateUtils
  import opened Types
  import Seqs
  import Storage

  // ---------------------------------------------------------------------------
  // Yield calculator

  /**
   * `Number(x.toFixed(2))`: `x` rounded to two decimals, halves away from zero
   * (`toFixed` rounds the magnitude and re-attaches the sign).
   */
  function Round2(x: real): (r: real)
    ensures -0.005 <= r - x <= 0.005
    ensures (r * 100.0).Floor as real == r * 100.0
  {
    var m := if x >= 0.0 then x else -x;
    var k := (m * 100.0 + 0.5).Floor;
    assert k as real <= m * 100.0 + 0.5 < k as real + 1.0;
    var c := if x >= 0.0 then k else -k;
    assert (c as real / 100.0) * 100.0 == c as real;
    c as real / 100.0
  }

  /** Rounding is symmetric about zero. */
  lemma Round2Odd(x: real)
    ensures Round2(-x) == -Round2(x)
  {
  }

  /** A value that already has two decimals is left as it is. */
  lemma Round2Exact(k: int)
    ensures Round2(k as real / 100.0) == k as real / 100.0
  {
    var x := k as real / 100.0;
    var a := if k >= 0 then k else -k;
    assert (if x >= 0.0 then x else -x) * 100.0 + 0.5 == a as real + 0.5;
    assert (a as real + 0.5).Floor == a;
  }

  /**
   * Ties go to the larger magnitude: a value exactly halfway between two hundredths,
   * `(2k+1)/200`, rounds up to `(k+1)/100`, and its negation down to `-(k+1)/100`.
   */
  lemma Round2Tie(k: nat)
    ensures Round2((2 * k + 1) as real / 200.0) == (k + 1) as real / 100.0
    ensures Round2(-((2 * k + 1) as real / 200.0)) == -((k + 1) as real / 100.0)
  {
    var x := (2 * k + 1) as real / 200.0;
    assert x * 100.0 + 0.5 == (k + 1) as real;
    assert ((k + 1) as real).Floor == k + 1;
    Round2Odd(x);
  }

  /** Rounding never reverses the order of two values. */
  lemma Round2Monotone(x: real, y: real)
    requires x <= y
    ensures Round2(x) <= Round2(y)
  {
    if x >= 0.0 {
      assert (x * 100.0 + 0.5).Floor <= (y * 100.0 + 0.5).Floor;
    } else if y < 0.0 {
      assert (-y * 100.0 + 0.5).Floor <= (-x * 100.0 + 0.5).Floor;
    }
  }

  /** The unrounded annualized yield, in percent, with the divisor floored at one day. */
  function RawAnnualizedYield(currentNetValue: real, purchaseNetValue: real, daysHeld: int): (r: real)
    requires purchaseNetValue != 0.0
    ensures r * purchaseNetValue * (if daysHeld > 1 then daysHeld else 1) as real
         == (currentNetValue - purchaseNetValue) * 36500.0
  {
    var days := (if daysHeld > 1 then daysHeld else 1) as real;
    var gain := (currentNetValue - purchaseNetValue) / purchaseNetValue;
    var r := gain * (365.0 / days) * 100.0;
    assert gain * purchaseNetValue == currentNetValue - purchaseNetValue;
    assert (365.0 / days) * days == 365.0;
    assert r * purchaseNetValue * days == (gain * purchaseNetValue) * ((365.0 / days) * days) * 100.0;
    r
  }

  /**
   * The stored annualized yield: the raw figure rounded to two decimals, so within half
   * a hundredth of it and a whole number of hundredths.
   */
  function AnnualizedYield(currentNetValue: real, purchaseNetValue: real, daysHeld: int): (r: real)
    requires purchaseNetValue != 0.0
    ensures -0.005 <= r - RawAnnualizedYield(currentNetValue, purchaseNetValue, daysHeld) <= 0.005
    ensures (r * 100.0).Floor as real == r * 100.0
  {
    Round2(RawAnnualizedYield(currentNetValue, purchaseNetValue, daysHeld))
  }

  /** The floor of one day applies to the divisor only: held 0 days or fewer annualizes like 1 day. */
  lemma YieldDivisorFloor(currentNetValue: real, purchaseNetValue: real, daysHeld: int)
    requires purchaseNetValue != 0.0
    requires daysHeld <= 1
    ensures AnnualizedYield(currentNetValue, purchaseNetValue, daysHeld)
         == AnnualizedYield(currentNetValue, purchaseNetValue, 1)
  {
  }

  /** For a positive purchase price, a gain gives a non-negative yield and a loss a non-positive one. */
  lemma YieldSign(currentNetValue: real, purchaseNetValue: real, daysHeld: int)
    requires purchaseNetValue > 0.0
    ensures currentNetValue >= purchaseNetValue ==> AnnualizedYield(currentNetValue, purchaseNetValue, daysHeld) >= 0.0
    ensures currentNetValue <= purchaseNetValue ==> AnnualizedYield(currentNetValue, purchaseNetValue, daysHeld) <= 0.0
  {
    var d := (if daysHeld > 1 then daysHeld else 1) as real;
    var g := (currentNetValue - purchaseNetValue) / purchaseNetValue;
    var raw := RawAnnualizedYield(currentNetValue, purchaseNetValue, daysHeld);
    assert raw == g * (365.0 / d) * 100.0;
    assert 365.0 / d > 0.0;
    if currentNetValue >= purchaseNetValue {
      assert g >= 0.0;
      assert raw >= 0.0;
      Round2Monotone(0.0, raw);
    }
    if currentNetValue <= purchaseNetValue {
      assert g <= 0.0;
      assert raw <= 0.0;
      Round2Monotone(raw, 0.0);
    }
  }

  /**
   * `addRecord`'s calculation: a record for `productId` observed on `queryDate`, with the
   * calendar days held since purchase (not clamped), the yield annualized over them and
   * the current value of the position.
   */
  function NewRecord(id: Id, productId: Id, purchaseDate: Date, queryDate: Date,
                     currentNetValue: real, purchaseNetValue: real, shares: real): (r: QueryRecord)
    requires purchaseNetValue != 0.0
    ensures r.id == id && r.productId == productId && r.queryDate == queryDate
    ensures r.currentNetValue == currentNetValue
    ensures r.daysHeld == DayNumber(queryDate) - DayNumber(purchaseDate)
    ensures r.annualizedYield == AnnualizedYield(currentNetValue, purchaseNetValue, r.daysHeld)
    ensures r.currentAmount == currentNetValue * shares
  {
    var daysHeld := CalculateDaysBetween(purchaseDate, Some(queryDate), 0);
    DaysBetweenDates(purchaseDate, queryDate, 0);
    QueryRecord(id, productId, queryDate, currentNetValue, currentNetValue * shares,
                AnnualizedYield(currentNetValue, purchaseNetValue, daysHeld), daysHeld)
  }

  /**
   * 10000 bought at 1.0000 on 2024-01-01, queried at 1.0500 on 2024-07-01: held 182 days,
   * annualized yield 10.03 %, worth 10500.
   */
  lemma ExampleQuery()
    ensures var r := NewRecord("q", "p", Date(2024, 1, 1), Date(2024, 7, 1), 1.05, 1.0, 10000.0);
            r.daysHeld == 182 && r.annualizedYield == 10.03 && r.currentAmount == 10500.0
  {
    var r := NewRecord("q", "p", Date(2024, 1, 1), Date(2024, 7, 1), 1.05, 1.0, 10000.0);
    assert r.daysHeld == 182;
    var raw := RawAnnualizedYield(1.05, 1.0, 182);
    assert raw == 1825.0 / 182.0;
    assert 1003.0 <= raw * 100.0 + 0.5 < 1004.0;
  }

  /** Same-day query: 0 days held is stored, yet the yield is annualized over one day. */
  lemma SameDayQuery(id: Id, productId: Id, d: Date, currentNetValue: real, purchaseNetValue: real, shares: real)
    requires purchaseNetValue != 0.0
    ensures var r := NewRecord(id, productId, d, d, currentNetValue, purchaseNetValue, shares);
            r.daysHeld == 0 && r.annualizedYield == AnnualizedYield(currentNetValue, purchaseNetValue, 1)
  {
    YieldDivisorFloor(currentNetValue, purchaseNetValue, 0);
  }

  // ---------------------------------------------------------------------------
  // Queries over the list

  /** `getProductRecords`: the records of one product, in store order. */
  function GetProductRecords(records: seq<QueryRecord>, productId: Id): (r: seq<QueryRecord>)
    ensures forall x :: x in r <==> x in records && x.productId == productId
  {
    forall x ensures x in Seqs.Filter(records, (x: QueryRecord) => x.productId == productId)
                 <==> x in records && x.productId == productId {
      Seqs.FilterMembership(records, (x: QueryRecord) => x.productId == productId, x);
    }
    Seqs.Filter(records, (x: QueryRecord) => x.productId == productId)
  }

  /** The filter keeps store order: it distributes over concatenation. */
  lemma GetProductRecordsConcat(a: seq<QueryRecord>, b: seq<QueryRecord>, productId: Id)
    ensures GetProductRecords(a + b, productId) == GetProductRecords(a, productId) + GetProductRecords(b, productId)
  {
    Seqs.FilterConcat(a, b, (x: QueryRecord) => x.productId == productId);
  }

  /** A single record is kept exactly when it belongs to the product. */
  lemma GetProductRecordsSingle(x: QueryRecord, productId: Id)
    ensures GetProductRecords([x], productId) == if x.productId == productId then [x] else []
  {
    Seqs.FilterCons(x, [], (x: QueryRecord) => x.productId == productId);
    assert [x] + [] == [x];
  }

  /**
   * The index the `reduce` of `getLatestRecord` ends on, having visited `prs[..i]` with
   * `best` the current pick: a later query date replaces the pick, an equal one does not.
   */
  function ReduceLatest(prs: seq<QueryRecord>, best: nat, i: nat): (k: nat)
    requires best < |prs| && i <= |prs|
    requires forall j :: 0 <= j < i ==> Timestamp(prs[j].queryDate) <= Timestamp(prs[best].queryDate)
    requires forall j :: 0 <= j < best ==> Timestamp(prs[j].queryDate) < Timestamp(prs[best].queryDate)
    ensures k < |prs|
    ensures forall j :: 0 <= j < |prs| ==> Timestamp(prs[j].queryDate) <= Timestamp(prs[k].queryDate)
    ensures forall j :: 0 <= j < k ==> Timestamp(prs[j].queryDate) < Timestamp(prs[k].queryDate)
    decreases |prs| - i
  {
    if i == |prs| then best
    else ReduceLatest(prs, if Timestamp(prs[i].queryDate) > Timestamp(prs[best].queryDate) then i else best, i + 1)
  }

  /**
   * `getLatestRecord`: absent exactly when the product has no records; otherwise one of
   * them with the greatest query date, the first in store order among equals.
   */
  function GetLatestRecord(records: seq<QueryRecord>, productId: Id): (r: Option<QueryRecord>)
    ensures r.None? <==> forall x :: x in records ==> x.productId != productId
    ensures r.None? <==> GetProductRecords(records, productId) == []
    ensures r.Some? ==> r.value in GetProductRecords(records, productId)
    ensures r.Some? ==> r.value in records && r.value.productId == productId
    ensures r.Some? ==> forall x :: x in records && x.productId == productId ==>
              Timestamp(x.queryDate) <= Timestamp(r.value.queryDate)
    ensures r.Some? ==> var prs := GetProductRecords(records, productId);
              exists k :: 0 <= k < |prs| && prs[k] == r.value &&
                forall j :: 0 <= j < k ==> Timestamp(prs[j].queryDate) < Timestamp(r.value.queryDate)
  {
    var prs := GetProductRecords(records, productId);
    if |prs| == 0 then
      None
    else
      assert prs[0] in prs;
      var k := ReduceLatest(prs, 0, 0);
      assert prs[k] in prs;
      Some(prs[k])
  }

  /** The day numbers of the example's three query dates. */
  lemma ExampleDates()
    ensures DayNumber(Date(2024, 1, 1)) == 19723
    ensures DayNumber(Date(2024, 2, 1)) == 19754
    ensures DayNumber(Date(2024, 3, 1)) == 19783
    ensures Timestamp(Date(2024, 1, 1)) < Timestamp(Date(2024, 3, 1))
    ensures Timestamp(Date(2024, 2, 1)) < Timestamp(Date(2024, 3, 1))
  {
  }

  /** Records queried on 2024-01-01, 2024-03-01 and 2024-02-01, in that order: the latest is the March one. */
  lemma ExampleLatest()
    ensures var a := QueryRecord("a", "p", Date(2024, 1, 1), 1.0, 1.0, 0.0, 0);
            var b := QueryRecord("b", "p", Date(2024, 3, 1), 1.0, 1.0, 0.0, 60);
            var c := QueryRecord("c", "p", Date(2024, 2, 1), 1.0, 1.0, 0.0, 31);
            GetLatestRecord([a, b, c], "p") == Some(b)
  {
    var a := QueryRecord("a", "p", Date(2024, 1, 1), 1.0, 1.0, 0.0, 0);
    var b := QueryRecord("b", "p", Date(2024, 3, 1), 1.0, 1.0, 0.0, 60);
    var c := QueryRecord("c", "p", Date(2024, 2, 1), 1.0, 1.0, 0.0, 31);
    ExampleDates();
    AllOfProduct(a, b, c, "p");
    LatestOfThree([a, b, c]);
  }

  /** Three records of one product are all of its records, in order. */
  lemma AllOfProduct(a: QueryRecord, b: QueryRecord, c: QueryRecord, productId: Id)
    requires a.productId == productId && b.productId == productId && c.productId == productId
    ensures GetProductRecords([a, b, c], productId) == [a, b, c]
  {
    assert [a, b, c] == [a] + ([b] + [c]);
    GetProductRecordsConcat([a], [b] + [c], productId);
    GetProductRecordsConcat([b], [c], productId);
    GetProductRecordsSingle(a, productId);
    GetProductRecordsSingle(b, productId);
    GetProductRecordsSingle(c, productId);
  }

  /** Of three records whose middle one is strictly the latest, the `reduce` picks the middle one. */
  lemma LatestOfThree(prs: seq<QueryRecord>)
    requires |prs| == 3
    requires Timestamp(prs[0].queryDate) < Timestamp(prs[1].queryDate)
    requires Timestamp(prs[2].queryDate) < Timestamp(prs[1].queryDate)
    ensures ReduceLatest(prs, 0, 0) == 1
  {
    var k := ReduceLatest(prs, 0, 0);
    assert Timestamp(prs[1].queryDate) <= Timestamp(prs[k].queryDate);
  }

  /** On valid dates the timestamp comparison of the `reduce` is the calendar order. */
  lemma LatestIsCalendarLatest(records: seq<QueryRecord>, productId: Id)
    requires forall x :: x in records ==> ValidDate(x.queryDate)
    ensures var r := GetLatestRecord(records, productId);
            r.Some? ==> forall x :: x in records && x.productId == productId ==>
              !DateBefore(r.value.queryDate, x.queryDate)
  {
    var r := GetLatestRecord(records, productId);
    if r.Some? {
      forall x | x in records && x.productId == productId
        ensures !DateBefore(r.value.queryDate, x.queryDate)
      {
        DayNumberOrder(r.value.queryDate, x.queryDate);
      }
    }
  }

  /** Removing a product's records keeps every other record, in order, and only those. */
  function WithoutProductRecords(records: seq<QueryRecord>, productId: Id): (r: seq<QueryRecord>)
    ensures forall x :: x in r <==> x in records && x.productId != productId
  {
    forall x ensures x in Seqs.Filter(records, (x: QueryRecord) => x.productId != productId)
                 <==> x in records && x.productId != productId {
      Seqs.FilterMembership(records, (x: QueryRecord) => x.productId != productId, x);
    }
    Seqs.Filter(records, (x: QueryRecord) => x.productId != productId)
  }

  /** Deletion keeps the rest in store order: it distributes over concatenation. */
  lemma WithoutProductRecordsConcat(a: seq<QueryRecord>, b: seq<QueryRecord>, productId: Id)
    ensures WithoutProductRecords(a + b, productId) == WithoutProductRecords(a, productId) + WithoutProductRecords(b, productId)
  {
    Seqs.FilterConcat(a, b, (x: QueryRecord) => x.productId != productId);
  }

  /** A single record survives deletion exactly when it belongs to another product. */
  lemma WithoutProductRecordsSingle(x: QueryRecord, productId: Id)
    ensures WithoutProductRecords([x], productId) == if x.productId != productId then [x] else []
  {
    Seqs.FilterCons(x, [], (x: QueryRecord) => x.productId != productId);
    assert [x] + [] == [x];
  }

  /** The records of a product and the records left after deleting them partition the store. */
  lemma DeletePartitions(records: seq<QueryRecord>, productId: Id)
    ensures multiset(GetProductRecords(records, productId)) + multiset(WithoutProductRecords(records, productId))
         == multiset(records)
  {
    Seqs.FilterPartition(records, (x: QueryRecord) => x.productId == productId,
                         (x: QueryRecord) => x.productId != productId);
  }

  /** After deleting a product's records, none are left for it. */
  lemma DeleteLeavesNone(records: seq<QueryRecord>, productId: Id)
    ensures GetProductRecords(WithoutProductRecords(records, productId), productId) == []
    ensures GetLatestRecord(WithoutProductRecords(records, productId), productId).None?
  {
    Seqs.FilterDropsAll(WithoutProductRecords(records, productId), (x: QueryRecord) => x.productId == productId);
  }

  // ---------------------------------------------------------------------------
  // The store

  /** The state behind `useQueryRecords`. */
  class QueryRecordStore {
    var records: seq<QueryRecord>
    /** The `queryRecords` blob in local storage. */
    ghost var saved: Option<seq<QueryRecord>>

    ghost predicate Valid()
      reads this
    {
      Storage.Mirrors(saved, records)
    }

    /** The initial load: the saved blob if there is one, else an empty list. */
    constructor (initial: Option<seq<QueryRecord>>)
      ensures Valid()
      ensures records == Storage.Load(initial) && saved == initial
    {
      records := Storage.Load(initial);
      saved := initial;
    }

    /** `addRecord`: appends the computed record; earlier records stay as they were. */
    method AddRecord(id: Id, productId: Id, purchaseDate: Date, queryDate: Date,
                     currentNetValue: real, purchaseNetValue: real, shares: real) returns (r: QueryRecord)
      requires Valid()
      requires purchaseNetValue != 0.0
      requires id !in RecordIds(records)
      modifies this
      ensures Valid()
      ensures r == NewRecord(id, productId, purchaseDate, queryDate, currentNetValue, purchaseNetValue, shares)
      ensures records == old(records) + [r]
      ensures saved == Some(records)
    {
      r := NewRecord(id, productId, purchaseDate, queryDate, currentNetValue, purchaseNetValue, shares);
      records := records + [r];
      saved := Some(records);
    }

    /** `deleteProductRecords`: drops exactly that product's records. */
    method DeleteProductRecords(productId: Id)
      requires Valid()
      modifies this
      ensures Valid()
      ensures records == WithoutProductRecords(old(records), productId)
      ensures saved == Some(records)
    {
      records := WithoutProductRecords(records, productId);
      saved := Some(records);
    }

    /** `importRecords`: replaces the whole list. */
    method ImportRecords(newRecords: seq<QueryRecord>)
      requires Valid()
      modifies this
      ensures Valid()
      ensures records == newRecords && saved == Some(newRecords)
    {
      records := newRecords;
      saved := Some(records);
    }
  }
}

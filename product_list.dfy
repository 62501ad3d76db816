/**
 * The dashboard's derived list (src/components/ProductList.tsx): the redeemed filter and
 * the sort by latest annualized yield.
 *
 * `Array.prototype.sort` with this comparator is not a consistent comparison: two
 * products that both lack a record each compare greater than the other, so the
 * engine may put them in any order. The model sorts by insertion and states only
 * what the comparator decides: the result is a permutation of the filtered list,
 * products with a record come first in ascending yield, and the others follow.
 */
module ProductList {
  import opened Wrappers
  import opened Types
  import opened QueryRecords
  import opened DateUtils
  import Seqs

  /** `filteredProducts`: all products when redeemed ones are shown, else only the unredeemed. */
  function FilterProducts(products: seq<Product>, showRedeemed: bool): (r: seq<Product>)
    ensures showRedeemed ==> r == products
    ensures !showRedeemed ==> forall p :: p in r <==> p in products && !p.redeemed
    ensures multiset(r) <= multiset(products)
  {
    if showRedeemed then products
    else
      forall p ensures p in Seqs.Filter(products, (p: Product) => !p.redeemed) <==> p in products && !p.redeemed {
        Seqs.FilterMembership(products, (p: Product) => !p.redeemed, p);
      }
      Seqs.Filter(products, (p: Product) => !p.redeemed)
  }

  /** The filter keeps relative order: it distributes over concatenation. */
  lemma FilterKeepsOrder(a: seq<Product>, b: seq<Product>, showRedeemed: bool)
    ensures FilterProducts(a + b, showRedeemed) == FilterProducts(a, showRedeemed) + FilterProducts(b, showRedeemed)
  {
    if !showRedeemed {
      Seqs.FilterConcat(a, b, (p: Product) => !p.redeemed);
    }
  }

  /** A single product is kept once or dropped, never repeated: the filter keeps multiplicity. */
  lemma FilterProductsSingle(p: Product, showRedeemed: bool)
    ensures FilterProducts([p], showRedeemed) == if showRedeemed || !p.redeemed then [p] else []
  {
    if !showRedeemed {
      Seqs.FilterCons(p, [], (p: Product) => !p.redeemed);
    }
  }

  /** The annualized yield of a product's latest record, if it has one. */
  function LatestYield(records: seq<QueryRecord>, id: Id): (y: Option<real>)
    ensures y.None? <==> GetProductRecords(records, id) == []
    ensures y.Some? ==>
              exists x :: x in GetProductRecords(records, id) && x.annualizedYield == y.value &&
                forall z :: z in GetProductRecords(records, id) ==> Timestamp(z.queryDate) <= Timestamp(x.queryDate)
    ensures y.Some? ==> var prs := GetProductRecords(records, id);
              exists k :: 0 <= k < |prs| && prs[k].annualizedYield == y.value &&
                (forall j :: 0 <= j < |prs| ==> Timestamp(prs[j].queryDate) <= Timestamp(prs[k].queryDate)) &&
                (forall j :: 0 <= j < k ==> Timestamp(prs[j].queryDate) < Timestamp(prs[k].queryDate))
  {
    match GetLatestRecord(records, id)
    case None => None
    case Some(r) => Some(r.annualizedYield)
  }

  /** The comparator of `sortedProducts` on the two products' latest yields; positive puts `a` after `b`. */
  function Compare(a: Option<real>, b: Option<real>): (r: real)
    ensures r > 0.0 <==> a.None? || (b.Some? && a.value > b.value)
    ensures r < 0.0 <==> a.Some? && (b.None? || a.value < b.value)
  {
    if a.None? then 1.0
    else if b.None? then -1.0
    else a.value - b.value
  }

  /** The order the comparator aims at: no-record products last, the rest by ascending yield. */
  predicate InOrder(a: Option<real>, b: Option<real>) {
    b.None? || (a.Some? && a.value <= b.value)
  }

  /** Whatever the comparator answers is compatible with `InOrder`. */
  lemma CompareRespectsOrder(a: Option<real>, b: Option<real>)
    ensures Compare(a, b) > 0.0 ==> InOrder(b, a)
    ensures Compare(a, b) <= 0.0 ==> InOrder(a, b)
  {
  }

  /** With neither product having a record, each compares after the other: no order is decided. */
  lemma NoRecordsUndecided()
    ensures Compare(None, None) > 0.0
  {
  }

  ghost predicate Ordered(s: seq<Product>, key: Product -> Option<real>) {
    forall i, j :: 0 <= i < j < |s| ==> InOrder(key(s[i]), key(s[j]))
  }

  /** Inserts `x` after every element it compares greater than, from the front. */
  function Insert(x: Product, s: seq<Product>, key: Product -> Option<real>): (r: seq<Product>)
    ensures multiset(r) == multiset(s) + multiset{x}
  {
    if s == [] then [x]
    else if Compare(key(x), key(s[0])) > 0.0 then
      assert s == [s[0]] + s[1..];
      [s[0]] + Insert(x, s[1..], key)
    else [x] + s
  }

  /** Dropping the head keeps a list ordered. */
  lemma OrderedTail(s: seq<Product>, key: Product -> Option<real>)
    requires s != [] && Ordered(s, key)
    ensures Ordered(s[1..], key)
  {
    forall i, j | 0 <= i < j < |s| - 1 ensures InOrder(key(s[1..][i]), key(s[1..][j])) {
      assert s[1..][i] == s[i + 1] && s[1..][j] == s[j + 1];
    }
  }

  /** A head in order with every element of an ordered tail gives an ordered list. */
  lemma OrderedCons(y: Product, t: seq<Product>, key: Product -> Option<real>)
    requires Ordered(t, key)
    requires forall j :: 0 <= j < |t| ==> InOrder(key(y), key(t[j]))
    ensures Ordered([y] + t, key)
  {
    var r := [y] + t;
    forall i, j | 0 <= i < j < |r| ensures InOrder(key(r[i]), key(r[j])) {
      assert r[j] == t[j - 1];
      if i > 0 {
        assert r[i] == t[i - 1];
      }
    }
  }

  lemma {:induction false} InsertOrdered(x: Product, s: seq<Product>, key: Product -> Option<real>)
    requires Ordered(s, key)
    ensures Ordered(Insert(x, s, key), key)
    decreases |s|
  {
    if s == [] {
    } else if Compare(key(x), key(s[0])) > 0.0 {
      CompareRespectsOrder(key(x), key(s[0]));
      var t := Insert(x, s[1..], key);
      OrderedTail(s, key);
      InsertOrdered(x, s[1..], key);
      forall j | 0 <= j < |t| ensures InOrder(key(s[0]), key(t[j])) {
        assert t[j] in multiset(t);
        if t[j] != x {
          assert t[j] in multiset(s[1..]);
          var m :| 0 <= m < |s[1..]| && s[1..][m] == t[j];
          assert s[m + 1] == t[j];
        }
      }
      OrderedCons(s[0], t, key);
    } else {
      CompareRespectsOrder(key(x), key(s[0]));
      forall j | 0 <= j < |s| ensures InOrder(key(x), key(s[j])) {
        if j > 0 {
          assert InOrder(key(s[0]), key(s[j]));
        }
      }
      OrderedCons(x, s, key);
    }
  }

  /** Insertion sort by the comparator: a permutation of `s` in `InOrder` order. */
  function SortByKey(s: seq<Product>, key: Product -> Option<real>): (r: seq<Product>)
    ensures multiset(r) == multiset(s)
    ensures Ordered(r, key)
  {
    if s == [] then []
    else
      assert s == [s[0]] + s[1..];
      var t := SortByKey(s[1..], key);
      InsertOrdered(s[0], t, key);
      Insert(s[0], t, key)
  }

  /**
   * `sortedProducts`: the filtered products, rearranged (the list itself is not reordered:
   * it is sorted as a copy) so that products with a latest record come first in ascending
   * order of its yield and products without one come last.
   */
  function SortedProducts(products: seq<Product>, records: seq<QueryRecord>, showRedeemed: bool): (r: seq<Product>)
    ensures multiset(r) == multiset(FilterProducts(products, showRedeemed))
    ensures forall i, j :: 0 <= i < j < |r| ==> InOrder(LatestYield(records, r[i].id), LatestYield(records, r[j].id))
  {
    var key := (p: Product) => LatestYield(records, p.id);
    var r := SortByKey(FilterProducts(products, showRedeemed), key);
    assert Ordered(r, key);
    r
  }

  /**
   * Any two positions of the dashboard, read through `getLatestRecord`: a product without a
   * record is followed only by products without one, and a product with a record is
   * preceded only by products with one whose yield is no higher.
   */
  lemma SortedByLatestRecord(products: seq<Product>, records: seq<QueryRecord>, showRedeemed: bool, i: int, j: int)
    requires 0 <= i < j < |SortedProducts(products, records, showRedeemed)|
    ensures var r := SortedProducts(products, records, showRedeemed);
      GetLatestRecord(records, r[i].id).None? ==> GetLatestRecord(records, r[j].id).None?
    ensures var r := SortedProducts(products, records, showRedeemed);
      GetLatestRecord(records, r[j].id).Some? ==>
        GetLatestRecord(records, r[i].id).Some? &&
        GetLatestRecord(records, r[i].id).value.annualizedYield <= GetLatestRecord(records, r[j].id).value.annualizedYield
  {
    var r := SortedProducts(products, records, showRedeemed);
    assert InOrder(LatestYield(records, r[i].id), LatestYield(records, r[j].id));
  }

  /** With redeemed products hidden, the dashboard shows none of them. */
  lemma HiddenRedeemed(products: seq<Product>, records: seq<QueryRecord>)
    ensures forall p :: p in SortedProducts(products, records, false) ==> !p.redeemed
    ensures forall p :: p in products && !p.redeemed ==> p in SortedProducts(products, records, false)
  {
    var r := SortedProducts(products, records, false);
    forall p | p in r ensures !p.redeemed {
      assert p in multiset(r);
    }
    forall p | p in products && !p.redeemed ensures p in r {
      assert p in multiset(FilterProducts(products, false));
    }
  }
}

/**
 * The page that wires the two stores to the UI (src/app/page.tsx).
 *
 * Deleting a product from its detail view calls only the product store's delete and
 * then clears the selection: the record store's `deleteProductRecords` is not taken
 * from the hook, so the product's records stay in the record store, although the
 * confirmation dialog announces that they are deleted too.
 */
module Page {
  import opened Wrappers
  import opened DateUtils
  import opened Types
  import opened QueryRecords
  import opened FinancialProducts
  import opened ProductList
  import opened DataImportExport
  import Storage

  class FinanceTracker {
    const productStore: ProductStore
    const recordStore: QueryRecordStore
    const importPanel: ImportPanel
    /** The id of the selected product; "" for none. */
    var selectedProduct: Id
    var showRedeemed: bool

    ghost predicate Valid()
      reads this, productStore, recordStore
    {
      productStore.Valid() && recordStore.Valid()
    }

    constructor (savedProducts: Option<seq<Product>>, savedRecords: Option<seq<QueryRecord>>)
      ensures Valid()
      ensures productStore.products == Storage.Load(savedProducts) && productStore.saved == savedProducts
      ensures recordStore.records == Storage.Load(savedRecords) && recordStore.saved == savedRecords
      ensures selectedProduct == "" && !showRedeemed && importPanel.importError.None?
    {
      productStore := new ProductStore(savedProducts);
      recordStore := new QueryRecordStore(savedRecords);
      importPanel := new ImportPanel();
      selectedProduct := "";
      showRedeemed := false;
    }

    /** `selectedProductData`: the first product whose id is the selection, if any. */
    function SelectedProductData(): (r: Option<Product>)
      reads this, productStore
      ensures r.None? <==> selectedProduct !in ProductIds(productStore.products)
      ensures r.Some? ==> var k := FindIndex(productStore.products, selectedProduct).value;
                r.value == productStore.products[k]
    {
      FindById(productStore.products, selectedProduct)
    }

    /** Product detail and query history render only for a non-empty selection that is found. */
    predicate ShowDetail()
      reads this, productStore
      ensures ShowDetail() <==> selectedProduct != "" && selectedProduct in ProductIds(productStore.products)
      ensures ShowDetail() ==> ShowQueryForm()
    {
      selectedProduct != "" && SelectedProductData().Some?
    }

    /** The query form renders for any non-empty selection, found or not. */
    predicate ShowQueryForm()
      reads this, productStore
      ensures ShowQueryForm() <==> selectedProduct != ""
      ensures selectedProduct != "" && selectedProduct !in ProductIds(productStore.products) ==>
                ShowQueryForm() && SelectedProductData().None?
    {
      selectedProduct != ""
    }

    /** The records shown in the history: those of the selected product. */
    function HistoryRecords(): (r: seq<QueryRecord>)
      reads this, recordStore
      ensures forall x :: x in r <==> x in recordStore.records && x.productId == selectedProduct
      ensures multiset(r) + multiset(WithoutProductRecords(recordStore.records, selectedProduct)) == multiset(recordStore.records)
    {
      DeletePartitions(recordStore.records, selectedProduct);
      GetProductRecords(recordStore.records, selectedProduct)
    }

    /** The latest record shown in the history. */
    function HistoryLatest(): (r: Option<QueryRecord>)
      reads this, recordStore
      ensures r.None? <==> HistoryRecords() == []
      ensures r.Some? ==> r.value in HistoryRecords()
      ensures r.Some? ==> forall x :: x in HistoryRecords() ==> Timestamp(x.queryDate) <= Timestamp(r.value.queryDate)
      ensures r.Some? ==> var prs := HistoryRecords();
                exists k :: 0 <= k < |prs| && prs[k] == r.value &&
                  forall j :: 0 <= j < k ==> Timestamp(prs[j].queryDate) < Timestamp(r.value.queryDate)
    {
      GetLatestRecord(recordStore.records, selectedProduct)
    }

    /** The dashboard list. */
    function Dashboard(): (r: seq<Product>)
      reads this, productStore, recordStore
      ensures multiset(r) == multiset(FilterProducts(productStore.products, showRedeemed))
      ensures forall p :: p in r <==> p in productStore.products && (showRedeemed || !p.redeemed)
      ensures forall i, j :: 0 <= i < j < |r| ==>
                InOrder(LatestYield(recordStore.records, r[i].id), LatestYield(recordStore.records, r[j].id))
    {
      var r := SortedProducts(productStore.products, recordStore.records, showRedeemed);
      forall p ensures p in r <==> p in FilterProducts(productStore.products, showRedeemed) {
        assert p in r <==> p in multiset(r);
      }
      r
    }

    /**
     * `handleImportData`: replaces the products, then the records, then clears the
     * selection, so that nothing stale is shown.
     */
    method HandleImportData(data: Snapshot)
      requires Valid()
      modifies this, productStore, recordStore
      ensures Valid()
      ensures productStore.products == data.products && productStore.saved == Some(data.products)
      ensures recordStore.records == data.records && recordStore.saved == Some(data.records)
      ensures selectedProduct == "" && showRedeemed == old(showRedeemed)
      ensures !ShowDetail() && !ShowQueryForm()
    {
      productStore.ImportProducts(data.products);
      recordStore.ImportRecords(data.records);
      selectedProduct := "";
    }

    /**
     * A file chosen in the import panel: an accepted file replaces both stores as
     * `HandleImportData` does; a rejected one (or none) leaves both stores, their
     * storage blobs and the selection untouched.
     */
    method ImportFile(file: Option<ParseResult>)
      requires Valid()
      modifies this, productStore, recordStore, importPanel
      ensures Valid()
      ensures file.None? ==> importPanel.importError.None?
      ensures file.Some? && ReadImport(file.value).Failure? ==>
                importPanel.importError == Some(ReadImport(file.value).error)
      ensures file.Some? && ReadImport(file.value).Success? ==>
                var data := ReadImport(file.value).value;
                && importPanel.importError.None?
                && productStore.products == data.products && productStore.saved == Some(data.products)
                && recordStore.records == data.records && recordStore.saved == Some(data.records)
                && selectedProduct == ""
      ensures !(file.Some? && ReadImport(file.value).Success?) ==>
                unchanged(productStore, recordStore) && selectedProduct == old(selectedProduct)
      ensures showRedeemed == old(showRedeemed)
    {
      var accepted := importPanel.HandleImport(file);
      if accepted.Some? {
        HandleImportData(accepted.value);
      }
    }

    /**
     * Deleting from the detail view: the product store drops the product and the
     * selection is cleared; the record store, records of that product included, is untouched.
     */
    method DeleteProductFromDetail(id: Id)
      requires Valid()
      modifies this, productStore
      ensures Valid()
      ensures productStore.products == RemoveProduct(old(productStore.products), id)
      ensures productStore.saved == Some(productStore.products)
      ensures unchanged(recordStore)
      ensures GetProductRecords(recordStore.records, id) == GetProductRecords(old(recordStore.records), id)
      ensures selectedProduct == "" && showRedeemed == old(showRedeemed)
    {
      var _ := productStore.DeleteProduct(id);
      selectedProduct := "";
    }
  }
}

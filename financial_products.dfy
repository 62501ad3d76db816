/**
 * The product store (src/hooks/useFinancialProducts.ts): the list of positions and its
 * mutators. Every mutator that runs writes the whole list to the `financialProducts`
 * storage blob, modelled by the ghost field `saved`.
 */
module FinancialProducts {
  import opened Wrappers
  import opened DateUtils
  import opened Types
  import Seqs
  import Storage

  /**
   * `Partial<FinancialProduct>`: each field is either absent (`None`, keep the old value)
   * or present (`Some(v)`). For an optional field, a present `undefined` is `Some(None)`:
   * object spread copies it and so clears the field.
   */
  datatype ProductUpdate = ProductUpdate(
    id: Option<Id>,
    name: Option<string>,
    productCode: Option<string>,
    purchaseDate: Option<Date>,
    purchaseNetValue: Option<real>,
    purchaseAmount: Option<real>,
    shares: Option<real>,
    redeemed: Option<bool>,
    redemptionDate: Option<Option<Date>>,
    monthlyYieldAtPurchase: Option<Option<real>>,
    inceptionYieldAtPurchase: Option<Option<real>>,
    riskLevel: Option<Option<string>>,
    notes: Option<Option<string>>)

  /** The update with no fields. */
  const NoUpdate := ProductUpdate(None, None, None, None, None, None, None, None, None, None, None, None, None)

  /** `{ ...product, ...updates }`: fields present in `u` override, the others are kept. */
  function Merge(p: Product, u: ProductUpdate): (r: Product)
    ensures r.id == (if u.id.Some? then u.id.value else p.id)
    ensures r.name == (if u.name.Some? then u.name.value else p.name)
    ensures r.productCode == (if u.productCode.Some? then u.productCode.value else p.productCode)
    ensures r.purchaseDate == (if u.purchaseDate.Some? then u.purchaseDate.value else p.purchaseDate)
    ensures r.purchaseNetValue == (if u.purchaseNetValue.Some? then u.purchaseNetValue.value else p.purchaseNetValue)
    ensures r.purchaseAmount == (if u.purchaseAmount.Some? then u.purchaseAmount.value else p.purchaseAmount)
    ensures r.shares == (if u.shares.Some? then u.shares.value else p.shares)
    ensures r.redeemed == (if u.redeemed.Some? then u.redeemed.value else p.redeemed)
    ensures r.redemptionDate == (if u.redemptionDate.Some? then u.redemptionDate.value else p.redemptionDate)
    ensures r.monthlyYieldAtPurchase == (if u.monthlyYieldAtPurchase.Some? then u.monthlyYieldAtPurchase.value else p.monthlyYieldAtPurchase)
    ensures r.inceptionYieldAtPurchase == (if u.inceptionYieldAtPurchase.Some? then u.inceptionYieldAtPurchase.value else p.inceptionYieldAtPurchase)
    ensures r.riskLevel == (if u.riskLevel.Some? then u.riskLevel.value else p.riskLevel)
    ensures r.notes == (if u.notes.Some? then u.notes.value else p.notes)
  {
    Product(
      u.id.GetOr(p.id),
      u.name.GetOr(p.name),
      u.productCode.GetOr(p.productCode),
      u.purchaseDate.GetOr(p.purchaseDate),
      u.purchaseNetValue.GetOr(p.purchaseNetValue),
      u.purchaseAmount.GetOr(p.purchaseAmount),
      u.shares.GetOr(p.shares),
      u.redeemed.GetOr(p.redeemed),
      u.redemptionDate.GetOr(p.redemptionDate),
      u.monthlyYieldAtPurchase.GetOr(p.monthlyYieldAtPurchase),
      u.inceptionYieldAtPurchase.GetOr(p.inceptionYieldAtPurchase),
      u.riskLevel.GetOr(p.riskLevel),
      u.notes.GetOr(p.notes))
  }

  /** `{ ...u1, ...u2 }`: the fields of both updates, `u2` winning where both have one. */
  function Combine(u1: ProductUpdate, u2: ProductUpdate): ProductUpdate {
    ProductUpdate(
      if u2.id.Some? then u2.id else u1.id,
      if u2.name.Some? then u2.name else u1.name,
      if u2.productCode.Some? then u2.productCode else u1.productCode,
      if u2.purchaseDate.Some? then u2.purchaseDate else u1.purchaseDate,
      if u2.purchaseNetValue.Some? then u2.purchaseNetValue else u1.purchaseNetValue,
      if u2.purchaseAmount.Some? then u2.purchaseAmount else u1.purchaseAmount,
      if u2.shares.Some? then u2.shares else u1.shares,
      if u2.redeemed.Some? then u2.redeemed else u1.redeemed,
      if u2.redemptionDate.Some? then u2.redemptionDate else u1.redemptionDate,
      if u2.monthlyYieldAtPurchase.Some? then u2.monthlyYieldAtPurchase else u1.monthlyYieldAtPurchase,
      if u2.inceptionYieldAtPurchase.Some? then u2.inceptionYieldAtPurchase else u1.inceptionYieldAtPurchase,
      if u2.riskLevel.Some? then u2.riskLevel else u1.riskLevel,
      if u2.notes.Some? then u2.notes else u1.notes)
  }

  /** Merging nothing changes nothing. */
  lemma MergeNoUpdate(p: Product)
    ensures Merge(p, NoUpdate) == p
  {
  }

  /** Two successive merges are one merge of the combined update; in particular merging is idempotent. */
  lemma MergeCompose(p: Product, u1: ProductUpdate, u2: ProductUpdate)
    ensures Merge(Merge(p, u1), u2) == Merge(p, Combine(u1, u2))
    ensures Merge(Merge(p, u1), u1) == Merge(p, u1)
  {
  }

  /** `addProduct`'s new product: the given id, every submitted field, and `redeemed` forced false. */
  function NewProduct(id: Id, data: ProductData): (p: Product)
    ensures p.id == id && !p.redeemed
    ensures p.name == data.name && p.productCode == data.productCode
    ensures p.purchaseDate == data.purchaseDate && p.purchaseNetValue == data.purchaseNetValue
    ensures p.purchaseAmount == data.purchaseAmount && p.shares == data.shares
    ensures p.redemptionDate == data.redemptionDate
    ensures p.monthlyYieldAtPurchase == data.monthlyYieldAtPurchase
    ensures p.inceptionYieldAtPurchase == data.inceptionYieldAtPurchase
    ensures p.riskLevel == data.riskLevel && p.notes == data.notes
  {
    Product(id, data.name, data.productCode, data.purchaseDate, data.purchaseNetValue,
            data.purchaseAmount, data.shares, false, data.redemptionDate,
            data.monthlyYieldAtPurchase, data.inceptionYieldAtPurchase, data.riskLevel, data.notes)
  }

  /**
   * `products.map(p => p.id === id ? { ...p, ...updates } : p)`: every product with
   * that id is merged with the update, the others are untouched; length and order are kept.
   */
  function UpdateProducts(ps: seq<Product>, id: Id, u: ProductUpdate): (r: seq<Product>)
    ensures |r| == |ps|
    ensures forall i :: 0 <= i < |ps| ==> r[i] == if ps[i].id == id then Merge(ps[i], u) else ps[i]
  {
    if ps == [] then []
    else [if ps[0].id == id then Merge(ps[0], u) else ps[0]] + UpdateProducts(ps[1..], id, u)
  }

  /** Updating an id no product has leaves the list as it was. */
  lemma UpdateUnknownId(ps: seq<Product>, id: Id, u: ProductUpdate)
    requires id !in ProductIds(ps)
    ensures UpdateProducts(ps, id, u) == ps
  {
    forall i | 0 <= i < |ps| ensures ps[i].id != id {
      assert ps[i] in ps;
    }
  }

  /** An update that does not assign `id` keeps every product's id in place. */
  lemma UpdateKeepsIds(ps: seq<Product>, id: Id, u: ProductUpdate)
    requires u.id.None?
    ensures forall i :: 0 <= i < |ps| ==> UpdateProducts(ps, id, u)[i].id == ps[i].id
  {
  }

  /**
   * The position `products.find(p => p.id === id)` stops at: absent when no product has
   * the id, otherwise the first position holding it.
   */
  function FindIndex(ps: seq<Product>, id: Id): (r: Option<nat>)
    ensures r.None? <==> forall i :: 0 <= i < |ps| ==> ps[i].id != id
    ensures r.Some? ==> r.value < |ps| && ps[r.value].id == id
    ensures r.Some? ==> forall j :: 0 <= j < r.value ==> ps[j].id != id
  {
    if ps == [] then None
    else if ps[0].id == id then Some(0)
    else match FindIndex(ps[1..], id)
      case None => None
      case Some(k) => Some(k + 1)
  }

  /** `products.find(p => p.id === id)`. */
  function FindById(ps: seq<Product>, id: Id): (r: Option<Product>)
    ensures r.None? <==> id !in ProductIds(ps)
    ensures r.Some? ==> r.value in ps && r.value.id == id
    ensures r.Some? ==> r.value == ps[FindIndex(ps, id).value]
  {
    match FindIndex(ps, id)
    case None => None
    case Some(k) =>
      assert ps[k] in ps;
      Some(ps[k])
  }

  /** The search depends only on the ids, position by position. */
  lemma {:induction false} FindIndexByIds(ps: seq<Product>, qs: seq<Product>, id: Id)
    requires |ps| == |qs|
    requires forall i :: 0 <= i < |ps| ==> ps[i].id == qs[i].id
    ensures FindIndex(ps, id) == FindIndex(qs, id)
  {
    if ps != [] {
      FindIndexByIds(ps[1..], qs[1..], id);
    }
  }

  /** `filter(p => p.id !== id)`: the products without that id, in order. */
  function RemoveProduct(ps: seq<Product>, id: Id): (r: seq<Product>)
    ensures forall p :: p in r <==> p in ps && p.id != id
    ensures id !in ProductIds(r)
  {
    forall p ensures p in Seqs.Filter(ps, (p: Product) => p.id != id) <==> p in ps && p.id != id {
      Seqs.FilterMembership(ps, (p: Product) => p.id != id, p);
    }
    Seqs.Filter(ps, (p: Product) => p.id != id)
  }

  /** Deleting an id no product has leaves the list as it was. */
  lemma RemoveUnknownId(ps: seq<Product>, id: Id)
    requires id !in ProductIds(ps)
    ensures RemoveProduct(ps, id) == ps
  {
    forall i | 0 <= i < |ps| ensures ps[i].id != id {
      assert ps[i] in ps;
    }
    Seqs.FilterKeepsAll(ps, (p: Product) => p.id != id);
  }

  /** Deleting distributes over concatenation, so the remaining products keep their relative order. */
  lemma RemoveKeepsOrder(a: seq<Product>, b: seq<Product>, id: Id)
    ensures RemoveProduct(a + b, id) == RemoveProduct(a, id) + RemoveProduct(b, id)
  {
    Seqs.FilterConcat(a, b, (p: Product) => p.id != id);
  }

  /** The update `toggleRedeemStatus` applies: the new state, and today's date when it becomes redeemed. */
  function RedeemUpdate(isRedeemed: bool, today: Date): (u: ProductUpdate)
    ensures forall p :: Merge(p, u) == p.(redeemed := isRedeemed, redemptionDate := if isRedeemed then Some(today) else None)
  {
    NoUpdate.(redeemed := Some(isRedeemed), redemptionDate := Some(if isRedeemed then Some(today) else None))
  }

  /**
   * `toggleRedeemStatus(id)`: nothing when no product has the id; otherwise the first such
   * product decides the new state, which is applied to every product with the id.
   */
  function ToggleRedeemed(ps: seq<Product>, id: Id, today: Date): (r: seq<Product>)
    ensures |r| == |ps|
    ensures FindIndex(ps, id).None? ==> r == ps
    ensures FindIndex(ps, id).Some? ==> var first := ps[FindIndex(ps, id).value];
      forall i :: 0 <= i < |ps| ==> r[i] == if ps[i].id != id then ps[i]
        else ps[i].(redeemed := !first.redeemed,
                    redemptionDate := if !first.redeemed then Some(today) else None)
  {
    match FindIndex(ps, id)
    case None => ps
    case Some(k) => UpdateProducts(ps, id, RedeemUpdate(!ps[k].redeemed, today))
  }

  /** With the id held by one product only, toggling flips that product and nothing else. */
  lemma ToggleUnique(ps: seq<Product>, id: Id, today: Date, k: nat)
    requires k < |ps| && ps[k].id == id
    requires forall i :: 0 <= i < |ps| && i != k ==> ps[i].id != id
    ensures var r := ToggleRedeemed(ps, id, today);
      && r[k] == ps[k].(redeemed := !ps[k].redeemed,
                        redemptionDate := if !ps[k].redeemed then Some(today) else None)
      && forall i :: 0 <= i < |ps| && i != k ==> r[i] == ps[i]
  {
  }

  /**
   * Toggling twice gives every product with the id the first one's original state back;
   * its redemption date is then absent if it was unredeemed, the second day if it was redeemed.
   */
  lemma ToggleTwice(ps: seq<Product>, id: Id, day1: Date, day2: Date)
    requires FindIndex(ps, id).Some?
    ensures var first := ps[FindIndex(ps, id).value];
      var r := ToggleRedeemed(ToggleRedeemed(ps, id, day1), id, day2);
      |r| == |ps| &&
      forall i :: 0 <= i < |ps| ==> r[i] == if ps[i].id != id then ps[i]
        else ps[i].(redeemed := first.redeemed,
                    redemptionDate := if first.redeemed then Some(day2) else None)
  {
    var k := FindIndex(ps, id).value;
    var first := ps[k];
    var once := ToggleRedeemed(ps, id, day1);
    FindIndexByIds(ps, once, id);
    assert once[k].redeemed == !first.redeemed;
    var r := ToggleRedeemed(once, id, day2);
    forall i | 0 <= i < |ps|
      ensures r[i] == if ps[i].id != id then ps[i]
        else ps[i].(redeemed := first.redeemed,
                    redemptionDate := if first.redeemed then Some(day2) else None)
    {
      if ps[i].id == id {
        assert once[i] == ps[i].(redeemed := !first.redeemed,
                                 redemptionDate := if !first.redeemed then Some(day1) else None);
      }
    }
  }

  /** An unredeemed position with no redemption date, the only one with its id, comes back unchanged from two toggles. */
  lemma ToggleTwiceRestores(ps: seq<Product>, id: Id, day1: Date, day2: Date, k: nat)
    requires k < |ps| && ps[k].id == id
    requires forall i :: 0 <= i < |ps| && i != k ==> ps[i].id != id
    requires !ps[k].redeemed && ps[k].redemptionDate.None?
    ensures ToggleRedeemed(ToggleRedeemed(ps, id, day1), id, day2) == ps
  {
    ToggleTwice(ps, id, day1, day2);
    var r := ToggleRedeemed(ToggleRedeemed(ps, id, day1), id, day2);
    assert forall i :: 0 <= i < |ps| ==> r[i] == ps[i];
  }

  // ---------------------------------------------------------------------------
  // The store

  /** The state behind `useFinancialProducts`. */
  class ProductStore {
    var products: seq<Product>
    /** The `financialProducts` blob in local storage. */
    ghost var saved: Option<seq<Product>>

    ghost predicate Valid()
      reads this
    {
      Storage.Mirrors(saved, products)
    }

    /** The initial load: the saved blob if there is one, else an empty list. */
    constructor (initial: Option<seq<Product>>)
      ensures Valid()
      ensures products == Storage.Load(initial) && saved == initial
    {
      products := Storage.Load(initial);
      saved := initial;
    }

    /** `addProduct`: appends the new product under a fresh id; the others stay as they were. */
    method AddProduct(id: Id, data: ProductData) returns (p: Product)
      requires Valid()
      requires id !in ProductIds(products)
      modifies this
      ensures Valid()
      ensures p == NewProduct(id, data)
      ensures products == old(products) + [p]
      ensures saved == Some(products)
    {
      p := NewProduct(id, data);
      products := products + [p];
      saved := Some(products);
    }

    /** `updateProduct`: shallow-merges `u` into every product with the id. */
    method UpdateProduct(id: Id, u: ProductUpdate)
      requires Valid()
      modifies this
      ensures Valid()
      ensures products == UpdateProducts(old(products), id, u)
      ensures saved == Some(products)
    {
      products := UpdateProducts(products, id, u);
      saved := Some(products);
    }

    /** `deleteProduct`: removes every product with the id and returns the remaining list. */
    method DeleteProduct(id: Id) returns (remaining: seq<Product>)
      requires Valid()
      modifies this
      ensures Valid()
      ensures products == RemoveProduct(old(products), id)
      ensures remaining == products && saved == Some(products)
    {
      products := RemoveProduct(products, id);
      saved := Some(products);
      remaining := products;
    }

    /**
     * `toggleRedeemStatus`: returns early, writing nothing, when no product has the id;
     * otherwise updates through `UpdateProduct`.
     */
    method ToggleRedeemStatus(id: Id, today: Date)
      requires Valid()
      modifies this
      ensures Valid()
      ensures products == ToggleRedeemed(old(products), id, today)
      ensures FindById(old(products), id).None? ==> saved == old(saved)
      ensures FindById(old(products), id).Some? ==> saved == Some(products)
    {
      var product := FindById(products, id);
      if product.None? {
        return;
      }
      var isRedeemed := !product.value.redeemed;
      UpdateProduct(id, RedeemUpdate(isRedeemed, today));
    }

    /** `importProducts`: replaces the whole list. */
    method ImportProducts(newProducts: seq<Product>)
      requires Valid()
      modifies this
      ensures Valid()
      ensures products == newProducts && saved == Some(newProducts)
    {
      products := newProducts;
      saved := Some(products);
    }
  }
}

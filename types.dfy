/** The two persisted entities (src/types/index.ts). */
module Types {
  import opened Wrappers
  import opened DateUtils

  /** Identifiers are `crypto.randomUUID()` strings. */
  type Id = string

  /**
   * `FinancialProduct`: one purchased position. Optional fields are `Option`s. `riskLevel`
   * is declared a plain string, but a partial update may carry `undefined` for it and the
   * spread then stores that, so it is an `Option` too.
   */
  datatype Product = Product(
    id: Id,
    name: string,
    productCode: string,
    purchaseDate: Date,
    purchaseNetValue: real,
    purchaseAmount: real,
    shares: real,
    redeemed: bool,
    redemptionDate: Option<Date>,
    monthlyYieldAtPurchase: Option<real>,
    inceptionYieldAtPurchase: Option<real>,
    riskLevel: Option<string>,
    notes: Option<string>)

  /** `Omit<FinancialProduct, 'id'>`: what the product form submits. */
  datatype ProductData = ProductData(
    name: string,
    productCode: string,
    purchaseDate: Date,
    purchaseNetValue: real,
    purchaseAmount: real,
    shares: real,
    redeemed: bool,
    redemptionDate: Option<Date>,
    monthlyYieldAtPurchase: Option<real>,
    inceptionYieldAtPurchase: Option<real>,
    riskLevel: Option<string>,
    notes: Option<string>)

  /** `QueryRecord`: one observation of a product's net value, with its derived figures. */
  datatype QueryRecord = QueryRecord(
    id: Id,
    productId: Id,
    queryDate: Date,
    currentNetValue: real,
    currentAmount: real,
    annualizedYield: real,
    daysHeld: int)

  function ProductIds(ps: seq<Product>): set<Id> {
    set p | p in ps :: p.id
  }

  function RecordIds(rs: seq<QueryRecord>): set<Id> {
    set r | r in rs :: r.id
  }
}

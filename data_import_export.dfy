/**
 * Export snapshot and import validation (src/components/DataImportExport.tsx).
 *
 * The JSON text itself is not modelled: a parsed document keeps only what the check
 * looks at, namely whether it is `null` and what kind of value its `products` and
 * `records` properties hold. Array elements are taken as products and records
 * as they are; no element is checked.
 */
module DataImportExport {
  import opened Wrappers
  import opened Types

  /** What a property of the parsed document holds. */
  datatype Field<T> =
    | Undefined          // the property is missing
    | Falsy              // null, false, 0 or ""
    | Truthy             // any other value that is not an array
    | Array(items: seq<T>)

  /** The value `JSON.parse` returns; a number, string or boolean has both properties undefined. */
  datatype Document = Null | Value(products: Field<Product>, records: Field<QueryRecord>)

  /** The outcome of reading and parsing the chosen file. */
  datatype ParseResult = SyntaxError(message: string) | Parsed(doc: Document)

  /**
   * Why an import is rejected: the parser's error, the TypeError of reading a property
   * of `null`, or the format error thrown by the shape check (its message is
   * `FormatErrorMessage`).
   */
  datatype ImportError = ParseFailed(message: string) | NullDocument | InvalidFormat

  const FormatErrorMessage: string := "导入的文件格式不正确"

  /** `{ products, records }`: what export writes and import hands to `importData`. */
  datatype Snapshot = Snapshot(products: seq<Product>, records: seq<QueryRecord>)

  predicate IsTruthy<T>(f: Field<T>) {
    f.Truthy? || f.Array?
  }

  /**
   * The shape check: a document is accepted exactly when both properties are arrays
   * (empty ones included), and then handed on unchanged.
   */
  function CheckShape(doc: Document): (r: Result<Snapshot, ImportError>)
    ensures r.Success? <==> doc.Value? && doc.products.Array? && doc.records.Array?
    ensures r.Success? ==> r.value == Snapshot(doc.products.items, doc.records.items)
    ensures doc.Null? ==> r == Failure(NullDocument)
    ensures doc.Value? && !(doc.products.Array? && doc.records.Array?) ==> r == Failure(InvalidFormat)
  {
    match doc
    case Null => Failure(NullDocument)
    case Value(products, records) =>
      if !IsTruthy(products) || !products.Array? || !IsTruthy(records) || !records.Array? then
        Failure(InvalidFormat)
      else
        Success(Snapshot(products.items, records.items))
  }

  /** The body of the `onload` handler up to the `importData` call. */
  function ReadImport(file: ParseResult): Result<Snapshot, ImportError>
  {
    match file
    case SyntaxError(message) => Failure(ParseFailed(message))
    case Parsed(doc) => CheckShape(doc)
  }

  /** `handleExport`'s data: the two lists as they are. */
  function ExportSnapshot(products: seq<Product>, records: seq<QueryRecord>): Snapshot
  {
    Snapshot(products, records)
  }

  /** The document `JSON.parse(JSON.stringify(s))` gives back, taking the pair to be an identity. */
  function AsDocument(s: Snapshot): (d: Document)
    ensures CheckShape(d) == Success(s)
  {
    Value(Array(s.products), Array(s.records))
  }

  /** An exported snapshot always passes the check and imports exactly the exported lists. */
  lemma ExportImportRoundTrip(products: seq<Product>, records: seq<QueryRecord>)
    ensures ReadImport(Parsed(AsDocument(ExportSnapshot(products, records)))) == Success(Snapshot(products, records))
  {
  }

  /** The import part of the component's state. */
  class ImportPanel {
    var importError: Option<ImportError>

    constructor ()
      ensures importError.None?
    {
      importError := None;
    }

    /**
     * `handleImport`: clears the error, ignores an empty file choice, and otherwise
     * either returns the snapshot to hand to `importData` or records the error and
     * returns nothing.
     */
    method HandleImport(file: Option<ParseResult>) returns (dispatched: Option<Snapshot>)
      modifies this
      ensures file.None? ==> dispatched.None? && importError.None?
      ensures file.Some? && ReadImport(file.value).Success? ==>
                dispatched == Some(ReadImport(file.value).value) && importError.None?
      ensures file.Some? && ReadImport(file.value).Failure? ==>
                dispatched.None? && importError == Some(ReadImport(file.value).error)
    {
      importError := None;
      if file.None? {
        return None;
      }
      match ReadImport(file.value)
      case Success(data) =>
        dispatched := Some(data);
      case Failure(e) =>
        importError := Some(e);
        dispatched := None;
    }
  }
}

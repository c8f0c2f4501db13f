/** The records the duplicate scan works on: quants fetched from the server, the
    answers of the point reads made for each reported quant, and the report rows. */
module Inventory {
  import opened Wrappers

  /** Odoo record ids (`product.product`, `stock.lot`, `stock.location`). */
  type ProductId = int
  type LotId = int
  type LocationId = int

  /** One `stock.quant` record from the `search_read` of chk-odoo-dups.py:128-130.
      Each many-to-one field (`product_id`, `lot_id`, `location_id`) is reduced to
      its id, the `[0]` of the `[id, display_name]` pair the server returns.
      The quantity is a float on the server; it is only passed through. */
  datatype Quant = Quant(productId: ProductId, lotId: LotId, quantity: real, locationId: LocationId)

  /** The value of an Odoo Char field in a read answer: a string, or `False` when the
      field is not set on the record. */
  datatype CharField = Text(text: string) | Unset

  /** The answer of a `product.product` read with fields `name` and `default_code`;
      `defaultCode` is `None` when the answer carries no `default_code` key, and
      `Some(Unset)` when it carries `False` for a product without internal reference. */
  datatype Product = Product(name: string, defaultCode: Option<CharField>)

  /** The three remote reads made for every reported quant, as functions of an id. */
  datatype Remote = Remote(
    readProduct: ProductId -> Product,
    readLotName: LotId -> string,
    readLocationName: LocationId -> string)

  /** One entry of `duplicates`: the dictionary built at chk-odoo-dups.py:150-156.
      `internalReference` is whatever `product.get('default_code', '')` gives, so it
      may be `False` (`Unset`). */
  datatype ReportRow = ReportRow(
    productName: string,
    internalReference: CharField,
    lotSerialNumber: string,
    location: string,
    quantity: real)

  /** `lot_dict` after the grouping loop: a Python dict, whose iteration order is the
      order in which its keys were inserted, so the keys are kept as a sequence. */
  datatype LotDict = LotDict(keys: seq<LotId>, groups: map<LotId, seq<Quant>>)

  predicate Distinct<T(==)>(s: seq<T>) {
    forall a, b :: 0 <= a < b < |s| ==> s[a] != s[b]
  }

  /** Some quant in `qs` carries lot `lot`. */
  ghost predicate Occurs(qs: seq<Quant>, lot: LotId) {
    exists i :: 0 <= i < |qs| && qs[i].lotId == lot
  }
}

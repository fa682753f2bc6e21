/**
 * The product catalogue row. Its entity class is not part of this model, so the row carries the
 * fields the controllers and repositories read and write.
 */
module Products {
  import opened Wrappers
  import opened JavaText
  import opened Money

  /** One product; a `null` price or stock quantity is `None`. */
  datatype Product = Product(
    id: int,
    name: string,
    description: string,
    price: Option<Decimal>,
    imageUrl: string,
    category: string,
    stockQuantity: Option<Int32>)

  /** `getStockQuantity() != null ? getStockQuantity() : 0`. */
  function StockOrZero(p: Product): Int32
  {
    if p.stockQuantity.Some? then p.stockQuantity.value else 0
  }
}

/**
 * `ProductController`: the shopping page's listing, a product's own page with its related
 * products, and the stock-status lookup the cart's script calls.
 */
module ProductCatalogue {
  import opened Wrappers
  import opened JavaText
  import opened Seqs
  import opened Products
  import opened ProductRepository

  /**
   * `productsPage`: a search term that is not blank wins, and is trimmed; otherwise a non-empty
   * category is matched exactly; with neither, every product is listed.
   */
  function ProductsPage(ps: seq<Product>, category: Option<string>, search: Option<string>): (r: seq<Product>)
    ensures !IsNullOrBlank(search) ==> forall p :: p in r <==> p in ps && SearchMatch(p, Trim(search.value))
    ensures IsNullOrBlank(search) && category.Some? && category.value != "" ==>
      forall p :: p in r <==> p in ps && p.category == category.value
    ensures IsNullOrBlank(search) && (category.None? || category.value == "") ==> r == ps
    ensures IsSubsequence(r, ps)
  {
    if !IsNullOrBlank(search) then SearchProducts(ps, Trim(search.value))
    else if category.Some? && category.value != "" then FindByCategory(ps, category.value)
    else (SubsequenceOfItself(ps); ps)
  }

  // ---------------------------------------------------------------------------------------------
  // A product's page

  const MaxRelated: nat := 4

  /** The related products: the first four others of the same category, in table order. */
  function RelatedProducts(ps: seq<Product>, product: Product): (r: seq<Product>)
    ensures |r| <= MaxRelated
    ensures forall q :: q in r ==> q in ps && q.category == product.category && q.id != product.id
    ensures |r| < MaxRelated ==>
      forall q :: q in ps && q.category == product.category && q.id != product.id ==> q in r
  {
    var others := Filter(FindByCategory(ps, product.category), (q: Product) => q.id != product.id);
    var r := Take(others, MaxRelated);
    assert forall q :: q in r ==> q in others;
    r
  }

  /** What `/product/{id}` shows: the shopping page for an unknown id, otherwise the product and its related products. */
  datatype ProductPage = BackToShopping | ProductView(product: Product, related: seq<Product>)

  function ProductViewPage(ps: seq<Product>, id: int): (page: ProductPage)
    ensures page.BackToShopping? <==> FindById(ps, id).None?
    ensures page.ProductView? ==>
      && page.product in ps && page.product.id == id
      && page.related == RelatedProducts(ps, page.product)
      && page.product !in page.related
  {
    match FindById(ps, id)
    case None => BackToShopping
    case Some(p) => ProductView(p, RelatedProducts(ps, p))
  }

  // ---------------------------------------------------------------------------------------------
  // Stock status

  /** One entry of `getStockStatus`'s answer. */
  datatype StockStatus = StockStatus(name: string, stockQuantity: Option<Int32>, isInStock: bool, status: string)

  const Available: string := "Available"
  const NotAvailable: string := "Not Available"
  const UnknownProduct: string := "Unknown Product"

  /**
   * The entry for one id. The product entity's `isInStock` is not part of this model, so it is
   * the parameter `inStock`.
   */
  function StatusOf(ps: seq<Product>, id: int, inStock: Product -> bool): (s: StockStatus)
    ensures s.status == Available <==> s.isInStock
    ensures s.status == Available || s.status == NotAvailable
    ensures FindById(ps, id).None? ==> s == StockStatus(UnknownProduct, Some(0), false, NotAvailable)
    ensures FindById(ps, id).Some? ==>
      s.name == FindById(ps, id).value.name && s.stockQuantity == FindById(ps, id).value.stockQuantity
      && s.isInStock == inStock(FindById(ps, id).value)
  {
    match FindById(ps, id)
    case None => StockStatus(UnknownProduct, Some(0), false, NotAvailable)
    case Some(p) => StockStatus(p.name, p.stockQuantity, inStock(p), if inStock(p) then Available else NotAvailable)
  }

  /** `getStockStatus`: one entry per distinct requested id, each describing that id's product. */
  method GetStockStatus(ps: seq<Product>, productIds: seq<int>, inStock: Product -> bool)
    returns (stockStatus: map<int, StockStatus>)
    ensures stockStatus.Keys == set i | 0 <= i < |productIds| :: productIds[i]
    ensures forall id :: id in stockStatus ==> stockStatus[id] == StatusOf(ps, id, inStock)
  {
    stockStatus := map[];
    for k := 0 to |productIds|
      invariant stockStatus.Keys == set i | 0 <= i < k :: productIds[i]
      invariant forall id :: id in stockStatus ==> stockStatus[id] == StatusOf(ps, id, inStock)
    {
      var productId := productIds[k];
      var entry;
      match FindById(ps, productId) {
        case Some(product) =>
          entry := StockStatus(product.name, product.stockQuantity, inStock(product),
                               if inStock(product) then Available else NotAvailable);
        case None =>
          entry := StockStatus(UnknownProduct, Some(0), false, NotAvailable);
      }
      stockStatus := stockStatus[productId := entry];
    }
  }
}

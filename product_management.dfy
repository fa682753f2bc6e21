/**
 * `ProductManagementController`: the store manager's catalogue pages. Every action first checks
 * that the session's employee is a store manager and otherwise sends the visitor to the staff
 * login page without touching the catalogue.
 */
module ProductManagement {
  import opened Wrappers
  import opened JavaText
  import opened Money
  import opened Seqs
  import opened Products
  import opened ProductRepository
  import opened Employees
  import opened Sessions
  import opened Database
  import EP = EmployeePortal
  import PC = ProductCatalogue

  const ManageRedirect: string := "redirect:/products/manage"
  const AddRedirect: string := "redirect:/products/add"
  const NameRequired: string := "Product name is required"
  const PriceRequired: string := "Valid price is required"
  const ProductMissing: string := "Product not found"
  const ProductAdded: string := "Product added successfully!"
  const ProductUpdated: string := "Product updated successfully!"

  /** `isAuthorized`: the session holds an employee whose role's name is `STORE_MANAGER`. */
  predicate IsAuthorized(employee: Option<EmployeeRecord>)
  {
    employee.Some? && employee.value.employeeType.Name() == "STORE_MANAGER"
  }

  /** Only a store manager is authorized; no other role's name coincides. */
  lemma AuthorizedIffStoreManager(employee: Option<EmployeeRecord>)
    ensures IsAuthorized(employee) <==> employee.Some? && employee.value.employeeType == STORE_MANAGER
  {
    if employee.Some? {
      NameInjective(employee.value.employeeType, STORE_MANAGER);
    }
  }

  /** The nine categories offered while the catalogue has none. */
  const DefaultCategories: seq<string> := ["Fresh Produce", "Meat & Seafood", "Bakery", "Dairy",
                                           "Beverages", "Snacks", "Frozen Foods", "Pantry", "Health & Beauty"]

  /** `getCategories`: the stored categories, or the defaults when there are none, so never empty. */
  function GetCategories(ps: seq<Product>): (r: seq<string>)
    ensures ps == [] ==> r == DefaultCategories
    ensures ps != [] ==> StrictlyIncreasing(r) && forall c :: c in r <==> exists p :: p in ps && p.category == c
    ensures |r| > 0
  {
    var stored := FindAllCategories(ps);
    if stored == [] then
      assert ps != [] ==> ps[0].category in stored;
      DefaultCategories
    else stored
  }

  /** What `/products/manage` shows: the login page, or the listing and the categories. */
  datatype ManagePage = NotAuthorized | Manage(products: seq<Product>, categories: seq<string>)

  /** `manageProducts`: the shopping page's precedence of search over category over everything. */
  function ManageProducts(employee: Option<EmployeeRecord>, ps: seq<Product>, category: Option<string>,
                          search: Option<string>): (page: ManagePage)
    ensures page.NotAuthorized? <==> !IsAuthorized(employee)
    ensures page.Manage? ==>
      page.products == PC.ProductsPage(ps, category, search) && page.categories == GetCategories(ps)
  {
    if !IsAuthorized(employee) then NotAuthorized
    else Manage(PC.ProductsPage(ps, category, search), GetCategories(ps))
  }

  // ---------------------------------------------------------------------------------------------
  // Adding and editing

  /** The fields a product form binds; a field left out of the form is `None`. */
  datatype ProductForm = ProductForm(name: Option<string>, description: string, price: Option<Decimal>,
                                     imageUrl: string, category: string)

  /** `stockQuantity != null ? stockQuantity : 0`. */
  function StockOrDefault(stockQuantity: Option<Int32>): Int32
  {
    if stockQuantity.Some? then stockQuantity.value else 0
  }

  /** The form's first refusal: a missing or blank name, then a missing or non-positive price. */
  function FormError(form: ProductForm): (e: Option<string>)
    ensures e.None? <==> !IsNullOrBlank(form.name) && form.price.Some? && CompareTo(form.price.value, Zero) > 0
    ensures e.Some? ==> e.value == (if IsNullOrBlank(form.name) then NameRequired else PriceRequired)
  {
    if IsNullOrBlank(form.name) then Some(NameRequired)
    else if form.price.None? || CompareTo(form.price.value, Zero) <= 0 then Some(PriceRequired)
    else None
  }

  /** The product a valid form describes under key `id`. */
  function FromForm(id: int, form: ProductForm, stockQuantity: Option<Int32>): Product
    requires form.name.Some?
  {
    Product(id, form.name.value, form.description, form.price, form.imageUrl, form.category,
            Some(StockOrDefault(stockQuantity)))
  }

  /**
   * `addProduct`: a store manager's valid form becomes one new product under a fresh key with
   * the given stock, or 0 when none was given; an invalid one is sent back to the form and
   * nothing is stored.
   */
  method AddProduct(db: Store, employee: Option<EmployeeRecord>, form: ProductForm, stockQuantity: Option<Int32>)
    returns (page: Page)
    modifies db`products, db`nextId
    ensures !IsAuthorized(employee) ==> page.view == EP.LoginRedirect && unchanged(db)
    ensures IsAuthorized(employee) && FormError(form).Some? ==>
      page == Page(AddRedirect, Error(FormError(form).value)) && unchanged(db)
    ensures IsAuthorized(employee) && FormError(form).None? ==>
      && page == Page(ManageRedirect, Success(ProductAdded))
      && db.products == old(db.products) + [FromForm(old(db.nextId), form, stockQuantity)]
      && db.nextId == old(db.nextId) + 1
  {
    if !IsAuthorized(employee) {
      return Page(EP.LoginRedirect, NoFlash);
    }
    var error := FormError(form);
    if error.Some? {
      return Page(AddRedirect, Error(error.value));
    }
    var id := db.NewKey();
    db.products := db.products + [FromForm(id, form, stockQuantity)];
    page := Page(ManageRedirect, Success(ProductAdded));
  }

  /** Where a refused edit of product `id` is sent back to. */
  function EditRedirect(id: int): string
  {
    "redirect:/products/edit/" + IntText(id)
  }

  /**
   * `updateProduct`: the stored product takes every field of a valid form and the given stock
   * (0 when none was given), keeping its key; an unknown id or an invalid form stores nothing.
   */
  method UpdateProduct(db: Store, employee: Option<EmployeeRecord>, id: int, form: ProductForm,
                       stockQuantity: Option<Int32>) returns (page: Page)
    modifies db`products
    ensures !IsAuthorized(employee) ==> page.view == EP.LoginRedirect && unchanged(db)
    ensures IsAuthorized(employee) && FindById(old(db.products), id).None? ==>
      page == Page(ManageRedirect, Error(ProductMissing)) && unchanged(db)
    ensures IsAuthorized(employee) && FindById(old(db.products), id).Some? && FormError(form).Some? ==>
      page == Page(EditRedirect(id), Error(FormError(form).value)) && unchanged(db)
    ensures IsAuthorized(employee) && FindById(old(db.products), id).Some? && FormError(form).None? ==>
      && page == Page(ManageRedirect, Success(ProductUpdated))
      && FindById(db.products, id) == Some(FromForm(id, form, stockQuantity))
      && forall j :: j != id ==> FindById(db.products, j) == FindById(old(db.products), j)
  {
    if !IsAuthorized(employee) {
      return Page(EP.LoginRedirect, NoFlash);
    }
    var existing := FindById(db.products, id);
    if existing.None? {
      return Page(ManageRedirect, Error(ProductMissing));
    }
    var error := FormError(form);
    if error.Some? {
      return Page(EditRedirect(id), Error(error.value));
    }
    var updated := FromForm(existing.value.id, form, stockQuantity);
    SaveFinds(db.products, updated);
    db.products := Save(db.products, updated);
    page := Page(ManageRedirect, Success(ProductUpdated));
  }

  /** Saving a stored product's new version finds it under its key, and every other key as before. */
  lemma SaveFinds(ps: seq<Product>, p: Product)
    requires FindById(ps, p.id).Some?
    ensures FindById(Save(ps, p), p.id) == Some(p)
    ensures forall j :: j != p.id ==> FindById(Save(ps, p), j) == FindById(ps, j)
  {
    FindAfterSave(ps, ProductKey, p, p.id);
    forall j | j != p.id
      ensures FindById(Save(ps, p), j) == FindById(ps, j)
    {
      FindAfterSave(ps, ProductKey, p, j);
    }
  }

  // ---------------------------------------------------------------------------------------------
  // Stock, deletion and clearing

  function StockUpdated(name: string): string
  {
    "Stock updated for '" + name + "'"
  }

  /** `updateStock`: the product's stock becomes exactly the value given (0 when none), with no lower bound. */
  method UpdateStock(db: Store, employee: Option<EmployeeRecord>, id: int, stockQuantity: Option<Int32>)
    returns (page: Page)
    modifies db`products
    ensures !IsAuthorized(employee) ==> page.view == EP.LoginRedirect && unchanged(db)
    ensures IsAuthorized(employee) && FindById(old(db.products), id).None? ==>
      page == Page(ManageRedirect, Error(ProductMissing)) && unchanged(db)
    ensures IsAuthorized(employee) && FindById(old(db.products), id).Some? ==>
      var p := FindById(old(db.products), id).value;
      && page == Page(ManageRedirect, Success(StockUpdated(p.name)))
      && FindById(db.products, id) == Some(p.(stockQuantity := Some(StockOrDefault(stockQuantity))))
      && forall j :: j != id ==> FindById(db.products, j) == FindById(old(db.products), j)
  {
    if !IsAuthorized(employee) {
      return Page(EP.LoginRedirect, NoFlash);
    }
    var found := FindById(db.products, id);
    if found.None? {
      return Page(ManageRedirect, Error(ProductMissing));
    }
    var product := found.value.(stockQuantity := Some(StockOrDefault(stockQuantity)));
    SaveFinds(db.products, product);
    db.products := Save(db.products, product);
    page := Page(ManageRedirect, Success(StockUpdated(product.name)));
  }

  function ProductDeleted(name: string): string
  {
    "Product '" + name + "' deleted successfully!"
  }

  /** `deleteProduct`: removes exactly the named product, and reports an unknown id. */
  method DeleteProduct(db: Store, employee: Option<EmployeeRecord>, id: int) returns (page: Page)
    modifies db`products
    ensures !IsAuthorized(employee) ==> page.view == EP.LoginRedirect && unchanged(db)
    ensures IsAuthorized(employee) && FindById(old(db.products), id).None? ==>
      page == Page(ManageRedirect, Error(ProductMissing)) && unchanged(db)
    ensures IsAuthorized(employee) && FindById(old(db.products), id).Some? ==>
      && page == Page(ManageRedirect, Success(ProductDeleted(FindById(old(db.products), id).value.name)))
      && (forall p :: p in db.products <==> p in old(db.products) && p.id != id)
      && FindById(db.products, id).None?
      && forall j :: j != id ==> FindById(db.products, j) == FindById(old(db.products), j)
  {
    if !IsAuthorized(employee) {
      return Page(EP.LoginRedirect, NoFlash);
    }
    var found := FindById(db.products, id);
    if found.None? {
      return Page(ManageRedirect, Error(ProductMissing));
    }
    DeleteByKeyMembers(db.products, ProductKey, id);
    forall j
      ensures FindById(DeleteByKey(db.products, ProductKey, id), j) == if j == id then None else FindById(db.products, j)
    {
      FindAfterDelete(db.products, ProductKey, id, j);
    }
    db.products := DeleteByKey(db.products, ProductKey, id);
    page := Page(ManageRedirect, Success(ProductDeleted(found.value.name)));
  }

  function Cleared(count: nat): string
  {
    "Successfully deleted " + IntText(count)
      + " products. Data initialization is now disabled, so products won't be recreated on restart."
  }

  /** `clearAllProducts`: empties the catalogue and reports how many products it held. */
  method ClearAllProducts(db: Store, employee: Option<EmployeeRecord>) returns (page: Page)
    modifies db`products
    ensures !IsAuthorized(employee) ==> page.view == EP.LoginRedirect && unchanged(db)
    ensures IsAuthorized(employee) ==>
      db.products == [] && page == Page(ManageRedirect, Success(Cleared(|old(db.products)|)))
  {
    if !IsAuthorized(employee) {
      return Page(EP.LoginRedirect, NoFlash);
    }
    var count := |db.products|;
    db.products := [];
    page := Page(ManageRedirect, Success(Cleared(count)));
  }
}

/**
 * The start-up runner that seeds an empty shop: twenty sample products, each with a stock
 * quantity set by a loop over the list, and five sample employees, one table at a time and only
 * into a table that is still empty. A configuration flag switches the runner off.
 */
module DataInitialization {
  import opened Wrappers
  import opened JavaText
  import opened Money
  import opened Products
  import opened Employees
  import opened Database
  import EP = EmployeePortal

  /** The arguments of one `new Product(name, description, price, imageUrl, category)`. */
  datatype ProductSeed = ProductSeed(name: string, description: string, price: Decimal, imageUrl: string, category: string)

  /** The arguments of one `new Employee(empid, password, type)`. */
  datatype EmployeeSeed = EmployeeSeed(empid: string, password: string, employeeType: EmployeeType)

  const ImageHost: string := "https://images.unsplash.com/photo-"
  const ImageQuery: string := "?ixlib=rb-4.0.3&auto=format&fit=crop&w=400&q=80"

  /** The sample products in list order; a price such as `2.90` keeps its scale of two. */
  const SampleProducts: seq<ProductSeed> := [
    ProductSeed("Fresh Tomatoes", "Organic vine-ripened tomatoes", Decimal(290, 2), ImageHost + "1546470427-5c4b4b4b4b4b" + ImageQuery, "Fresh Produce"),
    ProductSeed("Green Broccoli", "Fresh broccoli florets", Decimal(150, 2), ImageHost + "1584270354949-c26b0cf5d4a8" + ImageQuery, "Fresh Produce"),
    ProductSeed("Fresh Spinach", "Organic baby spinach leaves", Decimal(390, 2), ImageHost + "1576045057995-568f588f82fb" + ImageQuery, "Fresh Produce"),
    ProductSeed("Cherry Tomatoes", "Sweet cherry tomatoes", Decimal(250, 2), ImageHost + "1592924357228-91a4daadcfea" + ImageQuery, "Fresh Produce"),
    ProductSeed("Mixed Nuts", "Premium mixed nuts", Decimal(450, 2), ImageHost + "1551698618-1dfe5d97d256" + ImageQuery, "Fresh Produce"),
    ProductSeed("Fresh Salmon", "Atlantic salmon fillet", Decimal(1299, 2), ImageHost + "1519708227418-c8fd9a802b9b" + ImageQuery, "Meat & Seafood"),
    ProductSeed("Chicken Breast", "Free-range chicken breast", Decimal(899, 2), ImageHost + "1604503468506-a8da13d82791" + ImageQuery, "Meat & Seafood"),
    ProductSeed("Ground Beef", "Premium ground beef", Decimal(699, 2), ImageHost + "1529692236671-f1f6cf9683ba" + ImageQuery, "Meat & Seafood"),
    ProductSeed("Artisan Bread", "Fresh baked artisan bread", Decimal(399, 2), ImageHost + "1509440159596-0249088772ff" + ImageQuery, "Bakery"),
    ProductSeed("Croissants", "Buttery French croissants", Decimal(450, 2), ImageHost + "1555507036-ab1f4038808a" + ImageQuery, "Bakery"),
    ProductSeed("Chocolate Cake", "Rich chocolate cake", Decimal(1599, 2), ImageHost + "1578985545062-69928b1d9587" + ImageQuery, "Bakery"),
    ProductSeed("Fresh Milk", "Whole milk 1 gallon", Decimal(349, 2), ImageHost + "1550583724-b2692b85b150" + ImageQuery, "Dairy"),
    ProductSeed("Greek Yogurt", "Creamy Greek yogurt", Decimal(499, 2), ImageHost + "1571212053456-5d5b0b5b5b5b" + ImageQuery, "Dairy"),
    ProductSeed("Cheddar Cheese", "Aged cheddar cheese", Decimal(599, 2), ImageHost + "1486297678162-eb2a19b0a32d" + ImageQuery, "Dairy"),
    ProductSeed("Free Range Eggs", "Farm fresh eggs", Decimal(399, 2), ImageHost + "1582722872445-44dc5f7e3c8f" + ImageQuery, "Dairy"),
    ProductSeed("Orange Juice", "Fresh squeezed orange juice", Decimal(499, 2), ImageHost + "1621506289937-a8e4df240d0b" + ImageQuery, "Beverages"),
    ProductSeed("Green Tea", "Premium green tea", Decimal(299, 2), ImageHost + "1556679343-c7306c1976bc" + ImageQuery, "Beverages"),
    ProductSeed("Coffee Beans", "Arabica coffee beans", Decimal(899, 2), ImageHost + "1559056199-641a0ac8b55c" + ImageQuery, "Beverages"),
    ProductSeed("Organic Chips", "Sea salt potato chips", Decimal(399, 2), ImageHost + "1566478989037-eec170784d0b" + ImageQuery, "Snacks"),
    ProductSeed("Dark Chocolate", "Premium dark chocolate", Decimal(699, 2), ImageHost + "1511381939415-e44015466834" + ImageQuery, "Snacks")
  ]

  /** The sample staff: two cashiers, a store manager, an IT assistant and a delivery coordinator. */
  const SampleEmployees: seq<EmployeeSeed> := [
    EmployeeSeed("EMP001", "password123", CASHIER),
    EmployeeSeed("EMP002", "password123", CASHIER),
    EmployeeSeed("MGR001", "manager123", STORE_MANAGER),
    EmployeeSeed("IT001", "itadmin123", IT_ASSISTANT),
    EmployeeSeed("DEL001", "delivery123", DELIVERY_COORDINATOR)
  ]

  /** A freshly built product, before it has a key or a stock quantity. */
  function NewProduct(s: ProductSeed): Product
  {
    Product(0, s.name, s.description, Some(s.price), s.imageUrl, s.category, None)
  }

  /** The stock the loop gives the product at position `i`: `15 + (i % 20)`. */
  function StockFor(i: nat): (q: Int32)
    ensures 15 <= q <= 34
  {
    15 + i % 20
  }

  /** The seeds as products with the stock of their position, before `saveAll` keys them. */
  function Stocked(seeds: seq<ProductSeed>): (ps: seq<Product>)
    ensures |ps| == |seeds|
  {
    seq(|seeds|, i requires 0 <= i < |seeds| => NewProduct(seeds[i]).(stockQuantity := Some(StockFor(i))))
  }

  /** The rows `saveAll` stores for `ps`: each under the next key, in list order. */
  function Keyed(ps: seq<Product>, firstKey: int): (rows: seq<Product>)
    ensures |rows| == |ps|
  {
    seq(|ps|, i requires 0 <= i < |ps| => ps[i].(id := firstKey + i))
  }

  /** The loop of `initializeProducts` that sets each product's stock from its position. */
  method SetStockQuantities(products: array<Product>)
    modifies products
    ensures forall i :: 0 <= i < products.Length ==> products[i] == old(products[i]).(stockQuantity := Some(StockFor(i)))
  {
    for i := 0 to products.Length
      invariant forall j :: 0 <= j < i ==> products[j] == old(products[j]).(stockQuantity := Some(StockFor(j)))
      invariant forall j :: i <= j < products.Length ==> products[j] == old(products[j])
    {
      products[i] := products[i].(stockQuantity := Some(StockFor(i)));
    }
  }

  /** `productRepository.saveAll`: inserts the products one by one, each under a fresh key. */
  method SaveAllProducts(db: Store, ps: seq<Product>)
    modifies db`products, db`nextId
    ensures db.products == old(db.products) + Keyed(ps, old(db.nextId))
    ensures db.nextId == old(db.nextId) + |ps|
  {
    for i := 0 to |ps|
      invariant db.products == old(db.products) + Keyed(ps[..i], old(db.nextId))
      invariant db.nextId == old(db.nextId) + i
    {
      var k := db.NewKey();
      assert Keyed(ps[..i + 1], old(db.nextId)) == Keyed(ps[..i], old(db.nextId)) + [ps[i].(id := k)];
      db.products := db.products + [ps[i].(id := k)];
    }
    assert ps[..|ps|] == ps;
  }

  /** `initializeProducts`: builds the sample list, sets the stock quantities and saves them all. */
  method InitializeProducts(db: Store)
    modifies db`products, db`nextId
    ensures db.products == old(db.products) + Keyed(Stocked(SampleProducts), old(db.nextId))
    ensures db.nextId == old(db.nextId) + |SampleProducts|
  {
    var products := new Product[|SampleProducts|](i requires 0 <= i < |SampleProducts| => NewProduct(SampleProducts[i]));
    SetStockQuantities(products);
    assert products[..] == Stocked(SampleProducts);
    SaveAllProducts(db, products[..]);
  }

  /** The rows of the sample staff, each active and stamped `now`, as `new Employee` leaves them. */
  function SeededEmployees(now: Time): (es: seq<EmployeeRecord>)
    ensures |es| == |SampleEmployees|
  {
    seq(|SampleEmployees|, i requires 0 <= i < |SampleEmployees| =>
      EmployeeRecord(SampleEmployees[i].empid, SampleEmployees[i].password, SampleEmployees[i].employeeType, now, now, true))
  }

  /** `initializeEmployees`: saves the sample staff; `empid` is their key, so none draws one. */
  method InitializeEmployees(db: Store, now: Time)
    modifies db`employees
    ensures db.employees == old(db.employees) + SeededEmployees(now)
  {
    var s := SampleEmployees;
    var e0 := new Employee(s[0].empid, s[0].password, s[0].employeeType, now);
    var e1 := new Employee(s[1].empid, s[1].password, s[1].employeeType, now);
    var e2 := new Employee(s[2].empid, s[2].password, s[2].employeeType, now);
    var e3 := new Employee(s[3].empid, s[3].password, s[3].employeeType, now);
    var e4 := new Employee(s[4].empid, s[4].password, s[4].employeeType, now);
    var rows := [e0.Record(), e1.Record(), e2.Record(), e3.Record(), e4.Record()];
    assert rows == SeededEmployees(now);
    db.employees := db.employees + rows;
  }

  /** The two tables the runner may seed, and the key counter. */
  datatype Seedable = Seedable(products: seq<Product>, employees: seq<EmployeeRecord>, nextId: int)

  function SeedableOf(db: Store): Seedable
    reads db
  {
    Seedable(db.products, db.employees, db.nextId)
  }

  /** What `run` does: with the flag set, each table that is empty receives its samples. */
  function RunOutcome(t: Seedable, initializeData: bool, now: Time): Seedable
  {
    if !initializeData then t
    else
      var t1 := if |t.products| == 0 then
        t.(products := t.products + Keyed(Stocked(SampleProducts), t.nextId), nextId := t.nextId + |SampleProducts|)
      else t;
      if |t1.employees| == 0 then t1.(employees := t1.employees + SeededEmployees(now)) else t1
  }

  /** `run`: the flag and the two counts decide what is seeded. */
  method Run(db: Store, initializeData: bool, now: Time)
    modifies db`products, db`employees, db`nextId
    ensures SeedableOf(db) == RunOutcome(old(SeedableOf(db)), initializeData, now)
  {
    if !initializeData {
      return;
    }
    if |db.products| == 0 {
      InitializeProducts(db);
    }
    if |db.employees| == 0 {
      InitializeEmployees(db, now);
    }
  }

  /**
   * With the flag off nothing changes. Each table is seeded exactly when it is empty, and
   * independently of the other: a shop with products but no staff receives only the staff.
   * Seeding gives exactly twenty products and five employees.
   */
  lemma {:induction false} RunContract(t: Seedable, initializeData: bool, now: Time)
    ensures !initializeData ==> RunOutcome(t, initializeData, now) == t
    ensures var t' := RunOutcome(t, initializeData, now);
      && (initializeData && |t.products| == 0 ==> |t'.products| == 20 && t'.nextId == t.nextId + 20)
      && (!(initializeData && |t.products| == 0) ==> t'.products == t.products && t'.nextId == t.nextId)
      && (initializeData && |t.employees| == 0 ==> t'.employees == SeededEmployees(now) && |t'.employees| == 5)
      && (!(initializeData && |t.employees| == 0) ==> t'.employees == t.employees)
  {
    if initializeData && |t.employees| == 0 {
      assert t.employees + SeededEmployees(now) == SeededEmployees(now);
    }
  }

  /** Every seeded product has the stock `15 + (i % 20)` of its position, so between 15 and 34, and a fresh key. */
  lemma SeededStock(firstKey: int)
    ensures var rows := Keyed(Stocked(SampleProducts), firstKey);
      && (forall i :: 0 <= i < |rows| ==> rows[i].stockQuantity == Some(15 + i % 20) && rows[i].id == firstKey + i)
      && (forall p :: p in rows ==> p.stockQuantity.Some? && 15 <= p.stockQuantity.value <= 34)
  {
    var rows := Keyed(Stocked(SampleProducts), firstKey);
    forall p | p in rows
      ensures p.stockQuantity.Some? && 15 <= p.stockQuantity.value <= 34
    {
      var i :| 0 <= i < |rows| && rows[i] == p;
      assert p.stockQuantity == Some(StockFor(i));
    }
  }

  /** A second run seeds nothing: both tables are no longer empty after the first. */
  lemma RunTwiceAddsNothing(t: Seedable, initializeData: bool, now: Time, later: Time)
    ensures var once := RunOutcome(t, initializeData, now);
      RunOutcome(once, initializeData, later) == once
  {
    var once := RunOutcome(t, initializeData, now);
    if initializeData {
      RunContract(t, initializeData, now);
      assert |once.products| > 0 by {
        if |t.products| == 0 {
          assert |once.products| == 20;
        }
      }
      assert |once.employees| > 0 by {
        if |t.employees| == 0 {
          assert |once.employees| == 5;
        }
      }
    }
  }

  /** The seeded empids differ and pass the entity's validation, and every seeded account is active. */
  lemma SeededStaffWellFormed(now: Time)
    ensures EP.EmpidsUnique(SeededEmployees(now))
    ensures forall e :: e in SeededEmployees(now) ==> e.isActive && EmployeeConstraints(e.empid, e.password)
  {
    var es := SeededEmployees(now);
    forall i, j | 0 <= i < |es| && 0 <= j < |es| && i != j
      ensures es[i].empid != es[j].empid
    {
      var a, b := es[i].empid, es[j].empid;
      assert a[|a| - 1] != b[|b| - 1] || a[0] != b[0] || |a| != |b|;
    }
    forall e | e in es
      ensures e.isActive && EmployeeConstraints(e.empid, e.password)
    {
      var i :| 0 <= i < |es| && es[i] == e;
      assert !IsTrimmed(e.empid[0]) && !IsTrimmed(e.password[0]);
    }
  }

  /** After seeding an empty staff table, each sample account logs in with its own password. */
  lemma SeededStaffCanLogIn(now: Time, i: nat)
    requires i < |SampleEmployees|
    ensures EP.AuthenticateEmployee(SeededEmployees(now), SampleEmployees[i].empid, SampleEmployees[i].password)
         == Some(SeededEmployees(now)[i])
  {
    var es := SeededEmployees(now);
    SeededStaffWellFormed(now);
    EP.AuthenticateIff(es, es[i].empid, es[i].password);
    var found := EP.AuthenticateEmployee(es, es[i].empid, es[i].password).value;
    var j :| 0 <= j < |es| && es[j] == found;
    assert j == i;
  }
}

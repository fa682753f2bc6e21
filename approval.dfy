/**
 * The cashier's approval of an order (`EmployeeController.updatePaymentStatus` and the helpers it
 * calls). An order carries its lines as two comma-separated strings, one of product ids and one of
 * quantities. Approving an order first validates every line against the current stock, then
 * reduces the stock line by line, then writes the bill, and only then writes the new status.
 */
module PaymentApproval {
  import opened Wrappers
  import opened JavaText
  import opened Seqs
  import opened Money
  import opened Products
  import PR = ProductRepository
  import opened Orders
  import OR = OrderRepository
  import opened Bills
  import opened CustomerPayments
  import CPR = CustomerPaymentRepository
  import opened Employees
  import opened ProductListText
  import opened Database

  // ---------------------------------------------------------------- messages

  const InvalidOrderData: string := "Invalid order data"
  const LengthMismatch: string := "Mismatch between product IDs and quantities"
  const BadLineFormat: string := "Invalid product ID or quantity format"
  const NoPaymentDetails: string := "Customer payment details not found"
  const Unauthorized: string := "Unauthorized access"
  const InvalidStatus: string := "Invalid status. Must be PENDING, APPROVED, or DECLINED"
  const PaymentNotFound: string := "Payment not found"
  const UpdateFailed: string := "Failed to update payment status"
  const UpdateSucceeded: string := "Payment status updated successfully"
  const AllInStock: string := "All products have sufficient stock"

  function ProductNotFound(id: int): string
  {
    "Product with ID " + IntText(id) + " not found"
  }

  function OutOfStock(name: string): string
  {
    "Cannot approve payment: Product '" + name + "' is out of stock (quantity: 0)"
  }

  function InsufficientStock(name: string, requested: int, available: int): string
  {
    "Cannot approve payment: Insufficient stock for product '" + name + "' (requested: "
      + IntText(requested) + ", available: " + IntText(available) + ")"
  }

  function NegativeInventory(name: string): string
  {
    "Stock reduction would result in negative inventory for product: " + name
  }

  // ---------------------------------------------------------------- reading the lines

  /** One parsed line of an order. */
  datatype Line = Line(productId: int, quantity: Int32)

  /** The two strings split into tokens, or why that failed. */
  datatype OrderLines = BadOrderData | MismatchedLines | Tokens(ids: seq<string>, quantities: seq<string>)

  /** The guard and the two `split(",")` calls every helper starts with. */
  function ReadLines(productIds: string, productQuantities: string): (r: OrderLines)
    ensures r.BadOrderData? <==> IsBlank(productIds) || IsBlank(productQuantities)
    ensures r.Tokens? ==>
      (&& |r.ids| == |r.quantities|
       && r.ids == Split(productIds, ',') && r.quantities == Split(productQuantities, ','))
  {
    if IsBlank(productIds) || IsBlank(productQuantities) then BadOrderData
    else
      var ids := Split(productIds, ',');
      var quantities := Split(productQuantities, ',');
      if |ids| != |quantities| then MismatchedLines else Tokens(ids, quantities)
  }

  /** `Long.parseLong(ids[i].trim())` and `Integer.parseInt(quantities[i].trim())`; `None` is the `NumberFormatException`. */
  function ParseLine(idToken: string, quantityToken: string): (r: Option<Line>)
    ensures r.Some? <==> ParseLong(Trim(idToken)).Some? && ParseInt(Trim(quantityToken)).Some?
    ensures r.Some? ==> MinInt64 <= r.value.productId <= MaxInt64
  {
    match ParseLong(Trim(idToken))
    case None => None
    case Some(id) =>
      match ParseInt(Trim(quantityToken))
      case None => None
      case Some(q) => Some(Line(id, q))
  }

  /** Every line parsed: the tokens' `parseLong`/`parseInt` results, position by position. */
  function ParsedLines(ids: seq<string>, quantities: seq<string>): (ls: seq<Option<Line>>)
    requires |ids| == |quantities|
    ensures |ls| == |ids|
    ensures forall j :: 0 <= j < |ids| ==> ls[j] == ParseLine(ids[j], quantities[j])
  {
    seq(|ids|, j requires 0 <= j < |ids| => ParseLine(ids[j], quantities[j]))
  }

  /** An order's lines, parsed, when both strings are usable; `[]` otherwise. */
  function OrderLinesOf(o: OrderRecord): seq<Option<Line>>
  {
    match ReadLines(o.productIds, o.productQuantities)
    case Tokens(ids, quantities) => ParsedLines(ids, quantities)
    case _ => []
  }

  /** What the handler's own guard and splits amount to. */
  lemma ReadTokens(o: OrderRecord, ids: seq<string>, quantities: seq<string>)
    requires !IsBlank(o.productIds) && !IsBlank(o.productQuantities)
    requires ids == Split(o.productIds, ',') && quantities == Split(o.productQuantities, ',')
    ensures |ids| != |quantities| ==> ReadLines(o.productIds, o.productQuantities) == MismatchedLines
    ensures |ids| == |quantities| ==>
      ReadLines(o.productIds, o.productQuantities) == Tokens(ids, quantities) && OrderLinesOf(o) == ParsedLines(ids, quantities)
  {
  }

  // ---------------------------------------------------------------- validateStockAvailability

  /** What a line needs to pass validation, stated on its own. */
  predicate LineAcceptable(ps: seq<Product>, l: Option<Line>)
  {
    && l.Some?
    && PR.FindById(ps, l.value.productId).Some?
    && var p := PR.FindById(ps, l.value.productId).value;
       p.stockQuantity.Some? && p.stockQuantity.value > 0 && p.stockQuantity.value >= l.value.quantity
  }

  /** An order the cashier may approve: both strings readable, and every line acceptable. */
  predicate Approvable(ps: seq<Product>, o: OrderRecord)
  {
    && ReadLines(o.productIds, o.productQuantities).Tokens?
    && var ls := OrderLinesOf(o);
       forall j :: 0 <= j < |ls| ==> LineAcceptable(ps, ls[j])
  }

  /** The checks of one line, in the order the loop body makes them. */
  function LineError(ps: seq<Product>, l: Option<Line>): Option<string>
  {
    match l
    case None => Some(BadLineFormat)
    case Some(l) =>
      match PR.FindById(ps, l.productId)
      case None => Some(ProductNotFound(l.productId))
      case Some(p) =>
        if p.stockQuantity.None? || p.stockQuantity.value <= 0 then Some(OutOfStock(p.name))
        else if p.stockQuantity.value < l.quantity then Some(InsufficientStock(p.name, l.quantity, p.stockQuantity.value))
        else None
  }

  lemma LineErrorIffUnacceptable(ps: seq<Product>, l: Option<Line>)
    ensures LineError(ps, l).None? <==> LineAcceptable(ps, l)
  {
  }

  /** The out-of-stock check comes first: a product with no stock is reported as such whatever was requested. */
  lemma OutOfStockReportedFirst(ps: seq<Product>, l: Line, p: Product)
    requires PR.FindById(ps, l.productId) == Some(p)
    requires StockOrZero(p) <= 0
    ensures LineError(ps, Some(l)) == Some(OutOfStock(p.name))
  {
  }

  /** The loop from line `i` on: the first line's error, if any. */
  function ValidateFrom(ps: seq<Product>, ls: seq<Option<Line>>, i: nat): Option<string>
    requires i <= |ls|
    decreases |ls| - i
  {
    if i == |ls| then None
    else if LineError(ps, ls[i]).Some? then LineError(ps, ls[i])
    else ValidateFrom(ps, ls, i + 1)
  }

  /** `validateStockAvailability`: `None` is the `null` that lets approval go on. */
  function StockValidation(ps: seq<Product>, o: OrderRecord): Option<string>
  {
    match ReadLines(o.productIds, o.productQuantities)
    case BadOrderData => Some(InvalidOrderData)
    case MismatchedLines => Some(LengthMismatch)
    case Tokens(_, _) => ValidateFrom(ps, OrderLinesOf(o), 0)
  }

  lemma {:induction false} ValidateFromIff(ps: seq<Product>, ls: seq<Option<Line>>, i: nat)
    requires i <= |ls|
    ensures ValidateFrom(ps, ls, i).None? <==> forall j :: i <= j < |ls| ==> LineAcceptable(ps, ls[j])
    decreases |ls| - i
  {
    if i < |ls| {
      LineErrorIffUnacceptable(ps, ls[i]);
      ValidateFromIff(ps, ls, i + 1);
    }
  }

  /** Validation passes exactly for the approvable orders. */
  lemma ValidationIffApprovable(ps: seq<Product>, o: OrderRecord)
    ensures StockValidation(ps, o).None? <==> Approvable(ps, o)
  {
    var ls := OrderLinesOf(o);
    if ReadLines(o.productIds, o.productQuantities).Tokens? {
      ValidateFromIff(ps, ls, 0);
      assert StockValidation(ps, o) == ValidateFrom(ps, ls, 0);
    }
  }

  /** A failed validation reports the error of the first line that is not acceptable. */
  lemma {:induction false} ValidationReportsFirstFailure(ps: seq<Product>, ls: seq<Option<Line>>, i: nat)
    requires i <= |ls|
    requires ValidateFrom(ps, ls, i).Some?
    ensures exists k :: (&& i <= k < |ls|
                         && ValidateFrom(ps, ls, i) == LineError(ps, ls[k])
                         && !LineAcceptable(ps, ls[k])
                         && forall j :: i <= j < k ==> LineAcceptable(ps, ls[j]))
    decreases |ls| - i
  {
    LineErrorIffUnacceptable(ps, ls[i]);
    if LineError(ps, ls[i]).None? {
      ValidationReportsFirstFailure(ps, ls, i + 1);
      var k :| (&& i + 1 <= k < |ls|
                && ValidateFrom(ps, ls, i + 1) == LineError(ps, ls[k])
                && !LineAcceptable(ps, ls[k])
                && forall j :: i + 1 <= j < k ==> LineAcceptable(ps, ls[j]));
      assert forall j :: i <= j < k ==> LineAcceptable(ps, ls[j]);
    }
  }

  // ---------------------------------------------------------------- reduceStockQuantities

  /** The product table after a reduction, and the error that stopped it, if any. */
  datatype Reduction = Reduction(products: seq<Product>, error: Option<string>)

  /**
   * The loop from line `i` on. Each line reads the product as it is now (earlier lines may have
   * reduced it), subtracts in 32-bit `int` arithmetic and saves the product before the next line.
   */
  function ReduceFrom(ps: seq<Product>, ls: seq<Option<Line>>, i: nat): Reduction
    requires i <= |ls|
    decreases |ls| - i
  {
    if i == |ls| then Reduction(ps, None)
    else
      match ls[i]
      case None => Reduction(ps, Some(BadLineFormat))
      case Some(l) =>
        match PR.FindById(ps, l.productId)
        case None => Reduction(ps, Some(ProductNotFound(l.productId)))
        case Some(p) =>
          var newStock := SubInt32(StockOrZero(p), l.quantity);
          if newStock < 0 then Reduction(ps, Some(NegativeInventory(p.name)))
          else ReduceFrom(PR.Save(ps, p.(stockQuantity := Some(newStock))), ls, i + 1)
  }

  /** `reduceStockQuantities`. */
  function StockReduction(ps: seq<Product>, o: OrderRecord): Reduction
  {
    match ReadLines(o.productIds, o.productQuantities)
    case BadOrderData => Reduction(ps, Some(InvalidOrderData))
    case MismatchedLines => Reduction(ps, Some(LengthMismatch))
    case Tokens(_, _) => ReduceFrom(ps, OrderLinesOf(o), 0)
  }

  /** No stored stock is negative (a `null` stock counts as 0). */
  predicate StocksNonNegative(ps: seq<Product>)
  {
    forall k :: 0 <= k < |ps| ==> StockOrZero(ps[k]) >= 0
  }

  lemma SaveKeepsStocksNonNegative(ps: seq<Product>, p: Product)
    requires StocksNonNegative(ps) && StockOrZero(p) >= 0
    ensures StocksNonNegative(PR.Save(ps, p))
  {
    var r := PR.Save(ps, p);
    forall k | 0 <= k < |r|
      ensures StockOrZero(r[k]) >= 0
    {
      assert r[k] == p || r[k] == ps[k];
    }
  }

  lemma {:induction false} ReduceFromKeepsStocksNonNegative(ps: seq<Product>, ls: seq<Option<Line>>, i: nat)
    requires i <= |ls|
    requires StocksNonNegative(ps)
    ensures StocksNonNegative(ReduceFrom(ps, ls, i).products)
    decreases |ls| - i
  {
    if i < |ls| && ls[i].Some? && PR.FindById(ps, ls[i].value.productId).Some? {
      var p := PR.FindById(ps, ls[i].value.productId).value;
      var newStock := SubInt32(StockOrZero(p), ls[i].value.quantity);
      if newStock >= 0 {
        var p' := p.(stockQuantity := Some(newStock));
        SaveKeepsStocksNonNegative(ps, p');
        ReduceFromKeepsStocksNonNegative(PR.Save(ps, p'), ls, i + 1);
      }
    }
  }

  /** The safety check in the loop means a reduction never stores a negative stock. */
  lemma ReductionKeepsStocksNonNegative(ps: seq<Product>, o: OrderRecord)
    requires StocksNonNegative(ps)
    ensures StocksNonNegative(StockReduction(ps, o).products)
  {
    ReduceFromKeepsStocksNonNegative(ps, OrderLinesOf(o), 0);
  }

  /** The product line `j` names (0 for a line that does not parse). */
  function LineId(ls: seq<Option<Line>>, j: nat): int
    requires j < |ls|
  {
    if ls[j].Some? then ls[j].value.productId else 0
  }

  function LineQuantity(ls: seq<Option<Line>>, j: nat): Int32
    requires j < |ls|
  {
    if ls[j].Some? then ls[j].value.quantity else 0
  }

  /**
   * Lines `i..` as the designers evidently had in mind: each parses, names a stored product with
   * enough stock, asks for a non-negative quantity, and no two name the same product.
   */
  predicate CleanFrom(ps: seq<Product>, ls: seq<Option<Line>>, i: nat)
    requires i <= |ls|
  {
    && (forall j :: i <= j < |ls| ==> ls[j].Some? && ls[j].value.quantity >= 0)
    && (forall j :: i <= j < |ls| ==> PR.FindById(ps, LineId(ls, j)).Some?)
    && (forall j :: i <= j < |ls| ==> StockOrZero(PR.FindById(ps, LineId(ls, j)).value) >= LineQuantity(ls, j))
    && (forall j, k :: i <= j < k < |ls| ==> LineId(ls, j) != LineId(ls, k))
  }

  /** A product with `q` taken off its stock. */
  function Reduced(p: Product, q: Int32): Product
  {
    p.(stockQuantity := Some(SubInt32(StockOrZero(p), q)))
  }

  /** Saving a product changes what its own key finds, and nothing else. */
  lemma FindAfterProductSave(ps: seq<Product>, p: Product)
    requires PR.FindById(ps, p.id).Some?
    ensures forall k :: PR.FindById(PR.Save(ps, p), k) == if k == p.id then Some(p) else PR.FindById(ps, k)
  {
    forall k
      ensures PR.FindById(PR.Save(ps, p), k) == if k == p.id then Some(p) else PR.FindById(ps, k)
    {
      FindAfterSave(ps, PR.ProductKey, p, k);
    }
  }

  /** Reducing line `i`'s product leaves the later lines clean, since none of them names it. */
  lemma CleanAfterLine(ps: seq<Product>, ls: seq<Option<Line>>, i: nat)
    requires i < |ls| && CleanFrom(ps, ls, i)
    ensures var p := PR.FindById(ps, LineId(ls, i)).value;
      CleanFrom(PR.Save(ps, Reduced(p, LineQuantity(ls, i))), ls, i + 1)
  {
    var p := PR.FindById(ps, LineId(ls, i)).value;
    FindAfterProductSave(ps, Reduced(p, LineQuantity(ls, i)));
  }

  lemma {:induction false} ReduceFromExact(ps: seq<Product>, ls: seq<Option<Line>>, i: nat)
    requires i <= |ls|
    requires CleanFrom(ps, ls, i)
    ensures ReduceFrom(ps, ls, i).error.None?
    ensures forall j :: i <= j < |ls| ==>
      PR.FindById(ReduceFrom(ps, ls, i).products, LineId(ls, j))
        == Some(Reduced(PR.FindById(ps, LineId(ls, j)).value, LineQuantity(ls, j)))
    ensures forall id :: (forall j :: i <= j < |ls| ==> LineId(ls, j) != id) ==>
      PR.FindById(ReduceFrom(ps, ls, i).products, id) == PR.FindById(ps, id)
    decreases |ls| - i
  {
    if i < |ls| {
      var p := PR.FindById(ps, LineId(ls, i)).value;
      var p' := Reduced(p, LineQuantity(ls, i));
      var ps' := PR.Save(ps, p');
      FindAfterProductSave(ps, p');
      CleanAfterLine(ps, ls, i);
      ReduceFromExact(ps', ls, i + 1);
      assert ReduceFrom(ps, ls, i) == ReduceFrom(ps', ls, i + 1);
    }
  }

  /**
   * When validation passes, no two lines name the same product and no quantity is negative,
   * the reduction succeeds and takes exactly each line's quantity off its product's stock,
   * leaving every other product as it was.
   */
  lemma ApprovedReductionIsExact(ps: seq<Product>, o: OrderRecord)
    requires Approvable(ps, o)
    requires var ls := OrderLinesOf(o);
      && (forall j :: 0 <= j < |ls| ==> LineQuantity(ls, j) >= 0)
      && (forall j, k :: 0 <= j < k < |ls| ==> LineId(ls, j) != LineId(ls, k))
    ensures var ls := OrderLinesOf(o);
      var r := StockReduction(ps, o);
      && r.error.None?
      && (forall j :: 0 <= j < |ls| ==> PR.FindById(r.products, LineId(ls, j)) == ReducedLine(ps, ls, j))
      && (forall id :: (forall j :: 0 <= j < |ls| ==> LineId(ls, j) != id) ==>
            PR.FindById(r.products, id) == PR.FindById(ps, id))
  {
    var ls := OrderLinesOf(o);
    ApprovableIsClean(ps, ls);
    ReduceFromExact(ps, ls, 0);
    forall j | 0 <= j < |ls|
      ensures PR.FindById(StockReduction(ps, o).products, LineId(ls, j)) == ReducedLine(ps, ls, j)
    {
      assert PR.FindById(ps, LineId(ls, j)).Some?;
    }
  }

  /** Line `j`'s stored product with the line's quantity taken off its stock. */
  function ReducedLine(ps: seq<Product>, ls: seq<Option<Line>>, j: nat): Option<Product>
    requires j < |ls|
  {
    match PR.FindById(ps, LineId(ls, j))
    case Some(p) => Some(Reduced(p, LineQuantity(ls, j)))
    case None => None
  }

  /** Acceptable lines with distinct ids and no negative quantity are clean from the first line on. */
  lemma ApprovableIsClean(ps: seq<Product>, ls: seq<Option<Line>>)
    requires forall j :: 0 <= j < |ls| ==> LineAcceptable(ps, ls[j])
    requires forall j :: 0 <= j < |ls| ==> LineQuantity(ls, j) >= 0
    requires forall j, k :: 0 <= j < k < |ls| ==> LineId(ls, j) != LineId(ls, k)
    ensures CleanFrom(ps, ls, 0)
  {
    forall j | 0 <= j < |ls|
      ensures ls[j].Some? && PR.FindById(ps, LineId(ls, j)).Some?
      ensures StockOrZero(PR.FindById(ps, LineId(ls, j)).value) >= LineQuantity(ls, j)
    {
      assert LineAcceptable(ps, ls[j]);
    }
  }

  // ---------------------------------------------------------------- what the loops let through

  /** A stocked product with id 1. */
  function Tea(stock: Int32): Product
  {
    Product(1, "Tea", "Ceylon tea", Some(Decimal(25000, 2)), "tea.png", "Beverages", Some(stock))
  }

  /** A pending order with the given id and quantity strings. */
  function SampleOrder(productIds: string, productQuantities: string): OrderRecord
  {
    OrderRecord(7, "nimal", productIds, productQuantities, Decimal(50000, 2), None, "PENDING", 0, 0)
  }

  /** What the parsing steps make of the text of a number. */
  lemma NumberToken(n: Int32, s: string)
    requires s == IntText(n)
    ensures Trim(s) == s && ParseInt(s) == Some(n) && ParseLong(s) == Some(n) && ',' !in s && !IsBlank(s)
  {
    ParseIntOfText(n);
    ParseLongOfText(n);
    NotBlankNoComma(n);
  }

  /** An order whose strings are the texts of one id and one quantity has exactly that line. */
  lemma OneLine(o: OrderRecord, id: Int32, q: Int32)
    requires o.productIds == IntText(id) && o.productQuantities == IntText(q)
    ensures ReadLines(o.productIds, o.productQuantities).Tokens?
    ensures OrderLinesOf(o) == [Some(Line(id, q))]
  {
    NumberToken(id, o.productIds);
    NumberToken(q, o.productQuantities);
  }

  /** The text of two numbers joined by a comma splits into the two texts. */
  lemma TwoNumbers(s: string, a: Int32, b: Int32)
    requires s == IntText(a) + [','] + IntText(b)
    ensures Split(s, ',') == [IntText(a), IntText(b)] && !IsBlank(s)
  {
    NumberToken(a, IntText(a));
    NumberToken(b, IntText(b));
    SplitTwo(IntText(a), IntText(b), ',');
    assert s[0] == IntText(a)[0];
  }

  lemma ParsedTwoNumbers(id1: Int32, q1: Int32, id2: Int32, q2: Int32)
    ensures ParsedLines([IntText(id1), IntText(id2)], [IntText(q1), IntText(q2)])
         == [Some(Line(id1, q1)), Some(Line(id2, q2))]
  {
    NumberToken(id1, IntText(id1));
    NumberToken(id2, IntText(id2));
    NumberToken(q1, IntText(q1));
    NumberToken(q2, IntText(q2));
  }

  /** An order whose strings are two comma-separated ids and quantities has exactly those two lines. */
  lemma TwoLines(o: OrderRecord, id1: Int32, q1: Int32, id2: Int32, q2: Int32)
    requires o.productIds == IntText(id1) + [','] + IntText(id2)
    requires o.productQuantities == IntText(q1) + [','] + IntText(q2)
    ensures ReadLines(o.productIds, o.productQuantities).Tokens?
    ensures OrderLinesOf(o) == [Some(Line(id1, q1)), Some(Line(id2, q2))]
  {
    TwoNumbers(o.productIds, id1, id2);
    TwoNumbers(o.productQuantities, q1, q2);
    assert ReadLines(o.productIds, o.productQuantities) == Tokens([IntText(id1), IntText(id2)], [IntText(q1), IntText(q2)]);
    ParsedTwoNumbers(id1, q1, id2, q2);
  }

  lemma TwoTeaLinesOfThreeAcceptable(ls: seq<Option<Line>>)
    requires ls == [Some(Line(1, 3)), Some(Line(1, 3))]
    ensures forall j :: 0 <= j < |ls| ==> LineAcceptable([Tea(5)], ls[j])
  {
    assert PR.FindById([Tea(5)], 1) == Some(Tea(5));
  }

  lemma TwoTeaLinesOfThree(ls: seq<Option<Line>>)
    requires ls == [Some(Line(1, 3)), Some(Line(1, 3))]
    ensures ReduceFrom([Tea(5)], ls, 0) == Reduction([Tea(2)], Some(NegativeInventory("Tea")))
  {
    assert PR.FindById([Tea(5)], 1) == Some(Tea(5));
    assert PR.FindById([Tea(2)], 1) == Some(Tea(2));
    assert PR.Save([Tea(5)], Tea(5).(stockQuantity := Some(2))) == [Tea(2)];
  }

  /**
   * Validation compares every line with the stock as it was before any reduction: two lines of
   * 3 for a product holding 5 both pass, and the second then fails in the reduction, after the
   * first has already been saved.
   */
  lemma DuplicateIdsPassValidation(o: OrderRecord)
    requires o.productIds == "1,1" && o.productQuantities == "3,3"
    ensures Approvable([Tea(5)], o)
    ensures StockReduction([Tea(5)], o) == Reduction([Tea(2)], Some(NegativeInventory("Tea")))
  {
    assert IntText(1) == "1" && IntText(3) == "3";
    TwoLines(o, 1, 3, 1, 3);
    TwoTeaLinesOfThreeAcceptable(OrderLinesOf(o));
    TwoTeaLinesOfThree(OrderLinesOf(o));
  }

  lemma TeaLineOfMinusThree(ls: seq<Option<Line>>)
    requires ls == [Some(Line(1, -3))]
    ensures ReduceFrom([Tea(5)], ls, 0) == Reduction([Tea(8)], None)
    ensures forall j :: 0 <= j < |ls| ==> LineAcceptable([Tea(5)], ls[j])
  {
    assert PR.FindById([Tea(5)], 1) == Some(Tea(5));
    assert PR.Save([Tea(5)], Tea(5).(stockQuantity := Some(8))) == [Tea(8)];
  }

  /** A negative quantity passes validation and the reduction then raises the stock. */
  lemma NegativeQuantityRaisesStock(o: OrderRecord)
    requires o.productIds == "1" && o.productQuantities == "-3"
    ensures Approvable([Tea(5)], o)
    ensures StockReduction([Tea(5)], o) == Reduction([Tea(8)], None)
  {
    assert IntText(1) == "1" && IntText(-3) == "-3";
    OneLine(o, 1, -3);
    TeaLineOfMinusThree(OrderLinesOf(o));
  }

  lemma TeaLineOfSmallestInt(ls: seq<Option<Line>>)
    requires ls == [Some(Line(1, MinInt32))]
    ensures ReduceFrom([Tea(1)], ls, 0) == Reduction([Tea(1)], Some(NegativeInventory("Tea")))
    ensures forall j :: 0 <= j < |ls| ==> LineAcceptable([Tea(1)], ls[j])
  {
    assert PR.FindById([Tea(1)], 1) == Some(Tea(1));
    assert SubInt32(1, MinInt32) < 0;
  }

  /**
   * The subtraction is 32-bit: taking the smallest `int` off a stock of 1 wraps to a negative
   * number, so the reduction stops with the negative-inventory message although validation passed.
   * The quantity string is `"-2147483648"`.
   */
  lemma SmallestQuantityWrapsAround(o: OrderRecord)
    requires o.productIds == "1" && o.productQuantities == IntText(MinInt32)
    ensures Approvable([Tea(1)], o)
    ensures StockReduction([Tea(1)], o) == Reduction([Tea(1)], Some(NegativeInventory("Tea")))
  {
    assert IntText(1) == "1";
    OneLine(o, 1, MinInt32);
    TeaLineOfSmallestInt(OrderLinesOf(o));
  }

  // ---------------------------------------------------------------- generateBill

  /** `billRepository.existsByPaymentId`. */
  predicate HasBill(bills: seq<BillRecord>, paymentId: int)
  {
    exists k :: 0 <= k < |bills| && bills[k].paymentId == paymentId
  }

  /** No two bills are for the same payment. */
  predicate BillsUnique(bills: seq<BillRecord>)
  {
    forall j, k :: 0 <= j < k < |bills| ==> bills[j].paymentId != bills[k].paymentId
  }

  /** The bill table after `generateBill`, the key counter, and the error, if any. */
  datatype Billing = Billing(bills: seq<BillRecord>, nextId: int, error: Option<string>)

  /**
   * `generateBill`: nothing to do when the payment already has a bill; otherwise the bill names
   * the products, copies the order's quantities and subtotal (as the total too) and the customer's
   * newest active bank details.
   */
  function BillGeneration(ps: seq<Product>, bills: seq<BillRecord>, payments: seq<PaymentRecord>,
                          o: OrderRecord, nextId: int, now: Time): Billing
  {
    if HasBill(bills, o.paymentId) then Billing(bills, nextId, None)
    else
      match CPR.LatestActive(payments, o.username)
      case None => Billing(bills, nextId, Some(NoPaymentDetails))
      case Some(cp) =>
        var b := BillRecord(nextId, o.paymentId, o.paymentId, o.username, ProductList(ps, Some(o.productIds), false),
                            o.productQuantities, o.subtotal, o.subtotal, cp.bankName, cp.accountNumber, now);
        Billing(bills + [b], nextId + 1, None)
  }

  /** Generation fails exactly when the payment has no bill yet and its customer has no active bank details; a failure writes nothing. */
  lemma BillGenerationFailsIff(ps: seq<Product>, bills: seq<BillRecord>, payments: seq<PaymentRecord>,
                               o: OrderRecord, nextId: int, now: Time)
    ensures var g := BillGeneration(ps, bills, payments, o, nextId, now);
      && (g.error.Some? <==> !HasBill(bills, o.paymentId) && !CPR.ExistsByUsernameAndIsActiveTrue(payments, o.username))
      && (g.error.Some? ==> g == Billing(bills, nextId, Some(NoPaymentDetails)))
  {
    CPR.LatestActiveIsNewest(payments, o.username);
  }

  /**
   * A bill that generation adds is the only new row: it is for the order's payment, its order id
   * is the payment id, subtotal and total are the order's subtotal, the quantities are copied
   * verbatim, and the bank details are the customer's newest active ones.
   */
  lemma GeneratedBillCopiesOrder(ps: seq<Product>, bills: seq<BillRecord>, payments: seq<PaymentRecord>,
                                 o: OrderRecord, nextId: int, now: Time)
    requires !HasBill(bills, o.paymentId)
    requires BillGeneration(ps, bills, payments, o, nextId, now).error.None?
    ensures var g := BillGeneration(ps, bills, payments, o, nextId, now);
      var cp := CPR.LatestActive(payments, o.username);
      && |g.bills| == |bills| + 1 && g.bills[..|bills|] == bills && g.nextId == nextId + 1
      && cp.Some? && cp.value.username == o.username && cp.value.isActive
      && var b := g.bills[|bills|];
         && b.id == nextId && b.paymentId == o.paymentId && b.orderId == o.paymentId
         && b.username == o.username && b.productQuantities == o.productQuantities
         && b.subtotal == o.subtotal && b.total == o.subtotal
         && b.bankName == cp.value.bankName && b.bankAccountNumber == cp.value.accountNumber
         && b.createdAt == now
  {
    CPR.LatestActiveIsNewest(payments, o.username);
  }

  /** After a successful generation the payment has a bill, so generating again is a no-op. */
  lemma BillGenerationIdempotent(ps: seq<Product>, bills: seq<BillRecord>, payments: seq<PaymentRecord>,
                                 o: OrderRecord, nextId: int, now: Time, ps': seq<Product>, now': Time)
    requires BillGeneration(ps, bills, payments, o, nextId, now).error.None?
    ensures var g := BillGeneration(ps, bills, payments, o, nextId, now);
      && HasBill(g.bills, o.paymentId)
      && BillGeneration(ps', g.bills, payments, o, g.nextId, now') == Billing(g.bills, g.nextId, None)
  {
    var g := BillGeneration(ps, bills, payments, o, nextId, now);
    if !HasBill(bills, o.paymentId) {
      assert g.bills[|bills|].paymentId == o.paymentId;
    }
  }

  /** Generation keeps the bill table at one bill per payment. */
  lemma BillGenerationKeepsBillsUnique(ps: seq<Product>, bills: seq<BillRecord>, payments: seq<PaymentRecord>,
                                       o: OrderRecord, nextId: int, now: Time)
    requires BillsUnique(bills)
    ensures BillsUnique(BillGeneration(ps, bills, payments, o, nextId, now).bills)
  {
    var g := BillGeneration(ps, bills, payments, o, nextId, now);
    if |g.bills| > |bills| {
      forall j, k | 0 <= j < k < |g.bills|
        ensures g.bills[j].paymentId != g.bills[k].paymentId
      {
        if k == |bills| {
          assert g.bills[j] == bills[j];
        }
      }
    }
  }

  // ---------------------------------------------------------------- updatePaymentStatus

  /** The JSON map the endpoint answers with. */
  datatype Response = Response(success: bool, message: string, newStatus: Option<string>)

  /** The tables an approval may write, and the key counter. */
  datatype Tables = Tables(products: seq<Product>, orders: seq<OrderRecord>, bills: seq<BillRecord>, nextId: int)

  datatype Outcome = Outcome(tables: Tables, response: Response)

  function Refusal(message: string): Response
  {
    Response(false, message, None)
  }

  /** The session's employee is a cashier; `None` is a session without one. */
  predicate IsCashier(employee: Option<EmployeeRecord>)
  {
    employee.Some? && employee.value.employeeType == CASHIER
  }

  /** The statuses a cashier may set, compared with the upper-cased request. */
  predicate IsStatus(s: string)
  {
    s == "PENDING" || s == "APPROVED" || s == "DECLINED"
  }

  /**
   * The last step: the order with the upper-cased status and a new `updatedAt`. A row that fails
   * Bean Validation makes `save` throw, which the handler reports as a failed update.
   */
  function WriteStatus(t: Tables, o: OrderRecord, status: string, now: Time): (out: Outcome)
    ensures out.tables.products == t.products && out.tables.bills == t.bills && out.tables.nextId == t.nextId
    ensures !out.response.success ==> out.tables == t && out.response == Refusal(UpdateFailed)
    ensures out.response.success ==>
      out.tables.orders == OR.Save(t.orders, o.(orderStatus := status, updatedAt := now)) && out.response.newStatus == Some(status)
  {
    if !OrderConstraints(o.username, o.productIds, o.productQuantities, o.subtotal) then Outcome(t, Refusal(UpdateFailed))
    else Outcome(t.(orders := OR.Save(t.orders, o.(orderStatus := status, updatedAt := now))), Response(true, UpdateSucceeded, Some(status)))
  }

  /**
   * The `APPROVED` branch: validate, reduce, bill, then write the status. Each step returns at
   * once on failure, so what the earlier steps wrote (the reduced stock) stays behind.
   */
  function Approval(t: Tables, payments: seq<PaymentRecord>, o: OrderRecord, status: string, now: Time): (out: Outcome)
    ensures !out.response.success ==> out.tables.orders == t.orders && out.response.newStatus.None?
    ensures out.response.success ==>
      out.tables.orders == OR.Save(t.orders, o.(orderStatus := status, updatedAt := now)) && out.response.newStatus == Some(status)
  {
    var v := StockValidation(t.products, o);
    if v.Some? then Outcome(t, Refusal(v.value)) else ReduceThenBill(t, payments, o, status, now)
  }

  /** The steps after a passed validation. */
  function ReduceThenBill(t: Tables, payments: seq<PaymentRecord>, o: OrderRecord, status: string, now: Time): (out: Outcome)
    ensures !out.response.success ==> out.tables.orders == t.orders && out.response.newStatus.None?
    ensures out.response.success ==>
      out.tables.orders == OR.Save(t.orders, o.(orderStatus := status, updatedAt := now)) && out.response.newStatus == Some(status)
  {
    var r := StockReduction(t.products, o);
    if r.error.Some? then Outcome(t.(products := r.products), Refusal("Failed to update stock: " + r.error.value))
    else BillThenWrite(t.(products := r.products), payments, o, status, now)
  }

  /** The steps after a completed reduction, whose products `t` already holds. */
  function BillThenWrite(t: Tables, payments: seq<PaymentRecord>, o: OrderRecord, status: string, now: Time): (out: Outcome)
    ensures out.tables.products == t.products
    ensures !out.response.success ==> out.tables.orders == t.orders && out.response.newStatus.None?
    ensures out.response.success ==>
      out.tables.orders == OR.Save(t.orders, o.(orderStatus := status, updatedAt := now)) && out.response.newStatus == Some(status)
  {
    var g := BillGeneration(t.products, t.bills, payments, o, t.nextId, now);
    if g.error.Some? then Outcome(t, Refusal("Failed to generate bill: " + g.error.value))
    else WriteStatus(t.(bills := g.bills, nextId := g.nextId), o, status, now)
  }

  /** `updatePaymentStatus`: the role check, the status check and the lookup, then the status's own branch. */
  function StatusUpdate(t: Tables, payments: seq<PaymentRecord>, employee: Option<EmployeeRecord>,
                        paymentId: int, status: string, now: Time): (out: Outcome)
    ensures !IsCashier(employee) || !IsStatus(ToUpperCase(status)) ==> out.tables == t && !out.response.success
    ensures !out.response.success ==> out.tables.orders == t.orders && out.response.newStatus.None?
    ensures ToUpperCase(status) != "APPROVED" ==> out.tables.products == t.products && out.tables.bills == t.bills
    ensures out.response.success ==>
      && OR.FindById(t.orders, paymentId).Some?
      && out.tables.orders == OR.Save(t.orders, OR.FindById(t.orders, paymentId).value.(orderStatus := ToUpperCase(status), updatedAt := now))
      && out.response.newStatus == Some(ToUpperCase(status))
  {
    var up := ToUpperCase(status);
    if !IsCashier(employee) then Outcome(t, Refusal(Unauthorized))
    else if !IsStatus(up) then Outcome(t, Refusal(InvalidStatus))
    else
      match OR.FindById(t.orders, paymentId)
      case None => Outcome(t, Refusal(PaymentNotFound))
      case Some(o) => if up == "APPROVED" then Approval(t, payments, o, up, now) else WriteStatus(t, o, up, now)
  }

  /** A successful update stores the upper-cased status on the order, and touches no other order. */
  lemma StatusIsStored(t: Tables, payments: seq<PaymentRecord>, employee: Option<EmployeeRecord>,
                       paymentId: int, status: string, now: Time)
    requires StatusUpdate(t, payments, employee, paymentId, status, now).response.success
    ensures var out := StatusUpdate(t, payments, employee, paymentId, status, now);
      && OR.FindById(t.orders, paymentId).Some?
      && OR.FindById(out.tables.orders, paymentId)
           == Some(OR.FindById(t.orders, paymentId).value.(orderStatus := ToUpperCase(status), updatedAt := now))
      && forall id :: id != paymentId ==> OR.FindById(out.tables.orders, id) == OR.FindById(t.orders, id)
  {
    var o := OR.FindById(t.orders, paymentId).value;
    var o' := o.(orderStatus := ToUpperCase(status), updatedAt := now);
    forall id
      ensures OR.FindById(OR.Save(t.orders, o'), id) == if id == paymentId then Some(o') else OR.FindById(t.orders, id)
    {
      FindAfterSave(t.orders, OR.OrderKey, o', id);
    }
  }

  /** A failed validation returns its message and writes nothing at all. */
  lemma FailedValidationWritesNothing(t: Tables, payments: seq<PaymentRecord>, employee: Option<EmployeeRecord>,
                                      paymentId: int, status: string, now: Time)
    requires IsCashier(employee) && ToUpperCase(status) == "APPROVED"
    requires OR.FindById(t.orders, paymentId).Some?
    requires !Approvable(t.products, OR.FindById(t.orders, paymentId).value)
    ensures var out := StatusUpdate(t, payments, employee, paymentId, status, now);
      && out.tables == t && !out.response.success
      && Some(out.response.message) == StockValidation(t.products, OR.FindById(t.orders, paymentId).value)
  {
    ValidationIffApprovable(t.products, OR.FindById(t.orders, paymentId).value);
  }

  /**
   * A bill that cannot be generated leaves the stock reduced and the status as it was: the
   * product table is the completed reduction, the bills and orders are unchanged.
   */
  lemma BillFailureKeepsReducedStock(t: Tables, payments: seq<PaymentRecord>, employee: Option<EmployeeRecord>,
                                     paymentId: int, status: string, now: Time)
    requires IsCashier(employee) && ToUpperCase(status) == "APPROVED"
    requires OR.FindById(t.orders, paymentId).Some?
    requires var o := OR.FindById(t.orders, paymentId).value;
      && Approvable(t.products, o)
      && StockReduction(t.products, o).error.None?
      && !HasBill(t.bills, o.paymentId)
      && !CPR.ExistsByUsernameAndIsActiveTrue(payments, o.username)
    ensures var o := OR.FindById(t.orders, paymentId).value;
      StatusUpdate(t, payments, employee, paymentId, status, now)
        == Outcome(t.(products := StockReduction(t.products, o).products),
                   Refusal("Failed to generate bill: " + NoPaymentDetails))
  {
    var o := OR.FindById(t.orders, paymentId).value;
    ValidationIffApprovable(t.products, o);
    BillGenerationFailsIff(StockReduction(t.products, o).products, t.bills, payments, o, t.nextId, now);
  }

  /** Once validation passes, the product table is the reduction's, whatever the later steps do. */
  lemma ApprovalKeepsReduction(t: Tables, payments: seq<PaymentRecord>, o: OrderRecord, status: string, now: Time)
    requires StockValidation(t.products, o).None?
    ensures Approval(t, payments, o, status, now).tables.products == StockReduction(t.products, o).products
  {
    var r := StockReduction(t.products, o);
    var g := BillGeneration(r.products, t.bills, payments, o, t.nextId, now);
    if r.error.None? && g.error.None? {
      var t' := t.(products := r.products, bills := g.bills, nextId := g.nextId);
      assert Approval(t, payments, o, status, now) == WriteStatus(t', o, status, now);
    }
  }

  /**
   * Approval does not look at the order's current status: an order that is already APPROVED and
   * still passes validation has its stock reduced a second time.
   */
  lemma ReapprovalReducesAgain(t: Tables, payments: seq<PaymentRecord>, employee: Option<EmployeeRecord>,
                               paymentId: int, status: string, now: Time)
    requires IsCashier(employee) && ToUpperCase(status) == "APPROVED"
    requires OR.FindById(t.orders, paymentId).Some?
    requires OR.FindById(t.orders, paymentId).value.orderStatus == "APPROVED"
    requires Approvable(t.products, OR.FindById(t.orders, paymentId).value)
    ensures StatusUpdate(t, payments, employee, paymentId, status, now).tables.products
         == StockReduction(t.products, OR.FindById(t.orders, paymentId).value).products
  {
    var o := OR.FindById(t.orders, paymentId).value;
    ValidationIffApprovable(t.products, o);
    assert IsStatus(ToUpperCase(status));
    assert StatusUpdate(t, payments, employee, paymentId, status, now) == Approval(t, payments, o, ToUpperCase(status), now);
    ApprovalKeepsReduction(t, payments, o, ToUpperCase(status), now);
  }

  /** The approval steps keep every stock non-negative and the bills one per payment. */
  lemma ApprovalKeepsInvariants(t: Tables, payments: seq<PaymentRecord>, o: OrderRecord, status: string, now: Time)
    requires StocksNonNegative(t.products) && BillsUnique(t.bills)
    ensures var out := Approval(t, payments, o, status, now);
      StocksNonNegative(out.tables.products) && BillsUnique(out.tables.bills)
  {
    var r := StockReduction(t.products, o);
    var g := BillGeneration(r.products, t.bills, payments, o, t.nextId, now);
    ReductionKeepsStocksNonNegative(t.products, o);
    BillGenerationKeepsBillsUnique(r.products, t.bills, payments, o, t.nextId, now);
    if StockValidation(t.products, o).None? && r.error.None? && g.error.None? {
      var t' := t.(products := r.products, bills := g.bills, nextId := g.nextId);
      assert Approval(t, payments, o, status, now) == WriteStatus(t', o, status, now);
    }
  }

  /** Whatever the request, no stock goes negative and no payment gets a second bill. */
  lemma StatusUpdateKeepsInvariants(t: Tables, payments: seq<PaymentRecord>, employee: Option<EmployeeRecord>,
                                    paymentId: int, status: string, now: Time)
    requires StocksNonNegative(t.products) && BillsUnique(t.bills)
    ensures var out := StatusUpdate(t, payments, employee, paymentId, status, now);
      StocksNonNegative(out.tables.products) && BillsUnique(out.tables.bills)
  {
    var up := ToUpperCase(status);
    var o := OR.FindById(t.orders, paymentId);
    if IsCashier(employee) && IsStatus(up) && o.Some? && up == "APPROVED" {
      assert StatusUpdate(t, payments, employee, paymentId, status, now) == Approval(t, payments, o.value, up, now);
      ApprovalKeepsInvariants(t, payments, o.value, up, now);
    }
  }

  /** A successful approval leaves the payment with a bill. */
  lemma ApprovalLeavesBill(t: Tables, payments: seq<PaymentRecord>, employee: Option<EmployeeRecord>,
                           paymentId: int, status: string, now: Time)
    requires ToUpperCase(status) == "APPROVED"
    requires StatusUpdate(t, payments, employee, paymentId, status, now).response.success
    ensures HasBill(StatusUpdate(t, payments, employee, paymentId, status, now).tables.bills, paymentId)
  {
    var o := OR.FindById(t.orders, paymentId).value;
    assert StatusUpdate(t, payments, employee, paymentId, status, now) == Approval(t, payments, o, ToUpperCase(status), now);
    var r := StockReduction(t.products, o);
    BillGenerationIdempotent(r.products, t.bills, payments, o, t.nextId, now, r.products, now);
  }

  // ---------------------------------------------------------------- checkStockAvailability

  /** One entry of the `stockDetails` list. */
  datatype StockDetail = StockDetail(productId: int, productName: string, requestedQuantity: Int32,
                                     availableStock: Int32, isOutOfStock: bool, isInsufficientStock: bool)

  /** The map built for a line and the product it names. */
  function Detail(p: Product, l: Line): StockDetail
  {
    StockDetail(l.productId, p.name, l.quantity, StockOrZero(p),
                p.stockQuantity.None? || p.stockQuantity.value <= 0,
                p.stockQuantity.Some? && p.stockQuantity.value < l.quantity)
  }

  /** The entry for one line: none for a line that does not parse or names no stored product. */
  function DetailOf(ps: seq<Product>, l: Option<Line>): seq<StockDetail>
  {
    if l.None? then []
    else
      match PR.FindById(ps, l.value.productId)
      case None => []
      case Some(p) => [Detail(p, l.value)]
  }

  /** The entries of the first `n` lines, in line order. */
  function DetailsUpTo(ps: seq<Product>, ls: seq<Option<Line>>, n: nat): seq<StockDetail>
    requires n <= |ls|
  {
    if n == 0 then [] else DetailsUpTo(ps, ls, n - 1) + DetailOf(ps, ls[n - 1])
  }

  /** `getStockDetailsForOrder`: an empty list when the strings are blank or of different lengths. */
  function StockDetails(ps: seq<Product>, o: OrderRecord): seq<StockDetail>
  {
    var ls := OrderLinesOf(o);
    DetailsUpTo(ps, ls, |ls|)
  }

  /** A line's entry is flagged (out of stock or short) exactly when the line would fail validation. */
  lemma FlaggedIffUnacceptable(ps: seq<Product>, l: Option<Line>)
    ensures forall d :: d in DetailOf(ps, l) ==> ((d.isOutOfStock || d.isInsufficientStock) <==> !LineAcceptable(ps, l))
  {
  }

  lemma {:induction false} DetailsUpToAllFound(ps: seq<Product>, ls: seq<Option<Line>>, n: nat)
    requires n <= |ls|
    requires forall j :: 0 <= j < n ==> ls[j].Some? && PR.FindById(ps, ls[j].value.productId).Some?
    ensures |DetailsUpTo(ps, ls, n)| == n
    ensures forall j :: 0 <= j < n ==> [DetailsUpTo(ps, ls, n)[j]] == DetailOf(ps, ls[j])
  {
    if n > 0 {
      DetailsUpToAllFound(ps, ls, n - 1);
    }
  }

  /**
   * When every line parses and names a stored product, there is one entry per line, and the order
   * is approvable exactly when no entry is flagged.
   */
  lemma NoFlagsIffApprovable(ps: seq<Product>, o: OrderRecord)
    requires ReadLines(o.productIds, o.productQuantities).Tokens?
    requires var ls := OrderLinesOf(o);
      forall j :: 0 <= j < |ls| ==> ls[j].Some? && PR.FindById(ps, ls[j].value.productId).Some?
    ensures var ds := StockDetails(ps, o);
      && |ds| == |OrderLinesOf(o)|
      && (Approvable(ps, o) <==> forall k :: 0 <= k < |ds| ==> !ds[k].isOutOfStock && !ds[k].isInsufficientStock)
  {
    var ls := OrderLinesOf(o);
    var ds := StockDetails(ps, o);
    DetailsUpToAllFound(ps, ls, |ls|);
    forall k | 0 <= k < |ds|
      ensures (ds[k].isOutOfStock || ds[k].isInsufficientStock) <==> !LineAcceptable(ps, ls[k])
    {
      FlaggedIffUnacceptable(ps, ls[k]);
      assert ds[k] in DetailOf(ps, ls[k]);
    }
  }

  /** The endpoint's answer; `canApprove` is `false` where the map has no such entry. */
  datatype StockCheck = StockCheck(success: bool, canApprove: bool, message: string, details: seq<StockDetail>)

  /** `checkStockAvailability`. */
  function StockCheckOf(ps: seq<Product>, os: seq<OrderRecord>, employee: Option<EmployeeRecord>, paymentId: int): StockCheck
  {
    if !IsCashier(employee) then StockCheck(false, false, Unauthorized, [])
    else
      match OR.FindById(os, paymentId)
      case None => StockCheck(false, false, PaymentNotFound, [])
      case Some(o) =>
        var v := StockValidation(ps, o);
        StockCheck(true, v.None?, if v.None? then AllInStock else v.value, StockDetails(ps, o))
  }

  /** The check says an order can be approved exactly when approving it would pass validation. */
  lemma CanApproveIffApprovable(ps: seq<Product>, os: seq<OrderRecord>, employee: Option<EmployeeRecord>, paymentId: int)
    ensures StockCheckOf(ps, os, employee, paymentId).canApprove
        <==> IsCashier(employee) && OR.FindById(os, paymentId).Some? && Approvable(ps, OR.FindById(os, paymentId).value)
    ensures StockCheckOf(ps, os, employee, paymentId).canApprove ==> StockCheckOf(ps, os, employee, paymentId).message == AllInStock
  {
    if IsCashier(employee) && OR.FindById(os, paymentId).Some? {
      ValidationIffApprovable(ps, OR.FindById(os, paymentId).value);
    }
  }

  // ---------------------------------------------------------------- the handler's code

  /** `validateStockAvailability`: the guard, then the lines one by one. */
  method ValidateStockAvailability(db: Store, o: OrderRecord) returns (err: Option<string>)
    ensures err == StockValidation(db.products, o)
  {
    if IsBlank(o.productIds) || IsBlank(o.productQuantities) {
      return Some(InvalidOrderData);
    }
    var ids := Split(o.productIds, ',');
    var quantities := Split(o.productQuantities, ',');
    ReadTokens(o, ids, quantities);
    if |ids| != |quantities| {
      return Some(LengthMismatch);
    }
    err := ValidateLines(db, ids, quantities);
  }

  /** The loop of `validateStockAvailability`, which returns at the first line that fails. */
  method ValidateLines(db: Store, ids: seq<string>, quantities: seq<string>) returns (err: Option<string>)
    requires |ids| == |quantities|
    ensures err == ValidateFrom(db.products, ParsedLines(ids, quantities), 0)
  {
    ghost var ls := ParsedLines(ids, quantities);
    for i := 0 to |ids|
      invariant ValidateFrom(db.products, ls, i) == ValidateFrom(db.products, ls, 0)
    {
      var productId := ParseLong(Trim(ids[i]));
      var requested := ParseInt(Trim(quantities[i]));
      if productId.None? || requested.None? {
        return Some(BadLineFormat);
      }
      var product := PR.FindById(db.products, productId.value);
      if product.None? {
        return Some(ProductNotFound(productId.value));
      }
      var stock := product.value.stockQuantity;
      if stock.None? || stock.value <= 0 {
        return Some(OutOfStock(product.value.name));
      }
      if stock.value < requested.value {
        return Some(InsufficientStock(product.value.name, requested.value, stock.value));
      }
    }
    return None;
  }

  /** `reduceStockQuantities`: the guard, then the lines one by one. */
  method ReduceStockQuantities(db: Store, o: OrderRecord) returns (err: Option<string>)
    modifies db`products
    ensures Reduction(db.products, err) == StockReduction(old(db.products), o)
  {
    if IsBlank(o.productIds) || IsBlank(o.productQuantities) {
      return Some(InvalidOrderData);
    }
    var ids := Split(o.productIds, ',');
    var quantities := Split(o.productQuantities, ',');
    ReadTokens(o, ids, quantities);
    if |ids| != |quantities| {
      return Some(LengthMismatch);
    }
    err := ReduceLines(db, ids, quantities);
  }

  /** The loop of `reduceStockQuantities`: each line reads the product, subtracts and saves it before the next. */
  method ReduceLines(db: Store, ids: seq<string>, quantities: seq<string>) returns (err: Option<string>)
    requires |ids| == |quantities|
    modifies db`products
    ensures Reduction(db.products, err) == ReduceFrom(old(db.products), ParsedLines(ids, quantities), 0)
  {
    ghost var ls := ParsedLines(ids, quantities);
    for i := 0 to |ids|
      invariant ReduceFrom(db.products, ls, i) == ReduceFrom(old(db.products), ls, 0)
    {
      var productId := ParseLong(Trim(ids[i]));
      var ordered := ParseInt(Trim(quantities[i]));
      if productId.None? || ordered.None? {
        return Some(BadLineFormat);
      }
      var product := PR.FindById(db.products, productId.value);
      if product.None? {
        return Some(ProductNotFound(productId.value));
      }
      var newStock := SubInt32(StockOrZero(product.value), ordered.value);
      if newStock < 0 {
        return Some(NegativeInventory(product.value.name));
      }
      db.products := PR.Save(db.products, product.value.(stockQuantity := Some(newStock)));
    }
    return None;
  }

  /** `generateBill`: a new `Bill` entity, saved with the next key. */
  method GenerateBill(db: Store, o: OrderRecord, now: Time) returns (err: Option<string>)
    modifies db`bills, db`nextId
    ensures Billing(db.bills, db.nextId, err) == BillGeneration(db.products, old(db.bills), db.payments, o, old(db.nextId), now)
  {
    if HasBill(db.bills, o.paymentId) {
      return None;
    }
    var customerPayment := CPR.LatestActive(db.payments, o.username);
    if customerPayment.None? {
      return Some(NoPaymentDetails);
    }
    var productNames := RenderProductList(db.products, Some(o.productIds), false);
    var bill := new Bill(o.paymentId, o.paymentId, o.username, productNames, o.productQuantities, o.subtotal,
                         o.subtotal, customerPayment.value.bankName, customerPayment.value.accountNumber, now);
    var key := db.NewKey();
    bill.id := Some(key);
    db.bills := db.bills + [bill.Record()];
    return None;
  }

  /** `updatePaymentStatus`: the stored order is loaded, approved if asked, and saved with its new status. */
  method UpdatePaymentStatus(db: Store, employee: Option<EmployeeRecord>, paymentId: int, status: string, now: Time)
    returns (response: Response)
    modifies db`products, db`orders, db`bills, db`nextId
    ensures Outcome(Tables(db.products, db.orders, db.bills, db.nextId), response)
         == StatusUpdate(Tables(old(db.products), old(db.orders), old(db.bills), old(db.nextId)), db.payments,
                         employee, paymentId, status, now)
  {
    if employee.None? || employee.value.employeeType != CASHIER {
      return Refusal(Unauthorized);
    }
    var up := ToUpperCase(status);
    if !IsStatus(up) {
      return Refusal(InvalidStatus);
    }
    var row := OR.FindById(db.orders, paymentId);
    if row.None? {
      return Refusal(PaymentNotFound);
    }
    var order := new Order.Load(row.value);
    if up == "APPROVED" {
      response := ApproveOrder(db, order, up, now);
    } else {
      response := SaveStatus(db, order, up, now);
    }
  }

  /** The `APPROVED` branch of `updatePaymentStatus`: `validateStockAvailability` first. */
  method ApproveOrder(db: Store, order: Order, status: string, now: Time) returns (response: Response)
    requires order.Persisted()
    modifies db`products, db`orders, db`bills, db`nextId, order
    ensures Outcome(Tables(db.products, db.orders, db.bills, db.nextId), response)
         == Approval(Tables(old(db.products), old(db.orders), old(db.bills), old(db.nextId)), db.payments,
                     old(order.Record()), status, now)
  {
    var invalid := ValidateStockAvailability(db, order.Record());
    if invalid.Some? {
      return Refusal(invalid.value);
    }
    response := ReduceAndBill(db, order, status, now);
  }

  /** Then `reduceStockQuantities`. */
  method ReduceAndBill(db: Store, order: Order, status: string, now: Time) returns (response: Response)
    requires order.Persisted()
    modifies db`products, db`orders, db`bills, db`nextId, order
    ensures Outcome(Tables(db.products, db.orders, db.bills, db.nextId), response)
         == ReduceThenBill(Tables(old(db.products), old(db.orders), old(db.bills), old(db.nextId)), db.payments,
                           old(order.Record()), status, now)
  {
    var reduceError := ReduceStockQuantities(db, order.Record());
    if reduceError.Some? {
      return Refusal("Failed to update stock: " + reduceError.value);
    }
    response := BillAndSave(db, order, status, now);
  }

  /** Then `generateBill`, and the status write. */
  method BillAndSave(db: Store, order: Order, status: string, now: Time) returns (response: Response)
    requires order.Persisted()
    modifies db`orders, db`bills, db`nextId, order
    ensures Outcome(Tables(db.products, db.orders, db.bills, db.nextId), response)
         == BillThenWrite(Tables(db.products, old(db.orders), old(db.bills), old(db.nextId)), db.payments,
                          old(order.Record()), status, now)
  {
    var billError := GenerateBill(db, order.Record(), now);
    if billError.Some? {
      return Refusal("Failed to generate bill: " + billError.value);
    }
    response := SaveStatus(db, order, status, now);
  }

  /**
   * `setOrderStatus`, `setUpdatedAt` and `save`: the `@PreUpdate` callback restamps the entity,
   * and Bean Validation checks the row before it is written.
   */
  method SaveStatus(db: Store, order: Order, status: string, now: Time) returns (response: Response)
    requires order.Persisted()
    modifies db`orders, order
    ensures Outcome(Tables(db.products, db.orders, db.bills, db.nextId), response)
         == WriteStatus(Tables(db.products, old(db.orders), db.bills, db.nextId), old(order.Record()), status, now)
  {
    ghost var o := order.Record();
    order.SetOrderStatus(status);
    order.updatedAt := now;
    order.PreUpdate(now);
    var row := order.Record();
    assert row == o.(orderStatus := status, updatedAt := now);
    if !OrderConstraints(row.username, row.productIds, row.productQuantities, row.subtotal) {
      return Refusal(UpdateFailed);
    }
    db.orders := OR.Save(db.orders, row);
    return Response(true, UpdateSucceeded, Some(status));
  }

  /** `getStockDetailsForOrder`: an empty list unless the guard passes, then the lines one by one. */
  method GetStockDetailsForOrder(db: Store, o: OrderRecord) returns (details: seq<StockDetail>)
    ensures details == StockDetails(db.products, o)
  {
    if IsBlank(o.productIds) || IsBlank(o.productQuantities) {
      return [];
    }
    var ids := Split(o.productIds, ',');
    var quantities := Split(o.productQuantities, ',');
    ReadTokens(o, ids, quantities);
    if |ids| != |quantities| {
      return [];
    }
    details := DetailLines(db, ids, quantities);
  }

  /** The loop of `getStockDetailsForOrder`: one map per line that parses and names a stored product. */
  method DetailLines(db: Store, ids: seq<string>, quantities: seq<string>) returns (details: seq<StockDetail>)
    requires |ids| == |quantities|
    ensures details == DetailsUpTo(db.products, ParsedLines(ids, quantities), |ids|)
  {
    ghost var ls := ParsedLines(ids, quantities);
    details := [];
    for i := 0 to |ids|
      invariant details == DetailsUpTo(db.products, ls, i)
    {
      var entry := DetailEntry(db, ids[i], quantities[i]);
      details := details + entry;
    }
  }

  /** The body of that loop: the line's map, or nothing when it does not parse or names no product. */
  method DetailEntry(db: Store, idToken: string, quantityToken: string) returns (entry: seq<StockDetail>)
    ensures entry == DetailOf(db.products, ParseLine(idToken, quantityToken))
  {
    entry := [];
    var productId := ParseLong(Trim(idToken));
    var requested := ParseInt(Trim(quantityToken));
    if productId.Some? && requested.Some? {
      var product := PR.FindById(db.products, productId.value);
      if product.Some? {
        var p := product.value;
        var detail := StockDetail(productId.value, p.name, requested.value, StockOrZero(p),
                                  p.stockQuantity.None? || p.stockQuantity.value <= 0,
                                  p.stockQuantity.Some? && p.stockQuantity.value < requested.value);
        entry := [detail];
      }
    }
  }

  /** `checkStockAvailability`. */
  method CheckStockAvailability(db: Store, employee: Option<EmployeeRecord>, paymentId: int) returns (check: StockCheck)
    ensures check == StockCheckOf(db.products, db.orders, employee, paymentId)
  {
    if employee.None? || employee.value.employeeType != CASHIER {
      return StockCheck(false, false, Unauthorized, []);
    }
    var row := OR.FindById(db.orders, paymentId);
    if row.None? {
      return StockCheck(false, false, PaymentNotFound, []);
    }
    var invalid := ValidateStockAvailability(db, row.value);
    var details := GetStockDetailsForOrder(db, row.value);
    if invalid.None? {
      check := StockCheck(true, true, AllInStock, details);
    } else {
      check := StockCheck(true, false, invalid.value, details);
    }
  }
}

/**
 * `CartController`: checkout. A logged-in customer uploads a payment slip, enters bank details
 * and places an order; later they may fetch the bill of an approved order. Each JSON answer is
 * modelled by its `success` flag and `message` (and the new order's key, or the stored file's name).
 */
module Checkout {
  import opened Wrappers
  import opened JavaText
  import opened Money
  import opened Seqs
  import opened Orders
  import opened CustomerPayments
  import opened Bills
  import opened Customers
  import opened Sessions
  import opened Database
  import OR = OrderRepository
  import CPR = CustomerPaymentRepository

  /** A JSON answer: `success`, `message`, and the key of an order just placed. */
  datatype Reply = Reply(success: bool, message: string, paymentId: Option<int>)

  function Failure(message: string): Reply
  {
    Reply(false, message, None)
  }

  const NotLoggedIn: string := "User not logged in"
  const ProductIdsRequired: string := "Product IDs are required"
  const QuantitiesRequired: string := "Product quantities are required"
  const SubtotalRequired: string := "Subtotal is required"
  const BankNameRequired: string := "Bank name is required"
  const HolderRequired: string := "Account holder name is required"
  const AccountRequired: string := "Account number is required"
  const BadSubtotal: string := "Invalid subtotal format"
  const OrderPlaced: string := "Order placed successfully"
  const OrderFailed: string := "Failed to place order"
  const DetailsSaved: string := "Payment details saved successfully"
  const DetailsFailed: string := "Failed to save payment details"

  // ---------------------------------------------------------------------------------------------
  // Bank details

  /** `savePaymentDetails`'s checks: the first blank field of bank name, holder name and account number. */
  function BankDetailsError(bankName: string, accountHolderName: string, accountNumber: string): (e: Option<string>)
    ensures e.None? <==> !IsBlank(bankName) && !IsBlank(accountHolderName) && !IsBlank(accountNumber)
    ensures IsBlank(bankName) ==> e == Some(BankNameRequired)
    ensures !IsBlank(bankName) && IsBlank(accountHolderName) ==> e == Some(HolderRequired)
    ensures !IsBlank(bankName) && !IsBlank(accountHolderName) && IsBlank(accountNumber) ==> e == Some(AccountRequired)
  {
    if IsBlank(bankName) then Some(BankNameRequired)
    else if IsBlank(accountHolderName) then Some(HolderRequired)
    else if IsBlank(accountNumber) then Some(AccountRequired)
    else None
  }

  /** The bank-details row a checkout writes: the customer's name and the trimmed fields, active, stamped now. */
  function DetailsRow(id: int, username: string, bankName: string, accountHolderName: string,
                      accountNumber: string, now: Time): PaymentRecord
  {
    PaymentRecord(id, username, Trim(bankName), Trim(accountHolderName), Trim(accountNumber), now, now, true)
  }

  /** Whether the trimmed details pass the entity's Bean Validation, which `save` applies. */
  predicate DetailsStorable(username: string, bankName: string, accountHolderName: string, accountNumber: string)
  {
    PaymentConstraints(username, Trim(bankName), Trim(accountHolderName), Trim(accountNumber))
  }

  /** Inserts the customer's bank details, as `save` does when they pass validation. */
  method InsertDetails(db: Store, username: string, bankName: string, accountHolderName: string,
                       accountNumber: string, now: Time)
    modifies db`payments, db`nextId
    ensures db.payments == old(db.payments) + [DetailsRow(old(db.nextId), username, bankName, accountHolderName, accountNumber, now)]
    ensures db.nextId == old(db.nextId) + 1
  {
    var details := new CustomerPayment(username, Trim(bankName), Trim(accountHolderName), Trim(accountNumber), now);
    var id := db.NewKey();
    details.id := Some(id);
    db.payments := db.payments + [details.Record()];
  }

  /** The tables a checkout writes. */
  datatype Tables = Tables(payments: seq<PaymentRecord>, orders: seq<OrderRecord>, nextId: int)

  /** The store's tables as a value. */
  function TablesOf(db: Store): Tables
    reads db
  {
    Tables(db.payments, db.orders, db.nextId)
  }

  /** The bank details stored under the next key. */
  function WithDetails(t: Tables, username: string, bankName: string, accountHolderName: string,
                       accountNumber: string, now: Time): Tables
  {
    t.(payments := t.payments + [DetailsRow(t.nextId, username, bankName, accountHolderName, accountNumber, now)],
       nextId := t.nextId + 1)
  }

  /** What `savePaymentDetails` does to the tables and what it answers. */
  function SaveDetailsOutcome(customer: Option<Customer>, bankName: string, accountHolderName: string,
                              accountNumber: string, t: Tables, now: Time): (Tables, Reply)
  {
    if customer.None? then (t, Failure(NotLoggedIn))
    else if BankDetailsError(bankName, accountHolderName, accountNumber).Some? then
      (t, Failure(BankDetailsError(bankName, accountHolderName, accountNumber).value))
    else
      var username := customer.value.username;
      DetailsWrite(t, username, bankName, accountHolderName, accountNumber,
                   DetailsStorable(username, bankName, accountHolderName, accountNumber), now)
  }

  /** The `save` of `savePaymentDetails`, given whether the details pass validation. */
  function DetailsWrite(t: Tables, username: string, bankName: string, accountHolderName: string,
                        accountNumber: string, valid: bool, now: Time): (Tables, Reply)
  {
    if !valid then (t, Failure(DetailsFailed))
    else (WithDetails(t, username, bankName, accountHolderName, accountNumber, now), Reply(true, DetailsSaved, None))
  }

  /**
   * Bank details are stored only for a logged-in customer whose three fields are not blank, and
   * then as exactly one new active row holding the trimmed fields; every refusal stores nothing.
   */
  lemma SaveDetailsContract(customer: Option<Customer>, bankName: string, accountHolderName: string,
                            accountNumber: string, t: Tables, now: Time)
    ensures var (t', reply) := SaveDetailsOutcome(customer, bankName, accountHolderName, accountNumber, t, now);
      && (!reply.success <==> t' == t)
      && (reply.success <==>
            customer.Some? && !IsBlank(bankName) && !IsBlank(accountHolderName) && !IsBlank(accountNumber)
            && DetailsStorable(customer.value.username, bankName, accountHolderName, accountNumber))
      && (reply.success ==>
            && t'.orders == t.orders && |t'.payments| == |t.payments| + 1
            && t'.payments[..|t.payments|] == t.payments
            && var row := t'.payments[|t.payments|];
               row.username == customer.value.username && row.isActive
               && row.bankName == Trim(bankName) && row.accountNumber == Trim(accountNumber))
  {
    var (t', reply) := SaveDetailsOutcome(customer, bankName, accountHolderName, accountNumber, t, now);
    if reply.success {
      assert t'.payments[..|t.payments|] == t.payments;
    } else {
      assert t' == t;
    }
  }

  /** `savePaymentDetails`: checks the session and the fields, then stores the trimmed details. */
  method SavePaymentDetails(session: Session, db: Store, bankName: string, accountHolderName: string,
                            accountNumber: string, now: Time) returns (reply: Reply)
    modifies db`payments, db`nextId
    ensures (TablesOf(db), reply) == SaveDetailsOutcome(session.customer, bankName, accountHolderName, accountNumber, old(TablesOf(db)), now)
  {
    if session.customer.None? {
      return Failure(NotLoggedIn);
    }
    var error := BankDetailsError(bankName, accountHolderName, accountNumber);
    if error.Some? {
      return Failure(error.value);
    }
    var username := session.customer.value.username;
    var valid := DetailsStorable(username, bankName, accountHolderName, accountNumber);
    reply := StoreDetails(db, username, bankName, accountHolderName, accountNumber, valid, now);
  }

  /** The `save` of `savePaymentDetails`, refused when the details fail validation. */
  method StoreDetails(db: Store, username: string, bankName: string, accountHolderName: string,
                      accountNumber: string, valid: bool, now: Time) returns (reply: Reply)
    modifies db`payments, db`nextId
    ensures (TablesOf(db), reply) == DetailsWrite(old(TablesOf(db)), username, bankName, accountHolderName, accountNumber, valid, now)
  {
    if !valid {
      return Failure(DetailsFailed);
    }
    InsertDetails(db, username, bankName, accountHolderName, accountNumber, now);
    reply := Reply(true, DetailsSaved, None);
  }

  // ---------------------------------------------------------------------------------------------
  // Placing an order

  /** The request parameters of `/place-order`, all required. */
  datatype CheckoutForm = CheckoutForm(productIds: string, productQuantities: string, subtotal: string,
                                       payslipLocationPath: string, bankName: string,
                                       accountHolderName: string, accountNumber: string)

  /** The outcome of `placeOrder`'s checks: the message of the first that fails, or the parsed subtotal. */
  datatype FormCheck = Rejected(message: string) | Accepted(subtotal: Decimal)

  /**
   * `placeOrder`'s checks before any write, first failing one first: the six text fields in form
   * order, then the subtotal, which `new BigDecimal` parses without trimming it.
   */
  function CheckForm(form: CheckoutForm): FormCheck
  {
    if IsBlank(form.productIds) then Rejected(ProductIdsRequired)
    else if IsBlank(form.productQuantities) then Rejected(QuantitiesRequired)
    else if IsBlank(form.subtotal) then Rejected(SubtotalRequired)
    else if BankDetailsError(form.bankName, form.accountHolderName, form.accountNumber).Some? then
      Rejected(BankDetailsError(form.bankName, form.accountHolderName, form.accountNumber).value)
    else if ParseBigDecimal(form.subtotal).None? then Rejected(BadSubtotal)
    else Accepted(ParseBigDecimal(form.subtotal).value)
  }

  /** The checks of `placeOrder` in their order: the first failing one is the one reported. */
  lemma CheckFormOrder(form: CheckoutForm)
    ensures CheckForm(form).Accepted? <==>
      && !IsBlank(form.productIds) && !IsBlank(form.productQuantities) && !IsBlank(form.subtotal)
      && BankDetailsError(form.bankName, form.accountHolderName, form.accountNumber).None?
      && ParseBigDecimal(form.subtotal).Some?
    ensures CheckForm(form).Accepted? ==> ParseBigDecimal(form.subtotal) == Some(CheckForm(form).subtotal)
    ensures IsBlank(form.productIds) ==> CheckForm(form) == Rejected(ProductIdsRequired)
    ensures !IsBlank(form.productIds) && IsBlank(form.productQuantities) ==> CheckForm(form) == Rejected(QuantitiesRequired)
    ensures !IsBlank(form.productIds) && !IsBlank(form.productQuantities) && IsBlank(form.subtotal) ==>
      CheckForm(form) == Rejected(SubtotalRequired)
    ensures !IsBlank(form.productIds) && !IsBlank(form.productQuantities) && !IsBlank(form.subtotal) ==>
      (BankDetailsError(form.bankName, form.accountHolderName, form.accountNumber).Some? ==>
         CheckForm(form) == Rejected(BankDetailsError(form.bankName, form.accountHolderName, form.accountNumber).value))
  {
  }

  /** The order row a checkout writes: PENDING, with the trimmed lists and the parsed subtotal. */
  function OrderRow(id: int, username: string, form: CheckoutForm, subtotal: Decimal, now: Time): OrderRecord
  {
    OrderRecord(id, username, Trim(form.productIds), Trim(form.productQuantities), subtotal,
                Some(Trim(form.payslipLocationPath)), "PENDING", now, now)
  }

  /** Inserts the new order, as `save` does when it passes validation. */
  method InsertOrder(db: Store, username: string, form: CheckoutForm, subtotal: Decimal, now: Time) returns (id: int)
    modifies db`orders, db`nextId
    ensures id == old(db.nextId)
    ensures db.orders == old(db.orders) + [OrderRow(id, username, form, subtotal, now)]
    ensures db.nextId == old(db.nextId) + 1
  {
    var order := new Order(username, Trim(form.productIds), Trim(form.productQuantities), subtotal,
                           Some(Trim(form.payslipLocationPath)), now);
    id := db.NewKey();
    order.paymentId := Some(id);
    db.orders := db.orders + [order.Record()];
  }

  /**
   * `placeOrder` once its checks pass, given whether the bank details and then the order pass the
   * validation `save` applies. The bank details are saved first and the order second, with no
   * transaction around the two: an order that then fails validation (a negative subtotal, say)
   * leaves the bank details stored.
   */
  function WriteOutcome(username: string, form: CheckoutForm, subtotal: Decimal, detailsValid: bool,
                        orderValid: bool, t: Tables, now: Time): (Tables, Reply)
  {
    if !detailsValid then (t, Failure(OrderFailed))
    else
      var t1 := WithDetails(t, username, form.bankName, form.accountHolderName, form.accountNumber, now);
      if !orderValid then (t1, Failure(OrderFailed))
      else
        (t1.(orders := t1.orders + [OrderRow(t1.nextId, username, form, subtotal, now)], nextId := t1.nextId + 1),
         Reply(true, OrderPlaced, Some(t1.nextId)))
  }

  /** Whether the order `placeOrder` builds passes its entity's validation. */
  predicate OrderStorable(username: string, form: CheckoutForm, subtotal: Decimal)
  {
    OrderConstraints(username, Trim(form.productIds), Trim(form.productQuantities), subtotal)
  }

  /** What `placeOrder` does to the tables and what it answers. Neither the list lengths nor the stock are checked. */
  function PlaceOrderOutcome(customer: Option<Customer>, form: CheckoutForm, t: Tables, now: Time): (Tables, Reply)
  {
    if customer.None? then (t, Failure(NotLoggedIn))
    else if CheckForm(form).Rejected? then (t, Failure(CheckForm(form).message))
    else
      var username := customer.value.username;
      var subtotal := CheckForm(form).subtotal;
      WriteOutcome(username, form, subtotal, DetailsStorable(username, form.bankName, form.accountHolderName, form.accountNumber),
                   OrderStorable(username, form, subtotal), t, now)
  }

  /**
   * Without a customer, or with a failing check, nothing is written. A successful order adds
   * one bank-details row and one PENDING order of that customer holding the trimmed lists, under
   * the key the answer reports; the order table changes only then.
   */
  lemma PlaceOrderContract(customer: Option<Customer>, form: CheckoutForm, t: Tables, now: Time)
    ensures var (t', reply) := PlaceOrderOutcome(customer, form, t, now);
      && ((customer.None? || CheckForm(form).Rejected?) ==> t' == t && !reply.success)
      && (reply.success <==> t'.orders != t.orders)
      && (reply.success ==>
            && customer.Some? && CheckForm(form).Accepted?
            && |t'.payments| == |t.payments| + 1 && t'.payments[..|t.payments|] == t.payments
            && |t'.orders| == |t.orders| + 1 && t'.orders[..|t.orders|] == t.orders
            && var o := t'.orders[|t.orders|];
               && reply.paymentId == Some(o.paymentId)
               && o.username == customer.value.username && o.orderStatus == "PENDING"
               && o.productIds == Trim(form.productIds) && o.productQuantities == Trim(form.productQuantities)
               && Some(o.subtotal) == ParseBigDecimal(form.subtotal))
  {
    CheckFormOrder(form);
    if customer.Some? && CheckForm(form).Accepted? {
      var username := customer.value.username;
      var subtotal := CheckForm(form).subtotal;
      WriteContract(username, form, subtotal, DetailsStorable(username, form.bankName, form.accountHolderName, form.accountNumber),
                    OrderStorable(username, form, subtotal), t, now);
    }
  }

  /** The two saves add the bank details and then the order, each as one row appended. */
  lemma WriteContract(username: string, form: CheckoutForm, subtotal: Decimal, detailsValid: bool,
                      orderValid: bool, t: Tables, now: Time)
    ensures var (t', reply) := WriteOutcome(username, form, subtotal, detailsValid, orderValid, t, now);
      && (reply.success <==> detailsValid && orderValid)
      && (reply.success <==> t'.orders != t.orders)
      && (!reply.success ==> reply.message == OrderFailed && t'.orders == t.orders)
      && (detailsValid ==> |t'.payments| == |t.payments| + 1 && t'.payments[..|t.payments|] == t.payments)
      && (!detailsValid ==> t' == t)
      && (reply.success ==>
            && |t'.orders| == |t.orders| + 1 && t'.orders[..|t.orders|] == t.orders
            && reply.paymentId == Some(t'.orders[|t.orders|].paymentId)
            && t'.orders[|t.orders|] == OrderRow(t.nextId + 1, username, form, subtotal, now))
  {
    var (t', reply) := WriteOutcome(username, form, subtotal, detailsValid, orderValid, t, now);
    if detailsValid {
      assert t'.payments[..|t.payments|] == t.payments;
    }
    if reply.success {
      assert t'.orders[..|t.orders|] == t.orders;
      assert |t'.orders| != |t.orders|;
    }
  }

  /**
   * The partial write: bank details that pass validation are stored even when the order that
   * follows is refused by its own validation, for instance for a negative subtotal.
   */
  lemma RefusedOrderKeepsBankDetails(customer: Customer, form: CheckoutForm, t: Tables, now: Time)
    requires CheckForm(form).Accepted? && CompareTo(CheckForm(form).subtotal, Zero) < 0
    requires DetailsStorable(customer.username, form.bankName, form.accountHolderName, form.accountNumber)
    ensures var (t', reply) := PlaceOrderOutcome(Some(customer), form, t, now);
      && !reply.success && reply.message == OrderFailed
      && t'.orders == t.orders && |t'.payments| == |t.payments| + 1
  {
  }

  /** `placeOrder`: checks the session and the form, then writes as `WriteOrder` does. */
  method PlaceOrder(session: Session, db: Store, form: CheckoutForm, now: Time) returns (reply: Reply)
    modifies db`payments, db`orders, db`nextId
    ensures (TablesOf(db), reply) == PlaceOrderOutcome(session.customer, form, old(TablesOf(db)), now)
  {
    if session.customer.None? {
      return Failure(NotLoggedIn);
    }
    var check := CheckForm(form);
    if check.Rejected? {
      return Failure(check.message);
    }
    reply := SubmitOrder(db, session.customer.value.username, form, check.subtotal, now);
  }

  /** The validation and the two saves of `placeOrder` for a form that passed its checks. */
  method SubmitOrder(db: Store, username: string, form: CheckoutForm, subtotal: Decimal, now: Time) returns (reply: Reply)
    modifies db`payments, db`orders, db`nextId
    ensures (TablesOf(db), reply)
         == WriteOutcome(username, form, subtotal, DetailsStorable(username, form.bankName, form.accountHolderName, form.accountNumber),
                         OrderStorable(username, form, subtotal), old(TablesOf(db)), now)
  {
    var detailsValid := DetailsStorable(username, form.bankName, form.accountHolderName, form.accountNumber);
    var orderValid := OrderStorable(username, form, subtotal);
    reply := WriteOrder(db, username, form, subtotal, detailsValid, orderValid, now);
  }

  /** The two saves of `placeOrder`, each refused when its entity fails validation. */
  method WriteOrder(db: Store, username: string, form: CheckoutForm, subtotal: Decimal, detailsValid: bool,
                    orderValid: bool, now: Time) returns (reply: Reply)
    modifies db`payments, db`orders, db`nextId
    ensures (TablesOf(db), reply) == WriteOutcome(username, form, subtotal, detailsValid, orderValid, old(TablesOf(db)), now)
  {
    if !detailsValid {
      return Failure(OrderFailed);
    }
    InsertDetails(db, username, form.bankName, form.accountHolderName, form.accountNumber, now);
    if !orderValid {
      return Failure(OrderFailed);
    }
    var id := InsertOrder(db, username, form, subtotal, now);
    reply := Reply(true, OrderPlaced, Some(id));
  }

  /** A placed order is PENDING, belongs to the customer and keeps the lists exactly as trimmed. */
  lemma PlacedOrderIsPending(id: int, username: string, form: CheckoutForm, subtotal: Decimal, now: Time)
    ensures var o := OrderRow(id, username, form, subtotal, now);
      && o.orderStatus == "PENDING" && o.username == username
      && Trim(o.productIds) == o.productIds && Trim(o.productQuantities) == o.productQuantities
  {
    TrimIdempotent(form.productIds);
    TrimIdempotent(form.productQuantities);
  }

  // ---------------------------------------------------------------------------------------------
  // Bills

  /** `billRepository.findByPaymentId`. */
  function FindBillByPaymentId(bills: seq<BillRecord>, paymentId: int): (r: Option<BillRecord>)
    ensures r.Some? ==> r.value in bills && r.value.paymentId == paymentId
    ensures r.None? <==> forall k :: 0 <= k < |bills| ==> bills[k].paymentId != paymentId
  {
    FindFirst(bills, (b: BillRecord) => b.paymentId == paymentId)
  }

  /** Why a bill request is refused, or the bill it may see. */
  datatype BillAccess = NoCustomer | OrderMissing | NotOwner | NotApproved | BillMissing | Granted(bill: BillRecord)

  /** The guards `getOrderBill` and `downloadBillPdf` share, in their order. */
  function BillAccessFor(customer: Option<Customer>, os: seq<OrderRecord>, bills: seq<BillRecord>,
                         paymentId: int): BillAccess
  {
    if customer.None? then NoCustomer
    else match OR.FindById(os, paymentId)
      case None => OrderMissing
      case Some(o) =>
        if o.username != customer.value.username then NotOwner
        else if o.orderStatus != "APPROVED" then NotApproved
        else match FindBillByPaymentId(bills, paymentId)
          case None => BillMissing
          case Some(b) => Granted(b)
  }

  /**
   * A bill is handed out only to the logged-in owner of an APPROVED order, and only the bill of
   * that very payment; every such request with a bill on file is granted.
   */
  lemma BillOnlyForApprovedOwner(customer: Option<Customer>, os: seq<OrderRecord>, bills: seq<BillRecord>, paymentId: int)
    ensures BillAccessFor(customer, os, bills, paymentId).Granted? <==>
      && customer.Some? && OR.FindById(os, paymentId).Some?
      && OR.FindById(os, paymentId).value.username == customer.value.username
      && OR.FindById(os, paymentId).value.orderStatus == "APPROVED"
      && exists k :: 0 <= k < |bills| && bills[k].paymentId == paymentId
    ensures BillAccessFor(customer, os, bills, paymentId).Granted? ==>
      var b := BillAccessFor(customer, os, bills, paymentId).bill;
      b in bills && b.paymentId == paymentId
  {
  }

  /** The `success`/`message` of `getOrderBill`; a granted bill shows only the masked account number. */
  function OrderBillReply(access: BillAccess): (r: (bool, string, Option<string>))
    ensures r.0 <==> access.Granted?
    ensures access.Granted? ==> r.2 == MaskedAccountNumber(Some(access.bill.bankAccountNumber))
  {
    match access
    case NoCustomer => (false, NotLoggedIn, None)
    case OrderMissing => (false, "Order not found", None)
    case NotOwner => (false, "Unauthorized access", None)
    case NotApproved => (false, "Bill not available for non-approved orders", None)
    case BillMissing => (false, "Bill not found", None)
    case Granted(b) => (true, "Bill retrieved", MaskedAccountNumber(Some(b.bankAccountNumber)))
  }

  /** `downloadBillPdf`'s HTTP status for each refusal, and the attachment's name for a granted bill. */
  function DownloadBill(access: BillAccess): (r: (int, Option<string>))
    ensures r.0 == 200 <==> access.Granted?
    ensures r.1.Some? <==> access.Granted?
  {
    match access
    case NoCustomer => (401, None)
    case OrderMissing => (404, None)
    case NotOwner => (403, None)
    case NotApproved => (400, None)
    case BillMissing => (404, None)
    case Granted(b) => (200, Some("bill_" + IntText(b.id) + ".pdf"))
  }

  // ---------------------------------------------------------------------------------------------
  // The payment slip

  /** What an uploaded file reports about itself. */
  datatype Upload = Upload(isEmpty: bool, contentType: Option<string>, size: int, originalFilename: Option<string>)

  /** The answer to an upload: refused with a message, stored under a name, or an uncaught exception. */
  datatype UploadReply = Refused(message: string) | Stored(filename: string) | Crashed

  const MaxSlipSize: int := 10 * 1024 * 1024
  const AllowedTypes: set<string> := {"image/png", "image/jpeg", "application/pdf"}

  /** The index of the last `c` in `s`, or -1 (`lastIndexOf`). */
  function LastIndexOf(s: string, c: char): (i: int)
    ensures -1 <= i < |s|
    ensures i >= 0 ==> s[i] == c && forall j :: i < j < |s| ==> s[j] != c
    ensures i == -1 ==> forall j :: 0 <= j < |s| ==> s[j] != c
  {
    if s == [] then -1
    else if s[|s| - 1] == c then |s| - 1
    else LastIndexOf(s[..|s| - 1], c)
  }

  /** `substring(lastIndexOf("."))`: the last `.` and what follows it, a suffix of the name. */
  function Extension(name: string): (ext: string)
    requires LastIndexOf(name, '.') >= 0
    ensures |ext| > 0 && ext[0] == '.' && forall j :: 0 < j < |ext| ==> ext[j] != '.'
    ensures |ext| <= |name| && name == name[..|name| - |ext|] + ext
  {
    name[LastIndexOf(name, '.')..]
  }

  /**
   * `uploadPaymentSlip`. The random UUID is the parameter `uuid`, and whether the write succeeds
   * is `written`. A file name with no `.` (or none at all) makes `substring` throw an exception the
   * handler does not catch.
   */
  function UploadSlip(customer: Option<Customer>, file: Upload, uuid: string, written: bool): (r: UploadReply)
    ensures r.Stored? ==>
      && customer.Some? && !file.isEmpty && file.contentType.Some? && file.contentType.value in AllowedTypes
      && file.size <= MaxSlipSize && written
      && file.originalFilename.Some? && LastIndexOf(file.originalFilename.value, '.') >= 0
      && r.filename == uuid + "_" + customer.value.username + Extension(file.originalFilename.value)
    ensures r.Crashed? <==>
      && customer.Some? && !file.isEmpty && file.contentType.Some? && file.contentType.value in AllowedTypes
      && file.size <= MaxSlipSize
      && (file.originalFilename.None? || LastIndexOf(file.originalFilename.value, '.') < 0)
  {
    if customer.None? then Refused(NotLoggedIn)
    else if file.isEmpty then Refused("No file uploaded")
    else if file.contentType.None? || file.contentType.value !in AllowedTypes then
      Refused("Invalid file type. Only PNG, JPG, and PDF files are allowed")
    else if file.size > MaxSlipSize then Refused("File size must be less than 10MB")
    else if file.originalFilename.None? || LastIndexOf(file.originalFilename.value, '.') < 0 then Crashed
    else
      if !written then Refused("Failed to upload file")
      else Stored(uuid + "_" + customer.value.username + Extension(file.originalFilename.value))
  }

  // ---------------------------------------------------------------------------------------------
  // The checkout pages and the saved details

  /** `billingPage`, `paymentPage` and `reviewPage`: the page for a customer, the login page (coming back here) for a visitor. */
  function CheckoutPage(customer: Option<Customer>, page: string): (view: string)
    ensures customer.Some? <==> view == page
  {
    if customer.None? then "redirect:/login?returnUrl=/" + page else page
  }

  /** `getCustomerPaymentDetails`: the newest active bank details, if the customer has any. */
  function CustomerPaymentDetails(customer: Option<Customer>, payments: seq<PaymentRecord>): (r: (bool, Option<PaymentRecord>))
    ensures r.0 <==> customer.Some?
    ensures r.1.Some? ==>
      && customer.Some? && r.1.value in payments && r.1.value.username == customer.value.username && r.1.value.isActive
      && forall p :: p in payments && p.username == customer.value.username && p.isActive ==> p.createdAt <= r.1.value.createdAt
    ensures customer.Some? && r.1.None? ==> !CPR.ExistsByUsernameAndIsActiveTrue(payments, customer.value.username)
  {
    if customer.None? then (false, None)
    else
      CPR.LatestActiveIsNewest(payments, customer.value.username);
      (true, CPR.LatestActive(payments, customer.value.username))
  }
}

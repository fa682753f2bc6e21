# SmartCart, modelled in Dafny

SmartCart is a Spring Boot grocery shop. Customers sign up, log in, browse and search the
catalogue, and place an order. Paying means storing bank details and uploading a payment slip.
A cashier approves or declines each order. Approval checks and reduces stock and writes a masked
bill. A delivery coordinator assigns approved orders to couriers and follows each delivery through
its states. A store manager maintains the catalogue. On start-up, empty tables are seeded with
sample products and staff accounts.

This project models that core in Dafny:

- **The database.** One `Database.Store` object holds every table as a sequence of rows, plus the
  key counter that hands out fresh identities. Each service and controller action is a method
  that changes only the tables its `modifies` clause names.
- **Entities.** Each JPA entity the services update in place (`Order`, `Bill`,
  `CustomerPayment`, `Employee`, `DeliveryPerson`, `DeliveryAssignment`) is a class with
  the Java fields, constructors and setters. Its persisted row is a datatype, and each class has a
  `Record()` snapshot of that row. The Bean Validation annotations on these entities are
  predicates on the rows. The model checks them where they can refuse a save: orders, payment details and couriers.
- **Repositories.** The Spring Data query methods are functions over those sequences. Each one's
  contract states which rows it returns: exactly those meeting the condition in its derived name
  or JPQL query. Where the query has an `ORDER BY`, the contract also states that the result is
  sorted that way.
- **Java library behaviour.** The behaviour the code relies on is written out:
  - `String.trim`, `String.split(",")` (trailing empty strings dropped), `Long.parseLong` and
    `Integer.parseInt` (range-checked, over ASCII digits);
  - 32-bit wrap-around of `int` subtraction;
  - `BigDecimal` parsing (ASCII digits) and `compareTo`;
  - ASCII case folding;
  - SQL `LIKE`, with `%` and `_` as wildcards and a backslash as escape, for the three
    hand-written queries that bind an unescaped term into `%term%`.
- **The approval flow.** It is modelled step by step:
  - validation of the order's product and quantity lists against the stock;
  - the loop that reduces stock;
  - bill generation;
  - the final status write.
  Lemmas show that a refused approval changes nothing. They also cover what survives when a later
  step fails.
- **Delivery assignments.** The assignment service's transitions are proved against a state
  machine. `DELIVERED` is reachable only through `PICKED_UP`, and a refused transition changes
  nothing.

Where a Java method loops and mutates, the Dafny method loops too and carries the loop's
invariants. Examples are the stock-reduction loop, the `StringBuilder` renderers, the stock-status
map and the stock seeding. Each method's `ensures` ties its result or new state to a function of
its inputs. Lemmas about those functions state what the code promises.

Paths below are relative to the repository root. Line numbers refer to the Java sources.

## Model

| member | source | states |
|---|---|---|
| PaymentApproval.ReadLines | src/main/java/com/group35/smartcart/controller/EmployeeController.java:572-584 | a blank id or quantity string is "Invalid order data"; otherwise the lines are the two `split(",")` results, which must have the same length or the order is mismatched |
| PaymentApproval.ParseLine | src/main/java/com/group35/smartcart/controller/EmployeeController.java:588-589 | a line parses exactly when its trimmed id is a `long` and its trimmed quantity an `int` |
| PaymentApproval.ParsedLines | src/main/java/com/group35/smartcart/controller/EmployeeController.java:586-589 | one parse result per token pair, position by position |
| PaymentApproval.ReadTokens | src/main/java/com/group35/smartcart/controller/EmployeeController.java:570-584 | for non-blank strings: unequal split lengths are a mismatch, equal ones give the parsed token pairs |
| PaymentApproval.LineErrorIffUnacceptable | src/main/java/com/group35/smartcart/controller/EmployeeController.java:586-606 | a line yields no message exactly when it parses and names a stored product whose stock is present, positive and at least the quantity |
| PaymentApproval.OutOfStockReportedFirst | src/main/java/com/group35/smartcart/controller/EmployeeController.java:594-600 | a product with a null or non-positive stock is reported out of stock whatever quantity was requested |
| PaymentApproval.ValidateFromIff | src/main/java/com/group35/smartcart/controller/EmployeeController.java:586-609 | the loop from line `i` on returns null exactly when every remaining line is acceptable |
| PaymentApproval.ValidationIffApprovable | src/main/java/com/group35/smartcart/controller/EmployeeController.java:569-615 | `validateStockAvailability` returns null exactly when both strings are non-blank, the split lengths agree and every line is acceptable |
| PaymentApproval.ValidationReportsFirstFailure | src/main/java/com/group35/smartcart/controller/EmployeeController.java:586-607 | a failed validation returns the message of the first unacceptable line |
| PaymentApproval.ReduceFromKeepsStocksNonNegative | src/main/java/com/group35/smartcart/controller/EmployeeController.java:478-502 | the reduction loop stores no negative stock, whatever the lines |
| PaymentApproval.ReductionKeepsStocksNonNegative | src/main/java/com/group35/smartcart/controller/EmployeeController.java:461-510 | `reduceStockQuantities` keeps every stock non-negative thanks to its `newStock < 0` check |
| PaymentApproval.ReduceFromExact | src/main/java/com/group35/smartcart/controller/EmployeeController.java:478-502 | with distinct product ids, non-negative quantities and enough stock, each line takes exactly its quantity off its product and nothing else changes |
| PaymentApproval.ApprovedReductionIsExact | src/main/java/com/group35/smartcart/controller/EmployeeController.java:328-341 | after a passed validation with distinct ids and non-negative quantities, the reduction succeeds and is exact line by line |
| PaymentApproval.DuplicateIdsPassValidation | src/main/java/com/group35/smartcart/controller/EmployeeController.java:586-607 | two lines of 3 for a product holding 5 both pass validation, and the reduction then fails on the second line after saving the first |
| PaymentApproval.NegativeQuantityRaisesStock | src/main/java/com/group35/smartcart/controller/EmployeeController.java:486-494 | a quantity of -3 passes validation and the reduction raises the stock from 5 to 8 (the validation check it passes is line 597) |
| PaymentApproval.SmallestQuantityWrapsAround | src/main/java/com/group35/smartcart/controller/EmployeeController.java:486-491 | the 32-bit subtraction `1 - (-2147483648)` wraps negative, so the reduction stops with the negative-inventory message after validation passed |
| PaymentApproval.BillGenerationFailsIff | src/main/java/com/group35/smartcart/controller/EmployeeController.java:414-427 | generation fails exactly when the payment has no bill and its customer has no active bank details; a failure writes nothing |
| PaymentApproval.GeneratedBillCopiesOrder | src/main/java/com/group35/smartcart/controller/EmployeeController.java:429-447 | the one new bill has payment id and order id equal to the order's payment id, subtotal and total equal to its subtotal, the quantities verbatim and the newest active bank details |
| PaymentApproval.BillGenerationIdempotent | src/main/java/com/group35/smartcart/controller/EmployeeController.java:416-419 | once generation succeeded the payment has a bill, and generating again changes nothing |
| PaymentApproval.BillGenerationKeepsBillsUnique | src/main/java/com/group35/smartcart/controller/EmployeeController.java:414-448 | generation keeps at most one bill per payment id |
| PaymentApproval.WriteStatus | src/main/java/com/group35/smartcart/controller/EmployeeController.java:353-360 | the status write changes only the order, to the upper-cased status with a new `updatedAt`; a row failing validation is a failed update with nothing written |
| PaymentApproval.Approval | src/main/java/com/group35/smartcart/controller/EmployeeController.java:328-350 | the APPROVED branch leaves the orders alone on any failure, and on success saves the order with the new status |
| PaymentApproval.ReduceThenBill | src/main/java/com/group35/smartcart/controller/EmployeeController.java:337-350 | after validation, a failure of reduction or billing leaves the orders unchanged; success saves the status |
| PaymentApproval.BillThenWrite | src/main/java/com/group35/smartcart/controller/EmployeeController.java:345-355 | billing never changes the products; a failure leaves the orders unchanged |
| PaymentApproval.StatusUpdate | src/main/java/com/group35/smartcart/controller/EmployeeController.java:303-371 | a missing or non-cashier employee, or a status outside PENDING/APPROVED/DECLINED after upper-casing, changes nothing; only APPROVED touches stock and bills; success saves exactly the found order with the upper-cased status |
| PaymentApproval.StatusIsStored | src/main/java/com/group35/smartcart/controller/EmployeeController.java:353-359 | a successful update stores the upper-cased status on that order and leaves every other order as it was |
| PaymentApproval.FailedValidationWritesNothing | src/main/java/com/group35/smartcart/controller/EmployeeController.java:328-334 | an order that fails validation is refused with the validation message, and no table changes |
| PaymentApproval.BillFailureKeepsReducedStock | src/main/java/com/group35/smartcart/controller/EmployeeController.java:337-350 | a payment with no bill and no active bank details ends with the stock reduced, no bill and the old status |
| PaymentApproval.ApprovalKeepsReduction | src/main/java/com/group35/smartcart/controller/EmployeeController.java:337-350 | once validation passes, the product table is the reduction's whatever billing and the status write do |
| PaymentApproval.ReapprovalReducesAgain | src/main/java/com/group35/smartcart/controller/EmployeeController.java:328-343 | approving an order that is already APPROVED reduces its stock a second time |
| PaymentApproval.ApprovalKeepsInvariants | src/main/java/com/group35/smartcart/controller/EmployeeController.java:328-350 | the APPROVED branch keeps every stock non-negative and one bill per payment |
| PaymentApproval.StatusUpdateKeepsInvariants | src/main/java/com/group35/smartcart/controller/EmployeeController.java:303-371 | every status update preserves non-negative stock and one bill per payment |
| PaymentApproval.ApprovalLeavesBill | src/main/java/com/group35/smartcart/controller/EmployeeController.java:345-359 | a successful approval leaves the payment with a bill |
| PaymentApproval.FlaggedIffUnacceptable | src/main/java/com/group35/smartcart/controller/EmployeeController.java:549-600 | a line's detail is flagged out of stock or insufficient exactly when that line fails validation |
| PaymentApproval.DetailsUpToAllFound | src/main/java/com/group35/smartcart/controller/EmployeeController.java:536-557 | when every line parses and names a stored product, there is one detail per line, in order |
| PaymentApproval.NoFlagsIffApprovable | src/main/java/com/group35/smartcart/controller/EmployeeController.java:536-607 | for such orders, approval would pass exactly when no detail is flagged |
| PaymentApproval.CanApproveIffApprovable | src/main/java/com/group35/smartcart/controller/EmployeeController.java:630-650 | `canApprove` is true exactly when validation passes |
| PaymentApproval.ValidateStockAvailability | src/main/java/com/group35/smartcart/controller/EmployeeController.java:569-615 | the method returns the validation function's message |
| PaymentApproval.ValidateLines | src/main/java/com/group35/smartcart/controller/EmployeeController.java:586-609 | the loop returns the message of the first failing line, or null |
| PaymentApproval.ReduceStockQuantities | src/main/java/com/group35/smartcart/controller/EmployeeController.java:461-510 | the method leaves the products and returns the error as the reduction function says |
| PaymentApproval.ReduceLines | src/main/java/com/group35/smartcart/controller/EmployeeController.java:478-504 | the loop saves each line's product before the next line, and stops at the first failure with the earlier lines saved |
| PaymentApproval.GenerateBill | src/main/java/com/group35/smartcart/controller/EmployeeController.java:414-454 | the method writes the bills and the key counter as the generation function says |
| PaymentApproval.UpdatePaymentStatus | src/main/java/com/group35/smartcart/controller/EmployeeController.java:303-371 | the handler leaves the tables and answers as `StatusUpdate` says |
| PaymentApproval.ApproveOrder | src/main/java/com/group35/smartcart/controller/EmployeeController.java:328-334 | validation first, then the later steps, as `Approval` says |
| PaymentApproval.ReduceAndBill | src/main/java/com/group35/smartcart/controller/EmployeeController.java:337-342 | reduction, then the later steps, as `ReduceThenBill` says |
| PaymentApproval.BillAndSave | src/main/java/com/group35/smartcart/controller/EmployeeController.java:345-350 | billing, then the status write, as `BillThenWrite` says |
| PaymentApproval.SaveStatus | src/main/java/com/group35/smartcart/controller/EmployeeController.java:353-359 | the status write as `WriteStatus` says |
| PaymentApproval.GetStockDetailsForOrder | src/main/java/com/group35/smartcart/controller/EmployeeController.java:517-562 | an empty list on a blank or mismatched order, otherwise the details of the lines |
| PaymentApproval.DetailLines | src/main/java/com/group35/smartcart/controller/EmployeeController.java:536-557 | one detail per line that parses and names a stored product, in order |
| PaymentApproval.DetailEntry | src/main/java/com/group35/smartcart/controller/EmployeeController.java:537-556 | a detail with the stock shown as 0 when null, out of stock iff null or non-positive, insufficient iff non-null and below the request |
| PaymentApproval.CheckStockAvailability | src/main/java/com/group35/smartcart/controller/EmployeeController.java:620-660 | the handler answers as the check function says: unauthorized, not found, or the details with `canApprove` |
| CustomerAuth.LoginCustomer | src/main/java/com/group35/smartcart/controller/AuthController.java:40-50 | an admitted customer is stored, has that username, is active and has exactly the typed password |
| CustomerAuth.LoginSucceedsIff | src/main/java/com/group35/smartcart/controller/AuthController.java:40-50 | with unique usernames, a login succeeds exactly when an active account has that username and that very password |
| CustomerAuth.EmptyReturnUrl | src/main/java/com/group35/smartcart/controller/AuthController.java:55-67 | an empty return address sends a successful login to `/shopping`, and a failed one to `/login?returnUrl=` |
| CustomerAuth.LoginProcess | src/main/java/com/group35/smartcart/controller/AuthController.java:31-68 | the answer is `LoginPage`: the return address if non-empty, else the shop, on success; the login page with `?returnUrl=` whenever one was sent, on failure; only success sets the session customer |
| CustomerAuth.SignupErrors | src/main/java/com/group35/smartcart/controller/AuthController.java:86-98 | no errors exactly when the passwords match and neither the username nor the e-mail is taken; every failing check contributes one error |
| CustomerAuth.SignupKeepsUsernamesUnique | src/main/java/com/group35/smartcart/controller/AuthController.java:91-108 | a sign-up that passes the checks keeps usernames unique |
| CustomerAuth.SignupProcess | src/main/java/com/group35/smartcart/controller/AuthController.java:79-115 | the errors are all of `SignupErrors`; on any error the form is shown again and nothing is saved; otherwise the account is appended and the browser sent to the login page |
| CustomerAuth.Logout | src/main/java/com/group35/smartcart/controller/AuthController.java:118-123 | only the session customer is cleared; the answer is the home redirect with its message |
| ProductCatalogue.ProductsPage | src/main/java/com/group35/smartcart/controller/ProductController.java:22-50 | a non-blank search term, trimmed, wins; otherwise a non-empty category is matched exactly; otherwise every product; the listing is always drawn from the catalogue in its order |
| ProductCatalogue.RelatedProducts | src/main/java/com/group35/smartcart/controller/ProductController.java:100-105 | at most four products, each of the same category and a different id; fewer than four only when there are no more such products |
| ProductCatalogue.ProductViewPage | src/main/java/com/group35/smartcart/controller/ProductController.java:89-114 | an unknown id sends the visitor back to shopping; otherwise the product with that id and its related products, which never include itself |
| ProductCatalogue.StatusOf | src/main/java/com/group35/smartcart/controller/ProductController.java:126-142 | "Available" exactly when the product is in stock; an unknown id is "Unknown Product" with stock 0 and not in stock; a known one reports its own name and stock |
| ProductCatalogue.GetStockStatus | src/main/java/com/group35/smartcart/controller/ProductController.java:119-143 | the loop puts one entry per distinct requested id and no other, each the status of that id |
| ProductManagement.AuthorizedIffStoreManager | src/main/java/com/group35/smartcart/controller/ProductManagementController.java:26-29 | comparing the role's name with "STORE_MANAGER" admits exactly the store manager |
| ProductManagement.GetCategories | src/main/java/com/group35/smartcart/controller/ProductManagementController.java:32-44 | the nine defaults for an empty catalogue; otherwise every stored category once, sorted, and nothing else; never empty |
| ProductManagement.ManageProducts | src/main/java/com/group35/smartcart/controller/ProductManagementController.java:47-77 | anyone but a store manager is sent to the staff login; otherwise the shopping page's listing and the categories |
| ProductManagement.FormError | src/main/java/com/group35/smartcart/controller/ProductManagementController.java:110-192 | a form is accepted exactly when its name is not blank and its price is present and positive; the name is checked first |
| ProductManagement.AddProduct | src/main/java/com/group35/smartcart/controller/ProductManagementController.java:98-131 | a store manager's valid form is appended as one product under a fresh key, with the given stock or 0; an invalid form stores nothing and goes back to the form |
| ProductManagement.UpdateProduct | src/main/java/com/group35/smartcart/controller/ProductManagementController.java:157-204 | an unknown id or an invalid form stores nothing; otherwise the product under that key takes every field of the form and the stock, and every other key finds what it found before |
| ProductManagement.SaveFinds | src/main/java/com/group35/smartcart/controller/ProductManagementController.java:195 | saving a stored product's new version finds it under its key and leaves every other key's product as it was |
| ProductManagement.UpdateStock | src/main/java/com/group35/smartcart/controller/ProductManagementController.java:234-261 | only the stock of the named product changes, to exactly the value given or 0, with no lower bound; an unknown id changes nothing |
| ProductManagement.DeleteProduct | src/main/java/com/group35/smartcart/controller/ProductManagementController.java:207-231 | exactly the products with that id are gone and every other key finds what it found before; an unknown id changes nothing |
| ProductManagement.ClearAllProducts | src/main/java/com/group35/smartcart/controller/ProductManagementController.java:264-282 | the catalogue becomes empty and the message reports how many products it held |
| DataInitialization.StockFor | src/main/java/com/group35/smartcart/service/DataInitializationService.java:109-111 | every seeded stock lies between 15 and 34 |
| DataInitialization.SetStockQuantities | src/main/java/com/group35/smartcart/service/DataInitializationService.java:108-111 | the loop gives the product at position i the stock 15 + (i mod 20) and changes nothing else |
| DataInitialization.SaveAllProducts | src/main/java/com/group35/smartcart/service/DataInitializationService.java:113 | the products are appended in order under consecutive fresh keys |
| DataInitialization.InitializeProducts | src/main/java/com/group35/smartcart/service/DataInitializationService.java:53-115 | the twenty sample products, with their stocks, are appended under fresh keys |
| DataInitialization.SeededEmployees | src/main/java/com/group35/smartcart/service/DataInitializationService.java:117-131 | one row per sample account, five in all |
| DataInitialization.InitializeEmployees | src/main/java/com/group35/smartcart/service/DataInitializationService.java:117-135 | the five sample accounts are appended to the staff table |
| DataInitialization.Run | src/main/java/com/group35/smartcart/service/DataInitializationService.java:28-51 | the flag and the two table counts decide what is seeded, as the run outcome states |
| DataInitialization.RunContract | src/main/java/com/group35/smartcart/service/DataInitializationService.java:30-50 | with the flag off nothing changes; each table is seeded exactly when it is empty, independently of the other, with twenty products and five employees |
| DataInitialization.SeededStock | src/main/java/com/group35/smartcart/service/DataInitializationService.java:108-111 | the seeded product at position i has stock 15 + (i mod 20) and the i-th fresh key |
| DataInitialization.RunTwiceAddsNothing | src/main/java/com/group35/smartcart/service/DataInitializationService.java:36-50 | a second run after a first one adds nothing |
| DataInitialization.SeededStaffWellFormed | src/main/java/com/group35/smartcart/service/DataInitializationService.java:118-131 | the seeded empids differ, pass the entity's validation, and every seeded account is active |
| DataInitialization.SeededStaffCanLogIn | src/main/java/com/group35/smartcart/service/DataInitializationService.java:118-133 | after seeding an empty staff table each sample account authenticates with its own password as itself |
| Checkout.BankDetailsError | src/main/java/com/group35/smartcart/controller/CartController.java:172-180 | no error exactly when none of the three fields is blank; otherwise the message of the first blank one, in the order bank name, holder, account number |
| Checkout.InsertDetails | src/main/java/com/group35/smartcart/controller/CartController.java:183-190 | one active bank-details row with the customer's name and the trimmed fields is appended under the next key |
| Checkout.SaveDetailsContract | src/main/java/com/group35/smartcart/controller/CartController.java:160-198 | nothing is written exactly when the answer is a failure; success exactly for a logged-in customer, no blank field and details that pass validation, and then one new active row with the trimmed fields |
| Checkout.SavePaymentDetails | src/main/java/com/group35/smartcart/controller/CartController.java:160-198 | the tables and the answer are `SaveDetailsOutcome` of the session customer and the old tables |
| Checkout.StoreDetails | src/main/java/com/group35/smartcart/controller/CartController.java:183-197 | the `save` stores the details when they pass validation and answers "Failed to save payment details" otherwise |
| Checkout.CheckFormOrder | src/main/java/com/group35/smartcart/controller/CartController.java:218-245 | the form passes exactly when the six fields are non-blank and the subtotal parses; otherwise the first failing check, in source order, names the error, an unparseable subtotal last |
| Checkout.InsertOrder | src/main/java/com/group35/smartcart/controller/CartController.java:258-266 | one order with the trimmed lists and the parsed subtotal is appended under the next key, which is returned |
| Checkout.PlaceOrderContract | src/main/java/com/group35/smartcart/controller/CartController.java:202-274 | no customer or a failed check writes nothing; the order table changes exactly on success, which appends one bank-details row and one PENDING order of the customer with the trimmed lists and the parsed subtotal, under the key the answer reports |
| Checkout.WriteContract | src/main/java/com/group35/smartcart/controller/CartController.java:247-273 | success exactly when both rows pass validation; failing details write nothing; details that pass are appended even when the order then fails, and a failure answers "Failed to place order" |
| Checkout.RefusedOrderKeepsBankDetails | src/main/java/com/group35/smartcart/controller/CartController.java:247-273 | a negative subtotal makes the order fail while the bank details stay written: the two saves are not one transaction |
| Checkout.PlaceOrder | src/main/java/com/group35/smartcart/controller/CartController.java:202-274 | the tables and the answer are `PlaceOrderOutcome` of the session customer, the form and the old tables |
| Checkout.SubmitOrder | src/main/java/com/group35/smartcart/controller/CartController.java:247-268 | the two saves write as `WriteOutcome` says, with each entity's validation decided |
| Checkout.WriteOrder | src/main/java/com/group35/smartcart/controller/CartController.java:247-273 | the bank details and then the order are saved, each only when its entity passes validation |
| Checkout.PlacedOrderIsPending | src/main/java/com/group35/smartcart/controller/CartController.java:258-264 | a placed order is PENDING, belongs to the customer, and its lists are already trimmed |
| Checkout.FindBillByPaymentId | src/main/java/com/group35/smartcart/controller/CartController.java:404-455 | the bill found has that payment id; none is found exactly when no bill has it |
| Checkout.BillOnlyForApprovedOwner | src/main/java/com/group35/smartcart/controller/CartController.java:381-458 | a bill is granted exactly to the logged-in owner of an existing APPROVED order that has a bill, and it is that payment's bill |
| Checkout.OrderBillReply | src/main/java/com/group35/smartcart/controller/CartController.java:379-427 | success exactly when access is granted, and a granted bill shows only the masked account number |
| Checkout.DownloadBill | src/main/java/com/group35/smartcart/controller/CartController.java:430-479 | status 200 and an attachment name exactly when access is granted; every refusal has its own status |
| Checkout.LastIndexOf | src/main/java/com/group35/smartcart/controller/CartController.java:143 | the index of the last occurrence, or -1 exactly when the character does not occur |
| Checkout.Extension | src/main/java/com/group35/smartcart/controller/CartController.java:143 | the name's suffix from its last `.`, holding no other `.` |
| Checkout.UploadSlip | src/main/java/com/group35/smartcart/controller/CartController.java:109-156 | a slip is stored only for a logged-in customer, a non-empty file of an allowed type and at most 10 MiB, written to disk, under uuid + "_" + username + extension; a missing name or one without `.` throws |
| Checkout.CheckoutPage | src/main/java/com/group35/smartcart/controller/CartController.java:63-105 | the page is shown exactly to a logged-in customer; a visitor is sent to the login page |
| Checkout.CustomerPaymentDetails | src/main/java/com/group35/smartcart/controller/CartController.java:483-510 | success exactly for a logged-in customer; the details shown are the customer's newest active ones, and none are shown only when they have no active details |
| AssignmentService.AppendNote | src/main/java/com/group35/smartcart/service/DeliveryAssignmentService.java:117-119 | a null or blank text leaves the log as it was; otherwise the log (rendered `null` when absent) followed by the tag and the text, so an existing log is a prefix of the result |
| AssignmentService.Transition | src/main/java/com/group35/smartcart/service/DeliveryAssignmentService.java:103-214 | a rejected transition leaves the table unchanged, and an unknown id is rejected as a bad reference |
| AssignmentService.StepKeepsIdentity | src/main/java/com/group35/smartcart/service/DeliveryAssignmentService.java:103-214 | a transition keeps the row's key and its order |
| AssignmentService.TransitionReplacesOneRow | src/main/java/com/group35/smartcart/service/DeliveryAssignmentService.java:103-214 | a successful transition stores the saved row under its key; every other key finds what it found before, and the table keeps its size |
| AssignmentService.TransitionKeepsValid | src/main/java/com/group35/smartcart/service/DeliveryAssignmentService.java:103-214 | every transition keeps the keys unique and at most one assignment per order |
| AssignmentService.CreationContract | src/main/java/com/group35/smartcart/service/DeliveryAssignmentService.java:36-70 | creation succeeds exactly when the order exists without an assignment and the courier exists, is active and is not deleted; it appends one ASSIGNED row for that order and courier, with the given notes and assigned now; a refusal changes nothing; the table stays valid |
| AssignmentService.CreationChecksOrderFirst | src/main/java/com/group35/smartcart/service/DeliveryAssignmentService.java:38-57 | the guards in order: a missing order is a bad reference, an assigned order an illegal state, then a missing courier a bad reference and an unavailable one an illegal state |
| AssignmentService.PickUpContract | src/main/java/com/group35/smartcart/service/DeliveryAssignmentService.java:103-122 | picking up succeeds exactly from ASSIGNED; it sets PICKED_UP and the pick-up time, and appends `"\n[PICKUP] "` and the notes only when they are non-blank |
| AssignmentService.DeliverContract | src/main/java/com/group35/smartcart/service/DeliveryAssignmentService.java:125-144 | delivering succeeds exactly from PICKED_UP; it sets DELIVERED and the delivery time, and appends `"\n[DELIVERY] "` and the notes only when they are non-blank |
| AssignmentService.CancelContract | src/main/java/com/group35/smartcart/service/DeliveryAssignmentService.java:147-165 | cancelling succeeds from every status except DELIVERED, CANCELLED included; only the status, the update time and the log change |
| AssignmentService.ReassignContract | src/main/java/com/group35/smartcart/service/DeliveryAssignmentService.java:168-200 | reassigning refuses DELIVERED, then a missing courier, then an unavailable one; success sets the courier, ASSIGNED and a new assigned time, clears the pick-up time and keeps the delivery time |
| AssignmentService.EditNotesContract | src/main/java/com/group35/smartcart/service/DeliveryAssignmentService.java:203-214 | editing the notes succeeds in every status, fails only for an unknown id, and stores the notes verbatim |
| AssignmentService.DeliveredOnlyFromPickedUp | src/main/java/com/group35/smartcart/service/DeliveryAssignmentService.java:125-144 | the only transition that reaches DELIVERED is delivering a PICKED_UP assignment |
| AssignmentService.DeliveredIsFinal | src/main/java/com/group35/smartcart/service/DeliveryAssignmentService.java:103-214 | a delivered assignment accepts only a notes edit and stays DELIVERED |
| AssignmentService.TransitionsAppendToLog | src/main/java/com/group35/smartcart/service/DeliveryAssignmentService.java:117-197 | every transition except the notes edit keeps the existing log as a prefix |
| AssignmentService.DeleteCancels | src/main/java/com/group35/smartcart/service/DeliveryAssignmentService.java:253-255 | deleting keeps the row and cancels it with the administrator's reason; a delivered assignment is refused |
| AssignmentService.CreateAssignment | src/main/java/com/group35/smartcart/service/DeliveryAssignmentService.java:36-70 | the method writes the table and the key counter as `Creation` says |
| AssignmentService.InsertAssignment | src/main/java/com/group35/smartcart/service/DeliveryAssignmentService.java:59-69 | the saved entity is one new ASSIGNED row under the next key |
| AssignmentService.AppendToLog | src/main/java/com/group35/smartcart/service/DeliveryAssignmentService.java:117-119 | the entity's notes become `AppendNote` of the old notes |
| AssignmentService.SaveAssignment | src/main/java/com/group35/smartcart/service/DeliveryAssignmentService.java:121 | `save` replaces the stored row with the entity's row |
| AssignmentService.MarkAsPickedUp | src/main/java/com/group35/smartcart/service/DeliveryAssignmentService.java:103-122 | the table and the result are what `Transition` says for a pick-up |
| AssignmentService.PickUpRow | src/main/java/com/group35/smartcart/service/DeliveryAssignmentService.java:114-121 | the setters and the save store the picked-up row |
| AssignmentService.MarkAsDelivered | src/main/java/com/group35/smartcart/service/DeliveryAssignmentService.java:125-144 | the table and the result are what `Transition` says for a delivery |
| AssignmentService.DeliverRow | src/main/java/com/group35/smartcart/service/DeliveryAssignmentService.java:136-143 | the setters and the save store the delivered row |
| AssignmentService.CancelAssignment | src/main/java/com/group35/smartcart/service/DeliveryAssignmentService.java:147-165 | the table and the result are what `Transition` says for a cancellation |
| AssignmentService.CancelRow | src/main/java/com/group35/smartcart/service/DeliveryAssignmentService.java:158-164 | the setters and the save store the cancelled row |
| AssignmentService.ReassignDeliveryPerson | src/main/java/com/group35/smartcart/service/DeliveryAssignmentService.java:168-200 | the table and the result are what `Transition` says for a reassignment |
| AssignmentService.ReassignRow | src/main/java/com/group35/smartcart/service/DeliveryAssignmentService.java:190-199 | the setters and the save store the reassigned row |
| AssignmentService.UpdateNotes | src/main/java/com/group35/smartcart/service/DeliveryAssignmentService.java:203-214 | the table and the result are what `Transition` says for a notes edit |
| AssignmentService.EditNotesRow | src/main/java/com/group35/smartcart/service/DeliveryAssignmentService.java:210-213 | the setters and the save store the row with the new notes |
| AssignmentService.DeleteAssignment | src/main/java/com/group35/smartcart/service/DeliveryAssignmentService.java:253-255 | the table and the result are those of a cancellation with the administrator's reason |
| DeliveryAssignments.DeliveryAssignment.constructor | src/main/java/com/group35/smartcart/entity/DeliveryAssignment.java:29-57 | a new assignment is ASSIGNED, with the creation, update and assigned times set to now |
| DeliveryAssignments.DeliveryAssignment.WithParties | src/main/java/com/group35/smartcart/entity/DeliveryAssignment.java:59-63 | the two-argument constructor also stores the given courier and order |
| DeliveryAssignments.DeliveryAssignment.PreUpdate | src/main/java/com/group35/smartcart/entity/DeliveryAssignment.java:147-150 | the update hook sets `updatedAt` to now |
| DeliveryAssignments.DeliveryAssignment.MarkAsPickedUp | src/main/java/com/group35/smartcart/entity/DeliveryAssignment.java:152-155 | sets PICKED_UP and the pick-up time, with no guard |
| DeliveryAssignments.DeliveryAssignment.MarkAsInTransit | src/main/java/com/group35/smartcart/entity/DeliveryAssignment.java:157-159 | sets only IN_TRANSIT |
| DeliveryAssignments.DeliveryAssignment.MarkAsDelivered | src/main/java/com/group35/smartcart/entity/DeliveryAssignment.java:161-164 | sets DELIVERED and the delivery time |
| DeliveryAssignments.DeliveryAssignment.MarkAsCancelled | src/main/java/com/group35/smartcart/entity/DeliveryAssignment.java:166-168 | changes only the status, to CANCELLED |
| DeliveryAssignments.DeliveryAssignment.MarkAsFailed | src/main/java/com/group35/smartcart/entity/DeliveryAssignment.java:170-172 | changes only the status, to FAILED |
| Employees.Employee.PreUpdate | src/main/java/com/group35/smartcart/entity/Employee.java:116-119 | the update hook sets `updatedAt` to now |
| EmployeePortal.FindByEmpidAndIsActiveTrue | src/main/java/com/group35/smartcart/service/EmployeeService.java:39-41 | `getEmployeeByEmpid` finds only a stored, active employee with that id, and finds nothing exactly when there is none |
| EmployeePortal.InactiveExistsButIsHidden | src/main/java/com/group35/smartcart/service/EmployeeService.java:39-45 | a deactivated employee still counts for `employeeExists` but is invisible to `getEmployeeByEmpid` |
| EmployeePortal.AuthenticateEmployee | src/main/java/com/group35/smartcart/service/EmployeeService.java:17-29 | an authenticated employee is stored, active, has that id and exactly the typed password |
| EmployeePortal.AuthenticateIff | src/main/java/com/group35/smartcart/service/EmployeeService.java:17-29 | with unique ids, authentication succeeds exactly when an active employee has that id and that very password, so an inactive one or a wrong password gets nothing |
| EmployeePortal.DashboardPath | src/main/java/com/group35/smartcart/controller/EmployeeController.java:175-187 | no role's own dashboard is the generic one |
| EmployeePortal.RedirectFor | src/main/java/com/group35/smartcart/controller/EmployeeController.java:175-187 | the `default` branch is unreachable: every role redirects to a dashboard other than the generic one |
| EmployeePortal.RoleDashboard | src/main/java/com/group35/smartcart/controller/EmployeeController.java:127-173 | a role's dashboard renders exactly for an employee of that role, and sends everyone else to the login page |
| EmployeePortal.RedirectReachesOwnDashboard | src/main/java/com/group35/smartcart/controller/EmployeeController.java:112-187 | following a role's redirect shows that role's dashboard to an employee holding it and the login page to any other |
| EmployeePortal.LoginLandsOnOwnDashboard | src/main/java/com/group35/smartcart/controller/EmployeeController.java:66-100 | bad credentials and a wrong role are refused with their messages; an accepted login redirects to a dashboard that admits the employee (the dashboard paths are lines 175-187) |
| EmployeePortal.EmployeeLoginProcess | src/main/java/com/group35/smartcart/controller/EmployeeController.java:66-100 | the answer is `LoginPage`; only an accepted login stores the employee and the role's display name in the session |
| EmployeePortal.EmployeeLogout | src/main/java/com/group35/smartcart/controller/EmployeeController.java:103-109 | only the employee and the role are cleared from the session |
| Employees.NameInjective | src/main/java/com/group35/smartcart/entity/Employee.java:37-51 | the four roles have pairwise distinct names and display names |
| Employees.Employee.constructor | src/main/java/com/group35/smartcart/entity/Employee.java:34-65 | the new employee holds the id, password and role given, is active and is stamped now |
| Bills.Bill.constructor | src/main/java/com/group35/smartcart/entity/Bill.java:46-63 | the new bill holds all nine arguments verbatim, has no key yet and is created now |
| Bills.MaskedAccountNumber | src/main/java/com/group35/smartcart/entity/Bill.java:155-160 | `null` and numbers of at most four characters come back unchanged; a longer one becomes eight characters, `****` and its last four |
| Bills.MaskingIdempotent | src/main/java/com/group35/smartcart/entity/Bill.java:155-160 | masking a masked number changes nothing, and a number of four or more characters keeps its last four |
| Orders.Order.constructor | src/main/java/com/group35/smartcart/entity/Order.java:43-66 | the new order holds the five arguments verbatim, is PENDING, stamped now, with no key yet |
| Orders.Order.Load | src/main/java/com/group35/smartcart/entity/Order.java:17-50 | the entity materialised from a row reads back as that row |
| Orders.Order.SetOrderStatus | src/main/java/com/group35/smartcart/entity/Order.java:121-123 | the status becomes the given string, unchecked, and no other field changes |
| Orders.Order.PreUpdate | src/main/java/com/group35/smartcart/entity/Order.java:141-144 | the update time becomes now |
| CustomerPayments.CustomerPayment.constructor | src/main/java/com/group35/smartcart/entity/CustomerPayment.java:43-57 | the new record holds the four arguments verbatim, is active, stamped now, with no key yet |
| CustomerPayments.CustomerPayment.SetIsActive | src/main/java/com/group35/smartcart/entity/CustomerPayment.java:120-122 | the active flag becomes the given value and no other field changes |
| OrderService.DeleteOrderKeepsReferences | src/main/java/com/group35/smartcart/service/OrderService.java:91-102 | with one assignment per order, the delete leaves exactly the assignments of other orders, so every remaining assignment still refers to a stored order |
| OrderService.DeleteOrder | src/main/java/com/group35/smartcart/service/OrderService.java:91-102 | the order's assignment, if any, is deleted, then the order |
| OrderService.GetOrderSummary | src/main/java/com/group35/smartcart/service/OrderService.java:153-173 | four keys; the total counts every order, each other count the orders with exactly that status string, so the three never exceed the total |
| OrdersPage.OrdersPage | src/main/java/com/group35/smartcart/controller/OrdersController.java:26-51 | a visitor is sent to the login page; a customer sees their orders newest first, each with its id list replaced by the rendered product list with stock |
| ProductListText.RenderProductList | src/main/java/com/group35/smartcart/controller/OrdersController.java:56-125 | the `StringBuilder` loop yields "No products" for a missing or blank list, otherwise one segment per token of the split list (name, name with stock, unknown-id placeholder or invalid-id note), joined by ", " with none trailing; the same text as `EmployeeController` 376-407 and `CartController` 306-375 |
| ProductListText.StoredIdRendersName | src/main/java/com/group35/smartcart/controller/OrdersController.java:92-125 | a stored product's id renders as its name, with " (Stock: n)" when asked and a missing stock shown as 0 |
| ProductListText.UnknownIdRendersPlaceholder | src/main/java/com/group35/smartcart/controller/OrdersController.java:56-87 | an id no stored product has renders as "Unknown Product (ID: n)" |
| PersonService.EditChangesOneRow | src/main/java/com/group35/smartcart/service/DeliveryPersonService.java:64-140 | an edit is `NotFound` exactly for an unknown key; when it is done the key finds the edited row, every other key what it found before, and the table keeps its size; otherwise nothing changes |
| PersonService.FlagEditsAreAccepted | src/main/java/com/group35/smartcart/service/DeliveryPersonService.java:88-140 | soft-deleting, activating or deactivating a known courier whose row `save` accepts is always done |
| PersonService.UpdateKeepsDeletedFlag | src/main/java/com/group35/smartcart/service/DeliveryPersonService.java:70-79 | an update copies the form's fields and active flag but keeps the deleted flag, the key and the creation time |
| PersonService.ActivationSetsOnlyTheFlag | src/main/java/com/group35/smartcart/service/DeliveryPersonService.java:113-140 | activating and deactivating change only the active flag and the update time |
| PersonService.SoftDeleteHidesCourier | src/main/java/com/group35/smartcart/service/DeliveryPersonService.java:33-100 | a soft delete keeps the row and its key, marks it deleted, makes it unavailable for deliveries and removes it from the non-deleted listing |
| PersonService.SavedDeletedRowUnlisted | src/main/java/com/group35/smartcart/service/DeliveryPersonService.java:33-95 | a saved deleted row never shows in the non-deleted listing |
| PersonService.HardDeleteRemovesRow | src/main/java/com/group35/smartcart/service/DeliveryPersonService.java:103-110 | after the hard delete the key finds nothing and every other key what it found before |
| PersonService.CreateDeliveryPerson | src/main/java/com/group35/smartcart/service/DeliveryPersonService.java:23-31 | the saved courier is active, not deleted and stamped now; a body with no key or an unknown key is inserted under the next key exactly when it passes validation and its e-mail is free; a body with a stored key overwrites that row exactly when `save` accepts the row, with no new key drawn; a rejected save changes nothing |
| PersonService.CreateWithStoredKeyRevivesCourier | src/main/java/com/group35/smartcart/service/DeliveryPersonService.java:23-31 | registering a body with a soft-deleted courier's key revives it: the row under that key becomes available and newly created, the table keeps its size, and every other key finds what it did |
| PersonService.SavePerson | src/main/java/com/group35/smartcart/service/DeliveryPersonService.java:30-95 | `save` of a stored courier replaces its row exactly when validation and the unique e-mail accept it |
| PersonService.EditRow | src/main/java/com/group35/smartcart/service/DeliveryPersonService.java:70-135 | the setters and the save store the edited row, if accepted |
| PersonService.ApplyEdit | src/main/java/com/group35/smartcart/service/DeliveryPersonService.java:64-140 | the outcome and the table are `EditOutcome` and `EditedTable` of the old table |
| PersonService.UpdateDeliveryPerson | src/main/java/com/group35/smartcart/service/DeliveryPersonService.java:64-85 | an unknown key gives `null` (`NotFound`); otherwise the edited courier is saved |
| PersonService.SoftDeleteDeliveryPerson | src/main/java/com/group35/smartcart/service/DeliveryPersonService.java:88-100 | `true` (`Done`) exactly for a known key, then the row marked deleted |
| PersonService.ActivateDeliveryPerson | src/main/java/com/group35/smartcart/service/DeliveryPersonService.java:113-125 | `true` exactly for a known key, then the row marked active |
| PersonService.DeactivateDeliveryPerson | src/main/java/com/group35/smartcart/service/DeliveryPersonService.java:128-140 | `true` exactly for a known key, then the row marked inactive |
| PersonService.HardDeleteDeliveryPerson | src/main/java/com/group35/smartcart/service/DeliveryPersonService.java:103-110 | `true` exactly when `existsById` held, and then the row is deleted; otherwise nothing changes |
| DeliveryPersons.DeliveryPerson.constructor | src/main/java/com/group35/smartcart/entity/DeliveryPerson.java:49-76 | the new courier holds the five arguments, is active, not deleted and has no key yet |
| DeliveryPersons.DeliveryPerson.Load | src/main/java/com/group35/smartcart/entity/DeliveryPerson.java:15-53 | the entity materialised from a row reads back as that row |
| DeliveryPersons.DeliveryPerson.PreUpdate | src/main/java/com/group35/smartcart/entity/DeliveryPerson.java:160-163 | the update time becomes now |
| AssignmentRepository.ExistsIffFound | src/main/java/com/group35/smartcart/repository/DeliveryAssignmentRepository.java:29-76 | `existsByOrderPaymentId` holds exactly when `findByOrderPaymentId` finds a row, and that row belongs to the order |
| AssignmentRepository.FindActiveAssignmentsByDeliveryPersonId | src/main/java/com/group35/smartcart/repository/DeliveryAssignmentRepository.java:41-42 | the courier's rows whose status is ASSIGNED or PICKED_UP, no others, in table order |
| AssignmentRepository.FindOverdueAssignments | src/main/java/com/group35/smartcart/repository/DeliveryAssignmentRepository.java:60-61 | exactly the rows assigned strictly before the cutoff whose status is ASSIGNED or PICKED_UP; a row with no assigned time is not overdue |
| AssignmentRepository.FindByAssignedAtBetween | src/main/java/com/group35/smartcart/repository/DeliveryAssignmentRepository.java:45 | exactly the rows whose assigned time lies in the closed range |
| AssignmentRepository.FindByDeliveredAtBetween | src/main/java/com/group35/smartcart/repository/DeliveryAssignmentRepository.java:48 | exactly the rows whose delivery time lies in the closed range |
| AssignmentRepository.CountsMatchListings | src/main/java/com/group35/smartcart/repository/DeliveryAssignmentRepository.java:23-57 | `countByStatus` and `countByDeliveryPersonId` are the lengths of the matching listings |
| AssignmentRepository.FindAllByOrderByAssignedAtDesc | src/main/java/com/group35/smartcart/repository/DeliveryAssignmentRepository.java:64 | every row, each as often as stored, sorted by non-increasing assigned time |
| AssignmentRepository.FindByDeliveryPersonIdOrderByAssignedAtDesc | src/main/java/com/group35/smartcart/repository/DeliveryAssignmentRepository.java:70 | the courier's rows and no others, sorted newest first |
| AssignmentRepository.FindByNotesContaining | src/main/java/com/group35/smartcart/repository/DeliveryAssignmentRepository.java:79-80 | exactly the rows with a notes log that is `LIKE` the unescaped pattern `%term%` (so `%`, `_` and a backslash in the term act as wildcards and escape); for a term free of those, exactly the rows whose notes contain the term at some position |
| OrderRepository.ExistsIffFound | src/main/java/com/group35/smartcart/service/OrderService.java:111-113 | `existsById` holds exactly when `findById` (used by `getOrderById`, lines 49-51) finds the order |
| OrderRepository.FindByUsernameOrderByCreatedAtDesc | src/main/java/com/group35/smartcart/repository/OrderRepository.java:14-17 | the same rows as `findByUsername`, each as often, sorted newest first |
| OrderRepository.FindByOrderStatus | src/main/java/com/group35/smartcart/repository/OrderRepository.java:20 | exactly the orders whose status string equals the argument, in table order |
| OrderRepository.UsernameAndStatusIsIntersection | src/main/java/com/group35/smartcart/repository/OrderRepository.java:14-23 | the combined finder is the status filter applied to the customer's orders; an order is listed exactly when both filters list it |
| OrderRepository.FindFirstByUsernameOrderByCreatedAtDesc | src/main/java/com/group35/smartcart/repository/OrderRepository.java:26 | empty exactly when the customer has no order; otherwise one of their orders, with no order of theirs created later |
| OrderRepository.CountsMatchListings | src/main/java/com/group35/smartcart/repository/OrderRepository.java:29-32 | each count is the length of the listing it shadows |
| CustomerPaymentRepository.ActiveIsSubsetOfUsername | src/main/java/com/group35/smartcart/repository/CustomerPaymentRepository.java:14-17 | the active finder is the customer's list with the inactive rows left out |
| CustomerPaymentRepository.LatestActiveIsNewest | src/main/java/com/group35/smartcart/repository/CustomerPaymentRepository.java:17-23 | the latest-active lookup finds a row exactly when `existsByUsernameAndIsActiveTrue` holds (so a customer with only inactive rows has none); the row is theirs, active, and no active row of theirs is newer |
| PersonRepository.ExistsIffFound | src/main/java/com/group35/smartcart/service/DeliveryPersonService.java:103-110 | `existsById` holds exactly when `findById` finds the courier |
| PersonRepository.FindByIsActiveTrue | src/main/java/com/group35/smartcart/repository/DeliverPersonRepository.java:21 | exactly the active couriers |
| PersonRepository.FindByIsDeletedFalse | src/main/java/com/group35/smartcart/repository/DeliverPersonRepository.java:24 | exactly the couriers that are not soft-deleted |
| PersonRepository.FindByIsActiveTrueAndIsDeletedFalse | src/main/java/com/group35/smartcart/repository/DeliverPersonRepository.java:27 | exactly the active couriers that are not soft-deleted |
| PersonRepository.AvailableIsBothFilters | src/main/java/com/group35/smartcart/repository/DeliverPersonRepository.java:21-27 | the combined filter is each single filter narrowed by the other, so it is contained in both |
| PersonRepository.FindByVehicleTypeAndIsDeletedFalse | src/main/java/com/group35/smartcart/repository/DeliverPersonRepository.java:30 | the couriers with that vehicle type, deleted ones excluded |
| PersonRepository.SearchByName | src/main/java/com/group35/smartcart/repository/DeliverPersonRepository.java:33-34 | the non-deleted couriers whose name is `LIKE` the unescaped pattern `%term%`, case-sensitively; for a term free of `%`, `_` and backslash, exactly those whose name contains the term |
| ProductRepository.FindByCategory | src/main/java/com/group35/smartcart/repository/ProductRepository.java:15 | exactly the products whose category equals the argument |
| ProductRepository.FindByStockQuantityGreaterThan | src/main/java/com/group35/smartcart/repository/ProductRepository.java:20 | exactly the products with a stock strictly above the bound; a missing stock never matches |
| ProductRepository.InStockListing | src/main/java/com/group35/smartcart/repository/ProductRepository.java:20 | the listing for bound 0 holds a product exactly when its stock, a missing one read as 0, is positive |
| ProductRepository.SearchProducts | src/main/java/com/group35/smartcart/repository/ProductRepository.java:26-27 | exactly the products, in table order, whose lower-cased name or description is `LIKE` the lower-cased pattern `%term%`, the term unescaped |
| ProductRepository.LowerContainingPattern | src/main/java/com/group35/smartcart/repository/ProductRepository.java:26-27 | lower-casing commutes with wrapping the term in `%` and keeps a term free of wildcards and backslashes |
| ProductRepository.PlainSearchIsSubstringSearch | src/main/java/com/group35/smartcart/repository/ProductRepository.java:26-27 | for a term without `%`, `_` or backslash the search is exactly a case-insensitive substring test on the name or the description |
| ProductRepository.UnderscoreSearchFindsEveryNamedProduct | src/main/java/com/group35/smartcart/repository/ProductRepository.java:26-27 | searching for `_` finds every product whose name is not empty, since the underscore is a one-character wildcard |
| ProductRepository.CaseFoldsAgree | src/main/java/com/group35/smartcart/repository/ProductRepository.java:23-27 | for the ASCII case mapping, an upper-cased substring match holds exactly when the lower-cased one does |
| ProductRepository.NameMatchesAreSearchMatches | src/main/java/com/group35/smartcart/repository/ProductRepository.java:23-27 | for any term without a backslash, whatever the escaped name finder lists the name-or-description search lists too |
| ProductRepository.BackslashNameMatchMissedBySearch | src/main/java/com/group35/smartcart/repository/ProductRepository.java:23-27 | for the term `\` a product named `\` is listed by the name finder but missed by the search, which reads the backslash as an escape |
| SqlLike.PlainTermLikeIsContains | src/main/java/com/group35/smartcart/repository/ProductRepository.java:26 | a string is `LIKE` `%t%` for a term t free of `%`, `_` and backslash exactly when t occurs in it |
| SqlLike.OccurrenceMatches | src/main/java/com/group35/smartcart/repository/ProductRepository.java:26 | any occurrence of a backslash-free term makes the string `LIKE` `%term%` |
| SqlLike.LikeConcat | src/main/java/com/group35/smartcart/repository/ProductRepository.java:26 | matches of a backslash-free pattern and any other pattern concatenate to a match of the concatenated pattern |
| SqlLike.PercentSkipsPrefix | src/main/java/com/group35/smartcart/repository/ProductRepository.java:26 | a match of `%q` leaves some suffix of the string matching q |
| SqlLike.PlainPrefix | src/main/java/com/group35/smartcart/repository/ProductRepository.java:26 | a string matching `t%` for a literal term t begins with t |
| SqlLike.UnderscoreFindsEveryNonEmpty | src/main/java/com/group35/smartcart/repository/ProductRepository.java:26 | the pattern `%_%` matches exactly the non-empty strings |
| SqlLike.BackslashTermMissesItself | src/main/java/com/group35/smartcart/repository/ProductRepository.java:26 | the string `\` contains the term `\` yet is not `LIKE` `%\%` |
| ProductRepository.CategoryAndPriceIsComposition | src/main/java/com/group35/smartcart/repository/ProductRepository.java:15-33 | the combined finder is the inclusive price-range finder applied to the category's products |
| ProductRepository.InsertCategory | src/main/java/com/group35/smartcart/repository/ProductRepository.java:36-37 | inserting a category yields exactly the old categories and the new one |
| ProductRepository.InsertCategoryIncreasing | src/main/java/com/group35/smartcart/repository/ProductRepository.java:36-37 | inserting into a strictly ascending list keeps it strictly ascending |
| ProductRepository.FindAllCategories | src/main/java/com/group35/smartcart/repository/ProductRepository.java:36-37 | strictly ascending, hence duplicate-free, and holding exactly the categories some product has |

## Left out

- `PdfService` is not part of this model, so no PDF bytes are. `Checkout.DownloadBill` gives the reply's HTTP status and the attachment's file name; the failure of PDF generation (a 500 reply) is not modelled.
- `DeliveryAssignmentService.getDeliveryStats`, `getAllPayments` and the cashier, IT and coordinator dashboards beyond their routing only read and display data. They are not modelled.
- The REST wrappers of the delivery services, and their mapping of exceptions to 400/409 replies, are not modelled. The services' success and error outcomes are.
- File-system writes of uploaded slips, `servePaymentSlip`, the random UUID and the upload size/type metadata are outside the logic. The UUID and the file's reported type and size are parameters of the upload; the write itself is not modelled.
- The HTTP session is a parameter holding the logged-in customer or employee. Model attributes, flash attributes and view templates appear only as the view name and the one flash message each action sets.
- `LocalDateTime.now()` is a parameter `now`. Every call to the clock within one action reads the same instant.
- Concurrency and transactions are not modelled. Each action runs alone. An action that fails midway keeps the writes it already made, as the source does without `@Transactional`.
- The `catch (Exception e)` paths that report a database failure ("Failed to ...") are not modelled, because the table operations in this model cannot fail. The approval flow is the exception: its bill and validation failures are modelled.
- `ProductManagementController.disableInitialization` only sets a flash message. It is not modelled. The `System.out` messages of `DataInitializationService` are not modelled either.
- `ProductManagementController.addProductForm` and `editProductForm` only fill a form page. They are not modelled.
- `Product.java` is not part of this model. Product fields are inferred from their uses. `Product.isInStock()` is a parameter of `ProductCatalogue.GetStockStatus` and `ProductCatalogue.StatusOf`.
- ProductCatalogue.GetStockStatus: the reply's `success` wrapper and its exception path ("Error fetching stock status") are not modelled.
- `ProductController.productsByCategory` and `searchProducts` pass their argument straight to `ProductRepository.FindByCategory` and `ProductRepository.SearchProducts`. They have no model of their own.
- A request parameter that Spring would refuse before the method runs (a required parameter that is missing) is not modelled. Optional fields are `Option` values.
- `CartController` also maps `/orders`, a copy of `OrdersController.ordersPage`. It is modelled once, as `OrdersPage.OrdersPage`.
- Checkout.PlaceOrder: `new BigDecimal(subtotal)` reads the untrimmed text, as the source does, so leading or trailing blanks make it an error.
- Checkout.UploadSlip: a file name without a `.` or a null file name makes `substring` throw an exception that is not an `IOException`, and so escapes the handler. The model returns `Crashed` for it, as the source ends with a servlet error. The error page itself is not modelled.
- ProductManagement.UpdateProduct: the source copies the form onto the loaded entity before validating it. In the model the refused edit leaves the table unchanged, because the unsaved entity is not flushed outside a transaction.
- ProductManagement.AddProduct: an `id` posted with the form is ignored. The product always receives a fresh key.
- Service methods that only delegate to one repository query (`getAllOrders`, `getOrderById`, `getAllDeliveryPersons` and the like) are the repository functions themselves.
- `EmployeeRepository`, `BillRepository` and `CustomerRepository` are tables of the store with the lookups their services use. Their derived queries have no separate members.
- `String.toLowerCase` and `toUpperCase` are modelled for ASCII only. Locale-specific and non-ASCII case mapping is not modelled; `trim` is modelled exactly.
- DataInitialization.InitializeEmployees: `saveAll` of new employees is modelled as appending rows. Employees have no key from the shared counter.
- Identities come from one shared counter (`Database.Store.NewKey`) instead of one sequence per table. Only freshness and order matter to the model.
- PersonService.CreateDeliveryPerson: the `@Email` format check on the courier's email address is not modelled. The not-blank, length and uniqueness constraints are.
- CustomerAuth.SignupProcess: the `@Valid` Bean Validation of the posted customer is not modelled. Only the controller's own checks are.
- PersonService.CreateDeliveryPerson: when the save is refused, the key counter is left unchanged. The source may have drawn a sequence value already.
- PaymentApproval.ParseLine: `Long.parseLong` and `Integer.parseInt` are modelled for the ASCII digits `0`-`9` only. Java also accepts every other Unicode decimal digit (general category Nd, such as the Arabic-Indic digits), which the model rejects as malformed.
- Checkout.CheckFormOrder: the number parsing behind it accepts ASCII digits only, where Java also accepts the other Unicode decimal digits; such a form is refused by the model although the source would accept it.
- ProductListText.RenderProductList: the id and quantity parsing accepts ASCII digits only, where Java also accepts the other Unicode decimal digits; a line written with those shows as malformed in the model.
- Bills.MaskedAccountNumber: lengths and `substring` count characters (Unicode scalar values), where Java counts UTF-16 code units. For an account number holding a character outside the Basic Multilingual Plane the model keeps a different suffix than the source.
- DeliveryPersons.PersonConstraints: the `@Size` bounds here, as in `Employees.EmployeeConstraints`, `CustomerPayments.PaymentConstraints` and `Orders.OrderConstraints`, count characters, where Hibernate Validator counts UTF-16 code units; a value with supplementary characters can meet the model's bound and break the source's.
- JavaText.StrLess: orders strings by character, where `String.compareTo` compares UTF-16 code units. The two orders differ only between a supplementary character and one in U+E000-U+FFFF.
- The database vendor is not named in the code, and it decides collation. The model compares strings exactly (a binary, case-sensitive collation) in `=`, `LIKE`, `DISTINCT` and `ORDER BY`, orders text by character, and sorts a `NULL` assignment time below every other time. A case-insensitive collation, or a vendor that sorts `NULL` first in a descending order, gives other results.
- SqlLike.LikeMatch: the backslash is taken as the escape character of `LIKE`, as MySQL, H2 and PostgreSQL do by default. A database without a default escape character reads it as a literal.
- ProductRepository.NameMatchesAreSearchMatches: holds only for terms without a backslash. `findByNameContainingIgnoreCase` escapes its term, while `searchProducts` does not, so for a backslash term the name finder can list a product the search misses (`ProductRepository.BackslashNameMatchMissedBySearch`).
- PersonService.CreateDeliveryPerson: a body whose key no stored courier has is inserted under a fresh key, as `merge` does in Hibernate before version 6.6. Later versions reject it with an optimistic-locking exception; that path is not modelled.
- `EmployeeService.saveEmployee` is a bare `save` that no modelled controller or service calls. It is not modelled; only the `@PreUpdate` callback it would trigger is (`Employees.Employee.PreUpdate`).

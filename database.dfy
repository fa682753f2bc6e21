/**
 * The shop's database as the services see it through their repositories: one table per entity,
 * held as the rows in insertion order, plus the identity counter the `IDENTITY` key generator
 * draws from. The clock is not part of the store: every operation that reads `now()` is given
 * the instant as a parameter.
 */
module Database {
  import opened Wrappers
  import opened Products
  import opened Orders
  import opened Bills
  import opened CustomerPayments
  import opened Employees
  import opened Customers
  import opened DeliveryPersons
  import opened DeliveryAssignments

  class Store {
    var products: seq<Product>
    var orders: seq<OrderRecord>
    var bills: seq<BillRecord>
    var payments: seq<PaymentRecord>
    var employees: seq<EmployeeRecord>
    var customers: seq<Customer>
    var persons: seq<PersonRecord>
    var assignments: seq<AssignmentRecord>
    /** The key the next inserted row receives. */
    var nextId: int

    /** An empty database. */
    constructor ()
      ensures products == [] && orders == [] && bills == [] && payments == []
      ensures employees == [] && customers == [] && persons == [] && assignments == []
      ensures nextId == 1
    {
      products := [];
      orders := [];
      bills := [];
      payments := [];
      employees := [];
      customers := [];
      persons := [];
      assignments := [];
      nextId := 1;
    }

    /** The key an `IDENTITY` column hands to a newly inserted row; no key is handed out twice. */
    method NewKey() returns (k: int)
      modifies this`nextId
      ensures k == old(nextId) && nextId == k + 1
    {
      k := nextId;
      nextId := nextId + 1;
    }
  }
}

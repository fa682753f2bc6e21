/**
 * `OrderService`: the order queries the staff pages use, the delete that removes an order's
 * delivery assignment first, and the dashboard's order counts.
 */
module OrderService {
  import opened Wrappers
  import opened Seqs
  import opened Orders
  import opened DeliveryAssignments
  import opened Database
  import OR = OrderRepository
  import AR = AssignmentRepository

  // ---------------------------------------------------------------------------------------------
  // Deleting an order

  /** The foreign key from `delivery_assignments.order_id` to the orders. */
  predicate AssignmentsReferenceOrders(rows: seq<AssignmentRecord>, os: seq<OrderRecord>)
  {
    forall i :: 0 <= i < |rows| ==> OR.ExistsById(os, rows[i].orderId)
  }

  /** The assignments after `deleteOrder`: the order's assignment, when there is one, is deleted. */
  function CascadedAssignments(rows: seq<AssignmentRecord>, id: int): seq<AssignmentRecord>
  {
    match AR.FindByOrderPaymentId(rows, id)
    case None => rows
    case Some(a) => AR.DeleteById(rows, a.id)
  }

  /**
   * With one assignment per order, `deleteOrder` leaves no assignment of the deleted order, keeps
   * every other assignment, and so never breaks the foreign key.
   */
  lemma DeleteOrderKeepsReferences(rows: seq<AssignmentRecord>, os: seq<OrderRecord>, id: int)
    requires AR.KeysUnique(rows)
    requires AssignmentsReferenceOrders(rows, os)
    ensures forall a :: a in CascadedAssignments(rows, id) <==> a in rows && a.orderId != id
    ensures AssignmentsReferenceOrders(CascadedAssignments(rows, id), OR.DeleteById(os, id))
  {
    var after := CascadedAssignments(rows, id);
    var found := AR.FindByOrderPaymentId(rows, id);
    AR.ExistsIffFound(rows, id);
    if found.Some? {
      var a := found.value;
      DeleteByKeyMembers(rows, AR.AssignmentKey, a.id);
      forall x | x in rows
        ensures x in after <==> x.orderId != id
      {
        var i :| 0 <= i < |rows| && rows[i] == x;
        var j :| 0 <= j < |rows| && rows[j] == a;
        if i < j || j < i {
          assert x.id != a.id && x.orderId != a.orderId;
        }
      }
    }
    DeleteByKeyMembers(os, OR.OrderKey, id);
    forall i | 0 <= i < |after|
      ensures OR.ExistsById(OR.DeleteById(os, id), after[i].orderId)
    {
      var x := after[i];
      assert x in after;
      var j :| 0 <= j < |rows| && rows[j] == x;
      var k :| 0 <= k < |os| && os[k].paymentId == x.orderId;
      var rest := OR.DeleteById(os, id);
      assert os[k] in rest;
      var m :| 0 <= m < |rest| && rest[m] == os[k];
    }
  }

  /** `deleteOrder`: removes the order's assignment, if any, then the order itself. */
  method DeleteOrder(db: Store, id: int)
    modifies db`assignments, db`orders
    ensures db.assignments == CascadedAssignments(old(db.assignments), id)
    ensures db.orders == OR.DeleteById(old(db.orders), id)
  {
    var assignment := AR.FindByOrderPaymentId(db.assignments, id);
    if assignment.Some? {
      db.assignments := AR.DeleteById(db.assignments, assignment.value.id);
    }
    db.orders := OR.DeleteById(db.orders, id);
  }

  // ---------------------------------------------------------------------------------------------
  // The dashboard's counts

  const TotalOrders: string := "totalOrders"
  const PendingOrders: string := "pendingOrders"
  const ApprovedOrders: string := "approvedOrders"
  const DeclinedOrders: string := "declinedOrders"

  /**
   * `getOrderSummary`: the number of orders, and how many carry each of the three exact status
   * strings; an order of any other status is counted only in the total.
   */
  method GetOrderSummary(db: Store) returns (summary: map<string, int>)
    ensures summary.Keys == {TotalOrders, PendingOrders, ApprovedOrders, DeclinedOrders}
    ensures summary[TotalOrders] == |db.orders|
    ensures summary[PendingOrders] == |OR.FindByOrderStatus(db.orders, "PENDING")|
    ensures summary[ApprovedOrders] == |OR.FindByOrderStatus(db.orders, "APPROVED")|
    ensures summary[DeclinedOrders] == |OR.FindByOrderStatus(db.orders, "DECLINED")|
    ensures summary[PendingOrders] + summary[ApprovedOrders] + summary[DeclinedOrders] <= summary[TotalOrders]
  {
    var os := db.orders;
    OR.CountsMatchListings(os, "", "PENDING");
    OR.CountsMatchListings(os, "", "APPROVED");
    OR.CountsMatchListings(os, "", "DECLINED");
    CountDisjoint3(os, (o: OrderRecord) => o.orderStatus == "PENDING", (o: OrderRecord) => o.orderStatus == "APPROVED",
                   (o: OrderRecord) => o.orderStatus == "DECLINED");
    summary := map[];
    summary := summary[TotalOrders := |os|];
    summary := summary[PendingOrders := OR.CountByOrderStatus(os, "PENDING")];
    summary := summary[ApprovedOrders := OR.CountByOrderStatus(os, "APPROVED")];
    summary := summary[DeclinedOrders := OR.CountByOrderStatus(os, "DECLINED")];
  }
}

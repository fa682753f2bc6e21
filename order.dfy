/** The `Order` entity: one customer order, stored in the `payment` table. */
module Orders {
  import opened Wrappers
  import opened JavaText
  import opened Money

  /** One stored row of the `payment` table. */
  datatype OrderRecord = OrderRecord(
    paymentId: int,
    username: string,
    productIds: string,
    productQuantities: string,
    subtotal: Decimal,
    payslipLocationPath: Option<string>,
    orderStatus: string,
    createdAt: Time,
    updatedAt: Time)

  /** The Bean Validation constraints on an order's fields, checked before it is written. */
  predicate OrderConstraints(username: string, productIds: string, productQuantities: string, subtotal: Decimal)
  {
    && !IsBlank(username) && |username| <= 50
    && !IsBlank(productIds)
    && !IsBlank(productQuantities)
    && CompareTo(subtotal, Zero) >= 0
  }

  class Order {
    var paymentId: Option<int>
    var username: string
    var productIds: string
    var productQuantities: string
    var subtotal: Decimal
    var payslipLocationPath: Option<string>
    var orderStatus: string
    var createdAt: Time
    var updatedAt: Time

    /** `new Order(username, productIds, productQuantities, subtotal, payslipLocationPath)`: PENDING, stamped now. */
    constructor (username: string, productIds: string, productQuantities: string, subtotal: Decimal,
                 payslipLocationPath: Option<string>, now: Time)
      ensures paymentId.None? && orderStatus == "PENDING"
      ensures this.username == username && this.productIds == productIds
      ensures this.productQuantities == productQuantities && this.subtotal == subtotal
      ensures this.payslipLocationPath == payslipLocationPath
      ensures createdAt == now && updatedAt == now
    {
      paymentId := None;
      this.username := username;
      this.productIds := productIds;
      this.productQuantities := productQuantities;
      this.subtotal := subtotal;
      this.payslipLocationPath := payslipLocationPath;
      orderStatus := "PENDING";
      createdAt := now;
      updatedAt := now;
    }

    /** The entity the persistence layer materialises from a stored row. */
    constructor Load(r: OrderRecord)
      ensures Persisted() && Record() == r
    {
      paymentId := Some(r.paymentId);
      username := r.username;
      productIds := r.productIds;
      productQuantities := r.productQuantities;
      subtotal := r.subtotal;
      payslipLocationPath := r.payslipLocationPath;
      orderStatus := r.orderStatus;
      createdAt := r.createdAt;
      updatedAt := r.updatedAt;
    }

    predicate Persisted()
      reads this
    {
      paymentId.Some?
    }

    /** The row `save` writes for this entity. */
    function Record(): OrderRecord
      reads this
      requires Persisted()
    {
      OrderRecord(paymentId.value, username, productIds, productQuantities, subtotal,
                  payslipLocationPath, orderStatus, createdAt, updatedAt)
    }

    /** Whether the entity passes Bean Validation. */
    predicate Valid()
      reads this
    {
      OrderConstraints(username, productIds, productQuantities, subtotal)
    }

    /** `setOrderStatus`: any string, with no check at entity level. */
    method SetOrderStatus(status: string)
      modifies this`orderStatus
      ensures orderStatus == status
    {
      orderStatus := status;
    }

    /** The `@PreUpdate` callback: every update of a stored order restamps `updatedAt`. */
    method PreUpdate(now: Time)
      modifies this`updatedAt
      ensures updatedAt == now
    {
      updatedAt := now;
    }
  }
}

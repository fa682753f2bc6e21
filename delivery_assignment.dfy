/** The `DeliveryAssignment` entity: which courier delivers which order, and how far it got. */
module DeliveryAssignments {
  import opened Wrappers

  /** The life-cycle states of a delivery. */
  datatype AssignmentStatus = ASSIGNED | PICKED_UP | IN_TRANSIT | DELIVERED | CANCELLED | FAILED

  /**
   * One stored row of the `delivery_assignments` table. The courier and order associations are
   * stored, as in the table, by their keys.
   */
  datatype AssignmentRecord = AssignmentRecord(
    id: int,
    deliveryPersonId: int,
    orderId: int,
    status: AssignmentStatus,
    assignedAt: Option<Time>,
    pickedUpAt: Option<Time>,
    deliveredAt: Option<Time>,
    notes: Option<string>,
    createdAt: Option<Time>,
    updatedAt: Option<Time>)

  class DeliveryAssignment {
    var id: Option<int>
    var deliveryPersonId: Option<int>
    var orderId: Option<int>
    var status: AssignmentStatus
    var assignedAt: Option<Time>
    var pickedUpAt: Option<Time>
    var deliveredAt: Option<Time>
    var notes: Option<string>
    var createdAt: Option<Time>
    var updatedAt: Option<Time>

    /** `new DeliveryAssignment()`: ASSIGNED, and created, updated and assigned now. */
    constructor (now: Time)
      ensures id.None? && deliveryPersonId.None? && orderId.None? && status == ASSIGNED
      ensures assignedAt == Some(now) && createdAt == Some(now) && updatedAt == Some(now)
      ensures pickedUpAt.None? && deliveredAt.None? && notes.None?
    {
      id := None;
      deliveryPersonId := None;
      orderId := None;
      status := ASSIGNED;
      assignedAt := Some(now);
      pickedUpAt := None;
      deliveredAt := None;
      notes := None;
      createdAt := Some(now);
      updatedAt := Some(now);
    }

    /** `new DeliveryAssignment(deliveryPerson, order)`. */
    constructor WithParties(deliveryPersonId: int, orderId: int, now: Time)
      ensures id.None? && this.deliveryPersonId == Some(deliveryPersonId) && this.orderId == Some(orderId)
      ensures status == ASSIGNED
      ensures assignedAt == Some(now) && createdAt == Some(now) && updatedAt == Some(now)
      ensures pickedUpAt.None? && deliveredAt.None? && notes.None?
    {
      id := None;
      this.deliveryPersonId := Some(deliveryPersonId);
      this.orderId := Some(orderId);
      status := ASSIGNED;
      assignedAt := Some(now);
      pickedUpAt := None;
      deliveredAt := None;
      notes := None;
      createdAt := Some(now);
      updatedAt := Some(now);
    }

    /** The entity the persistence layer materialises from a stored row. */
    constructor Load(r: AssignmentRecord)
      ensures Complete() && Record() == r
    {
      id := Some(r.id);
      deliveryPersonId := Some(r.deliveryPersonId);
      orderId := Some(r.orderId);
      status := r.status;
      assignedAt := r.assignedAt;
      pickedUpAt := r.pickedUpAt;
      deliveredAt := r.deliveredAt;
      notes := r.notes;
      createdAt := r.createdAt;
      updatedAt := r.updatedAt;
    }

    /** A key, a courier and an order: what a stored row needs (the two associations are `@NotNull`). */
    predicate Complete()
      reads this
    {
      id.Some? && deliveryPersonId.Some? && orderId.Some?
    }

    /** The row `save` writes for this entity. */
    function Record(): AssignmentRecord
      reads this
      requires Complete()
    {
      AssignmentRecord(id.value, deliveryPersonId.value, orderId.value, status, assignedAt,
                       pickedUpAt, deliveredAt, notes, createdAt, updatedAt)
    }

    /** The `@PreUpdate` callback. */
    method PreUpdate(now: Time)
      modifies this`updatedAt
      ensures updatedAt == Some(now)
    {
      updatedAt := Some(now);
    }

    method MarkAsPickedUp(now: Time)
      modifies this`status, this`pickedUpAt
      ensures status == PICKED_UP && pickedUpAt == Some(now)
    {
      status := PICKED_UP;
      pickedUpAt := Some(now);
    }

    method MarkAsInTransit()
      modifies this`status
      ensures status == IN_TRANSIT
    {
      status := IN_TRANSIT;
    }

    method MarkAsDelivered(now: Time)
      modifies this`status, this`deliveredAt
      ensures status == DELIVERED && deliveredAt == Some(now)
    {
      status := DELIVERED;
      deliveredAt := Some(now);
    }

    method MarkAsCancelled()
      modifies this`status
      ensures status == CANCELLED
    {
      status := CANCELLED;
    }

    method MarkAsFailed()
      modifies this`status
      ensures status == FAILED
    {
      status := FAILED;
    }
  }
}

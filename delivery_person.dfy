/** The `DeliveryPerson` entity: the couriers orders are assigned to. */
module DeliveryPersons {
  import opened Wrappers
  import opened JavaText

  /** `DeliveryPerson.VehicleType`. */
  datatype VehicleType = BIKE | THREEWHEEL | LORRY

  /** One stored row of the `delivery_persons` table. */
  datatype PersonRecord = PersonRecord(
    id: int,
    name: string,
    email: string,
    contactNumber: string,
    vehicleType: VehicleType,
    vehicleNumber: string,
    createdAt: Time,
    updatedAt: Time,
    isActive: bool,
    isDeleted: bool)

  /** The Bean Validation constraints on the entity's fields (the e-mail format check aside). */
  predicate PersonConstraints(name: string, email: string, contactNumber: string, vehicleNumber: string)
  {
    && !IsBlank(name) && |name| <= 100
    && !IsBlank(email)
    && !IsBlank(contactNumber) && |contactNumber| <= 20
    && !IsBlank(vehicleNumber) && |vehicleNumber| <= 20
  }

  /** A courier that may receive deliveries: active and not soft-deleted. */
  predicate Available(p: PersonRecord)
  {
    p.isActive && !p.isDeleted
  }

  class DeliveryPerson {
    var id: Option<int>
    var name: string
    var email: string
    var contactNumber: string
    var vehicleType: VehicleType
    var vehicleNumber: string
    var createdAt: Time
    var updatedAt: Time
    var isActive: bool
    var isDeleted: bool

    /** `new DeliveryPerson(name, email, contactNumber, vehicleType, vehicleNumber)`: active, not deleted, stamped now. */
    constructor (name: string, email: string, contactNumber: string, vehicleType: VehicleType,
                 vehicleNumber: string, now: Time)
      ensures id.None? && isActive && !isDeleted && createdAt == now && updatedAt == now
      ensures this.name == name && this.email == email && this.contactNumber == contactNumber
      ensures this.vehicleType == vehicleType && this.vehicleNumber == vehicleNumber
    {
      id := None;
      this.name := name;
      this.email := email;
      this.contactNumber := contactNumber;
      this.vehicleType := vehicleType;
      this.vehicleNumber := vehicleNumber;
      createdAt := now;
      updatedAt := now;
      isActive := true;
      isDeleted := false;
    }

    /** The entity the persistence layer materialises from a stored row. */
    constructor Load(r: PersonRecord)
      ensures id.Some? && Record() == r
    {
      id := Some(r.id);
      name := r.name;
      email := r.email;
      contactNumber := r.contactNumber;
      vehicleType := r.vehicleType;
      vehicleNumber := r.vehicleNumber;
      createdAt := r.createdAt;
      updatedAt := r.updatedAt;
      isActive := r.isActive;
      isDeleted := r.isDeleted;
    }

    /** The row `save` writes for this entity. */
    function Record(): PersonRecord
      reads this
      requires id.Some?
    {
      PersonRecord(id.value, name, email, contactNumber, vehicleType, vehicleNumber,
                   createdAt, updatedAt, isActive, isDeleted)
    }

    /** The `@PreUpdate` callback. */
    method PreUpdate(now: Time)
      modifies this`updatedAt
      ensures updatedAt == now
    {
      updatedAt := now;
    }

    /** Whether the entity passes Bean Validation. */
    predicate Valid()
      reads this
    {
      PersonConstraints(name, email, contactNumber, vehicleNumber)
    }
  }
}

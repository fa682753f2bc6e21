/** The `Employee` entity: staff accounts and their roles. */
module Employees {
  import opened Wrappers
  import opened JavaText

  /** `Employee.EmployeeType`. */
  datatype EmployeeType = CASHIER | STORE_MANAGER | IT_ASSISTANT | DELIVERY_COORDINATOR
  {
    /** `name()`: the constant's own spelling. */
    function Name(): string
    {
      match this
      case CASHIER => "CASHIER"
      case STORE_MANAGER => "STORE_MANAGER"
      case IT_ASSISTANT => "IT_ASSISTANT"
      case DELIVERY_COORDINATOR => "DELIVERY_COORDINATOR"
    }

    /** `getDisplayName()`. */
    function DisplayName(): string
    {
      match this
      case CASHIER => "Cashier"
      case STORE_MANAGER => "Store Manager"
      case IT_ASSISTANT => "IT Assistant"
      case DELIVERY_COORDINATOR => "Delivery Coordinator"
    }
  }

  /** Distinct roles have distinct names and display names, so a role is identified by either. */
  lemma NameInjective(a: EmployeeType, b: EmployeeType)
    ensures a.Name() == b.Name() <==> a == b
    ensures a.DisplayName() == b.DisplayName() <==> a == b
  {
    if a != b {
      assert a.Name() != b.Name() && a.DisplayName() != b.DisplayName() by {
        match a
        case CASHIER => assert a.Name()[0] == 'C' == a.DisplayName()[0];
        case STORE_MANAGER => assert a.Name()[0] == 'S' == a.DisplayName()[0];
        case IT_ASSISTANT => assert a.Name()[0] == 'I' == a.DisplayName()[0];
        case DELIVERY_COORDINATOR => assert a.Name()[0] == 'D' == a.DisplayName()[0];
      }
    }
  }

  /** One stored row of the `employees` table; `empid` is the key. */
  datatype EmployeeRecord = EmployeeRecord(
    empid: string,
    password: string,
    employeeType: EmployeeType,
    createdAt: Time,
    updatedAt: Time,
    isActive: bool)

  /** The Bean Validation constraints on the entity's fields. */
  predicate EmployeeConstraints(empid: string, password: string)
  {
    && !IsBlank(empid) && 3 <= |empid| <= 20
    && !IsBlank(password) && |password| >= 6
  }

  class Employee {
    var empid: string
    var password: string
    var employeeType: EmployeeType
    var createdAt: Time
    var updatedAt: Time
    var isActive: bool

    /** `new Employee(empid, password, type)`: active, stamped now. */
    constructor (empid: string, password: string, employeeType: EmployeeType, now: Time)
      ensures this.empid == empid && this.password == password && this.employeeType == employeeType
      ensures createdAt == now && updatedAt == now && isActive
    {
      this.empid := empid;
      this.password := password;
      this.employeeType := employeeType;
      createdAt := now;
      updatedAt := now;
      isActive := true;
    }

    /** The row `save` writes for this entity. */
    function Record(): EmployeeRecord
      reads this
    {
      EmployeeRecord(empid, password, employeeType, createdAt, updatedAt, isActive)
    }

    /** Whether the entity passes Bean Validation. */
    predicate Valid()
      reads this
    {
      EmployeeConstraints(empid, password)
    }

    /** The `@PreUpdate` callback: every update of a stored employee restamps `updatedAt`. */
    method PreUpdate(now: Time)
      modifies this`updatedAt
      ensures updatedAt == now
    {
      updatedAt := now;
    }
  }
}

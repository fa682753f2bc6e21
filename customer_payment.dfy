/** The `CustomerPayment` entity: the bank details a customer gives at checkout. */
module CustomerPayments {
  import opened Wrappers
  import opened JavaText

  /** One stored row of the `customer_payment` table. */
  datatype PaymentRecord = PaymentRecord(
    id: int,
    username: string,
    bankName: string,
    accountHolderName: string,
    accountNumber: string,
    createdAt: Time,
    updatedAt: Time,
    isActive: bool)

  /** The Bean Validation constraints on the entity's fields, checked before it is written. */
  predicate PaymentConstraints(username: string, bankName: string, accountHolderName: string, accountNumber: string)
  {
    && !IsBlank(username) && |username| <= 50
    && !IsBlank(bankName) && |bankName| <= 100
    && !IsBlank(accountHolderName) && |accountHolderName| <= 100
    && !IsBlank(accountNumber) && |accountNumber| <= 50
  }

  class CustomerPayment {
    var id: Option<int>
    var username: string
    var bankName: string
    var accountHolderName: string
    var accountNumber: string
    var createdAt: Time
    var updatedAt: Time
    var isActive: bool

    /** `new CustomerPayment(username, bankName, accountHolderName, accountNumber)`: active, stamped now. */
    constructor (username: string, bankName: string, accountHolderName: string, accountNumber: string, now: Time)
      ensures id.None? && isActive
      ensures this.username == username && this.bankName == bankName
      ensures this.accountHolderName == accountHolderName && this.accountNumber == accountNumber
      ensures createdAt == now && updatedAt == now
    {
      id := None;
      this.username := username;
      this.bankName := bankName;
      this.accountHolderName := accountHolderName;
      this.accountNumber := accountNumber;
      createdAt := now;
      updatedAt := now;
      isActive := true;
    }

    /** The row `save` writes for this entity. */
    function Record(): PaymentRecord
      reads this
      requires id.Some?
    {
      PaymentRecord(id.value, username, bankName, accountHolderName, accountNumber, createdAt, updatedAt, isActive)
    }

    /** `setIsActive`. */
    method SetIsActive(isActive: bool)
      modifies this`isActive
      ensures this.isActive == isActive
    {
      this.isActive := isActive;
    }

    /** Whether the entity passes Bean Validation. */
    predicate Valid()
      reads this
    {
      PaymentConstraints(username, bankName, accountHolderName, accountNumber)
    }
  }
}

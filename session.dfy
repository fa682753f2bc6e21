/** The HTTP session: the attributes the controllers store between requests. */
module Sessions {
  import opened Wrappers
  import opened Customers
  import opened Employees

  /** A one-shot message the next page shows (a redirect's flash attribute). */
  datatype Flash = NoFlash | Success(text: string) | Error(text: string)

  /** A controller's answer: the view name (or `redirect:` target) and the flash message. */
  datatype Page = Page(view: string, flash: Flash)

  class Session {
    /** The `"customer"` attribute: the logged-in shopper. */
    var customer: Option<Customer>
    /** The `"employee"` attribute: the logged-in member of staff. */
    var employee: Option<EmployeeRecord>
    /** The `"employeeType"` attribute: the staff member's role, as displayed. */
    var employeeType: Option<string>

    /** A fresh session, with nobody logged in. */
    constructor ()
      ensures customer.None? && employee.None? && employeeType.None?
    {
      customer := None;
      employee := None;
      employeeType := None;
    }
  }
}

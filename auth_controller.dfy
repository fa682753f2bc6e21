/**
 * `AuthController`: customer login, sign-up and logout. Passwords are compared as stored, in
 * plain text; the outcome of each request is the view or redirect it answers with, the flash
 * message it leaves, and what it changes in the session or the customers table.
 */
module CustomerAuth {
  import opened Wrappers
  import opened Seqs
  import opened Customers
  import opened Sessions
  import opened Database

  /** `findByUsernameAndIsActiveTrue`. */
  function FindByUsernameAndIsActiveTrue(cs: seq<Customer>, username: string): Option<Customer>
  {
    FindFirst(cs, (c: Customer) => c.username == username && c.isActive)
  }

  /** `existsByUsername`. */
  predicate ExistsByUsername(cs: seq<Customer>, username: string)
  {
    exists k :: 0 <= k < |cs| && cs[k].username == username
  }

  /** `existsByEmail`. */
  predicate ExistsByEmail(cs: seq<Customer>, email: string)
  {
    exists k :: 0 <= k < |cs| && cs[k].email == email
  }

  /** The table's key: no two customers share a username. */
  predicate UsernamesUnique(cs: seq<Customer>)
  {
    forall i, j :: 0 <= i < j < |cs| ==> cs[i].username != cs[j].username
  }

  // ---------------------------------------------------------------------------------------------
  // Login

  /** The customer a login admits: an active account with that username whose password is exactly the one typed. */
  function LoginCustomer(cs: seq<Customer>, username: string, password: string): (r: Option<Customer>)
    ensures r.Some? ==> r.value in cs && r.value.username == username && r.value.isActive && r.value.password == password
  {
    match FindByUsernameAndIsActiveTrue(cs, username)
    case None => None
    case Some(c) => if password == c.password then Some(c) else None
  }

  /** Where a login sends the browser: the return address when one was given and non-empty, else the shop. */
  function LoginPage(cs: seq<Customer>, username: string, password: string, returnUrl: Option<string>): Page
  {
    match LoginCustomer(cs, username, password)
    case Some(c) =>
      Page(if returnUrl.Some? && returnUrl.value != "" then "redirect:" + returnUrl.value else "redirect:/shopping",
           Success("Welcome back, " + c.firstName + "!"))
    case None =>
      Page("redirect:/login" + (if returnUrl.Some? then "?returnUrl=" + returnUrl.value else ""),
           Error("Invalid username or password"))
  }

  /**
   * With usernames unique, a login succeeds exactly when an active account has that username and
   * that very password; an inactive account never logs in.
   */
  lemma LoginSucceedsIff(cs: seq<Customer>, username: string, password: string)
    requires UsernamesUnique(cs)
    ensures LoginCustomer(cs, username, password).Some? <==>
      exists k :: 0 <= k < |cs| && cs[k].username == username && cs[k].isActive && cs[k].password == password
  {
    var f := (c: Customer) => c.username == username && c.isActive;
    if k :| 0 <= k < |cs| && cs[k].username == username && cs[k].isActive && cs[k].password == password {
      assert f(cs[k]);
      var found := FindByUsernameAndIsActiveTrue(cs, username);
      var j :| 0 <= j < |cs| && cs[j] == found.value && f(cs[j]);
      assert j == k;
    }
  }

  /**
   * A failed login returns to the login page, carrying the return address whenever one was sent,
   * even an empty one, while a successful login with an empty return address goes to the shop.
   */
  lemma EmptyReturnUrl(cs: seq<Customer>, username: string, password: string)
    ensures LoginCustomer(cs, username, password).Some? ==>
      LoginPage(cs, username, password, Some("")).view == "redirect:/shopping"
    ensures LoginCustomer(cs, username, password).None? ==>
      LoginPage(cs, username, password, Some("")).view == "redirect:/login?returnUrl="
  {
  }

  /** `loginProcess`: a successful login stores the customer in the session; a failed one leaves it alone. */
  method LoginProcess(session: Session, db: Store, username: string, password: string, returnUrl: Option<string>)
    returns (page: Page)
    modifies session`customer
    ensures page == LoginPage(db.customers, username, password, returnUrl)
    ensures session.customer == if LoginCustomer(db.customers, username, password).Some?
                                then LoginCustomer(db.customers, username, password) else old(session.customer)
  {
    var found := FindByUsernameAndIsActiveTrue(db.customers, username);
    if found.Some? {
      var customer := found.value;
      if password == customer.password {
        session.customer := Some(customer);
        if returnUrl.Some? && returnUrl.value != "" {
          return Page("redirect:" + returnUrl.value, Success("Welcome back, " + customer.firstName + "!"));
        }
        return Page("redirect:/shopping", Success("Welcome back, " + customer.firstName + "!"));
      }
    }
    page := Page("redirect:/login" + (if returnUrl.Some? then "?returnUrl=" + returnUrl.value else ""),
                 Error("Invalid username or password"));
  }

  // ---------------------------------------------------------------------------------------------
  // Sign-up

  /** A rejected field of the sign-up form. */
  datatype FieldError = FieldError(field: string, message: string)

  /** Every check `signupProcess` makes, all of them collected, in the order it makes them. */
  function SignupErrors(cs: seq<Customer>, customer: Customer, confirmPassword: string): (errors: seq<FieldError>)
    ensures errors == [] <==>
      customer.password == confirmPassword && !ExistsByUsername(cs, customer.username) && !ExistsByEmail(cs, customer.email)
    ensures |errors| == (if customer.password != confirmPassword then 1 else 0)
                      + (if ExistsByUsername(cs, customer.username) then 1 else 0)
                      + (if ExistsByEmail(cs, customer.email) then 1 else 0)
  {
    (if customer.password != confirmPassword then [FieldError("password", "Passwords do not match")] else [])
    + (if ExistsByUsername(cs, customer.username) then [FieldError("username", "Username already exists")] else [])
    + (if ExistsByEmail(cs, customer.email) then [FieldError("email", "Email already exists")] else [])
  }

  /** A sign-up that passes every check adds the account; a new username keeps the usernames unique. */
  lemma SignupKeepsUsernamesUnique(cs: seq<Customer>, customer: Customer, confirmPassword: string)
    requires UsernamesUnique(cs)
    requires SignupErrors(cs, customer, confirmPassword) == []
    ensures UsernamesUnique(cs + [customer])
  {
    var after := cs + [customer];
    forall i, j | 0 <= i < j < |after|
      ensures after[i].username != after[j].username
    {
      if j == |cs| {
        assert after[i] == cs[i];
      }
      else {
        assert after[i] == cs[i] && after[j] == cs[j];
      }
    }
  }

  /** `signupProcess`: the form again on any error, with nothing saved; otherwise the account is saved. */
  method SignupProcess(db: Store, customer: Customer, confirmPassword: string) returns (page: Page, errors: seq<FieldError>)
    modifies db`customers
    ensures errors == SignupErrors(old(db.customers), customer, confirmPassword)
    ensures errors != [] ==> page == Page("signup", NoFlash) && db.customers == old(db.customers)
    ensures errors == [] ==>
      page == Page("redirect:/login", Success("Account created successfully! Please login."))
      && db.customers == old(db.customers) + [customer]
  {
    errors := [];
    if customer.password != confirmPassword {
      errors := errors + [FieldError("password", "Passwords do not match")];
    }
    if ExistsByUsername(db.customers, customer.username) {
      errors := errors + [FieldError("username", "Username already exists")];
    }
    if ExistsByEmail(db.customers, customer.email) {
      errors := errors + [FieldError("email", "Email already exists")];
    }
    if errors != [] {
      return Page("signup", NoFlash), errors;
    }
    db.customers := db.customers + [customer];
    page := Page("redirect:/login", Success("Account created successfully! Please login."));
  }

  // ---------------------------------------------------------------------------------------------
  // Logout

  /** `logout`: forgets the customer and nothing else; a staff login in the same session survives. */
  method Logout(session: Session) returns (page: Page)
    modifies session`customer
    ensures session.customer.None? && page == Page("redirect:/", Success("You have been logged out successfully."))
  {
    session.customer := None;
    page := Page("redirect:/", Success("You have been logged out successfully."));
  }
}

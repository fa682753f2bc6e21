/**
 * Staff sign-in: `EmployeeService`'s lookups and `EmployeeController`'s login, logout and the
 * role-specific dashboards each login lands on.
 */
module EmployeePortal {
  import opened Wrappers
  import opened Seqs
  import opened Employees
  import opened Sessions
  import opened Database

  /** `findByEmpidAndIsActiveTrue`, which `getEmployeeByEmpid` returns. */
  function FindByEmpidAndIsActiveTrue(es: seq<EmployeeRecord>, empid: string): (r: Option<EmployeeRecord>)
    ensures r.Some? ==> r.value in es && r.value.empid == empid && r.value.isActive
    ensures r.None? <==> forall k :: 0 <= k < |es| ==> es[k].empid != empid || !es[k].isActive
  {
    FindFirst(es, (e: EmployeeRecord) => e.empid == empid && e.isActive)
  }

  /** `existsByEmpid`, which `employeeExists` returns: active or not. */
  predicate ExistsByEmpid(es: seq<EmployeeRecord>, empid: string)
  {
    exists k :: 0 <= k < |es| && es[k].empid == empid
  }

  /** The table's key: no two employees share an id. */
  predicate EmpidsUnique(es: seq<EmployeeRecord>)
  {
    forall i, j :: 0 <= i < |es| && 0 <= j < |es| && i != j ==> es[i].empid != es[j].empid
  }

  /** A deactivated employee still exists, yet is invisible to `getEmployeeByEmpid`. */
  lemma InactiveExistsButIsHidden(es: seq<EmployeeRecord>, k: nat)
    requires EmpidsUnique(es) && k < |es| && !es[k].isActive
    ensures ExistsByEmpid(es, es[k].empid)
    ensures FindByEmpidAndIsActiveTrue(es, es[k].empid).None?
  {
  }

  /** `authenticateEmployee`: the active employee with that id, when the password matches exactly. */
  function AuthenticateEmployee(es: seq<EmployeeRecord>, empid: string, password: string): (r: Option<EmployeeRecord>)
    ensures r.Some? ==> r.value in es && r.value.empid == empid && r.value.isActive && r.value.password == password
  {
    match FindByEmpidAndIsActiveTrue(es, empid)
    case None => None
    case Some(e) => if password == e.password then Some(e) else None
  }

  /**
   * With ids unique, authentication succeeds exactly when an active employee has that id and that
   * very password; so an inactive employee, or a wrong password, is never authenticated.
   */
  lemma AuthenticateIff(es: seq<EmployeeRecord>, empid: string, password: string)
    requires EmpidsUnique(es)
    ensures AuthenticateEmployee(es, empid, password).Some? <==>
      exists k :: 0 <= k < |es| && es[k].empid == empid && es[k].isActive && es[k].password == password
  {
    if k :| 0 <= k < |es| && es[k].empid == empid && es[k].isActive && es[k].password == password {
      var found := FindByEmpidAndIsActiveTrue(es, empid).value;
      var j :| 0 <= j < |es| && es[j] == found;
      assert j == k;
    }
  }

  // ---------------------------------------------------------------------------------------------
  // The dashboards

  const RedirectPrefix: string := "redirect:"
  const LoginRedirect: string := "redirect:/employee/login"
  const GenericDashboard: string := "/employee/dashboard"
  const CashierDashboard: string := "/employee/cashier-dashboard"
  const StoreManagerDashboard: string := "/employee/store-manager-dashboard"
  const ItAssistantDashboard: string := "/employee/it-assistant-dashboard"
  const DeliveryCoordinatorDashboard: string := "/employee/delivery-coordinator-dashboard"

  /** The path each role's own dashboard is mapped to. */
  function DashboardPath(t: EmployeeType): (r: string)
    ensures r != GenericDashboard
  {
    match t
    case CASHIER => CashierDashboard
    case STORE_MANAGER => StoreManagerDashboard
    case IT_ASSISTANT => ItAssistantDashboard
    case DELIVERY_COORDINATOR => DeliveryCoordinatorDashboard
  }

  /** The view each role's dashboard renders. */
  function DashboardView(t: EmployeeType): string
  {
    match t
    case CASHIER => "cashier-dashboard"
    case STORE_MANAGER => "store-manager-dashboard"
    case IT_ASSISTANT => "it-assistant-dashboard"
    case DELIVERY_COORDINATOR => "delivery-coordinator-dashboard"
  }

  /** `redirectBasedOnEmployeeType`: every role has a case, so the generic dashboard is never chosen. */
  function RedirectFor(t: EmployeeType): (r: string)
    ensures r != RedirectPrefix + GenericDashboard
  {
    RedirectPrefix + DashboardPath(t)
  }

  /** A role dashboard's guard: the employee in the session must hold exactly that role. */
  function RoleDashboard(employee: Option<EmployeeRecord>, t: EmployeeType): (r: string)
    ensures r != LoginRedirect <==> employee.Some? && employee.value.employeeType == t
  {
    if employee.None? || employee.value.employeeType != t then LoginRedirect else DashboardView(t)
  }

  /** The staff pages a `GET` can reach: the generic dashboard admits any employee, a role's only that role. */
  function Route(path: string, employee: Option<EmployeeRecord>): Option<string>
  {
    if path == GenericDashboard then Some(if employee.None? then LoginRedirect else "employee-dashboard")
    else if path == CashierDashboard then Some(RoleDashboard(employee, CASHIER))
    else if path == StoreManagerDashboard then Some(RoleDashboard(employee, STORE_MANAGER))
    else if path == ItAssistantDashboard then Some(RoleDashboard(employee, IT_ASSISTANT))
    else if path == DeliveryCoordinatorDashboard then Some(RoleDashboard(employee, DELIVERY_COORDINATOR))
    else None
  }

  /**
   * Following a role's redirect with another employee of that role in the session shows the role's
   * own dashboard, while anyone of a different role is sent back to the login page.
   */
  lemma RedirectReachesOwnDashboard(t: EmployeeType, e: EmployeeRecord)
    ensures Route(RedirectFor(t)[|RedirectPrefix|..], Some(e))
         == Some(if e.employeeType == t then DashboardView(t) else LoginRedirect)
  {
    assert RedirectFor(t)[|RedirectPrefix|..] == DashboardPath(t);
    match t
    case CASHIER =>
    case STORE_MANAGER =>
      assert |StoreManagerDashboard| != |CashierDashboard|;
    case IT_ASSISTANT =>
      assert |ItAssistantDashboard| != |CashierDashboard|;
      assert |ItAssistantDashboard| != |StoreManagerDashboard|;
    case DELIVERY_COORDINATOR =>
      assert |DeliveryCoordinatorDashboard| != |CashierDashboard|;
      assert |DeliveryCoordinatorDashboard| != |StoreManagerDashboard|;
      assert |DeliveryCoordinatorDashboard| != |ItAssistantDashboard|;
  }

  // ---------------------------------------------------------------------------------------------
  // Login and logout

  const InvalidCredentials: string := "Invalid employee ID or password"
  const TypeMismatch: string := "Employee type mismatch. Please select the correct employee type."
  const LoggedOut: string := "You have been logged out successfully."

  function Welcome(e: EmployeeRecord): string
  {
    "Welcome, " + e.empid + " (" + e.employeeType.DisplayName() + ")!"
  }

  /** The outcome of `employeeLoginProcess`: authenticated, and with the role the form selected. */
  function LoginPage(es: seq<EmployeeRecord>, empid: string, password: string, role: string): Page
  {
    match AuthenticateEmployee(es, empid, password)
    case None => Page(LoginRedirect, Error(InvalidCredentials))
    case Some(e) =>
      if e.employeeType.Name() == role then Page(RedirectFor(e.employeeType), Success(Welcome(e)))
      else Page(LoginRedirect, Error(TypeMismatch))
  }

  /**
   * The right password with the wrong role is refused; a login that goes through lands on a
   * dashboard that admits the employee now in the session, and only the login page otherwise.
   */
  lemma LoginLandsOnOwnDashboard(es: seq<EmployeeRecord>, empid: string, password: string, role: string)
    ensures var page := LoginPage(es, empid, password, role);
      match AuthenticateEmployee(es, empid, password)
      case None => page == Page(LoginRedirect, Error(InvalidCredentials))
      case Some(e) =>
        if role == e.employeeType.Name()
        then page.view[..|RedirectPrefix|] == RedirectPrefix
          && Route(page.view[|RedirectPrefix|..], Some(e)) == Some(DashboardView(e.employeeType))
        else page == Page(LoginRedirect, Error(TypeMismatch))
  {
    var found := AuthenticateEmployee(es, empid, password);
    if found.Some? && role == found.value.employeeType.Name() {
      RedirectReachesOwnDashboard(found.value.employeeType, found.value);
    }
  }

  /** `employeeLoginProcess`: a successful login stores the employee and the role's display name. */
  method EmployeeLoginProcess(session: Session, db: Store, empid: string, password: string, role: string)
    returns (page: Page)
    modifies session`employee, session`employeeType
    ensures page == LoginPage(db.employees, empid, password, role)
    ensures var e := AuthenticateEmployee(db.employees, empid, password);
      if e.Some? && e.value.employeeType.Name() == role
      then session.employee == e && session.employeeType == Some(e.value.employeeType.DisplayName())
      else session.employee == old(session.employee) && session.employeeType == old(session.employeeType)
  {
    var found := AuthenticateEmployee(db.employees, empid, password);
    if found.None? {
      return Page(LoginRedirect, Error(InvalidCredentials));
    }
    var employee := found.value;
    if employee.employeeType.Name() != role {
      return Page(LoginRedirect, Error(TypeMismatch));
    }
    session.employee := Some(employee);
    session.employeeType := Some(employee.employeeType.DisplayName());
    page := Page(RedirectFor(employee.employeeType), Success(Welcome(employee)));
  }

  /** `employeeLogout`: forgets the employee and the role, and nothing else. */
  method EmployeeLogout(session: Session) returns (page: Page)
    modifies session`employee, session`employeeType
    ensures session.employee.None? && session.employeeType.None?
    ensures page == Page(LoginRedirect, Success(LoggedOut))
  {
    session.employee := None;
    session.employeeType := None;
    page := Page(LoginRedirect, Success(LoggedOut));
  }
}

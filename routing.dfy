/** How the login page's destinations and the two layouts' guards fit
    together: every signed-in profile lands in the one area that admits it. */
module Routing {
  import opened Firebase
  import Login
  import AdminLayout
  import EmployeeLayout
  import Employees

  /** No user passes both guards, and every user passes exactly one. */
  lemma GuardsPartitionUsers(user: Option<Employee>)
    ensures !(AdminLayout.Admits(user) && EmployeeLayout.Admits(user))
    ensures AdminLayout.Admits(user) || EmployeeLayout.Admits(user) <==> user.Some?
  {
  }

  /** The login page sends a profile to the first page of the admin area
      exactly when the admin guard admits it, and to the dashboard exactly
      when the employee guard does. */
  lemma DestinationAdmits(e: Employee)
    ensures Login.Destination(e.role) == AdminLayout.Navigation()[0].href <==> AdminLayout.Admits(Some(e))
    ensures Login.Destination(e.role) == Login.EmployeeHome <==> EmployeeLayout.Admits(Some(e))
    ensures "/admin/" <= Login.Destination(e.role) <==> AdminLayout.Admits(Some(e))
  {
    assert !("/admin/" <= Login.EmployeeHome) by {
      assert Login.EmployeeHome[1] != "/admin/"[1];
    }
  }

  /** A profile added from the employees page reaches only the employee area. */
  lemma NewProfileRouting(form: Employees.EmployeeForm, uid: string, now: Millis)
    ensures var e := Employees.NewProfile(form, uid, now);
      EmployeeLayout.Admits(Some(e)) && !AdminLayout.Admits(Some(e))
      && Login.Destination(e.role) == Login.EmployeeHome
  {
  }
}

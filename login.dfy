/** app/login/page.tsx: the sign-in form's submit handler and the route it
    sends each role to. */
module Login {
  import opened Firebase
  import Auth

  const AdminHome: string := "/admin/employees"
  const EmployeeHome: string := "/employee/dashboard"

  /** Admins go to the employees page, every other role to the dashboard. */
  function Destination(role: Role): (r: string)
    ensures r == AdminHome <==> role == AdminRole
    ensures r == EmployeeHome <==> role != AdminRole
  {
    if role == AdminRole then AdminHome else EmployeeHome
  }

  /** JavaScript truthiness of an optional message. */
  predicate Truthy(s: Option<string>) {
    s.Some? && s.value != ""
  }

  class LoginPage {
    var loading: bool
    var error: string
    /** The route passed to router.push, if any. */
    var navigatedTo: Option<string>

    constructor ()
      ensures !loading && error == "" && navigatedTo == None
    {
      loading := false;
      error := "";
      navigatedTo := None;
    }

    /** `handleSubmit`: clear the error and set loading, sign in, then show
        the error or navigate by role; loading is off at the end either way. */
    method HandleSubmit(be: Backend, credential: Result<string, Failure>)
      modifies this, be
      ensures var r := Auth.SignInOutcome(old(be.employees), credential);
        && (r.error.Some? ==> error == r.error.value && navigatedTo == old(navigatedTo))
        && (r.employee.Some? ==> error == "" && navigatedTo == Some(Destination(r.employee.value.role)))
        && (r.employee.Some? ==> be.session == Session(Some(credential.value), r.employee))
        && (credential.Ok? && r.employee.None? ==> be.session == old(be.session).(authUser := None))
        && (credential.Err? ==> be.session == old(be.session))
      ensures !loading
      ensures be.tasks == old(be.tasks) && be.employees == old(be.employees) && be.accounts == old(be.accounts)
    {
      loading := true;
      error := "";
      var r := Auth.SignIn(be, credential);
      if Truthy(r.error) {
        error := r.error.value;
        loading := false;
        return;
      }
      if r.employee.Some? {
        navigatedTo := Some(Destination(r.employee.value.role));
      }
      loading := false;
    }
  }
}

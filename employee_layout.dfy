/** components/layout/employee-layout.tsx: the employee area's guard and
    its sign-out button. */
module EmployeeLayout {
  import opened Firebase
  import Auth

  const LoginPath: string := "/login"

  /** The guard: only a user whose role is employee stays. */
  predicate Admits(user: Option<Employee>) {
    user.Some? && user.value.role == EmployeeRole
  }

  class Layout {
    var currentUser: Option<Employee>
    var navigatedTo: Option<string>

    constructor ()
      ensures currentUser == None && navigatedTo == None
      ensures ShowsPlaceholder()
    {
      currentUser := None;
      navigatedTo := None;
    }

    /** Only the loading placeholder renders until a user is admitted. */
    predicate ShowsPlaceholder()
      reads this
    {
      currentUser.None?
    }

    /** `checkAuth`: an employee is admitted; anyone else, or nobody, is
        sent to the login page and no user is set. */
    method CheckAuth(be: Backend, isBrowser: bool)
      modifies this, be
      ensures var l := Auth.CurrentUserLookup(isBrowser, old(be.session), old(be.employees));
        && be.session == l.session
        && (Admits(l.user) ==> currentUser == l.user && navigatedTo == old(navigatedTo))
        && (!Admits(l.user) ==> navigatedTo == Some(LoginPath) && currentUser == old(currentUser))
        && (Admits(l.user) ==> !ShowsPlaceholder())
        && (!Admits(l.user) ==> ShowsPlaceholder() == old(ShowsPlaceholder()))
      ensures be.tasks == old(be.tasks) && be.employees == old(be.employees) && be.accounts == old(be.accounts)
    {
      var user := Auth.GetCurrentUser(be, isBrowser);
      if user.None? || user.value.role != EmployeeRole {
        navigatedTo := Some(LoginPath);
        return;
      }
      currentUser := user;
    }

    /** `handleSignOut`: sign out first, then go to the login page. */
    method HandleSignOut(be: Backend, remoteOk: bool)
      modifies this, be
      ensures be.session == if remoteOk then Session(None, None) else old(be.session)
      ensures navigatedTo == Some(LoginPath) && currentUser == old(currentUser)
      ensures be.tasks == old(be.tasks) && be.employees == old(be.employees) && be.accounts == old(be.accounts)
    {
      Auth.SignOut(be, remoteOk);
      navigatedTo := Some(LoginPath);
    }
  }
}

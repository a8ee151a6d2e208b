/** components/layout/admin-layout.tsx: the admin area's guard, its
    navigation and its sign-out button. */
module AdminLayout {
  import opened Firebase
  import Auth

  const LoginPath: string := "/login"

  /** The guard: only a user whose role is admin stays. */
  predicate Admits(user: Option<Employee>) {
    user.Some? && user.value.role == AdminRole
  }

  datatype NavItem = NavItem(name: string, href: string)

  /** The sidebar: three pages of the admin area, each with its own href. */
  function Navigation(): (r: seq<NavItem>)
    ensures |r| == 3
    ensures forall i, j :: 0 <= i < j < |r| ==> r[i].href != r[j].href
    ensures forall i :: 0 <= i < |r| ==> "/admin/" <= r[i].href
  {
    [ NavItem("Employees", "/admin/employees"),
      NavItem("Assign Work", "/admin/assign-work"),
      NavItem("Previous Tasks", "/admin/previous-tasks") ]
  }

  /** An item is highlighted when the current path is its href. */
  predicate IsActive(pathname: string, item: NavItem) {
    pathname == item.href
  }

  /** Since the hrefs differ, at most one item is highlighted. */
  lemma AtMostOneActive(pathname: string, i: nat, j: nat)
    requires i < |Navigation()| && j < |Navigation()|
    requires IsActive(pathname, Navigation()[i]) && IsActive(pathname, Navigation()[j])
    ensures i == j
  {
  }

  class Layout {
    var currentUser: Option<Employee>
    var navigatedTo: Option<string>

    constructor ()
      ensures currentUser == None && navigatedTo == None
      ensures ShowsPlaceholder()
    {
      currentUser := None;
      navigatedTo := None;
    }

    /** Only the loading placeholder renders until a user is admitted. */
    predicate ShowsPlaceholder()
      reads this
    {
      currentUser.None?
    }

    /** `checkAuth`: an admin is admitted; anyone else, or nobody, is sent
        to the login page and no user is set. */
    method CheckAuth(be: Backend, isBrowser: bool)
      modifies this, be
      ensures var l := Auth.CurrentUserLookup(isBrowser, old(be.session), old(be.employees));
        && be.session == l.session
        && (Admits(l.user) ==> currentUser == l.user && navigatedTo == old(navigatedTo))
        && (!Admits(l.user) ==> navigatedTo == Some(LoginPath) && currentUser == old(currentUser))
        && (Admits(l.user) ==> !ShowsPlaceholder())
        && (!Admits(l.user) ==> ShowsPlaceholder() == old(ShowsPlaceholder()))
      ensures be.tasks == old(be.tasks) && be.employees == old(be.employees) && be.accounts == old(be.accounts)
    {
      var user := Auth.GetCurrentUser(be, isBrowser);
      if user.None? || user.value.role != AdminRole {
        navigatedTo := Some(LoginPath);
        return;
      }
      currentUser := user;
    }

    /** `handleSignOut`: sign out first, then go to the login page. */
    method HandleSignOut(be: Backend, remoteOk: bool)
      modifies this, be
      ensures be.session == if remoteOk then Session(None, None) else old(be.session)
      ensures navigatedTo == Some(LoginPath) && currentUser == old(currentUser)
      ensures be.tasks == old(be.tasks) && be.employees == old(be.employees) && be.accounts == old(be.accounts)
    {
      Auth.SignOut(be, remoteOk);
      navigatedTo := Some(LoginPath);
    }
  }
}

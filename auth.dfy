/** lib/auth.ts: sign-in, the cached current user and sign-out, as steps on
    the backend's session. The auth service's verdict on a credential is a
    parameter: the uid it signs in, or the error it throws. */
module Auth {
  import opened Firebase

  const GenericLoginError: string := "Login failed. Please check your credentials."
  const BadCredentials: string := "Invalid email or password."
  const BadEmailFormat: string := "Invalid email format."

  /** The thrown error when a signed-in account has no profile; it has no code. */
  const MissingProfile: Failure := Failure(None, "User profile not found. Please contact support.")

  /** The catch block's message: three codes mean bad credentials, one a
      malformed address, everything else (including no code) the generic text. */
  function SignInError(code: Option<string>): (r: string)
    ensures r == BadCredentials <==>
      code == Some("auth/user-not-found") || code == Some("auth/wrong-password") || code == Some("auth/invalid-credential")
    ensures r == BadEmailFormat <==> code == Some("auth/invalid-email")
    ensures r == BadCredentials || r == BadEmailFormat || r == GenericLoginError
  {
    if code == Some("auth/user-not-found") || code == Some("auth/wrong-password") || code == Some("auth/invalid-credential") then
      BadCredentials
    else if code == Some("auth/invalid-email") then
      BadEmailFormat
    else
      GenericLoginError
  }

  /** `{ employee, error }` as signIn returns it. */
  datatype SignInResult = SignInResult(employee: Option<Employee>, error: Option<string>)

  /** What signIn returns for a credential verdict and the stored profiles. */
  function SignInOutcome(employees: map<string, Employee>, credential: Result<string, Failure>): (r: SignInResult)
    ensures r.employee.Some? != r.error.Some?
    ensures r.employee.Some? <==> credential.Ok? && credential.value in employees
    ensures r.employee.Some? ==> r.employee.value == employees[credential.value]
    ensures credential.Err? ==> r.error == Some(SignInError(credential.error.code))
    ensures credential.Ok? && credential.value !in employees ==> r.error == Some(GenericLoginError)
  {
    match credential
    case Err(f) => SignInResult(None, Some(SignInError(f.code)))
    case Ok(uid) =>
      if uid in employees then SignInResult(Some(employees[uid]), None)
      else SignInResult(None, Some(SignInError(MissingProfile.code)))
  }

  /** The session cache holds, if anything, a profile of the store. */
  ghost predicate CachedIsProfile(s: Session, employees: map<string, Employee>) {
    s.storedUser.Some? ==> s.storedUser.value in employees.Values
  }

  /** `signIn(email, password)`. On success the profile is cached before it
      is returned; a missing profile signs the account out again. */
  method SignIn(be: Backend, credential: Result<string, Failure>) returns (r: SignInResult)
    modifies be
    ensures r == SignInOutcome(old(be.employees), credential)
    ensures be.tasks == old(be.tasks) && be.employees == old(be.employees) && be.accounts == old(be.accounts)
    ensures r.employee.Some? ==> be.session == Session(Some(credential.value), r.employee)
    ensures credential.Ok? && r.employee.None? ==> be.session == old(be.session).(authUser := None)
    ensures credential.Err? ==> be.session == old(be.session)
    ensures CachedIsProfile(old(be.session), old(be.employees)) ==> CachedIsProfile(be.session, be.employees)
  {
    match credential {
      case Err(f) =>
        r := SignInResult(None, Some(SignInError(f.code)));
      case Ok(uid) =>
        be.session := be.session.(authUser := Some(uid));
        if uid !in be.employees {
          be.session := be.session.(authUser := None);
          r := SignInResult(None, Some(SignInError(MissingProfile.code)));
        } else {
          var profile := be.employees[uid];
          be.session := be.session.(storedUser := Some(profile));
          r := SignInResult(Some(profile), None);
        }
    }
  }

  /** The user getCurrentUser resolves to, and the session afterwards. */
  datatype Lookup = Lookup(user: Option<Employee>, session: Session)

  /** getCurrentUser: nobody server-side; the cached profile when there is
      one, with no remote lookup; otherwise the signed-in account's profile,
      which is then cached, and an account without a profile is signed out. */
  function CurrentUserLookup(isBrowser: bool, s: Session, employees: map<string, Employee>): (r: Lookup)
    ensures !isBrowser ==> r == Lookup(None, s)
    ensures isBrowser && s.storedUser.Some? ==> r == Lookup(s.storedUser, s)
    ensures isBrowser && s.storedUser.None? ==>
      (r.user.Some? <==> s.authUser.Some? && s.authUser.value in employees)
    ensures isBrowser && s.storedUser.None? && r.user.Some? ==>
      r.user.value == employees[s.authUser.value] && r.session == s.(storedUser := r.user)
    ensures isBrowser && s.storedUser.None? && s.authUser.Some? && s.authUser.value !in employees ==>
      r.session == s.(authUser := None)
    ensures s.authUser.None? && s.storedUser.None? ==> r == Lookup(None, s)
  {
    if !isBrowser then Lookup(None, s)
    else if s.storedUser.Some? then Lookup(s.storedUser, s)
    else match s.authUser
      case None => Lookup(None, s)
      case Some(uid) =>
        if uid in employees then Lookup(Some(employees[uid]), s.(storedUser := Some(employees[uid])))
        else Lookup(None, s.(authUser := None))
  }

  /** Whatever getCurrentUser returns is the cached profile or a stored one. */
  lemma LookupYieldsProfile(isBrowser: bool, s: Session, employees: map<string, Employee>)
    requires CachedIsProfile(s, employees)
    ensures var r := CurrentUserLookup(isBrowser, s, employees);
      (r.user.Some? ==> r.user.value in employees.Values) && CachedIsProfile(r.session, employees)
  {
  }

  /** `getCurrentUser()`. */
  method GetCurrentUser(be: Backend, isBrowser: bool) returns (u: Option<Employee>)
    modifies be
    ensures Lookup(u, be.session) == CurrentUserLookup(isBrowser, old(be.session), old(be.employees))
    ensures be.tasks == old(be.tasks) && be.employees == old(be.employees) && be.accounts == old(be.accounts)
  {
    if !isBrowser {
      return None;
    }
    if be.session.storedUser.Some? {
      return be.session.storedUser;
    }
    match be.session.authUser {
      case None =>
        u := None;
      case Some(uid) =>
        if uid in be.employees {
          var profile := be.employees[uid];
          be.session := be.session.(storedUser := Some(profile));
          u := Some(profile);
        } else {
          be.session := be.session.(authUser := None);
          u := None;
        }
    }
  }

  /** `signOut()`: the cache is cleared only after the auth service has
      signed out; a failure is swallowed and changes nothing. */
  method SignOut(be: Backend, remoteOk: bool)
    modifies be
    ensures be.session == if remoteOk then Session(None, None) else old(be.session)
    ensures be.tasks == old(be.tasks) && be.employees == old(be.employees) && be.accounts == old(be.accounts)
  {
    if remoteOk {
      be.session := be.session.(authUser := None);
      be.session := be.session.(storedUser := None);
    }
  }
}

/** app/admin/employees/page.tsx: the employee list and the "add employee"
    form, which creates an auth account and then the profile document. */
module Employees {
  import opened Firebase

  /** The `where("role", "==", "employee")` clause. */
  predicate IsStaff(e: Employee) {
    e.role == EmployeeRole
  }

  /** `{ uid: doc.id, ...doc.data() }` for every employee-role profile of a
      snapshot, in snapshot order. The stored data carries its own uid, which
      the spread keeps. */
  function ListedEmployees(docs: seq<Doc<Employee>>): (r: seq<Employee>)
    ensures |r| <= |docs|
    ensures forall e :: e in r ==> IsStaff(e) && exists d :: d in docs && d.data == e
    ensures forall d :: d in docs && IsStaff(d.data) ==> d.data in r
  {
    var staff := Where(docs, IsStaff);
    var r := seq(|staff|, i requires 0 <= i < |staff| => staff[i].data);
    assert forall d :: d in staff ==> d.data in r by {
      forall d | d in staff ensures d.data in r {
        var i :| 0 <= i < |staff| && staff[i] == d;
        assert r[i] == d.data;
      }
    }
    r
  }

  datatype EmployeeForm = EmployeeForm(
    fullName: string, email: string, password: string, contactNumber: string, position: string)

  const EmptyEmployeeForm: EmployeeForm := EmployeeForm("", "", "", "", "")

  /** The profile written for a new account: the account's uid, the form's
      fields (an empty contact number stays ""), and always the employee role. */
  function NewProfile(form: EmployeeForm, uid: string, now: Millis): (r: Employee)
    ensures r.role == EmployeeRole && IsStaff(r)
    ensures r.uid == uid && r.email == form.email && r.createdAt == now
    ensures r.fullName == form.fullName && r.position == form.position
    ensures r.contactNumber == Some(form.contactNumber)
  {
    Employee(uid, form.fullName, form.email, Some(form.contactNumber), form.position, EmployeeRole, now)
  }

  const EmailInUse: string := "Email already in use. Please use a different email."
  const WeakPassword: string := "Password is too weak. Must be at least 6 characters."
  const InvalidEmail: string := "Invalid email format."
  const GenericAddError: string := "Error adding employee. Please try again."

  /** The catch block's message: three auth codes get their own text, any
      other code (or none) the generic one. */
  function AddEmployeeError(code: Option<string>): (r: string)
    ensures r == EmailInUse <==> code == Some("auth/email-already-in-use")
    ensures r == WeakPassword <==> code == Some("auth/weak-password")
    ensures r == InvalidEmail <==> code == Some("auth/invalid-email")
    ensures r == EmailInUse || r == WeakPassword || r == InvalidEmail || r == GenericAddError
  {
    if code == Some("auth/email-already-in-use") then EmailInUse
    else if code == Some("auth/weak-password") then WeakPassword
    else if code == Some("auth/invalid-email") then InvalidEmail
    else GenericAddError
  }

  /** Every profile document is stored under its own uid. */
  ghost predicate ProfilesKeyedByUid(employees: map<string, Employee>) {
    forall k :: k in employees ==> employees[k].uid == k
  }

  class EmployeesPage {
    var employees: seq<Employee>
    var loading: bool
    var showAddDialog: bool
    var addingEmployee: bool
    var newEmployee: EmployeeForm
    var addError: string

    constructor ()
      ensures employees == [] && loading && !showAddDialog && !addingEmployee
      ensures newEmployee == EmptyEmployeeForm && addError == ""
    {
      employees := [];
      loading := true;
      showAddDialog := false;
      addingEmployee := false;
      newEmployee := EmptyEmployeeForm;
      addError := "";
    }

    /** `fetchEmployees`: the employee-role profiles, or none on error. */
    method FetchEmployees(be: Backend, docs: seq<Doc<Employee>>, fetchOk: bool)
      requires SnapshotOf(docs, be.employees)
      modifies this
      ensures employees == if fetchOk then ListedEmployees(docs) else []
      ensures !loading
      ensures showAddDialog == old(showAddDialog) && addingEmployee == old(addingEmployee)
      ensures newEmployee == old(newEmployee) && addError == old(addError)
    {
      loading := true;
      if fetchOk {
        var staff := Where(docs, IsStaff);
        employees := seq(|staff|, i requires 0 <= i < |staff| => staff[i].data);
      } else {
        employees := [];
      }
      loading := false;
    }

    /** `handleAddEmployee`. `created` is the auth service's answer to
        createUserWithEmailAndPassword (the new uid, or the error it throws);
        `profileError` is an error setDoc throws, if any. The profile is
        written only after the account exists, under its uid. */
    method HandleAddEmployee(be: Backend, now: Millis, created: Result<string, Failure>, profileError: Option<Failure>)
      modifies this, be
      ensures be.tasks == old(be.tasks) && be.session == old(be.session)
      ensures employees == old(employees) && loading == old(loading) && !addingEmployee
      ensures created.Err? ==>
        && be.accounts == old(be.accounts) && be.employees == old(be.employees)
        && addError == AddEmployeeError(created.error.code)
        && newEmployee == old(newEmployee) && showAddDialog == old(showAddDialog)
      ensures created.Ok? ==> be.accounts == old(be.accounts)[created.value := old(newEmployee).email]
      ensures created.Ok? && profileError.None? ==>
        && be.employees == old(be.employees)[created.value := NewProfile(old(newEmployee), created.value, now)]
        && newEmployee == EmptyEmployeeForm && !showAddDialog && addError == ""
      ensures created.Ok? && profileError.Some? ==>
        && be.employees == old(be.employees)
        && addError == AddEmployeeError(profileError.value.code)
        && newEmployee == old(newEmployee) && showAddDialog == old(showAddDialog)
      ensures be.employees != old(be.employees) ==> created.Ok? && created.value in be.accounts
      ensures ProfilesKeyedByUid(old(be.employees)) ==> ProfilesKeyedByUid(be.employees)
    {
      addingEmployee := true;
      addError := "";
      match created {
        case Err(f) =>
          addError := AddEmployeeError(f.code);
        case Ok(uid) =>
          be.accounts := be.accounts[uid := newEmployee.email];
          var profile := NewProfile(newEmployee, uid, now);
          if profileError.Some? {
            addError := AddEmployeeError(profileError.value.code);
          } else {
            be.employees := be.employees[uid := profile];
            newEmployee := EmptyEmployeeForm;
            showAddDialog := false;
          }
      }
      addingEmployee := false;
    }
  }
}

/** app/admin/assign-work/page.tsx: create tasks, list the active ones
    joined with their employee, and delete a task. */
module AssignWork {
  import opened Firebase
  import opened Lifecycle
  import Employees

  /** The four fields of the "assign task" form. */
  datatype TaskForm = TaskForm(taskName: string, description: string, category: string, assignedToUid: string)

  const EmptyTaskForm: TaskForm := TaskForm("", "", "", "")

  /** The document `handleAssignTask` adds. Both timestamps come from one
      clock reading; an empty description or category is stored as "". */
  function NewTask(form: TaskForm, now: Millis): (r: Task)
    ensures r.status == NotStarted && r.statusChangeCount == Some(0)
    ensures r.createdAt == now && r.expiresAt - r.createdAt == TaskLifetimeMillis
    ensures r.taskName == form.taskName && r.assignedToUid == form.assignedToUid
    ensures r.description == Some(form.description) && r.category == Some(form.category)
    ensures r.id.None? && r.employee.None?
  {
    Task(None, form.taskName, Some(form.description), Some(form.category), form.assignedToUid,
         NotStarted, Some(0), now, now + 24 * 60 * 60 * 1000, None)
  }

  /** A new task is active for exactly 24 hours and previous from then on,
      and it admits exactly two status changes, which touch nothing else. */
  lemma NewTaskLifecycle(form: TaskForm, now: Millis, later: Millis, ss: seq<Status>)
    ensures IsActive(NewTask(form, now), later) <==> later < now + TaskLifetimeMillis
    ensures IsPrevious(NewTask(form, now), now + TaskLifetimeMillis)
    ensures ChangeCount(Run(NewTask(form, now), ss)) == Min(|ss|, MaxStatusChanges)
    ensures Run(NewTask(form, now), ss).expiresAt == now + TaskLifetimeMillis
    ensures SameExceptStatus(NewTask(form, now), Run(NewTask(form, now), ss))
  {
    RunCount(NewTask(form, now), ss);
  }

  /** `employeesList.find((emp) => emp.uid === uid)`: the first employee
      with that uid, if any. */
  function FindByUid(emps: seq<Employee>, uid: string): (r: Option<Employee>)
    ensures r.None? <==> forall i :: 0 <= i < |emps| ==> emps[i].uid != uid
    ensures r.Some? ==> exists i :: (0 <= i < |emps| && emps[i] == r.value && r.value.uid == uid
                                     && forall j :: 0 <= j < i ==> emps[j].uid != uid)
  {
    if emps == [] then None
    else if emps[0].uid == uid then Some(emps[0])
    else
      var r := FindByUid(emps[1..], uid);
      assert forall i :: 1 <= i < |emps| ==> emps[i] == emps[1..][i - 1];
      r
  }

  /** One active task as the page lists it: its document id, its data, and
      the name and position of the listed employee whose uid it is assigned
      to, or no employee data when there is none. */
  function JoinEmployee(emps: seq<Employee>, d: Doc<Task>): (r: Task)
    ensures r.id == WithId(d).id && (d.data.id.None? ==> r.id == Some(d.id))
    ensures r.(id := d.data.id, employee := d.data.employee) == d.data
    ensures r.employee.Some? <==> exists i :: 0 <= i < |emps| && emps[i].uid == d.data.assignedToUid
    ensures r.employee.Some? ==>
      exists i :: (0 <= i < |emps| && emps[i].uid == d.data.assignedToUid
                   && (forall j :: 0 <= j < i ==> emps[j].uid != d.data.assignedToUid)
                   && r.employee == Some(Summary(emps[i])))
  {
    var found := FindByUid(emps, d.data.assignedToUid);
    WithId(d).(employee := if found.Some? then Some(Summary(found.value)) else None)
  }

  /** The page's task list: exactly the active documents, joined. */
  function ActiveTaskList(emps: seq<Employee>, docs: seq<Doc<Task>>, now: Millis): (r: seq<Task>)
    ensures forall i :: 0 <= i < |r| ==>
      exists d :: d in docs && IsActive(d.data, now) && r[i] == JoinEmployee(emps, d)
    ensures forall d :: d in docs && IsActive(d.data, now) ==> JoinEmployee(emps, d) in r
  {
    var active := ActiveDocs(docs, now);
    var r := seq(|active|, i requires 0 <= i < |active| => JoinEmployee(emps, active[i]));
    assert forall d :: d in active ==> JoinEmployee(emps, d) in r by {
      forall d | d in active ensures JoinEmployee(emps, d) in r {
        var i :| 0 <= i < |active| && active[i] == d;
        assert r[i] == JoinEmployee(emps, d);
      }
    }
    assert forall i :: 0 <= i < |r| ==> active[i] in active && r[i] == JoinEmployee(emps, active[i]);
    r
  }

  /** `taskToDelete.id` is truthy: present and not the empty string. */
  predicate HasId(t: Task) {
    t.id.Some? && t.id.value != ""
  }

  class AssignWorkPage {
    var employees: seq<Employee>
    var tasks: seq<Task>
    var loading: bool
    var showAssignDialog: bool
    var assigningTask: bool
    var deletingTask: bool
    /** The task whose deletion awaits confirmation. */
    var taskToDelete: Option<Task>
    var newTask: TaskForm
    var assignError: string

    constructor ()
      ensures employees == [] && tasks == [] && loading && !showAssignDialog
      ensures !assigningTask && !deletingTask && taskToDelete == None
      ensures newTask == EmptyTaskForm && assignError == ""
    {
      employees := [];
      tasks := [];
      loading := true;
      showAssignDialog := false;
      assigningTask := false;
      deletingTask := false;
      taskToDelete := None;
      newTask := EmptyTaskForm;
      assignError := "";
    }

    /** `fetchData`: the employee-role profiles, and the active tasks joined
        with them; both lists are empty if a query fails. */
    method FetchData(be: Backend, employeeDocs: seq<Doc<Employee>>, taskDocs: seq<Doc<Task>>,
                     fetchOk: bool, now: Millis)
      requires SnapshotOf(employeeDocs, be.employees) && SnapshotOf(taskDocs, be.tasks)
      modifies this
      ensures fetchOk ==>
        employees == Employees.ListedEmployees(employeeDocs) && tasks == ActiveTaskList(employees, taskDocs, now)
      ensures !fetchOk ==> employees == [] && tasks == []
      ensures !loading
      ensures newTask == old(newTask) && assignError == old(assignError) && taskToDelete == old(taskToDelete)
      ensures showAssignDialog == old(showAssignDialog)
      ensures assigningTask == old(assigningTask) && deletingTask == old(deletingTask)
    {
      loading := true;
      if fetchOk {
        var staff := Where(employeeDocs, Employees.IsStaff);
        var employeesList := seq(|staff|, i requires 0 <= i < |staff| => staff[i].data);
        employees := employeesList;
        var active := ActiveDocs(taskDocs, now);
        tasks := seq(|active|, i requires 0 <= i < |active| => JoinEmployee(employeesList, active[i]));
      } else {
        employees := [];
        tasks := [];
      }
      loading := false;
    }

    /** `handleAssignTask`. `added` is the store's answer to addDoc: the new
        document's id, or the message of the error it throws. */
    method HandleAssignTask(be: Backend, now: Millis, added: Result<string, string>)
      requires added.Ok? ==> added.value !in be.tasks
      modifies this, be
      ensures be.employees == old(be.employees) && be.accounts == old(be.accounts) && be.session == old(be.session)
      ensures employees == old(employees) && tasks == old(tasks) && taskToDelete == old(taskToDelete)
      ensures loading == old(loading) && deletingTask == old(deletingTask)
      ensures !assigningTask
      ensures added.Ok? ==>
        && be.tasks == old(be.tasks)[added.value := NewTask(old(newTask), now)]
        && |be.tasks| == |old(be.tasks)| + 1
        && newTask == EmptyTaskForm && assignError == "" && !showAssignDialog
      ensures added.Err? ==>
        && be.tasks == old(be.tasks)
        && newTask == old(newTask) && assignError == "Error assigning task: " + added.error
        && showAssignDialog == old(showAssignDialog)
      ensures CountsWithinLimit(old(be.tasks)) ==> CountsWithinLimit(be.tasks)
      ensures PlainTasks(old(be.tasks)) ==> PlainTasks(be.tasks)
    {
      assigningTask := true;
      assignError := "";
      var taskData := NewTask(newTask, now);
      match added {
        case Ok(id) =>
          be.tasks := be.tasks[id := taskData];
          newTask := EmptyTaskForm;
          showAssignDialog := false;
        case Err(message) =>
          assignError := "Error assigning task: " + message;
      }
      assigningTask := false;
    }

    /** The trash button and the dialog's Cancel: set or clear the pending task. */
    method SetTaskToDelete(t: Option<Task>)
      modifies this
      ensures taskToDelete == t
      ensures tasks == old(tasks) && newTask == old(newTask) && deletingTask == old(deletingTask)
      ensures employees == old(employees) && loading == old(loading) && showAssignDialog == old(showAssignDialog)
      ensures assigningTask == old(assigningTask) && assignError == old(assignError)
    {
      taskToDelete := t;
    }

    /** `handleDeleteTask`. `deleteError` is an error deleteDoc throws; the
        returned message is the alert shown. Deleting an id the store does
        not hold removes nothing. */
    method HandleDeleteTask(be: Backend, deleteError: Option<string>) returns (alert: Option<string>)
      modifies this, be
      ensures be.employees == old(be.employees) && be.accounts == old(be.accounts) && be.session == old(be.session)
      ensures tasks == old(tasks) && newTask == old(newTask) && employees == old(employees)
      ensures loading == old(loading) && showAssignDialog == old(showAssignDialog)
      ensures assigningTask == old(assigningTask) && assignError == old(assignError)
      ensures old(taskToDelete).None? || !HasId(old(taskToDelete).value) ==>
        alert.None? && be.tasks == old(be.tasks) && taskToDelete == old(taskToDelete)
        && deletingTask == old(deletingTask)
      ensures old(taskToDelete).Some? && HasId(old(taskToDelete).value) ==>
        var id := old(taskToDelete).value.id.value;
        && !deletingTask
        && (deleteError.None? ==> be.tasks == old(be.tasks) - {id} && taskToDelete.None? && alert.None?)
        && (deleteError.Some? ==>
              be.tasks == old(be.tasks) && taskToDelete == old(taskToDelete)
              && alert == Some("Error deleting task: " + deleteError.value))
      ensures CountsWithinLimit(old(be.tasks)) ==> CountsWithinLimit(be.tasks)
      ensures PlainTasks(old(be.tasks)) ==> PlainTasks(be.tasks)
    {
      if taskToDelete.None? || !HasId(taskToDelete.value) {
        return None;
      }
      deletingTask := true;
      var id := taskToDelete.value.id.value;
      if deleteError.Some? {
        alert := Some("Error deleting task: " + deleteError.value);
      } else {
        be.tasks := be.tasks - {id};
        taskToDelete := None;
        alert := None;
      }
      deletingTask := false;
    }
  }
}

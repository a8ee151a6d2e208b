/** app/employee/dashboard/page.tsx: an employee's active tasks and the
    dialog that changes a task's status at most MaxStatusChanges times. */
module EmployeeDashboard {
  import opened Firebase
  import opened Lifecycle
  import Auth

  /** "You have N status changes remaining." */
  function RemainingChanges(t: Task): (r: int)
    ensures r > 0 <==> CanUpdate(t)
    ensures 0 <= ChangeCount(t) ==> r <= MaxStatusChanges
  {
    MaxStatusChanges - ChangeCount(t)
  }

  /** The "limit reached" badge on a card, and the locked dialog. */
  predicate LimitReached(t: Task) {
    ChangeCount(t) >= MaxStatusChanges
  }

  /** The badge, the locked view and a refused update go together, and the
      remaining count is only shown positive while an update can succeed. */
  lemma LimitReachedIffRefused(t: Task, s: Status)
    ensures LimitReached(t) <==> Transition(t, s).None?
    ensures LimitReached(t) <==> !CanUpdate(t)
    ensures !LimitReached(t) && 0 <= ChangeCount(t) ==> 1 <= RemainingChanges(t) <= MaxStatusChanges
  {
  }

  /** The dashboard query: assigned to this uid and not yet expired. */
  predicate IsMine(t: Task, uid: string, now: Millis) {
    t.assignedToUid == uid && IsActive(t, now)
  }

  /** The list `fetchTasks` shows: none without a user or after an error,
      otherwise exactly the user's active tasks, each with its document id. */
  function VisibleTasks(user: Option<Employee>, fetchOk: bool, docs: seq<Doc<Task>>, now: Millis): (r: seq<Task>)
    ensures user.None? || !fetchOk ==> r == []
    ensures user.Some? && fetchOk ==>
      forall i :: 0 <= i < |r| ==> exists d :: d in docs && IsMine(d.data, user.value.uid, now) && r[i] == WithId(d)
    ensures user.Some? && fetchOk ==>
      forall d :: d in docs && IsMine(d.data, user.value.uid, now) ==> WithId(d) in r
  {
    if user.None? || !fetchOk then []
    else
      var mine := Where(docs, (t: Task) => IsMine(t, user.value.uid, now));
      var r := seq(|mine|, i requires 0 <= i < |mine| => WithId(mine[i]));
      assert forall d :: d in mine ==> WithId(d) in r by {
        forall d | d in mine ensures WithId(d) in r {
          var i :| 0 <= i < |mine| && mine[i] == d;
          assert r[i] == WithId(d);
        }
      }
      assert forall i :: 0 <= i < |r| ==> mine[i] in mine && r[i] == WithId(mine[i]);
      r
  }

  /** Against the store itself: the shown tasks are the stored tasks of
      this user that are still active; on a store of plain tasks each is
      named by its document id. */
  lemma VisibleTasksOfStore(user: Employee, docs: seq<Doc<Task>>, m: map<string, Task>, now: Millis)
    requires SnapshotOf(docs, m)
    ensures var r := VisibleTasks(Some(user), true, docs, now);
      && (forall i :: 0 <= i < |r| ==>
            exists k :: k in m && IsMine(m[k], user.uid, now) && r[i] == WithId(Doc(k, m[k])))
      && (forall k :: k in m && IsMine(m[k], user.uid, now) ==> WithId(Doc(k, m[k])) in r)
    ensures var r := VisibleTasks(Some(user), true, docs, now);
      PlainTasks(m) ==>
        forall i :: 0 <= i < |r| ==>
          r[i].id.Some? && r[i].id.value in m && IsMine(m[r[i].id.value], user.uid, now)
          && r[i] == m[r[i].id.value].(id := r[i].id)
  {
    var r := VisibleTasks(Some(user), true, docs, now);
    forall i | 0 <= i < |r|
      ensures exists k :: k in m && IsMine(m[k], user.uid, now) && r[i] == WithId(Doc(k, m[k]))
      ensures PlainTasks(m) ==>
        r[i].id.Some? && r[i].id.value in m && IsMine(m[r[i].id.value], user.uid, now)
        && r[i] == m[r[i].id.value].(id := r[i].id)
    {
      var d :| d in docs && IsMine(d.data, user.uid, now) && r[i] == WithId(d);
      assert d == Doc(d.id, m[d.id]);
      if PlainTasks(m) {
        PlainTaskWithId(docs, m, d);
      }
    }
  }

  const LimitMessage: string := "Status change limit reached for this task."
  const NotLoggedInMessage: string := "User not logged in."

  /** How a click on "Update Status" ends: nothing at all, an alert, or a write. */
  datatype UpdateOutcome = Skipped | Alert(message: string) | Updated

  class Dashboard {
    var tasks: seq<Task>
    var loading: bool
    var selectedTask: Option<Task>
    var showTaskDialog: bool
    /** The dialog's selection: None is the initial empty string; the
        select only ever offers the five status values. */
    var newStatus: Option<Status>
    var updatingStatus: bool

    constructor ()
      ensures tasks == [] && loading && selectedTask == None && !showTaskDialog
      ensures newStatus == None && !updatingStatus
    {
      tasks := [];
      loading := true;
      selectedTask := None;
      showTaskDialog := false;
      newStatus := None;
      updatingStatus := false;
    }

    /** The "Update Status" button is rendered (the quota is not used up)
        and enabled (a different status is chosen and no update is running). */
    predicate UpdateEnabled(): (r: bool)
      reads this
      ensures r ==> selectedTask.Some? && !LimitReached(selectedTask.value) && !updatingStatus
      ensures r && newStatus.Some? ==>
        newStatus.value != selectedTask.value.status && Transition(selectedTask.value, newStatus.value).Some?
    {
      && selectedTask.Some?
      && CanUpdate(selectedTask.value)
      && !(newStatus == Some(selectedTask.value.status) || updatingStatus)
    }

    /** `fetchTasks`. `docs` is the task collection as the store lists it. */
    method FetchTasks(be: Backend, isBrowser: bool, docs: seq<Doc<Task>>, fetchOk: bool, now: Millis)
      requires SnapshotOf(docs, be.tasks)
      modifies this, be
      ensures var l := Auth.CurrentUserLookup(isBrowser, old(be.session), old(be.employees));
        be.session == l.session && tasks == VisibleTasks(l.user, fetchOk, docs, now)
      ensures be.tasks == old(be.tasks) && be.employees == old(be.employees) && be.accounts == old(be.accounts)
      ensures !loading
      ensures selectedTask == old(selectedTask) && newStatus == old(newStatus)
      ensures showTaskDialog == old(showTaskDialog) && updatingStatus == old(updatingStatus)
    {
      loading := true;
      var user := Auth.GetCurrentUser(be, isBrowser);
      if user.None? {
        tasks := [];
        loading := false;
        return;
      }
      if fetchOk {
        var mine := Where(docs, (t: Task) => IsMine(t, user.value.uid, now));
        tasks := seq(|mine|, i requires 0 <= i < |mine| => WithId(mine[i]));
      } else {
        tasks := [];
      }
      loading := false;
    }

    /** `handleTaskClick`: open the dialog with the task's own status chosen,
        so the update button starts disabled. */
    method TaskClick(t: Task)
      modifies this
      ensures selectedTask == Some(t) && newStatus == Some(t.status) && showTaskDialog
      ensures tasks == old(tasks) && loading == old(loading) && updatingStatus == old(updatingStatus)
      ensures !UpdateEnabled()
    {
      selectedTask := Some(t);
      newStatus := Some(t.status);
      showTaskDialog := true;
    }

    /** `handleStatusUpdate`. The count checked and incremented is the one in
        the dialog's copy of the task. `writeError` is an error updateDoc
        throws; the store accepts the write only for an existing document. */
    method HandleStatusUpdate(be: Backend, isBrowser: bool, writeError: Option<string>) returns (outcome: UpdateOutcome)
      requires writeError.None? && selectedTask.Some? && newStatus.Some? && CanUpdate(selectedTask.value) ==>
        selectedTask.value.id.Some? && selectedTask.value.id.value in be.tasks
      modifies this, be
      ensures tasks == old(tasks) && selectedTask == old(selectedTask) && newStatus == old(newStatus)
      ensures loading == old(loading)
      ensures be.employees == old(be.employees) && be.accounts == old(be.accounts)
      ensures selectedTask.None? || newStatus.None? ==>
        outcome == Skipped && be.tasks == old(be.tasks) && be.session == old(be.session)
        && showTaskDialog == old(showTaskDialog) && updatingStatus == old(updatingStatus)
      ensures selectedTask.Some? && newStatus.Some? && !CanUpdate(selectedTask.value) ==>
        outcome == Alert(LimitMessage) && be.tasks == old(be.tasks) && be.session == old(be.session)
        && showTaskDialog == old(showTaskDialog) && updatingStatus == old(updatingStatus)
      ensures selectedTask.Some? && newStatus.Some? && CanUpdate(selectedTask.value) ==>
        var l := Auth.CurrentUserLookup(isBrowser, old(be.session), old(be.employees));
        && be.session == l.session && !updatingStatus
        && (l.user.None? ==> outcome == Alert(NotLoggedInMessage))
        && (l.user.Some? && writeError.Some? ==>
              outcome == Alert("Error updating task status: " + writeError.value))
        && (l.user.Some? && writeError.None? ==> outcome == Updated)
      ensures outcome == Updated ==>
        var id := selectedTask.value.id.value;
        && be.tasks == old(be.tasks)[id := WriteStatus(old(be.tasks)[id], newStatus.value,
                                                      ChangeCount(selectedTask.value) + 1)]
        && !showTaskDialog
      ensures outcome != Updated ==> be.tasks == old(be.tasks)
      ensures outcome != Updated ==> showTaskDialog == old(showTaskDialog)
      ensures CountsWithinLimit(old(be.tasks)) ==> CountsWithinLimit(be.tasks)
      ensures PlainTasks(old(be.tasks)) ==> PlainTasks(be.tasks)
      ensures old(UpdateEnabled()) && outcome == Updated ==>
        be.tasks[selectedTask.value.id.value].status != selectedTask.value.status
    {
      if selectedTask.None? || newStatus.None? {
        return Skipped;
      }
      var task := selectedTask.value;
      var currentChangeCount := ChangeCount(task);
      var canUpdate := currentChangeCount < MaxStatusChanges;
      if !canUpdate {
        return Alert(LimitMessage);
      }
      updatingStatus := true;
      var user := Auth.GetCurrentUser(be, isBrowser);
      if user.None? {
        updatingStatus := false;
        return Alert(NotLoggedInMessage);
      }
      if writeError.Some? {
        outcome := Alert("Error updating task status: " + writeError.value);
      } else {
        var id := task.id.value;
        var updatedChangeCount := currentChangeCount + 1;
        be.tasks := be.tasks[id := WriteStatus(be.tasks[id], newStatus.value, updatedChangeCount)];
        showTaskDialog := false;
        outcome := Updated;
      }
      updatingStatus := false;
    }
  }

  /** On an up-to-date copy (the stored count equals the dialog's), the
      write HandleStatusUpdate performs is exactly one Transition. */
  lemma WriteIsTransition(stored: Task, shown: Task, s: Status)
    requires ChangeCount(shown) == ChangeCount(stored) && CanUpdate(shown)
    ensures Transition(stored, s) == Some(WriteStatus(stored, s, ChangeCount(shown) + 1))
  {
  }
}

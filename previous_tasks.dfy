/** app/admin/previous-tasks/page.tsx: the expired tasks, joined with a map
    of every employee profile (no role filter) built document by document. */
module PreviousTasks {
  import opened Firebase
  import opened Lifecycle
  import Employees
  import AssignWork

  /** The map after `employeesMap.set(doc.id, …)` for each document in turn:
      keyed by document id, a later document replacing an earlier one. */
  function MapOf(docs: seq<Doc<Employee>>): map<string, Employee>
    decreases |docs|
  {
    if docs == [] then map[]
    else MapOf(docs[..|docs| - 1])[docs[|docs| - 1].id := docs[|docs| - 1].data]
  }

  /** The map's keys are exactly the snapshot's document ids. */
  lemma {:induction false} MapOfKeys(docs: seq<Doc<Employee>>)
    ensures forall k :: k in MapOf(docs) <==> exists d :: d in docs && d.id == k
    decreases |docs|
  {
    if docs != [] {
      var init := docs[..|docs| - 1];
      var last := docs[|docs| - 1];
      MapOfKeys(init);
      assert docs == init + [last];
      assert forall d :: d in docs <==> d in init || d == last;
    }
  }

  /** On a snapshot without repeated ids, each id maps to its own
      document's data. */
  lemma {:induction false} MapOfValues(docs: seq<Doc<Employee>>)
    requires DistinctIds(docs)
    ensures forall d :: d in docs ==> d.id in MapOf(docs) && MapOf(docs)[d.id] == d.data
    decreases |docs|
  {
    if docs != [] {
      var init := docs[..|docs| - 1];
      var last := docs[|docs| - 1];
      assert DistinctIds(init);
      MapOfValues(init);
      assert docs == init + [last];
      forall d | d in docs ensures d.id in MapOf(docs) && MapOf(docs)[d.id] == d.data {
        if d != last {
          var i :| 0 <= i < |docs| && docs[i] == d;
          assert i < |docs| - 1 && init[i] == d;
        }
      }
    }
  }

  /** Built from a snapshot of the employees collection, the map is that
      collection. */
  lemma MapOfStore(docs: seq<Doc<Employee>>, m: map<string, Employee>)
    requires SnapshotOf(docs, m)
    ensures MapOf(docs) == m
  {
    MapOfKeys(docs);
    MapOfValues(docs);
    forall k | k in m ensures k in MapOf(docs) && MapOf(docs)[k] == m[k] {
      assert Doc(k, m[k]) in docs;
    }
    forall k | k in MapOf(docs) ensures k in m {
      var d :| d in docs && d.id == k;
    }
  }

  /** The `forEach` that fills `employeesMap`. */
  method BuildEmployeesMap(docs: seq<Doc<Employee>>) returns (employeesMap: map<string, Employee>)
    ensures employeesMap == MapOf(docs)
  {
    employeesMap := map[];
    var i := 0;
    while i < |docs|
      invariant 0 <= i <= |docs|
      invariant employeesMap == MapOf(docs[..i])
    {
      assert docs[..i + 1][..i] == docs[..i];
      employeesMap := employeesMap[docs[i].id := docs[i].data];
      i := i + 1;
    }
    assert docs[..i] == docs;
  }

  /** One expired task as listed: its document id, its data, and the name and
      position of the profile stored under its assignee's uid, if any. */
  function JoinFromMap(employeesMap: map<string, Employee>, d: Doc<Task>): (r: Task)
    ensures r.id == WithId(d).id && (d.data.id.None? ==> r.id == Some(d.id))
    ensures r.(id := d.data.id, employee := d.data.employee) == d.data
    ensures r.employee.Some? <==> d.data.assignedToUid in employeesMap
    ensures r.employee.Some? ==> r.employee.value == Summary(employeesMap[d.data.assignedToUid])
  {
    var uid := d.data.assignedToUid;
    WithId(d).(employee := if uid in employeesMap then Some(Summary(employeesMap[uid])) else None)
  }

  /** The page's list: exactly the expired documents, joined. */
  function ExpiredTaskList(employeesMap: map<string, Employee>, docs: seq<Doc<Task>>, now: Millis): (r: seq<Task>)
    ensures forall i :: 0 <= i < |r| ==>
      exists d :: d in docs && IsPrevious(d.data, now) && r[i] == JoinFromMap(employeesMap, d)
    ensures forall d :: d in docs && IsPrevious(d.data, now) ==> JoinFromMap(employeesMap, d) in r
  {
    var expired := PreviousDocs(docs, now);
    var r := seq(|expired|, i requires 0 <= i < |expired| => JoinFromMap(employeesMap, expired[i]));
    assert forall d :: d in expired ==> JoinFromMap(employeesMap, d) in r by {
      forall d | d in expired ensures JoinFromMap(employeesMap, d) in r {
        var i :| 0 <= i < |expired| && expired[i] == d;
        assert r[i] == JoinFromMap(employeesMap, d);
      }
    }
    assert forall i :: 0 <= i < |r| ==> expired[i] in expired && r[i] == JoinFromMap(employeesMap, expired[i]);
    r
  }

  class PreviousTasksPage {
    var expiredTasks: seq<Task>
    var loading: bool

    constructor ()
      ensures expiredTasks == [] && loading
    {
      expiredTasks := [];
      loading := true;
    }

    /** `fetchExpiredTasks`; `fetchOk` is false when either query throws. */
    method FetchExpiredTasks(be: Backend, employeeDocs: seq<Doc<Employee>>, taskDocs: seq<Doc<Task>>,
                             fetchOk: bool, now: Millis)
      requires SnapshotOf(employeeDocs, be.employees) && SnapshotOf(taskDocs, be.tasks)
      modifies this
      ensures expiredTasks == if fetchOk then ExpiredTaskList(be.employees, taskDocs, now) else []
      ensures !loading
    {
      loading := true;
      if fetchOk {
        var employeesMap := BuildEmployeesMap(employeeDocs);
        MapOfStore(employeeDocs, be.employees);
        var expired := PreviousDocs(taskDocs, now);
        expiredTasks := seq(|expired|, i requires 0 <= i < |expired| => JoinFromMap(employeesMap, expired[i]));
      } else {
        expiredTasks := [];
      }
      loading := false;
    }
  }

  /** The two admin task pages attach the same employee data to a task,
      except when its assignee's profile has the admin role: the assign-work
      page joins only employee-role profiles, this page joins every profile. */
  lemma JoinsAgree(employeeDocs: seq<Doc<Employee>>, employees: map<string, Employee>, d: Doc<Task>)
    requires SnapshotOf(employeeDocs, employees) && Employees.ProfilesKeyedByUid(employees)
    ensures AssignWork.JoinEmployee(Employees.ListedEmployees(employeeDocs), d) == JoinFromMap(employees, d)
      <==> !(d.data.assignedToUid in employees && !Employees.IsStaff(employees[d.data.assignedToUid]))
  {
    var uid := d.data.assignedToUid;
    var listed := Employees.ListedEmployees(employeeDocs);
    var a := AssignWork.JoinEmployee(listed, d);
    var b := JoinFromMap(employees, d);
    // every listed profile with this uid is the one stored under it
    forall e | e in listed && e.uid == uid ensures uid in employees && employees[uid] == e {
      var d' :| d' in employeeDocs && d'.data == e;
    }
    if uid in employees && Employees.IsStaff(employees[uid]) {
      assert Doc(uid, employees[uid]) in employeeDocs;
      assert employees[uid] in listed;
      var i :| 0 <= i < |listed| && listed[i] == employees[uid];
      assert a.employee.Some?;
    } else if uid !in employees {
      assert a.employee.None?;
    } else {
      assert a.employee.None?;
    }
  }
}

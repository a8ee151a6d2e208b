/** The data model of lib/firebase.ts, and an abstract stand-in for the two
    hosted services the application talks to: the document store (the
    "tasks" and "employees" collections) and the authentication service with
    the browser's session slot ("currentUser" in localStorage). */
module Firebase {

  datatype Option<T> = None | Some(value: T)

  datatype Result<T, E> = Ok(value: T) | Err(error: E)

  /** A timestamp, as integer milliseconds (Timestamp.toMillis()). */
  type Millis = int

  /** An error thrown by one of the SDKs: an optional `code` and a `message`. */
  datatype Failure = Failure(code: Option<string>, message: string)

  /** Task.status: a closed union of five string literals. */
  datatype Status = NotStarted | Done50 | Done70 | Completed | Pending

  /** The string each status is stored as. */
  function StatusValue(s: Status): string {
    match s
    case NotStarted => "not_started"
    case Done50 => "50_done"
    case Done70 => "70_done"
    case Completed => "completed"
    case Pending => "pending"
  }

  /** Reads a stored status string back; any other string is no status. */
  function ParseStatus(s: string): (r: Option<Status>)
    ensures r.Some? ==> StatusValue(r.value) == s
    ensures r.None? ==> forall st: Status :: StatusValue(st) != s
  {
    if s == "not_started" then Some(NotStarted)
    else if s == "50_done" then Some(Done50)
    else if s == "70_done" then Some(Done70)
    else if s == "completed" then Some(Completed)
    else if s == "pending" then Some(Pending)
    else None
  }

  /** Storing a status and reading it back gives the same status, so the
      five stored strings are pairwise distinct. */
  lemma ParseStatusValue(st: Status)
    ensures ParseStatus(StatusValue(st)) == Some(st)
    ensures forall other: Status :: StatusValue(other) == StatusValue(st) ==> other == st
  {
  }

  /** Employee.role: "admin" or "employee". */
  datatype Role = AdminRole | EmployeeRole

  /** An employee profile; `uid` is the authentication account's id. */
  datatype Employee = Employee(
    uid: string,
    fullName: string,
    email: string,
    contactNumber: Option<string>,
    position: string,
    role: Role,
    createdAt: Millis)

  /** The joined data a task carries for display: name and position only. */
  datatype EmployeeSummary = EmployeeSummary(fullName: string, position: string)

  function Summary(e: Employee): EmployeeSummary {
    EmployeeSummary(e.fullName, e.position)
  }

  /** A task. `id` is the document id and `employee` the joined display data;
      neither is stored in the document itself. A task refers to its employee
      only through `assignedToUid`. */
  datatype Task = Task(
    id: Option<string>,
    taskName: string,
    description: Option<string>,
    category: Option<string>,
    assignedToUid: string,
    status: Status,
    statusChangeCount: Option<int>,
    createdAt: Millis,
    expiresAt: Millis,
    employee: Option<EmployeeSummary>)

  /** A document of a query snapshot: its id and its data. */
  datatype Doc<T> = Doc(id: string, data: T)

  /** `{ id: doc.id, ...doc.data() }` for a task document. The spread comes
      last, so an `id` field stored in the data wins over the document id. */
  function WithId(d: Doc<Task>): (r: Task)
    ensures r.id.Some?
    ensures r.id == Some(d.id) <==> d.data.id.None? || d.data.id == Some(d.id)
    ensures r.(id := d.data.id) == d.data
    ensures d.data.id.Some? ==> r == d.data
    ensures d.data.id.None? ==> r == d.data.(id := Some(d.id))
  {
    if d.data.id.Some? then d.data else d.data.(id := Some(d.id))
  }

  /** Every stored task has the shape this application writes: `addDoc` is
      given neither an `id` nor an `employee` field and `updateDoc` only
      writes the status and its count. */
  predicate PlainTasks(m: map<string, Task>) {
    forall k :: k in m ==> m[k].id.None? && m[k].employee.None?
  }

  /** On a store of plain tasks every listed task is named by its own
      document id. */
  lemma PlainTaskWithId(docs: seq<Doc<Task>>, m: map<string, Task>, d: Doc<Task>)
    requires SnapshotOf(docs, m) && PlainTasks(m) && d in docs
    ensures WithId(d).id == Some(d.id) && d.id in m
    ensures WithId(d) == m[d.id].(id := Some(d.id))
  {
  }

  /** The documents of a snapshot that satisfy a query's `where` clauses. */
  function Where<T(!new)>(docs: seq<Doc<T>>, p: T -> bool): (r: seq<Doc<T>>)
    ensures |r| <= |docs|
    ensures forall d :: d in r <==> d in docs && p(d.data)
  {
    if docs == [] then []
    else
      assert forall d :: d in docs <==> d == docs[0] || d in docs[1..];
      if p(docs[0].data) then [docs[0]] + Where(docs[1..], p) else Where(docs[1..], p)
  }

  /** Every document id occurs at most once in a snapshot. */
  ghost predicate DistinctIds<T(!new)>(docs: seq<Doc<T>>) {
    forall i, j :: 0 <= i < j < |docs| ==> docs[i].id != docs[j].id
  }

  /** `docs` lists every document of collection `m` exactly once, in the
      order the store chose. */
  ghost predicate SnapshotOf<T(!new)>(docs: seq<Doc<T>>, m: map<string, T>) {
    && DistinctIds(docs)
    && (forall d :: d in docs ==> d.id in m && m[d.id] == d.data)
    && (forall k :: k in m ==> Doc(k, m[k]) in docs)
  }

  /** What the browser and the authentication service remember between
      calls: the uid signed in to the auth service, and the profile cached
      under "currentUser" in localStorage. */
  datatype Session = Session(authUser: Option<string>, storedUser: Option<Employee>)

  /** The hosted backend: the two collections, the auth accounts and the
      session. The pages read and write it only through the SDK calls, and
      every handler takes it in whatever state it is found. */
  class Backend {
    var tasks: map<string, Task>
    var employees: map<string, Employee>
    /** Authentication accounts: uid to email. */
    var accounts: map<string, string>
    var session: Session
  }
}

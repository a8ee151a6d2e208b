# Employee task manager: a Dafny model

The application is a Next.js front end over a hosted document store and an
authentication service. Admins add employees, assign tasks that live for
24 hours and look back at expired tasks. Employees see their active tasks
and may change a task's status at most twice.

This project models the rules behind the pages. It covers:

- the data model of `lib/firebase.ts`;
- the session logic of `lib/auth.ts`;
- the login page's routing;
- the two layouts' role guards;
- the handlers of the employees, assign-work, previous-tasks and dashboard pages.

Modelling choices:

- **The backend.** The hosted services become one object, `Firebase.Backend`. It holds:
  - the `tasks` and `employees` collections, as maps from document id to record;
  - the authentication accounts, as a map from uid to email;
  - the session: the signed-in uid, and the profile cached under `currentUser` in localStorage.
- **SDK calls.** Each remote call becomes a step on that object.
- **Inputs the store decides.** Their results are parameters of the step:
  - a query's snapshot, tied to the collection by `Firebase.SnapshotOf`;
  - the id a new document receives;
  - the error a call throws;
  - the clock, in integer milliseconds.
- **Page state.** Each page's React state is a class whose methods are its handlers.
- **Shared rules.** Two modules hold the rules several pages share:
  - `Lifecycle`: the status-change quota and the active/previous split;
  - `StatusDisplay`: the status text and colour switches, which three pages define identically, defined once here.
- **Routing.** `Routing` relates the login destinations to the layout guards.

Behaviour of the code worth noting:

- **No validation and no not-found errors.** The handlers check neither input nor existence.
  - A task is added with whatever the form holds.
  - Deleting a task the store no longer holds is silent.
- **A stored `id` field wins.** The pages list a task as `{ id: doc.id, ...doc.data() }`, so an `id` field in the stored data replaces the document id, and deleting or updating that task then targets the other id. The application never writes such a field: `Firebase.PlainTasks` states the shape it writes, and the three handlers that write tasks preserve it.
- **Same-status updates.** The dashboard handler checks only the change quota, not whether the status differs. A same-status update is prevented only by the disabled "Update Status" button. `EmployeeDashboard.Dashboard.HandleStatusUpdate` states both halves.
- **Missing profile at sign-in.** When the signed-in account has no profile, `signIn` throws an error without a code. The catch block therefore shows the generic "Login failed" text, not "User profile not found".
- **The join differs between pages.**
  - The assign-work page joins tasks only against employee-role profiles, so a task assigned to an admin shows no employee there.
  - The previous-tasks page joins against every profile.
- **Orphan accounts.** On the employees page, a failed profile write leaves the new authentication account in place, with no profile.

## Model

| member | source | states |
|---|---|---|
| Firebase.ParseStatus | lib/firebase.ts:35 | a stored status string reads back as the status whose wire value it is; any other string is no status |
| Firebase.ParseStatusValue | lib/firebase.ts:35 | the five status values are pairwise distinct and read back to themselves |
| Firebase.WithId | app/employee/dashboard/page.tsx:47-50 | a task listed from a document is its stored data as it is when the data holds an id, and the data with the document id otherwise, since the spread comes last |
| Firebase.PlainTaskWithId | app/admin/assign-work/page.tsx:110-118 | when every stored task has the shape addDoc writes, a listed task is its stored data named by its document id |
| Firebase.Where | app/admin/assign-work/page.tsx:66-67 | a query result holds exactly the snapshot's documents that satisfy the clause, and no more of them than the snapshot |
| Lifecycle.Transition | app/employee/dashboard/page.tsx:71-94 | a change is refused exactly when the count (absent = 0) is at least 2; otherwise the new status is written with count + 1 and no other field changes |
| Lifecycle.RunCount | app/employee/dashboard/page.tsx:71-94 | after any series of requests the count is min(start + requests, 2), and only status and count ever change |
| Lifecycle.RunAtLimit | app/employee/dashboard/page.tsx:74-77 | a task whose quota is used up is never changed by further requests |
| Lifecycle.ExactlyTwoChanges | app/employee/dashboard/page.tsx:71-94 | from count 0, two changes succeed, reach count 2, and the third is refused |
| Lifecycle.Classification | app/admin/assign-work/page.tsx:66 | for one clock reading a task is active or previous but not both; one expiring exactly now is previous |
| Lifecycle.ActiveDocs | app/admin/assign-work/page.tsx:66 | the active query keeps exactly the documents with expiresAt > now |
| Lifecycle.PreviousDocs | app/admin/previous-tasks/page.tsx:33 | the previous query keeps exactly the documents with expiresAt <= now |
| Lifecycle.ActivePreviousPartition | app/admin/previous-tasks/page.tsx:33 | every document of a snapshot is in exactly one of the two queries, whose sizes add up to the snapshot's |
| StatusDisplay.StatusText | app/employee/dashboard/page.tsx:125-140 | each of the five values gets its label; any other string is returned unchanged |
| StatusDisplay.StatusColor | app/admin/assign-work/page.tsx:158-173 | each of the five values gets its classes; any other string gets the slate default |
| StatusDisplay.ColorsDistinguishStatuses | app/admin/previous-tasks/page.tsx:58-73 | distinct statuses have distinct colours, and only not_started shares the default |
| StatusDisplay.StatusOptions | app/employee/dashboard/page.tsx:142-148 | the dialog offers five options |
| StatusDisplay.OptionsCoverStatuses | app/employee/dashboard/page.tsx:142-148 | every status is among the offered values |
| StatusDisplay.OptionAt | app/employee/dashboard/page.tsx:142-148 | each option's value is a status value, captioned with exactly the text getStatusText shows for it |
| StatusDisplay.OptionsDistinct | app/employee/dashboard/page.tsx:142-148 | no value is offered twice |
| StatusDisplay.TextOfValue | app/admin/previous-tasks/page.tsx:75-89 | a stored status value reads back as its status and is shown with that status's label |
| Auth.SignInError | lib/auth.ts:37-46 | three codes map to "Invalid email or password.", invalid-email to "Invalid email format.", everything else (no code included) to the generic text |
| Auth.SignInOutcome | lib/auth.ts:5-51 | exactly one of employee and error is set; the employee is the uid's stored profile iff the credential is accepted and a profile exists; a missing profile gives the generic text |
| Auth.SignIn | lib/auth.ts:5-51 | returns SignInOutcome; on success the session holds the account and caches its profile; a missing profile signs the account out; a rejected credential changes nothing |
| Auth.CurrentUserLookup | lib/auth.ts:54-85 | nobody server-side; the cached profile with no lookup; otherwise the signed-in account's profile, which is then cached, and an account without a profile is signed out |
| Auth.LookupYieldsProfile | lib/auth.ts:59-73 | while the cache holds a stored profile, the current user is always a stored profile and the cache stays so |
| Auth.GetCurrentUser | lib/auth.ts:54-85 | returns the user and leaves the session exactly as CurrentUserLookup says, changing no collection |
| Auth.SignOut | lib/auth.ts:87-95 | the session is cleared only when the remote sign-out succeeds; a failure changes nothing |
| Login.Destination | app/login/page.tsx:40-44 | the admin role goes to /admin/employees, every other role to /employee/dashboard |
| Login.LoginPage.constructor | app/login/page.tsx:14-17 | the page starts idle: not loading, no error shown, no navigation |
| Login.LoginPage.HandleSubmit | app/login/page.tsx:20-48 | an error is shown with no navigation; a signed-in profile navigates by role with the error cleared; the session afterwards is exactly SignIn's (account and cached profile on success, auth sign-out on a missing profile, unchanged on a rejected credential); loading ends false |
| AdminLayout.Navigation | components/layout/admin-layout.tsx:47-51 | three items, distinct hrefs, all inside /admin/ |
| AdminLayout.AtMostOneActive | components/layout/admin-layout.tsx:75 | at most one navigation item is highlighted for a path |
| AdminLayout.Layout.constructor | components/layout/admin-layout.tsx:21-45 | there is no current user at first, so only the loading placeholder renders |
| AdminLayout.Layout.CheckAuth | components/layout/admin-layout.tsx:26-36 | an admin is admitted, set as current user and the placeholder gives way; anyone else or nobody is sent to /login with the current user, and so the placeholder, as before |
| AdminLayout.Layout.HandleSignOut | components/layout/admin-layout.tsx:38-41 | signs out, then navigates to /login |
| EmployeeLayout.Layout.constructor | components/layout/employee-layout.tsx:19-41 | there is no current user at first, so only the loading placeholder renders |
| EmployeeLayout.Layout.CheckAuth | components/layout/employee-layout.tsx:22-32 | an employee is admitted, set as current user and the placeholder gives way; anyone else or nobody is sent to /login with the current user, and so the placeholder, as before |
| EmployeeLayout.Layout.HandleSignOut | components/layout/employee-layout.tsx:34-37 | signs out, then navigates to /login |
| Employees.ListedEmployees | app/admin/employees/page.tsx:41-47 | the listed profiles are exactly the employee-role profiles of the snapshot |
| Employees.NewProfile | app/admin/employees/page.tsx:76-88 | a new profile has the account's uid, the form's fields, contact number "" when empty, and always the employee role |
| Employees.AddEmployeeError | app/admin/employees/page.tsx:103-110 | the three codes each get their own message, every other code the generic one |
| Employees.EmployeesPage.constructor | app/admin/employees/page.tsx:20-31 | the page starts loading with no employees, the add dialog closed, an empty form and no error |
| Employees.EmployeesPage.FetchEmployees | app/admin/employees/page.tsx:37-57 | the list is ListedEmployees of the snapshot, or empty on error |
| Employees.EmployeesPage.HandleAddEmployee | app/admin/employees/page.tsx:59-115 | the profile is written only after, and under the uid of, a created account; the form resets on success and is kept with the mapped message on failure |
| EmployeeDashboard.RemainingChanges | app/employee/dashboard/page.tsx:268 | the remaining count is positive exactly while an update can succeed, and at most 2 |
| EmployeeDashboard.LimitReachedIffRefused | app/employee/dashboard/page.tsx:250-290 | the limit badge and the locked dialog appear exactly when an update would be refused |
| EmployeeDashboard.VisibleTasks | app/employee/dashboard/page.tsx:29-60 | none without a user or on error; otherwise exactly the user's unexpired tasks, each as WithId lists it |
| EmployeeDashboard.VisibleTasksOfStore | app/employee/dashboard/page.tsx:41-50 | the shown tasks are exactly the stored tasks of the user that are still active; on a store of plain tasks each is named by its document id |
| EmployeeDashboard.Dashboard.constructor | app/employee/dashboard/page.tsx:15-20 | the page starts loading with no tasks, nothing selected, the dialog closed, no status chosen and no update running |
| EmployeeDashboard.Dashboard.UpdateEnabled | app/employee/dashboard/page.tsx:250-277 | an enabled "Update Status" button means a task under its quota is selected, no update is running, and any chosen status differs from the task's and is one Transition accepts |
| EmployeeDashboard.Dashboard.FetchTasks | app/employee/dashboard/page.tsx:29-60 | the list becomes VisibleTasks for the current user |
| EmployeeDashboard.Dashboard.TaskClick | app/employee/dashboard/page.tsx:62-66 | the dialog opens on the task with its own status chosen, so the update button starts disabled |
| EmployeeDashboard.Dashboard.HandleStatusUpdate | app/employee/dashboard/page.tsx:68-106 | nothing with no task or status; refused with an alert at the limit; an alert without a user or on a write error; otherwise writes status and count + 1; the quota invariant and the plain shape of stored tasks are kept; an enabled button never writes the same status |
| EmployeeDashboard.WriteIsTransition | app/employee/dashboard/page.tsx:88-94 | on an up-to-date copy the handler's write is exactly one Transition |
| AssignWork.NewTask | app/admin/assign-work/page.tsx:101-117 | status not_started, count 0, created now, expiring exactly 24 hours later, name and assignee copied, description and category stored as given |
| AssignWork.NewTaskLifecycle | app/admin/assign-work/page.tsx:109-110 | a new task is active until created + 24 h and previous from then, and admits exactly two status changes |
| AssignWork.FindByUid | app/admin/assign-work/page.tsx:71 | finds the first listed employee with the uid, and nothing exactly when none has it |
| AssignWork.JoinEmployee | app/admin/assign-work/page.tsx:70-78 | the task keeps its data and gains the id WithId gives it (the document id unless the data holds one), plus name and position of the first listed employee with its assignee's uid iff there is one |
| AssignWork.ActiveTaskList | app/admin/assign-work/page.tsx:64-81 | exactly the active documents, each joined |
| AssignWork.AssignWorkPage.constructor | app/admin/assign-work/page.tsx:30-43 | the page starts loading with no employees or tasks, both dialogs closed, nothing pending deletion, an empty form and no error |
| AssignWork.AssignWorkPage.FetchData | app/admin/assign-work/page.tsx:49-91 | the employee-role profiles and the joined active tasks, or both empty on error |
| AssignWork.AssignWorkPage.HandleAssignTask | app/admin/assign-work/page.tsx:93-136 | on success the store gains exactly NewTask and the form resets; on failure the store is unchanged and the error reads "Error assigning task: " + message; the lists, pending deletion and loading flags are kept; stored tasks keep their plain shape |
| AssignWork.AssignWorkPage.SetTaskToDelete | app/admin/assign-work/page.tsx:332-349 | sets or clears the task awaiting deletion and changes no other page field |
| AssignWork.AssignWorkPage.HandleDeleteTask | app/admin/assign-work/page.tsx:138-156 | nothing at all without a pending task with a non-empty id; on success exactly that id is removed and the pending task cleared; on failure an alert and no change; the form, dialog, lists and loading flag are never touched |
| PreviousTasks.MapOfKeys | app/admin/previous-tasks/page.tsx:24-29 | the map's keys are exactly the snapshot's document ids |
| PreviousTasks.MapOfValues | app/admin/previous-tasks/page.tsx:27-29 | on a snapshot without repeated ids each id maps to its own document's data |
| PreviousTasks.MapOfStore | app/admin/previous-tasks/page.tsx:24-29 | built from a snapshot of the employees collection, the map is the whole collection, with no role filter |
| PreviousTasks.BuildEmployeesMap | app/admin/previous-tasks/page.tsx:26-29 | the forEach loop builds exactly MapOf of the snapshot |
| PreviousTasks.JoinFromMap | app/admin/previous-tasks/page.tsx:36-46 | the task keeps its data and gains the id WithId gives it (the document id unless the data holds one), plus name and position iff the map holds its assignee's uid |
| PreviousTasks.ExpiredTaskList | app/admin/previous-tasks/page.tsx:31-46 | exactly the expired documents, each joined |
| PreviousTasks.PreviousTasksPage.constructor | app/admin/previous-tasks/page.tsx:11-12 | the page starts loading with no expired tasks |
| PreviousTasks.PreviousTasksPage.FetchExpiredTasks | app/admin/previous-tasks/page.tsx:18-56 | the expired tasks joined against the whole employees collection, or empty on error |
| PreviousTasks.JoinsAgree | app/admin/previous-tasks/page.tsx:26-29 | for profiles stored under their own uid, the two admin pages attach the same employee data to a task iff its assignee is not an admin profile |
| Routing.GuardsPartitionUsers | components/layout/employee-layout.tsx:25 | no user passes both layout guards, and every user passes one |
| Routing.DestinationAdmits | app/login/page.tsx:40-43 | each role's login destination lies in the area whose guard admits it |
| Routing.NewProfileRouting | components/layout/admin-layout.tsx:29 | a profile created on the employees page reaches only the employee area |

## Left out

- SDK internals of getDocs, addDoc, updateDoc, deleteDoc, setDoc, createUserWithEmailAndPassword, signInWithEmailAndPassword and onAuthStateChanged are foreign code. Their outcomes are parameters of each step.
- Concurrency: each handler is one atomic step. The stale read of statusChangeCount from the dialog's copy is modelled by that copy, not by interleavings. The Promise.all ordering and the auth-state subscription are not modelled.
- The un-awaited refreshes after a successful write (fetchData(), fetchTasks(), fetchEmployees()) are separate steps, not part of the handler.
- Rendering is not modelled: JSX, the mobile menu, dialog animations, date formatting and console logging. Also left out is the form's HTML `required` validation, which runs in the browser before the handler.
- Client initialisation (lib/firebase.ts:15-17) and the data that already exists in the hosted project are not modelled. The collections, the accounts (admins included, since no page creates an admin profile) and a session that survives a reload are whatever `Firebase.Backend` holds when a handler runs; no initial state is assumed.
- Timestamps are integer milliseconds. Timestamp.now() and new Date() are the `now` parameter.
- Auth.SignIn: the "Firebase user not found after sign-in" branch is not modelled, because the SDK always returns a user on success. A failing getDoc is not modelled either.
- Auth.CurrentUserLookup: the cached profile's JSON round trip is taken as lossless, and a failing getDoc is not modelled.
- Auth.SignIn, Auth.CurrentUserLookup: the sign-out after a missing profile (lib/auth.ts:24 and lib/auth.ts:76) is taken to succeed. If it rejects, signIn leaves the account signed in with the auth service while the model clears it, and getCurrentUser's promise never settles, so a layout would keep its placeholder, while the model returns no user.
- Employees.EmployeesPage.HandleAddEmployee: creating an account also signs the new user in to the auth service; this session change is not modelled.
- Lists keep the order of the snapshot the store returns, which is a parameter.
- lib/supabase.ts is not part of this model: it configures a backend the pages do not use. components/debug-info.tsx and app/admin/employee/[id]/page.tsx are not part of this model either.

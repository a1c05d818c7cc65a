# TaskManager front end: the data transformations of the task and user screens

This project models, in Dafny, the logic inside the React screens of the
TaskManager web client. Once each HTTP response is treated as an input
value, that logic is a set of pure transformations plus two in-place row
edits:

- **Home board** (`Home.jsx`): fetched tasks become grid rows whose `users`
  field holds emails. The rows are then filtered into the tabs "Assigned to
  me", "Unassigned" and "Completed". The "UnAssign" and "Assign to me"
  buttons overwrite a row's `users` in place before patching it.
- **Priority codec** (shared): the overview grid's `priorityFormatter`
  switch (1/2/3 → High/Medium/Low, anything else → ""); the home board
  defines the same formatter but its priority columns are commented out. The modals'
  `priorities[p - 1]` on load and `priorities.indexOf(label) + 1` on save.
- **Add task modal**: selected emails are resolved to user ids by
  `find`, unknown emails are filtered out, and the form is sent with the
  ids under `user_ids`.
- **Edit task modal**: a fetched task fills the form. Its due date is cut
  to `YYYY-MM-DD` and its user objects become ids under `users` on submit.
- **Open task modal**: a push loop collects the assigned users' emails,
  and the form is sent with an `assignedTo` list.
- **Task overview**: the same row formatting and formatter, plus the
  delete notifications.
- **Sign-up**: the role value is split at commas or passed through, and
  the register request body is built.
- **New-user form**: a single-key record update.

Layout: `wrappers.dfy` (Option), `seqs.dfy` (the JavaScript `map`,
`filter`, `find` and `indexOf` used by the screens), `model.dfy` (users,
tasks, forms, payloads), `priority.dfy`, `rows.dfy` (the row projection
shared by the home board and the overview), and one module per screen:
`home.dfy`, `add_task.dfy`, `edit_task.dfy`, `open_task.dfy`,
`task_overview.dfy`, `sign_up.dfy`, `user_new_edit.dfy`.

Modelling choices:
- The signed-in email read from local storage is a parameter
  `me: Option<string>`. `None` stands for a missing entry (`null`), which
  equals no user's email.
- `undefined`/`null` values in the screens are `None`. Examples are a
  priority label loaded from an out-of-range number, a `find` with no
  match, and `_id` read from a string.
- A failing `user[0]._id` in "Assign to me" is swallowed by the outer
  `catch`. It is modelled as "row unchanged, no payload".
- The three tab predicates neither partition nor cover the tasks. A
  completed task with no users is in two tabs
  (`Home.UnassignedAndCompletedOverlap`). A pending task assigned only to
  other users is in none (`Home.SomeTasksAreInNoTab`).

## Model

| member | source | states |
|---|---|---|
| `Priority.Format` | frontend/src/pages/Task/Task_Overview.jsx:95-106 | the switch maps p in 1..3 to `priorities[p-1]` (High, Medium, Low) and every other value to "" |
| `Priority.Label` | frontend/src/pages/Task/EditTaskModal.jsx:57 | `priorities[p-1]` is defined exactly for p in 1..3, and there agrees with the grid formatter |
| `Priority.Code` | frontend/src/pages/Task/AddTaskModal.jsx:79 | `indexOf(label)+1` lies in 0..3, is 0 exactly for a label outside the table (undefined included), and otherwise names the label's table slot |
| `Priority.LoadSaveRoundTrip` | frontend/src/pages/Task/EditTaskModal.jsx:57-96 | loading then saving a stored priority gives it back for 1, 2, 3 and writes 0 for any other value |
| `Priority.SaveLoadRoundTrip` | frontend/src/pages/Task/OpenTaskModal.jsx:85 | a table label saved and loaded again is the same label, and the grid shows that label |
| `Priority.CodesOfLabels` | frontend/src/pages/Task/AddTaskModal.jsx:20 | High, Medium and Low save as 1, 2, 3 (1 is the highest priority) |
| `Seqs.Map` | frontend/src/pages/Task/Home.jsx:240-243 | `map` gives one result per element, in order: element i is f of input element i |
| `Seqs.Filter` | frontend/src/pages/Task/Home.jsx:245-257 | `filter` is never longer than its input and keeps only passing elements (full characterisation in `Seqs.FilterIsSelection`) |
| `Seqs.IndexOf` | frontend/src/pages/Task/AddTaskModal.jsx:79 | -1 exactly when absent, otherwise the first position holding the value |
| `Seqs.Find` | frontend/src/pages/Task/AddTaskModal.jsx:68 | None exactly when nothing matches, otherwise the element at the first matching position |
| `Seqs.FilterHeadIsFind` | frontend/src/pages/Task/Home.jsx:107-110 | `filter(p)[0]` exists exactly when `find(p)` does, and is the first match |
| `Seqs.FilterIsSelection` | frontend/src/pages/Task/Home.jsx:245-257 | a filter result is the input at strictly increasing positions, exactly those whose element passes |
| `Seqs.FilterMembership` | frontend/src/pages/Task/Home.jsx:245-257 | an element is in the filter result exactly when it is in the input and passes |
| `Rows.Emails` | frontend/src/pages/Task/Home.jsx:242 | one email per user, same order: element i is user i's email |
| `Rows.FormatTask` | frontend/src/pages/Task/Task_Overview.jsx:139-142 | the row keeps every task field but `users`, which becomes the same-length list of the users' emails |
| `Rows.FormatTasks` | frontend/src/pages/Task/Task_Overview.jsx:139-142 | one row per task in the same order; row i keeps task i's other fields and has as many users as task i |
| `Rows.FormatTasksShape` | frontend/src/pages/Task/Home.jsx:240-243 | formatting keeps task count and order; row i copies task i's fields and replaces its users by their emails |
| `Home.InTab` | frontend/src/pages/Task/Home.jsx:245-257 | the three tab predicates; an "Assigned to me" row has users and is not Completed, and an "Unassigned" row does not list the stored email |
| `Home.LoadBoard` | frontend/src/pages/Task/Home.jsx:240-257 | every grid holds only formatted tasks that satisfy that grid's predicate (the converse is `Home.TabMembership`) |
| `Home.TabRows` | frontend/src/pages/Task/Home.jsx:245-257 | a tab only shows formatted rows that satisfy its predicate |
| `Home.TabMembership` | frontend/src/pages/Task/Home.jsx:245-257 | a row is in a tab exactly when it is a formatted task satisfying the tab's predicate (me among its emails and not Completed / no users / status Completed) |
| `Home.TabIsSelection` | frontend/src/pages/Task/Home.jsx:245-257 | each tab is the formatted list at strictly increasing positions, exactly those passing the tab's predicate: nothing added or reordered |
| `Home.AssignedToMeIsDisjoint` | frontend/src/pages/Task/Home.jsx:245-257 | "Assigned to me" shares no row with "Unassigned" nor with "Completed" |
| `Home.UnassignedAndCompletedOverlap` | frontend/src/pages/Task/Home.jsx:251-257 | a completed task without users appears in both "Unassigned" and "Completed" |
| `Home.SomeTasksAreInNoTab` | frontend/src/pages/Task/Home.jsx:245-249 | a pending task assigned only to other users appears in no tab |
| `Home.TaskRow.Unassign` | frontend/src/pages/Task/Home.jsx:72-79 | the row's users become empty, every other field is unchanged, and the payload sent is the row, which satisfies the "Unassigned" predicate |
| `Home.TaskRow.AssignToMe` | frontend/src/pages/Task/Home.jsx:100-128 | with a matching user, users becomes exactly that first match's id (previous assignees discarded) and the row is sent; with none, the row is unchanged and nothing is sent |
| `Home.AssignedIdIsFirstMatch` | frontend/src/pages/Task/Home.jsx:107-110 | the assigned id belongs to a user with the stored email, and no earlier user has that email |
| `AddTask.LookupId` | frontend/src/pages/Task/AddTaskModal.jsx:67-70 | a found id is the id of a user with the email; null only when no user has the email |
| `Model.InitialForm` | frontend/src/pages/Task/AddTaskModal.jsx:25-31 | the modal form starts with empty text fields, status "Pending", no assignees and the lowest priority label of the table |
| `AddTask.LookupIsFirstMatch` | frontend/src/pages/Task/AddTaskModal.jsx:66-70 | the lookup finds an id exactly when some user has the email, and it is the first such user's id |
| `AddTask.ResolveIds` | frontend/src/pages/Task/AddTaskModal.jsx:66-71 | the id list is never longer than the selection |
| `AddTask.ResolveIdsSelection` | frontend/src/pages/Task/AddTaskModal.jsx:66-71 | ids are the lookups of the selected emails at strictly increasing positions, exactly the known ones: order kept, unknown emails dropped |
| `AddTask.ResolvedIdsBelongToSelection` | frontend/src/pages/Task/AddTaskModal.jsx:66-71 | every resolved id is the id of a fetched user whose email was selected |
| `AddTask.AllKnownKeepsEveryEmail` | frontend/src/pages/Task/AddTaskModal.jsx:67-71 | when every selected email is known, there are as many ids as emails and id i resolves email i |
| `AddTask.SubmitPayload` | frontend/src/pages/Task/AddTaskModal.jsx:75-83 | title, description, dueDate, category, status copied verbatim; ids under `user_ids`, each a selected user's; a table label is sent as a number the grid shows as that label |
| `AddTask.UntouchedFormPayload` | frontend/src/pages/Task/AddTaskModal.jsx:25-83 | the untouched form is sent with priority 3, status "Pending" and no assignees |
| `Model.ShouldFetch` | frontend/src/pages/Task/EditTaskModal.jsx:81-84 | the gate of both modals' load effect (same test at OpenTaskModal.jsx:70-73): true exactly when the modal is open and the task id is present and non-empty; `EditTask.Refresh` and `OpenTask.Refresh` apply it |
| `EditTask.DateInput` | frontend/src/pages/Task/EditTaskModal.jsx:56 | the date input value is the prefix of the timestamp of length min(10, length) |
| `EditTask.DateInputOfTimestamp` | frontend/src/pages/Task/EditTaskModal.jsx:56 | an ISO-8601 timestamp `YYYY-MM-DDT...` yields its `YYYY-MM-DD` part |
| `EditTask.LoadTask` | frontend/src/pages/Task/EditTaskModal.jsx:53-61 | a fetched task fills every form field (date cut, priority labelled, user objects kept); no task leaves the form unchanged |
| `EditTask.Refresh` | frontend/src/pages/Task/EditTaskModal.jsx:45-85 | the load effect keyed on `open` and `taskId`: a closed modal, or a missing or empty task id, leaves the form as it was whatever the server holds; an open modal with a non-empty id loads the fetched task into the form, its title and its user objects as `assignedTo` |
| `EditTask.AssigneeIds` | frontend/src/pages/Task/EditTaskModal.jsx:90 | same length and order as `assignedTo`, element i is user i's `_id` |
| `EditTask.SubmitPayload` | frontend/src/pages/Task/EditTaskModal.jsx:92-100 | other fields copied verbatim; assignees sent under `users`, not `user_ids` |
| `EditTask.LoadSubmitRoundTrip` | frontend/src/pages/Task/EditTaskModal.jsx:53-100 | load then save sends the task's fields back, its users' ids in order, and its priority for 1..3 (0 otherwise) |
| `OpenTask.CollectEmails` | frontend/src/pages/Task/OpenTaskModal.jsx:47-51 | the push loop yields one email per user, element i is user i's email, equal to the grid's projection |
| `OpenTask.LoadTask` | frontend/src/pages/Task/OpenTaskModal.jsx:40-52 | a fetched task fills every form field with the users' emails as `assignedTo`; no task leaves the form unchanged |
| `OpenTask.Refresh` | frontend/src/pages/Task/OpenTaskModal.jsx:32-74 | the same gate for the detail modal: closed, or no or empty task id, leaves the form unchanged whatever was fetched; open with a non-empty id loads the fetched task, its title and, position by position, its users' emails as `assignedTo` |
| `OpenTask.SubmittedIdsAsWritten` | frontend/src/pages/Task/OpenTaskModal.jsx:79 | as written, one entry per assigned email, every one undefined |
| `OpenTask.AsWrittenLosesAssignee` | frontend/src/pages/Task/OpenTaskModal.jsx:47-88 | as written, a task assigned to a known user submits undefined in that user's place although the fetched list holds the id |
| `OpenTask.AsWrittenExample` | frontend/src/pages/Task/OpenTaskModal.jsx:79 | user `u1`/`a@x.com`: as written `[undefined]` is sent, corrected `["u1"]` |
| `OpenTask.SubmitPayload` | frontend/src/pages/Task/OpenTaskModal.jsx:76-89 | corrected submit: fields copied, assignees (under `assignedTo`) are ids of fetched users with the selected emails |
| `OpenTask.LoadSubmitRoundTrip` | frontend/src/pages/Task/OpenTaskModal.jsx:44-85 | corrected: load then save sends the task's users' ids in order and its priority for 1..3 |
| `TaskOverview.DeleteSucceeded` | frontend/src/pages/Task/Task_Overview.jsx:70 | the success message is the fixed prefix followed by exactly the task id |
| `TaskOverview.DeleteFailed` | frontend/src/pages/Task/Task_Overview.jsx:76 | the failure message is the fixed prefix followed by exactly the task id |
| `TaskOverview.DeleteMessagesIdentifyOutcomeAndRow` | frontend/src/pages/Task/Task_Overview.jsx:62-77 | success and failure messages never coincide, and each determines the task id |
| `SignUp.Split` | frontend/src/pages/Authentication/SignUp.jsx:47 | at least one piece and no piece contains the separator |
| `SignUp.JoinSplit` | frontend/src/pages/Authentication/SignUp.jsx:47 | joining the pieces with "," reproduces the string |
| `SignUp.SplitCount` | frontend/src/pages/Authentication/SignUp.jsx:47 | number of pieces = number of commas + 1 (so "" gives one empty piece) |
| `SignUp.SplitJoin` | frontend/src/pages/Authentication/SignUp.jsx:47 | splitting a join of comma-free pieces gives the pieces back |
| `SignUp.RolesFrom` | frontend/src/pages/Authentication/SignUp.jsx:45-48 | an array is stored unchanged; a string becomes comma-free pieces |
| `SignUp.RegisterPayload` | frontend/src/pages/Authentication/SignUp.jsx:53-57 | the body carries the form's email, password and the role list unchanged |
| `SignUp.RegisteredRoles` | frontend/src/pages/Authentication/SignUp.jsx:45-57 | a typed role string is sent as pieces that join back to it, one more than its commas; a picked array is sent unchanged |
| `UserNewEdit.InitialForm` | frontend/src/pages/User/User_NewEdit.jsx:7-10 | the record starts with exactly the keys `email` and `password`, both empty |
| `UserNewEdit.Apply` | frontend/src/pages/User/User_NewEdit.jsx:12-18 | successive changes leave the keys of the start record plus the changed names, and keep the value of every key no change names |
| `UserNewEdit.ApplyLastChangeWins` | frontend/src/pages/User/User_NewEdit.jsx:12-18 | last write wins: a change that no later change to the same field overwrites decides that field's final value |
| `UserNewEdit.HandleChange` | frontend/src/pages/User/User_NewEdit.jsx:12-18 | key `name` gets `value`; every other key keeps its presence and value |
| `UserNewEdit.HandleChangeIdempotent` | frontend/src/pages/User/User_NewEdit.jsx:14-17 | the same change twice equals the change once |
| `UserNewEdit.HandleChangeKeys` | frontend/src/pages/User/User_NewEdit.jsx:14-17 | the key set gains `name` and nothing else: it grows by one exactly when `name` was new |
| `UserNewEdit.OwnFieldsKeepKeys` | frontend/src/pages/User/User_NewEdit.jsx:7-18 | starting from `{email: "", password: ""}`, changes to those fields keep exactly those two keys |

## Findings

| source | as written | input that shows it | evidently intended | confidence | as-written member | corrected member |
|---|---|---|---|---|---|---|
| frontend/src/pages/Task/OpenTaskModal.jsx:79 | `assignedTo.map((user) => user._id)`, but `assignedTo` holds email strings (set at :47-51 and by an Autocomplete whose options are emails), so every submitted id is `undefined` | a task assigned to `{_id: "u1", email: "a@x.com"}`, opened and saved: the list is `[undefined]`, which JSON serialisation sends as `assignedTo: [null]` (the model's `None` stands for both) | the assigned users' ids (`["u1"]`), resolved from the user list the modal fetches, as the add modal does | not executed | `OpenTask.SubmittedIdsAsWritten` (shown by `OpenTask.AsWrittenLosesAssignee`, `OpenTask.AsWrittenExample`) | `OpenTask.SubmitPayload` (proved by `OpenTask.LoadSubmitRoundTrip`) |

## Left out

- HTTP: every axios call, endpoint URL, response message and error handler. Fetched data are parameters and sent bodies are results. The patch that follows a row edit and its inner error path are not modelled.
- The async order of "Assign to me" (fetch the users, then patch). Only the resulting row edit and the no-match case are modelled.
- Home.TaskRow.Unassign / Home.TaskRow.AssignToMe: aliasing between the grids is not modelled. In the code, the row a button edits is the grid's own row object (Home.jsx:72, :110). The tab filters at Home.jsx:245-257 do not copy rows, so a completed task with no users is one object shared by the Unassigned and Completed arrays, and editing it changes both grids. The model edits a standalone `TaskRow` and keeps the board as a sequence of values. Nor are the tabs recomputed after an edit: the load effect at Home.jsx:229-272 runs once, so after "UnAssign" the "Assigned to me" grid still holds a row with no users, and after "Assign to me" the Unassigned grid holds a row with one user. `Home.TabMembership`, `Home.TabIsSelection` and the other tab lemmas therefore describe a freshly loaded board only.
- Local storage, React state setters, effects, modal opening, snackbars, navigation, grid column definitions and cell renderers. These are framework plumbing.
- `Date` parsing, `toISOString` and `toLocaleDateString` (the grids' `dateFormatter`). These depend on time zone and locale. `EditTask.DateInput` takes the already-formed ISO string.
- EditTask.LoadTask and OpenTask.LoadTask: the due date is cut from the stored string itself, not from `new Date(dueDate).toISOString()`. So a timestamp with a non-UTC offset is not normalised first: "2024-06-15T23:00:00-05:00" loads as "2024-06-15" here, but the code shows "2024-06-16". Also, a `dueDate` that `Date` cannot parse makes `toISOString` throw after the title and description were set, so the code leaves the form half loaded; the model fills every field.
- Task fields other than the eight modelled ones (`_id`, title, description, dueDate, priority, category, status, users). The server may send more, and the row spread copies them too.
- User fields other than `_id` and `email`. No core screen reads them.
- Priority is an integer. Non-number JSON values (such as the string "2") are not modelled.
- The three assignee keys (`user_ids`, `users`, `assignedTo`) are modelled as sent. What the server does with each is not part of this model.
- `FormData.get` returning null for a missing field. Email and password are plain strings.
- SignIn.jsx, User_Management.jsx, EditUserModal.jsx, Sidebar.jsx and App.js are not part of this model. They copy form fields into requests and route between screens.

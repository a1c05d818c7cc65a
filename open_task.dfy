/**
 * The "open task" modal: a fetched task fills the form, its users turned
 * into an email list by a push loop; submitting sends the form with an
 * `assignedTo` list.
 */
module OpenTask {
  import opened Wrappers
  import opened Model
  import Seqs
  import Priority
  import Rows
  import EditTask
  import AddTask

  /**
   * The `assignedEmails` loop: starting from an empty list, push each
   * user's email in turn. The result is the users' emails, one per user,
   * in order.
   */
  method CollectEmails(users: seq<User>) returns (assignedEmails: seq<string>)
    ensures |assignedEmails| == |users|
    ensures forall i :: 0 <= i < |users| ==> assignedEmails[i] == users[i].email
    ensures assignedEmails == Rows.Emails(users)
  {
    assignedEmails := [];
    var i := 0;
    while i < |users|
      invariant 0 <= i <= |users|
      invariant |assignedEmails| == i
      invariant forall k :: 0 <= k < i ==> assignedEmails[k] == users[k].email
    {
      assignedEmails := assignedEmails + [users[i].email];
      i := i + 1;
    }
  }

  /**
   * The fetch effect: `if (taskData)` the form takes the task's fields,
   * with the users' emails (what `CollectEmails` computes) as `assignedTo`.
   */
  function LoadTask(form: TaskForm<string>, fetched: Option<Task<User>>): (loaded: TaskForm<string>)
    ensures fetched.None? ==> loaded == form
    ensures fetched.Some? ==>
      && loaded.title == fetched.value.title
      && loaded.description == fetched.value.description
      && loaded.dueDate == EditTask.DateInput(fetched.value.dueDate)
      && loaded.priority == Priority.Label(fetched.value.priority)
      && loaded.category == fetched.value.category
      && loaded.status == fetched.value.status
      && |loaded.assignedTo| == |fetched.value.users|
      && forall i :: 0 <= i < |fetched.value.users| ==> loaded.assignedTo[i] == fetched.value.users[i].email
  {
    match fetched
    case None => form
    case Some(task) =>
      TaskForm(task.title, task.description, EditTask.DateInput(task.dueDate), Priority.Label(task.priority),
               task.category, task.status, Rows.Emails(task.users))
  }

  /**
   * The effect keyed on `open` and `taskId`: the task is fetched and loaded
   * only while the modal is open and `taskId` is truthy; otherwise the form
   * keeps its state whatever the server would have returned.
   */
  function Refresh(open: bool, taskId: Option<string>, form: TaskForm<string>, fetched: Option<Task<User>>): (next: TaskForm<string>)
    ensures !open ==> next == form
    ensures taskId.None? || taskId == Some("") ==> next == form
    ensures open && taskId.Some? && taskId.value != "" ==> next == LoadTask(form, fetched)
    ensures ShouldFetch(open, taskId) && fetched.Some? ==>
      next.title == fetched.value.title &&
      |next.assignedTo| == |fetched.value.users| &&
      forall i :: 0 <= i < |next.assignedTo| ==> next.assignedTo[i] == fetched.value.users[i].email
  {
    if ShouldFetch(open, taskId) then LoadTask(form, fetched) else form
  }

  /** Reading `_id` from an email string: a string has no such property. */
  function IdOfEmail(email: string): Option<string> { None }

  /**
   * `assignedTo.map((user) => user._id)` as written: `assignedTo` holds
   * email strings, so every entry is `undefined` (`None`).
   */
  function SubmittedIdsAsWritten(assignedTo: seq<string>): (ids: seq<Option<string>>)
    ensures |ids| == |assignedTo|
    ensures forall i :: 0 <= i < |ids| ==> ids[i].None?
  {
    Seqs.Map(assignedTo, IdOfEmail)
  }

  /**
   * The discrepancy: a task assigned to a known user, opened and saved
   * untouched, submits no id for that user, while the user list the modal
   * fetched does hold one.
   */
  lemma AsWrittenLosesAssignee(form: TaskForm<string>, task: Task<User>, users: seq<User>)
    requires |task.users| > 0 && task.users[0] in users
    ensures var loaded := LoadTask(form, Some(task));
      && |SubmittedIdsAsWritten(loaded.assignedTo)| == |task.users|
      && SubmittedIdsAsWritten(loaded.assignedTo)[0] == None
      && AddTask.LookupId(users)(loaded.assignedTo[0]).Some?
  {
  }

  /** A concrete case: one user `a@x.com` with id `u1`, assigned to the task. */
  lemma AsWrittenExample()
    ensures var task := Task("t1", "T1", "", "2024-06-15T12:00:00.000Z", 1, "Work", "Pending", [User("u1", "a@x.com")]);
      var loaded := LoadTask(InitialForm(), Some(task));
      && SubmittedIdsAsWritten(loaded.assignedTo) == [None]
      && SubmitPayload(loaded, [User("u1", "a@x.com")]).assignees == ["u1"]
  {
  }

  /**
   * `handleSubmit`'s body, corrected: each assigned email is resolved to the
   * id of the first fetched user with that email, as the add modal does.
   * The list still travels under the key `assignedTo`.
   */
  function SubmitPayload(form: TaskForm<string>, users: seq<User>): (payload: TaskPayload)
    ensures CopiesForm(form, payload)
    ensures payload.assigneeField == "assignedTo"
    ensures payload.priority == Priority.Code(form.priority)
    ensures payload.assignees == AddTask.ResolveIds(form.assignedTo, users)
    ensures forall id :: id in payload.assignees ==>
      exists u :: u in users && u.id == id && u.email in form.assignedTo
  {
    AddTask.ResolvedIdsBelongToSelection(form.assignedTo, users);
    TaskPayload(form.title, form.description, form.dueDate, Priority.Code(form.priority),
                form.category, form.status, "assignedTo", AddTask.ResolveIds(form.assignedTo, users))
  }

  /**
   * With the correction, opening a task and saving it untouched sends back
   * its users' ids, in order, provided each assigned user is the first
   * fetched user with its email; the priority round-trips for 1, 2, 3.
   */
  lemma LoadSubmitRoundTrip(form: TaskForm<string>, task: Task<User>, users: seq<User>)
    requires forall u :: u in task.users ==> Seqs.Find(users, AddTask.HasEmail(u.email)) == Some(u)
    ensures var payload := SubmitPayload(LoadTask(form, Some(task)), users);
      && (Priority.InRange(task.priority) ==> payload.priority == task.priority)
      && |payload.assignees| == |task.users|
      && (forall i :: 0 <= i < |task.users| ==> payload.assignees[i] == task.users[i].id)
  {
    Priority.LoadSaveRoundTrip(task.priority);
    var emails := LoadTask(form, Some(task)).assignedTo;
    forall e | e in emails ensures AddTask.Known(users, e) {
      var i :| 0 <= i < |emails| && emails[i] == e;
      assert task.users[i] in task.users;
      AddTask.LookupIsFirstMatch(users, e);
    }
    AddTask.AllKnownKeepsEveryEmail(emails, users);
    forall i | 0 <= i < |task.users|
      ensures AddTask.ResolveIds(emails, users)[i] == task.users[i].id
    {
      assert task.users[i] in task.users;
    }
  }
}

/**
 * The "edit task" modal: a fetched task fills the form (its due date cut to
 * the `YYYY-MM-DD` input value, its priority turned into a label, its user
 * objects kept as they are), and submitting sends the form with the users'
 * ids under `users`.
 */
module EditTask {
  import opened Wrappers
  import opened Model
  import Seqs
  import Priority

  /**
   * `iso.substring(0, 10)`: the first ten characters, or the whole string
   * when it is shorter.
   */
  function DateInput(iso: string): (day: string)
    ensures |day| == if |iso| < 10 then |iso| else 10
    ensures day <= iso
  {
    if |iso| < 10 then iso else iso[..10]
  }

  /** An ISO-8601 timestamp `YYYY-MM-DDTHH:MM:SS.sssZ` becomes its date part. */
  lemma DateInputOfTimestamp(date: string, time: string)
    requires |date| == 10
    ensures DateInput(date + "T" + time) == date
  {
  }

  /**
   * The fetch effect: `if (taskData)` the form takes the task's fields;
   * otherwise it is left as it was.
   */
  function LoadTask(form: TaskForm<User>, fetched: Option<Task<User>>): (loaded: TaskForm<User>)
    ensures fetched.None? ==> loaded == form
    ensures fetched.Some? ==>
      && loaded.title == fetched.value.title
      && loaded.description == fetched.value.description
      && loaded.dueDate == DateInput(fetched.value.dueDate)
      && loaded.priority == Priority.Label(fetched.value.priority)
      && loaded.category == fetched.value.category
      && loaded.status == fetched.value.status
      && loaded.assignedTo == fetched.value.users
  {
    match fetched
    case None => form
    case Some(task) =>
      TaskForm(task.title, task.description, DateInput(task.dueDate), Priority.Label(task.priority),
               task.category, task.status, task.users)
  }

  /**
   * The effect keyed on `open` and `taskId`: the task is fetched and loaded
   * only while the modal is open and `taskId` is truthy; otherwise the form
   * keeps its state whatever the server would have returned.
   */
  function Refresh(open: bool, taskId: Option<string>, form: TaskForm<User>, fetched: Option<Task<User>>): (next: TaskForm<User>)
    ensures !open ==> next == form
    ensures taskId.None? || taskId == Some("") ==> next == form
    ensures open && taskId.Some? && taskId.value != "" ==> next == LoadTask(form, fetched)
    ensures ShouldFetch(open, taskId) && fetched.Some? ==>
      next.title == fetched.value.title && next.assignedTo == fetched.value.users
  {
    if ShouldFetch(open, taskId) then LoadTask(form, fetched) else form
  }

  /** `assignedTo.map((user) => user._id)`. */
  function AssigneeIds(assignedTo: seq<User>): (ids: seq<string>)
    ensures |ids| == |assignedTo|
    ensures forall i :: 0 <= i < |assignedTo| ==> ids[i] == assignedTo[i].id
  {
    Seqs.Map(assignedTo, Id)
  }

  /** `handleSubmit`'s body: the assignee ids go under `users`, not `user_ids`. */
  function SubmitPayload(form: TaskForm<User>): (payload: TaskPayload)
    ensures CopiesForm(form, payload)
    ensures payload.assigneeField == "users"
    ensures payload.priority == Priority.Code(form.priority)
    ensures payload.assignees == AssigneeIds(form.assignedTo)
  {
    TaskPayload(form.title, form.description, form.dueDate, Priority.Code(form.priority),
                form.category, form.status, "users", AssigneeIds(form.assignedTo))
  }

  /**
   * Opening a task and saving it untouched sends back its title,
   * description, category and status, its date cut to ten characters, its
   * users' ids in order, and its priority when that was 1, 2 or 3; any
   * other stored priority is sent as 0.
   */
  lemma LoadSubmitRoundTrip(form: TaskForm<User>, task: Task<User>)
    ensures var payload := SubmitPayload(LoadTask(form, Some(task)));
      && payload.title == task.title
      && payload.description == task.description
      && payload.dueDate == DateInput(task.dueDate)
      && payload.category == task.category
      && payload.status == task.status
      && (Priority.InRange(task.priority) ==> payload.priority == task.priority)
      && (!Priority.InRange(task.priority) ==> payload.priority == 0)
      && |payload.assignees| == |task.users|
      && (forall i :: 0 <= i < |task.users| ==> payload.assignees[i] == task.users[i].id)
  {
  }
}

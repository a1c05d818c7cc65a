/**
 * The records the task screens exchange with the task server: users,
 * tasks (whose `users` field holds user objects when fetched and email
 * strings once a grid row has been formatted), the modal form state and
 * the request body a modal submits.
 */
module Model {
  import opened Wrappers
  import Priority

  /** A user as the `/api/users` list returns it; only `_id` and `email` are read. */
  datatype User = User(id: string, email: string)

  /** The `_id` of a user object. */
  function Id(u: User): string { u.id }

  /** The `email` of a user object. */
  function Email(u: User): string { u.email }

  /**
   * A task record. `A` is what its `users` field holds: `User` objects in a
   * fetched task, strings in a formatted grid row.
   */
  datatype Task<A> = Task(
    id: string,
    title: string,
    description: string,
    dueDate: string,
    priority: int,
    category: string,
    status: string,
    users: seq<A>)

  /** The status value the board treats as finished. */
  const Completed: string := "Completed"

  /** Two tasks agree on every field except `users`. */
  predicate SameExceptUsers<A, B>(a: Task<A>, b: Task<B>)
  {
    && a.id == b.id
    && a.title == b.title
    && a.description == b.description
    && a.dueDate == b.dueDate
    && a.priority == b.priority
    && a.category == b.category
    && a.status == b.status
  }

  /**
   * The state of a task modal's form. `priority` is the selected label,
   * `None` when it was loaded as `undefined`; `assignedTo` holds emails in
   * the add and open modals and user objects in the edit modal.
   */
  datatype TaskForm<A> = TaskForm(
    title: string,
    description: string,
    dueDate: string,
    priority: Option<string>,
    category: string,
    status: string,
    assignedTo: seq<A>)

  /** The form every task modal starts from. */
  function InitialForm<A>(): (form: TaskForm<A>)
    ensures form.title == form.description == form.dueDate == form.category == ""
    ensures form.status == "Pending" && form.assignedTo == []
    ensures form.priority == Some(Priority.Priorities[|Priority.Priorities| - 1])
  {
    TaskForm("", "", "", Some("Low"), "", "Pending", [])
  }

  /**
   * The body a task modal sends. `assigneeField` is the JSON key under
   * which the assignee ids travel; the three modals use three different keys.
   */
  datatype TaskPayload = TaskPayload(
    title: string,
    description: string,
    dueDate: string,
    priority: int,
    category: string,
    status: string,
    assigneeField: string,
    assignees: seq<string>)

  /** The payload copies every form field except priority and assignees verbatim. */
  predicate CopiesForm<A>(form: TaskForm<A>, payload: TaskPayload)
  {
    && payload.title == form.title
    && payload.description == form.description
    && payload.dueDate == form.dueDate
    && payload.category == form.category
    && payload.status == form.status
  }

  /**
   * The edit and open modals load a task (and the user list) only while
   * the modal is open and its `taskId` is truthy: present and not empty.
   */
  function ShouldFetch(open: bool, taskId: Option<string>): (fetch: bool)
    ensures fetch ==> open && taskId.Some? && taskId.value != ""
    ensures open && taskId.Some? && taskId.value != "" ==> fetch
  {
    open && match taskId { case Some(id) => id != "" case None => false }
  }

}

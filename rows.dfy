/**
 * The grid-row projection used by the home board and the task overview:
 * every fetched task is spread into a new row whose `users` field is
 * replaced by the list of its users' emails.
 */
module Rows {
  import opened Model
  import Seqs

  /** `users.map((user) => user.email)`. */
  function Emails(users: seq<User>): (emails: seq<string>)
    ensures |emails| == |users|
    ensures forall i :: 0 <= i < |users| ==> emails[i] == users[i].email
  {
    Seqs.Map(users, Email)
  }

  /** `{ ...task, users: task.users.map((user) => user.email) }`. */
  function FormatTask(task: Task<User>): (row: Task<string>)
    ensures SameExceptUsers(task, row)
    ensures |row.users| == |task.users|
    ensures forall i :: 0 <= i < |task.users| ==> row.users[i] == task.users[i].email
  {
    Task(task.id, task.title, task.description, task.dueDate, task.priority,
         task.category, task.status, Emails(task.users))
  }

  /** `tasks.map(FormatTask)`: one row per fetched task. */
  function FormatTasks(tasks: seq<Task<User>>): (rows: seq<Task<string>>)
    ensures |rows| == |tasks|
    ensures forall i :: 0 <= i < |tasks| ==> SameExceptUsers(tasks[i], rows[i]) && |rows[i].users| == |tasks[i].users|
  {
    Seqs.Map(tasks, FormatTask)
  }

  /**
   * Formatting keeps the number and order of tasks; row i carries every
   * field of task i except `users`, which becomes the same-length list of
   * task i's users' emails.
   */
  lemma FormatTasksShape(tasks: seq<Task<User>>)
    ensures |FormatTasks(tasks)| == |tasks|
    ensures forall i :: 0 <= i < |tasks| ==>
      && SameExceptUsers(tasks[i], FormatTasks(tasks)[i])
      && |FormatTasks(tasks)[i].users| == |tasks[i].users|
      && (forall j :: 0 <= j < |tasks[i].users| ==> FormatTasks(tasks)[i].users[j] == tasks[i].users[j].email)
  {
  }
}

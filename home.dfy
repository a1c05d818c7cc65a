/**
 * The home board: the fetched tasks are formatted into grid rows and split
 * into three tabs, and two row buttons edit a row in place before sending
 * it back to the server ("UnAssign" and "Assign to me").
 *
 * The signed-in user's email comes from browser storage, where it may be
 * missing (`null`); it is the parameter `me`, `None` when missing.
 */
module Home {
  import opened Wrappers
  import opened Model
  import Seqs
  import Rows

  datatype Tab = AssignedToMe | Unassigned | CompletedTab

  /** The filter predicate of each tab. */
  predicate InTab(tab: Tab, me: Option<string>, row: Task<string>)
    ensures InTab(tab, me, row) && tab == AssignedToMe ==> |row.users| != 0 && row.status != Completed
    ensures InTab(tab, me, row) && tab == Unassigned ==> me.None? || me.value !in row.users
  {
    match tab
    case AssignedToMe => me.Some? && me.value in row.users && row.status != Completed
    case Unassigned => |row.users| == 0
    case CompletedTab => row.status == Completed
  }

  /** The tab predicate as the function value handed to `filter`. */
  function Selector(tab: Tab, me: Option<string>): Task<string> -> bool
  {
    (row: Task<string>) => InTab(tab, me, row)
  }

  /** `rows.filter(...)` for one tab. */
  function TabRows(rows: seq<Task<string>>, tab: Tab, me: Option<string>): (shown: seq<Task<string>>)
    ensures forall row :: row in shown ==> row in rows && InTab(tab, me, row)
  {
    var shown := Seqs.Filter(rows, Selector(tab, me));
    assert forall row :: row in shown ==> row in rows && InTab(tab, me, row) by {
      forall row | row in shown ensures row in rows && InTab(tab, me, row) {
        Seqs.FilterMembership(rows, Selector(tab, me), row);
      }
    }
    shown
  }

  /** The three grids the board shows. */
  datatype Board = Board(
    assignedToMe: seq<Task<string>>,
    unassigned: seq<Task<string>>,
    completed: seq<Task<string>>)

  /** The load effect: format every fetched task, then filter per tab. */
  function LoadBoard(tasks: seq<Task<User>>, me: Option<string>): (board: Board)
    ensures forall row :: row in board.assignedToMe ==> row in Rows.FormatTasks(tasks) && InTab(AssignedToMe, me, row)
    ensures forall row :: row in board.unassigned ==> row in Rows.FormatTasks(tasks) && InTab(Unassigned, me, row)
    ensures forall row :: row in board.completed ==> row in Rows.FormatTasks(tasks) && InTab(CompletedTab, me, row)
  {
    var rows := Rows.FormatTasks(tasks);
    Board(TabRows(rows, AssignedToMe, me), TabRows(rows, Unassigned, me), TabRows(rows, CompletedTab, me))
  }

  /** Which grid of the board a tab is. */
  function Grid(board: Board, tab: Tab): seq<Task<string>>
  {
    match tab
    case AssignedToMe => board.assignedToMe
    case Unassigned => board.unassigned
    case CompletedTab => board.completed
  }

  /** A row is in a tab's grid exactly when it is a formatted task that satisfies the tab's predicate. */
  lemma {:induction false} TabMembership(tasks: seq<Task<User>>, me: Option<string>, tab: Tab, row: Task<string>)
    ensures row in Grid(LoadBoard(tasks, me), tab) <==> row in Rows.FormatTasks(tasks) && InTab(tab, me, row)
  {
    Seqs.FilterMembership(Rows.FormatTasks(tasks), Selector(tab, me), row);
  }

  /**
   * Every grid is an ordered selection of the formatted rows: the rows at
   * strictly increasing positions, exactly the positions whose row
   * satisfies the tab's predicate.
   */
  lemma TabIsSelection(tasks: seq<Task<User>>, me: Option<string>, tab: Tab)
    ensures var rows, pos := Rows.FormatTasks(tasks), Seqs.Positions(Rows.FormatTasks(tasks), Selector(tab, me));
      && |Grid(LoadBoard(tasks, me), tab)| == |pos|
      && (forall k :: 0 <= k < |pos| ==> pos[k] < |rows| && Grid(LoadBoard(tasks, me), tab)[k] == rows[pos[k]])
      && (forall k, l :: 0 <= k < l < |pos| ==> pos[k] < pos[l])
      && (forall i :: 0 <= i < |rows| ==> (InTab(tab, me, rows[i]) <==> i in pos))
  {
    var rows := Rows.FormatTasks(tasks);
    Seqs.FilterIsSelection(rows, Selector(tab, me));
  }

  /** "Assigned to me" shares no row with "Unassigned" nor with "Completed". */
  lemma AssignedToMeIsDisjoint(tasks: seq<Task<User>>, me: Option<string>)
    ensures forall row :: row in LoadBoard(tasks, me).assignedToMe ==> row !in LoadBoard(tasks, me).unassigned
    ensures forall row :: row in LoadBoard(tasks, me).assignedToMe ==> row !in LoadBoard(tasks, me).completed
  {
  }

  /** "Unassigned" and "Completed" overlap: a completed task with no users is in both. */
  lemma UnassignedAndCompletedOverlap(tasks: seq<Task<User>>, me: Option<string>, i: nat)
    requires i < |tasks| && tasks[i].users == [] && tasks[i].status == Completed
    ensures Rows.FormatTask(tasks[i]) in LoadBoard(tasks, me).unassigned
    ensures Rows.FormatTask(tasks[i]) in LoadBoard(tasks, me).completed
  {
    var row := Rows.FormatTask(tasks[i]);
    Rows.FormatTasksShape(tasks);
    assert Rows.FormatTasks(tasks)[i] == row;
    TabMembership(tasks, me, Unassigned, row);
    TabMembership(tasks, me, CompletedTab, row);
  }

  /**
   * The tabs do not cover every task: a task that is not completed and is
   * assigned only to other users appears in no grid.
   */
  lemma SomeTasksAreInNoTab(tasks: seq<Task<User>>, me: Option<string>, i: nat)
    requires i < |tasks| && tasks[i].users != [] && tasks[i].status != Completed
    requires forall u :: u in tasks[i].users ==> me != Some(u.email)
    ensures forall tab :: Rows.FormatTask(tasks[i]) !in Grid(LoadBoard(tasks, me), tab)
  {
  }

  /** A user matching the stored email: `value.email === storedEmail`. */
  function HasStoredEmail(me: Option<string>): User -> bool
  {
    (u: User) => me == Some(u.email)
  }

  /** A grid row the buttons edit in place before patching it to the server. */
  class TaskRow {
    var id: string
    var title: string
    var description: string
    var dueDate: string
    var priority: int
    var category: string
    var status: string
    var users: seq<string>

    /** The row as the record it is sent as. */
    function Value(): Task<string>
      reads this
    {
      Task(id, title, description, dueDate, priority, category, status, users)
    }

    constructor (row: Task<string>)
      ensures Value() == row
    {
      id, title, description, dueDate := row.id, row.title, row.description, row.dueDate;
      priority, category, status, users := row.priority, row.category, row.status, row.users;
    }

    /**
     * "UnAssign": `data.users = []`, then the row is patched. The payload is
     * the row with no users and every other field unchanged, so it belongs
     * to the "Unassigned" tab.
     */
    method Unassign() returns (payload: Task<string>)
      modifies this`users
      ensures Value() == old(Value()).(users := [])
      ensures payload == Value()
      ensures forall me :: InTab(Unassigned, me, payload)
    {
      users := [];
      payload := Value();
    }

    /**
     * "Assign to me": the users list is fetched and filtered by the stored
     * email, and `data.users = [user[0]._id]` replaces the row's users by
     * the id of the first matching user alone. When no user matches,
     * `user[0]._id` throws, the handler's outer `catch` swallows it, the row
     * is left as it was and no patch is sent (`None`).
     */
    method AssignToMe(fetched: seq<User>, me: Option<string>) returns (payload: Option<Task<string>>)
      modifies this`users
      ensures Seqs.Find(fetched, HasStoredEmail(me)).None? ==> payload.None? && Value() == old(Value())
      ensures Seqs.Find(fetched, HasStoredEmail(me)).Some? ==>
        && Value() == old(Value()).(users := [Seqs.Find(fetched, HasStoredEmail(me)).value.id])
        && payload == Some(Value())
    {
      var user := Seqs.Filter(fetched, HasStoredEmail(me));
      Seqs.FilterHeadIsFind(fetched, HasStoredEmail(me));
      if |user| == 0 {
        payload := None;
      } else {
        users := [user[0].id];
        payload := Some(Value());
      }
    }
  }

  /**
   * The id "Assign to me" writes belongs to the first user, in list order,
   * whose email is the stored one: no earlier user has that email.
   */
  lemma AssignedIdIsFirstMatch(fetched: seq<User>, me: Option<string>)
    requires Seqs.Find(fetched, HasStoredEmail(me)).Some?
    ensures exists i :: (
      && 0 <= i < |fetched|
      && fetched[i] == Seqs.Find(fetched, HasStoredEmail(me)).value
      && me == Some(fetched[i].email)
      && forall j :: 0 <= j < i ==> me != Some(fetched[j].email))
  {
  }
}

/**
 * The "add task" modal: the selected assignee emails are resolved to user
 * ids (`map` + `find`, then `filter` out the nulls) and the form is sent
 * with the ids under `user_ids`.
 */
module AddTask {
  import opened Wrappers
  import opened Model
  import Seqs
  import Priority

  /** `(user) => user.email === email`. */
  function HasEmail(email: string): User -> bool
  {
    (u: User) => u.email == email
  }

  /** Some fetched user has this email. */
  predicate Known(users: seq<User>, email: string)
  {
    exists u :: u in users && u.email == email
  }

  /**
   * `users.find(...)` and then `user ? user._id : null`: the id of the first
   * user with the email, or null (`None`).
   */
  function LookupId(users: seq<User>): (lookup: string -> Option<string>)
    ensures forall email :: lookup(email).Some? ==>
      exists u :: u in users && u.email == email && u.id == lookup(email).value
    ensures forall email :: lookup(email).None? ==> !Known(users, email)
  {
    (email: string) =>
      match Seqs.Find(users, HasEmail(email))
      case Some(u) => Some(u.id)
      case None => None
  }

  /** `(id) => id !== null`. */
  function IsFound(id: Option<string>): bool { id.Some? }

  /** The id an element that survived the null filter carries. */
  function Unwrap(id: Option<string>): string
  {
    match id
    case Some(v) => v
    case None => ""
  }

  /** `assignedTo.map(...).filter((id) => id !== null)`. */
  function ResolveIds(selected: seq<string>, users: seq<User>): (ids: seq<string>)
    ensures |ids| <= |selected|
  {
    Seqs.Map(Seqs.Filter(Seqs.Map(selected, LookupId(users)), IsFound), Unwrap)
  }

  /**
   * The lookup picks the first user in list order with the email, and
   * finds one exactly when the email is known.
   */
  lemma LookupIsFirstMatch(users: seq<User>, email: string)
    ensures LookupId(users)(email).Some? <==> Known(users, email)
    ensures LookupId(users)(email).Some? ==> exists i :: (
      && 0 <= i < |users|
      && users[i].id == LookupId(users)(email).value
      && users[i].email == email
      && forall j :: 0 <= j < i ==> users[j].email != email)
  {
  }

  /**
   * The resolved ids are the lookups of the known selected emails, in the
   * order of the selection: ids[k] is the lookup of the email at position
   * pos[k], the positions strictly increase, and a position is used exactly
   * when its email is known; unknown emails are dropped.
   */
  lemma ResolveIdsSelection(selected: seq<string>, users: seq<User>)
    ensures var looked := Seqs.Map(selected, LookupId(users));
      var pos := Seqs.Positions(looked, IsFound);
      && |ResolveIds(selected, users)| == |pos|
      && (forall k :: 0 <= k < |pos| ==>
            pos[k] < |selected| && LookupId(users)(selected[pos[k]]) == Some(ResolveIds(selected, users)[k]))
      && (forall k, l :: 0 <= k < l < |pos| ==> pos[k] < pos[l])
      && (forall i :: 0 <= i < |selected| ==> (Known(users, selected[i]) <==> i in pos))
  {
    var looked := Seqs.Map(selected, LookupId(users));
    var kept := Seqs.Filter(looked, IsFound);
    var pos := Seqs.Positions(looked, IsFound);
    Seqs.FilterIsSelection(looked, IsFound);
    var ids := ResolveIds(selected, users);
    forall k | 0 <= k < |pos|
      ensures pos[k] < |selected| && LookupId(users)(selected[pos[k]]) == Some(ids[k])
    {
      assert kept[k] == looked[pos[k]];
      assert IsFound(kept[k]);
    }
    forall i | 0 <= i < |selected|
      ensures Known(users, selected[i]) <==> i in pos
    {
      LookupIsFirstMatch(users, selected[i]);
    }
  }

  /** Every resolved id is the id of a fetched user whose email was selected. */
  lemma ResolvedIdsBelongToSelection(selected: seq<string>, users: seq<User>)
    ensures forall id :: id in ResolveIds(selected, users) ==>
      exists u :: u in users && u.id == id && u.email in selected
  {
    ResolveIdsSelection(selected, users);
    var ids := ResolveIds(selected, users);
    var pos := Seqs.Positions(Seqs.Map(selected, LookupId(users)), IsFound);
    forall id | id in ids
      ensures exists u :: u in users && u.id == id && u.email in selected
    {
      var k :| 0 <= k < |ids| && ids[k] == id;
      var email := selected[pos[k]];
      LookupIsFirstMatch(users, email);
      var i :| 0 <= i < |users| && users[i].id == id && users[i].email == email
        && forall j :: 0 <= j < i ==> users[j].email != email;
      assert users[i] in users;
    }
  }

  /**
   * When every selected email is known, nothing is dropped: the ids are as
   * many as the emails and the i-th id is the lookup of the i-th email.
   */
  lemma AllKnownKeepsEveryEmail(selected: seq<string>, users: seq<User>)
    requires forall e :: e in selected ==> Known(users, e)
    ensures |ResolveIds(selected, users)| == |selected|
    ensures forall i :: 0 <= i < |selected| ==> LookupId(users)(selected[i]) == Some(ResolveIds(selected, users)[i])
  {
    var looked := Seqs.Map(selected, LookupId(users));
    forall i | 0 <= i < |looked| ensures IsFound(looked[i]) {
      LookupIsFirstMatch(users, selected[i]);
    }
    Seqs.FilterKeepsAll(looked, IsFound);
    forall i | 0 <= i < |selected|
      ensures LookupId(users)(selected[i]) == Some(ResolveIds(selected, users)[i])
    {
      assert IsFound(looked[i]);
    }
  }

  /** `handleSubmit`'s task body: assignees under `user_ids`, other fields copied. */
  function SubmitPayload(form: TaskForm<string>, users: seq<User>): (payload: TaskPayload)
    ensures CopiesForm(form, payload)
    ensures payload.assigneeField == "user_ids"
    ensures payload.priority == Priority.Code(form.priority)
    ensures payload.assignees == ResolveIds(form.assignedTo, users)
    ensures forall id :: id in payload.assignees ==>
      exists u :: u in users && u.id == id && u.email in form.assignedTo
    ensures form.priority.Some? && form.priority.value in Priority.Priorities ==>
      Priority.Format(payload.priority) == form.priority.value
  {
    ResolvedIdsBelongToSelection(form.assignedTo, users);
    TaskPayload(form.title, form.description, form.dueDate, Priority.Code(form.priority),
                form.category, form.status, "user_ids", ResolveIds(form.assignedTo, users))
  }

  /** Submitting the untouched form sends priority 3 (Low), status "Pending" and no assignees. */
  lemma UntouchedFormPayload(users: seq<User>)
    ensures SubmitPayload(InitialForm(), users).priority == 3
    ensures SubmitPayload(InitialForm(), users).status == "Pending"
    ensures SubmitPayload(InitialForm(), users).assignees == []
  {
  }
}

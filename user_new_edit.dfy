/**
 * The new-user form: a record of field values keyed by the input's `name`,
 * starting with empty `email` and `password`, updated one key at a time.
 */
module UserNewEdit {

  type Form = map<string, string>

  /** The record the form starts from. */
  function InitialForm(): (form: Form)
    ensures form.Keys == {"email", "password"}
    ensures forall k :: k in form ==> form[k] == ""
  {
    map["email" := "", "password" := ""]
  }

  /** `{ ...formData, [name]: value }`. */
  function HandleChange(form: Form, name: string, value: string): (next: Form)
    ensures name in next && next[name] == value
    ensures forall k :: k != name ==> (k in next <==> k in form)
    ensures forall k :: k != name && k in form ==> next[k] == form[k]
  {
    form[name := value]
  }

  /** The same change applied twice gives the record it gives once. */
  lemma HandleChangeIdempotent(form: Form, name: string, value: string)
    ensures HandleChange(HandleChange(form, name, value), name, value) == HandleChange(form, name, value)
  {
  }

  /** The key set grows by one exactly when `name` was not yet a key. */
  lemma HandleChangeKeys(form: Form, name: string, value: string)
    ensures HandleChange(form, name, value).Keys == form.Keys + {name}
    ensures |HandleChange(form, name, value).Keys| == |form.Keys| + (if name in form then 0 else 1)
  {
  }

  /**
   * The form's own inputs are named `email` and `password`: any sequence of
   * their changes keeps the record at exactly those two keys.
   */
  lemma {:induction false} OwnFieldsKeepKeys(changes: seq<(string, string)>)
    requires forall k :: 0 <= k < |changes| ==> changes[k].0 in {"email", "password"}
    ensures Apply(InitialForm(), changes).Keys == {"email", "password"}
  {
    if changes != [] {
      OwnFieldsKeepKeys(changes[..|changes| - 1]);
    }
  }

  /** The record after a series of changes, applied in order. */
  function Apply(form: Form, changes: seq<(string, string)>): (next: Form)
    ensures next.Keys == form.Keys + set i | 0 <= i < |changes| :: changes[i].0
    ensures forall k :: k in form && (forall i :: 0 <= i < |changes| ==> changes[i].0 != k) ==> next[k] == form[k]
  {
    if changes == [] then form
    else
      var last := changes[|changes| - 1];
      HandleChange(Apply(form, changes[..|changes| - 1]), last.0, last.1)
  }

  /**
   * Last write wins: a change that no later change overwrites decides its
   * field's final value.
   */
  lemma {:induction false} ApplyLastChangeWins(form: Form, changes: seq<(string, string)>, i: nat)
    requires i < |changes|
    requires forall j :: i < j < |changes| ==> changes[j].0 != changes[i].0
    ensures changes[i].0 in Apply(form, changes)
    ensures Apply(form, changes)[changes[i].0] == changes[i].1
  {
    var init := changes[..|changes| - 1];
    if i < |changes| - 1 {
      assert forall j :: i < j < |init| ==> init[j] == changes[j];
      assert init[i] == changes[i];
      ApplyLastChangeWins(form, init, i);
    }
  }
}

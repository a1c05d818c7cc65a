/**
 * The priority codec shared by the task screens. A task stores its
 * priority as 1, 2 or 3; the grids show it through a `switch`, and the
 * modals convert between number and label through the `priorities`
 * table: `priorities[p - 1]` on load, `priorities.indexOf(label) + 1` on save.
 */
module Priority {
  import opened Wrappers
  import Seqs

  /** The modals' `priorities` table: index 0 is the highest priority. */
  const Priorities: seq<string> := ["High", "Medium", "Low"]

  /** A stored priority the table can label. */
  predicate InRange(p: int) { 1 <= p <= 3 }

  /**
   * The grids' `priorityFormatter`: 1, 2, 3 become High, Medium, Low and
   * everything else the empty string. The `switch` agrees with the table.
   */
  function Format(p: int): (shown: string)
    ensures InRange(p) ==> shown == Priorities[p - 1]
    ensures !InRange(p) ==> shown == ""
  {
    match p
    case 1 => "High"
    case 2 => "Medium"
    case 3 => "Low"
    case _ => ""
  }

  /**
   * `priorities[p - 1]` when a modal loads a task: the label for 1, 2, 3,
   * and `undefined` (None) for any other stored value.
   */
  function Label(p: int): (name: Option<string>)
    ensures InRange(p) <==> name.Some?
    ensures InRange(p) ==> name.value == Format(p)
  {
    if 0 <= p - 1 < |Priorities| then Some(Priorities[p - 1]) else None
  }

  /**
   * `priorities.indexOf(label) + 1` when a modal saves: the table position
   * plus one, and 0 when the label is not in the table (`undefined`
   * included, since `indexOf` then gives -1).
   */
  function Code(name: Option<string>): (p: int)
    ensures 0 <= p <= 3
    ensures p == 0 <==> name.None? || name.value !in Priorities
    ensures p != 0 ==> name == Some(Priorities[p - 1])
  {
    match name
    case None => 0
    case Some(l) => Seqs.IndexOf(Priorities, l) + 1
  }

  /**
   * Loading then saving with the priority left alone gives the stored
   * value back for 1, 2, 3, and writes 0 for any other stored value.
   */
  lemma LoadSaveRoundTrip(p: int)
    ensures InRange(p) ==> Code(Label(p)) == p
    ensures !InRange(p) ==> Code(Label(p)) == 0
  {
  }

  /** Saving a label from the table then loading it gives the label back. */
  lemma SaveLoadRoundTrip(name: string)
    requires name in Priorities
    ensures InRange(Code(Some(name)))
    ensures Label(Code(Some(name))) == Some(name)
    ensures Format(Code(Some(name))) == name
  {
  }

  /** High, Medium and Low save as 1, 2 and 3: 1 is the highest priority. */
  lemma CodesOfLabels()
    ensures Code(Some("High")) == 1
    ensures Code(Some("Medium")) == 2
    ensures Code(Some("Low")) == 3
  {
  }
}

/**
 * The task overview grid. Its rows are formatted as on the home board
 * (module Rows) and its priority column uses Priority.Format; what is its
 * own are the notifications of the row "Delete" button.
 */
module TaskOverview {

  const SuccessPrefix: string := "Delete successful for task row with ID: "
  const FailurePrefix: string := "Delete failed for task row with ID: "

  /** The notification after the server accepted the delete. */
  function DeleteSucceeded(id: string): (message: string)
    ensures |message| == |SuccessPrefix| + |id|
    ensures message[..|SuccessPrefix|] == SuccessPrefix && message[|SuccessPrefix|..] == id
  {
    SuccessPrefix + id
  }

  /** The notification after the delete request failed. */
  function DeleteFailed(id: string): (message: string)
    ensures |message| == |FailurePrefix| + |id|
    ensures message[..|FailurePrefix|] == FailurePrefix && message[|FailurePrefix|..] == id
  {
    FailurePrefix + id
  }

  /**
   * The two notifications can never be confused, and each names its row:
   * different ids give different messages.
   */
  lemma DeleteMessagesIdentifyOutcomeAndRow(a: string, b: string)
    ensures DeleteSucceeded(a) != DeleteFailed(b)
    ensures DeleteSucceeded(a) == DeleteSucceeded(b) ==> a == b
    ensures DeleteFailed(a) == DeleteFailed(b) ==> a == b
  {
    assert DeleteSucceeded(a)[7] == 's';
    assert DeleteFailed(b)[7] == 'f';
    if DeleteSucceeded(a) == DeleteSucceeded(b) {
      assert a == DeleteSucceeded(a)[|SuccessPrefix|..];
    }
    if DeleteFailed(a) == DeleteFailed(b) {
      assert a == DeleteFailed(a)[|FailurePrefix|..];
    }
  }
}

/**
 * Constants for tasks: the two status values with their wire labels and the
 * bounds on the length of a description.
 */
module TaskDefaults {
  import opened Wrappers

  /** TASK_STATUS: a task is either pending or completed. */
  datatype Status = Pending | Completed {
    /** The string the status is stored and transmitted as. */
    function Label(): string {
      match this
      case Pending => "pendente"
      case Completed => "concluída"
    }
  }

  /** TASK_LIMITS: inclusive bounds on a description's length. */
  const DescriptionMinLength: nat := 1
  const DescriptionMaxLength: nat := 500

  /** Reads a label back into a status; every other string is not a status. */
  function ParseStatus(s: string): (r: Option<Status>)
    ensures r.Some? ==> r.value.Label() == s
  {
    if s == Pending.Label() then Some(Pending)
    else if s == Completed.Label() then Some(Completed)
    else None
  }

  /** Each status reads back as itself from its label, so the labels are distinct. */
  lemma {:induction false} LabelRoundTrip(st: Status)
    ensures ParseStatus(st.Label()) == Some(st)
  {
    match st
    case Pending =>
    case Completed =>
      assert Completed.Label() != Pending.Label() by {
        assert Completed.Label()[1] != Pending.Label()[1];
      }
  }

  /** The two labels differ, and no string other than them names a status. */
  lemma {:induction false} LabelsDistinct()
    ensures Pending.Label() != Completed.Label()
    ensures forall s :: ParseStatus(s).Some? <==> s == Pending.Label() || s == Completed.Label()
  {
    LabelRoundTrip(Completed);
  }

  /** The description bounds leave room for at least one length. */
  lemma LimitsNonEmpty()
    ensures 0 < DescriptionMinLength <= DescriptionMaxLength
  {
  }
}

/**
 * `NameEntry`: the name field, capped at 50 characters, and the submit
 * handler that passes on the trimmed name only when it is not blank.
 */
module NameEntry {
  import opened Common
  import opened Text

  /** The input's `maxLength`. */
  const MaxLength := 50

  /** What `handleSubmit` passes to `onSubmit`, if anything. */
  function Submission(name: string): Option<string> {
    var trimmed := Trim(name);
    if trimmed != [] then Some(trimmed) else None
  }

  /** The button's `disabled` attribute. */
  predicate SubmitDisabled(name: string) {
    Trim(name) == []
  }

  /**
   * A name is submitted exactly when it holds a non-space character; what is
   * submitted is the name without its surrounding spaces, no longer than the
   * name, and trimming it again changes nothing.
   */
  lemma SubmissionRules(name: string)
    ensures Submission(name).Some? <==> !AllSpace(name)
    ensures Submission(name).Some? ==>
      var v := Submission(name).value;
      && v == Trim(name) && v != []
      && !IsSpace(v[0]) && !IsSpace(v[|v| - 1])
      && |v| <= |name|
      && Trim(v) == v
  {
    TrimEmptyIffAllSpace(name);
    TrimIdempotent(name);
  }

  /** The button is disabled exactly when pressing it would submit nothing. */
  lemma DisabledIffNoSubmission(name: string)
    ensures SubmitDisabled(name) <==> Submission(name).None?
    ensures SubmitDisabled(name) <==> AllSpace(name)
  {
    TrimEmptyIffAllSpace(name);
  }

  /** The form and its `name` state. */
  class NameForm {
    var name: string

    ghost predicate Valid()
      reads this
    {
      |name| <= MaxLength
    }

    constructor ()
      ensures name == [] && Valid()
    {
      name := [];
    }

    /** `onChange`: the field keeps at most the first 50 characters typed. */
    method OnChange(value: string)
      modifies this
      ensures Valid()
      ensures name <= value
      ensures |value| <= MaxLength ==> name == value
      ensures |value| > MaxLength ==> |name| == MaxLength
    {
      if |value| <= MaxLength {
        name := value;
      } else {
        name := value[..MaxLength];
      }
    }

    /** `handleSubmit`. */
    method HandleSubmit() returns (submitted: Option<string>)
      ensures submitted.Some? <==> !AllSpace(name)
      ensures submitted.Some? ==> submitted.value == Trim(name) && submitted.value != []
      ensures Valid() && submitted.Some? ==> |submitted.value| <= MaxLength
    {
      var trimmed := Trim(name);
      TrimEmptyIffAllSpace(name);
      if trimmed != [] {
        submitted := Some(trimmed);
      } else {
        submitted := None;
      }
    }
  }
}

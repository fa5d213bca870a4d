// The weight-loss reason field of the input page: the 50-character cap, the
// live submit of every accepted change whose trimmed text has two characters
// or more, and the silent submit rule of the button and the Enter key.

module FoodInput {
  import opened Types
  import opened Strings

  /** The longest value the field accepts. */
  const MaxLength: nat := 50

  /** The text handed to onSubmit for a value, if any: its trimmed form when that has two characters or more. */
  function Submission(value: string): (r: Option<string>)
    ensures r.Some? <==> |Trim(value)| >= 2
    ensures r.Some? ==> r.value == Trim(value) && NoOuterSpace(r.value)
  {
    if |Trim(value)| >= 2 then Some(Trim(value)) else None
  }

  /** Surrounding whitespace never changes what is submitted. */
  lemma SubmissionIgnoresPadding(value: string)
    ensures Submission(value) == Submission(Trim(value))
  {
    TrimOfTrimmed(Trim(value));
  }

  /** A blank value is never submitted. */
  lemma BlankIsNeverSubmitted(value: string)
    requires AllSpace(value)
    ensures Submission(value).None?
  {
    TrimEmptyIffAllSpace(value);
  }

  /** The field's state: the reason typed and every text handed to onSubmit. */
  class ReasonField {
    var reason: string
    var submitted: seq<string>

    /** The reason never exceeds the cap; onSubmit only ever got trimmed text of two characters or more. */
    predicate Valid()
      reads this
    {
      |reason| <= MaxLength
      && forall k :: 0 <= k < |submitted| ==> |submitted[k]| >= 2 && NoOuterSpace(submitted[k])
    }

    constructor()
      ensures reason == [] && submitted == []
      ensures Valid()
    {
      reason := [];
      submitted := [];
    }

    /**
     * handleInputChange: a value over 50 characters is ignored; an accepted
     * value is stored and, when its trimmed form has two characters or more,
     * submitted at once.
     */
    method HandleInputChange(value: string)
      requires Valid()
      modifies this
      ensures Valid()
      ensures |value| > MaxLength ==> reason == old(reason) && submitted == old(submitted)
      ensures |value| <= MaxLength ==> reason == value
      ensures |value| <= MaxLength && Submission(value).Some? ==> submitted == old(submitted) + [Submission(value).value]
      ensures |value| <= MaxLength && Submission(value).None? ==> submitted == old(submitted)
    {
      if |value| <= MaxLength {
        reason := value;
        var trimmed := Trim(value);
        if |trimmed| >= 2 {
          submitted := submitted + [trimmed];
        }
      }
    }

    /** handleSubmit: silently ignores a trimmed reason under two characters; never clears the field. */
    method HandleSubmit()
      requires Valid()
      modifies this
      ensures Valid()
      ensures reason == old(reason)
      ensures Submission(old(reason)).Some? ==> submitted == old(submitted) + [Submission(old(reason)).value]
      ensures Submission(old(reason)).None? ==> submitted == old(submitted)
    {
      var trimmedReason := Trim(reason);
      if trimmedReason == [] {
        return;
      }
      if |trimmedReason| < 2 {
        return;
      }
      submitted := submitted + [trimmedReason];
    }

    /** handleKeyPress: any Enter submits, with or without Shift. */
    method HandleKeyPress(key: string)
      requires Valid()
      modifies this
      ensures Valid()
      ensures reason == old(reason)
      ensures key != "Enter" ==> submitted == old(submitted)
      ensures key == "Enter" && Submission(old(reason)).Some? ==> submitted == old(submitted) + [Submission(old(reason)).value]
      ensures key == "Enter" && Submission(old(reason)).None? ==> submitted == old(submitted)
    {
      if key == "Enter" {
        HandleSubmit();
      }
    }
  }
}
